/** The running accumulators of the benchmark backend and the report made from them. */
module Cgroups {
  import opened Options
  import opened Sequences

  /** One successful poll of a program; the peak is missing when only its read failed. */
  datatype Sample = Sample(cpu: nat, mem: nat, peak: Option<nat>)

  /** What polling a program gives: a sample, or a `RuntimeError` that is ignored with a warning. */
  datatype Reading = Good(sample: Sample) | Unreadable

  datatype Record = Record(cpu: nat, memSum: nat, memMax: nat, points: nat)

  datatype Report = Ready(values: map<Key, nat>) | Incomplete(name: string)

  const EMPTY_RECORD := Record(0, 0, 0, 0)

  // ---- what a record stands for, in terms of the samples it was made from ----

  function LatestCpu(h: seq<Sample>): nat {
    if h == [] then 0 else h[|h| - 1].cpu
  }

  function TotalMem(h: seq<Sample>): nat {
    if h == [] then 0 else TotalMem(h[..|h| - 1]) + h[|h| - 1].mem
  }

  function Max(a: nat, b: nat): nat {
    if a < b then b else a
  }

  /** A peak that was read replaces the stored maximum; a missing one is made up from it. */
  function StoredMax(h: seq<Sample>): nat {
    if h == [] then 0 else
    var last := h[|h| - 1];
    match last.peak
    case Some(peak) => peak
    case None => Max(StoredMax(h[..|h| - 1]), last.mem)
  }

  function Replay(h: seq<Sample>): Record {
    Record(LatestCpu(h), TotalMem(h), StoredMax(h), |h|)
  }

  lemma ReplayNext(h: seq<Sample>, s: Sample)
    ensures Replay(h + [s]).cpu == s.cpu
    ensures Replay(h + [s]).memSum == Replay(h).memSum + s.mem
    ensures Replay(h + [s]).memMax == if s.peak.Some? then s.peak.value else Max(Replay(h).memMax, s.mem)
    ensures Replay(h + [s]).points == Replay(h).points + 1
  {
    assert (h + [s])[..|h|] == h;
  }

  /** Each peak read is at least every memory sample and every peak read so far. */
  ghost predicate RealisticPeaks(h: seq<Sample>) {
    forall k | 0 <= k < |h| && h[k].peak.Some? ::
      && (forall j | 0 <= j <= k :: h[j].mem <= h[k].peak.value)
      && (forall j | 0 <= j < k && h[j].peak.Some? :: h[j].peak.value <= h[k].peak.value)
  }

  /** The stored maximum after the first `k` polls. */
  function MaxAfter(h: seq<Sample>, k: nat): nat
    requires k <= |h|
  {
    StoredMax(h[..k])
  }

  /** After each poll the stored maximum has not dropped and bounds every sample so far. */
  ghost predicate MaximumHolds(h: seq<Sample>) {
    forall k | 0 < k <= |h| ::
      && MaxAfter(h, k - 1) <= MaxAfter(h, k)
      && forall j | 0 <= j < k :: h[j].mem <= MaxAfter(h, k)
  }

  /** The stored maximum bounds every sample and every peak. */
  ghost predicate Bounds(m: nat, h: seq<Sample>) {
    forall j | 0 <= j < |h| :: h[j].mem <= m && (h[j].peak.Some? ==> h[j].peak.value <= m)
  }

  lemma FrontIsRealistic(h: seq<Sample>)
    requires RealisticPeaks(h) && h != []
    ensures RealisticPeaks(h[..|h| - 1])
  {
    var front := h[..|h| - 1];
    assert forall k | 0 <= k < |front| :: front[k] == h[k];
  }

  /** A peak that was read last bounds everything, the maximum stored before included. */
  lemma LastPeakBounds(h: seq<Sample>, peak: nat)
    requires RealisticPeaks(h) && h != [] && h[|h| - 1].peak == Some(peak)
    ensures Bounds(peak, h) && StoredMax(h[..|h| - 1]) <= peak
  {
    var front := h[..|h| - 1];
    StoredMaxIsSeen(front);
    assert forall k | 0 <= k < |front| :: front[k] == h[k];
  }

  /** A last sample without a peak is bounded along with the others. */
  lemma LastSampleBounds(h: seq<Sample>, m: nat)
    requires h != [] && h[|h| - 1].peak == None && Bounds(m, h[..|h| - 1])
    ensures Bounds(Max(m, h[|h| - 1].mem), h)
  {
    var front := h[..|h| - 1];
    assert forall k | 0 <= k < |front| :: front[k] == h[k];
  }

  lemma {:induction false} RealisticPeaksBound(h: seq<Sample>)
    requires RealisticPeaks(h)
    ensures Bounds(StoredMax(h), h)
    ensures h != [] ==> StoredMax(h[..|h| - 1]) <= StoredMax(h)
  {
    if h == [] {
    } else {
      FrontIsRealistic(h);
      match h[|h| - 1].peak {
        case Some(peak) => LastPeakBounds(h, peak);
        case None =>
          RealisticPeaksBound(h[..|h| - 1]);
          LastSampleBounds(h, StoredMax(h[..|h| - 1]));
      }
    }
  }

  /** The stored maximum is one of the values read, or zero. */
  lemma {:induction false} StoredMaxIsSeen(h: seq<Sample>)
    ensures StoredMax(h) == 0
         || exists j | 0 <= j < |h| :: h[j].mem == StoredMax(h) || h[j].peak == Some(StoredMax(h))
  {
    if h == [] {
    } else {
      var front := h[..|h| - 1];
      StoredMaxIsSeen(front);
      var last := |h| - 1;
      assert h[last].peak == Some(StoredMax(h)) || h[last].mem == StoredMax(h) || StoredMax(h) == StoredMax(front);
      if StoredMax(h) == StoredMax(front) && StoredMax(h) != 0 {
        var j :| 0 <= j < |front| && (front[j].mem == StoredMax(front) || front[j].peak == Some(StoredMax(front)));
        assert h[j] == front[j];
      }
    }
  }

  lemma RealisticPeaksKeepTheMaximum(h: seq<Sample>, k: nat)
    requires RealisticPeaks(h) && 0 < k <= |h|
    ensures MaxAfter(h, k - 1) <= MaxAfter(h, k)
    ensures forall j | 0 <= j < k :: h[j].mem <= MaxAfter(h, k)
  {
    var p := h[..k];
    assert RealisticPeaks(p) by {
      assert forall i | 0 <= i < |p| :: p[i] == h[i];
    }
    RealisticPeaksBound(p);
    assert p[..k - 1] == h[..k - 1];
    assert forall j | 0 <= j < k :: p[j] == h[j];
  }

  lemma {:induction false} MonotoneBetween(h: seq<Sample>, i: nat, k: nat)
    requires MaximumHolds(h) && i <= k <= |h|
    ensures MaxAfter(h, i) <= MaxAfter(h, k)
    decreases k - i
  {
    if i == k {
    } else {
      MonotoneBetween(h, i, k - 1);
    }
  }

  lemma PeakIsTheMaximum(h: seq<Sample>, k: nat)
    requires k < |h| && h[k].peak.Some?
    ensures MaxAfter(h, k + 1) == h[k].peak.value
  {
  }

  /** The stored maximum is monotone and bounds the samples throughout a run, with any pattern of
      failed peak reads, exactly when the peaks that were read are realistic. */
  lemma MaximumHoldsIffPeaksAreRealistic(h: seq<Sample>)
    ensures MaximumHolds(h) <==> RealisticPeaks(h)
  {
    if RealisticPeaks(h) {
      forall k | 0 < k <= |h|
        ensures MaxAfter(h, k - 1) <= MaxAfter(h, k)
        ensures forall j | 0 <= j < k :: h[j].mem <= MaxAfter(h, k)
      {
        RealisticPeaksKeepTheMaximum(h, k);
      }
    }
    if MaximumHolds(h) {
      forall k | 0 <= k < |h| && h[k].peak.Some?
        ensures forall j | 0 <= j <= k :: h[j].mem <= h[k].peak.value
        ensures forall j | 0 <= j < k && h[j].peak.Some? :: h[j].peak.value <= h[k].peak.value
      {
        PeakIsTheMaximum(h, k);
        forall j | 0 <= j < k && h[j].peak.Some?
          ensures h[j].peak.value <= h[k].peak.value
        {
          PeakIsTheMaximum(h, j);
          MonotoneBetween(h, j + 1, k + 1);
        }
      }
    }
  }

  lemma {:induction false} TotalIsBounded(h: seq<Sample>, m: nat)
    requires forall j | 0 <= j < |h| :: h[j].mem <= m
    ensures TotalMem(h) <= |h| * m
  {
    if h == [] {
    } else {
      TotalIsBounded(h[..|h| - 1], m);
      assert |h| * m == (|h| - 1) * m + m;
    }
  }

  /** With realistic peaks the reported average is at most the reported maximum. */
  lemma AverageAtMostMaximum(h: seq<Sample>)
    requires RealisticPeaks(h) && h != []
    ensures Replay(h).memSum / Replay(h).points <= Replay(h).memMax
  {
    RealisticPeaksBound(h);
    TotalIsBounded(h, StoredMax(h));
    QuotientBound(TotalMem(h), |h|, StoredMax(h));
  }

  lemma QuotientBound(total: nat, n: nat, m: nat)
    requires 0 < n && total <= n * m
    ensures total / n <= m
  {
  }

  // ---- the report ----

  datatype Statistic = CpuTime | MaxMem | AvgMem

  /** The key of one entry, as its two parts. */
  datatype Key = Key(program: string, statistic: Statistic)

  function Suffix(s: Statistic): string {
    match s
    case CpuTime => "_cpu_time_microseconds"
    case MaxMem => "_max_mem_bytes"
    case AvgMem => "_avg_mem_bytes"
  }

  /** The key as it is printed. */
  function Printed(k: Key): string {
    k.program + Suffix(k.statistic)
  }

  lemma SuffixIsDetermined(k: Key)
    ensures |k.program| == |Printed(k)| - |Suffix(k.statistic)|
    ensures k.statistic.CpuTime? <==> Printed(k)[|Printed(k)| - 2] == 'd'
    ensures k.statistic.MaxMem? ==> Printed(k)[|Printed(k)| - 11] == 'x'
    ensures k.statistic.AvgMem? ==> Printed(k)[|Printed(k)| - 11] == 'g'
    ensures Printed(k)[..|k.program|] == k.program
  {
  }

  /** Printed keys never collide, whatever the program names. */
  lemma PrintedKeysAreDistinct(a: Key, b: Key)
    requires Printed(a) == Printed(b)
    ensures a == b
  {
    SuffixIsDetermined(a);
    SuffixIsDetermined(b);
  }

  /** All four numbers are non-zero. */
  predicate Complete(r: Record) {
    r.cpu != 0 && r.memMax != 0 && r.memSum != 0 && r.points != 0
  }

  ghost predicate Distinct(names: seq<string>) {
    forall i, j | 0 <= i < j < |names| :: names[i] != names[j]
  }

  /** The three entries of one program. */
  ghost predicate Reports(values: map<Key, nat>, name: string, r: Record) {
    && Key(name, CpuTime) in values && values[Key(name, CpuTime)] == r.cpu
    && Key(name, MaxMem) in values && values[Key(name, MaxMem)] == r.memMax
    && Key(name, AvgMem) in values && r.points != 0 && values[Key(name, AvgMem)] == r.memSum / r.points
  }

  /** Exactly three entries for each program and nothing else. */
  ghost predicate ReportFor(values: map<Key, nat>, names: seq<string>, records: map<string, Record>) {
    && |values| == 3 * |names|
    && (forall key | key in values :: key.program in names)
    && (forall name | name in names :: name in records && Reports(values, name, records[name]))
  }

  function WithEntry(values: map<Key, nat>, name: string, r: Record): map<Key, nat>
    requires r.points != 0
  {
    values[Key(name, CpuTime) := r.cpu][Key(name, MaxMem) := r.memMax][Key(name, AvgMem) := r.memSum / r.points]
  }

  lemma AddKey<K, V>(m: map<K, V>, k: K, v: V)
    requires k !in m
    ensures |m[k := v]| == |m| + 1
    ensures m[k := v].Keys == m.Keys + {k}
  {
    assert m[k := v].Keys == m.Keys + {k};
    assert |m[k := v].Keys| == |m[k := v]| && |m.Keys| == |m|;
  }

  lemma EntryAddsThree(values: map<Key, nat>, name: string, r: Record)
    requires r.points != 0 && forall key | key in values :: key.program != name
    ensures |WithEntry(values, name, r)| == |values| + 3
    ensures Reports(WithEntry(values, name, r), name, r)
    ensures forall key | key in WithEntry(values, name, r) :: key in values || key.program == name
  {
    var v1 := values[Key(name, CpuTime) := r.cpu];
    AddKey(values, Key(name, CpuTime), r.cpu);
    var v2 := v1[Key(name, MaxMem) := r.memMax];
    AddKey(v1, Key(name, MaxMem), r.memMax);
    var average := r.memSum / r.points;
    AddKey(v2, Key(name, AvgMem), average);
    assert WithEntry(values, name, r) == v2[Key(name, AvgMem) := average];
  }

  lemma EntryKeepsOthers(values: map<Key, nat>, name: string, r: Record, other: string, ro: Record)
    requires r.points != 0 && other != name && Reports(values, other, ro)
    ensures Reports(WithEntry(values, name, r), other, ro)
  {
  }

  lemma ReportNext(values: map<Key, nat>, names: seq<string>, name: string, records: map<string, Record>)
    requires ReportFor(values, names, records) && name !in names && name in records && records[name].points != 0
    ensures ReportFor(WithEntry(values, name, records[name]), names + [name], records)
  {
    var r := records[name];
    var next := WithEntry(values, name, r);
    EntryAddsThree(values, name, r);
    forall n | n in names + [name]
      ensures n in records && Reports(next, n, records[n])
    {
      if n != name {
        assert n in names;
        EntryKeepsOthers(values, name, r, n, records[n]);
      }
    }
    forall key | key in next
      ensures key.program in names + [name]
    {
      assert key.program in names || key.program == name;
    }
  }

  /** The report as the dictionary of printed keys. */
  ghost function PrintedReport(values: map<Key, nat>): (printed: map<string, nat>)
    ensures forall k | k in values :: Printed(k) in printed && printed[Printed(k)] == values[k]
    ensures printed.Keys == set k | k in values :: Printed(k)
  {
    assert forall a, b | a in values && b in values && Printed(a) == Printed(b) :: a == b by {
      forall a, b | a in values && b in values && Printed(a) == Printed(b)
        ensures a == b
      {
        PrintedKeysAreDistinct(a, b);
      }
    }
    map k | k in values :: Printed(k) := values[k]
  }

  lemma {:induction false} PrintingKeepsTheSize(keys: set<Key>)
    ensures |set k | k in keys :: Printed(k)| == |keys|
  {
    if keys == {} {
    } else {
      var key :| key in keys;
      var rest := keys - {key};
      PrintingKeepsTheSize(rest);
      var printed := set k | k in keys :: Printed(k);
      var printedRest := set k | k in rest :: Printed(k);
      assert printed == printedRest + {Printed(key)};
      if Printed(key) in printedRest {
        var k :| k in rest && Printed(k) == Printed(key);
        PrintedKeysAreDistinct(k, key);
        assert false;
      }
    }
  }

  /** A successful report has exactly three distinct printed keys for each program. */
  lemma ReportSize(values: map<Key, nat>, names: seq<string>, records: map<string, Record>)
    requires ReportFor(values, names, records)
    ensures |PrintedReport(values)| == 3 * |names|
  {
    PrintingKeepsTheSize(values.Keys);
    assert PrintedReport(values).Keys == set k | k in values.Keys :: Printed(k);
    assert |values.Keys| == |values|;
    assert |PrintedReport(values).Keys| == |PrintedReport(values)|;
  }

  /** The three printed entries of each program. */
  lemma PrintedEntries(values: map<Key, nat>, names: seq<string>, records: map<string, Record>, name: string)
    requires ReportFor(values, names, records) && name in names
    ensures var report, r := PrintedReport(values), records[name];
            && r.points != 0
            && name + "_cpu_time_microseconds" in report && report[name + "_cpu_time_microseconds"] == r.cpu
            && name + "_max_mem_bytes" in report && report[name + "_max_mem_bytes"] == r.memMax
            && name + "_avg_mem_bytes" in report && report[name + "_avg_mem_bytes"] == r.memSum / r.points
  {
    assert Printed(Key(name, CpuTime)) == name + "_cpu_time_microseconds";
    assert Printed(Key(name, MaxMem)) == name + "_max_mem_bytes";
    assert Printed(Key(name, AvgMem)) == name + "_avg_mem_bytes";
  }

  /** The first `i` programs have data. */
  ghost predicate CompleteUpTo(names: seq<string>, records: map<string, Record>, i: nat)
    requires i <= |names|
  {
    forall j | 0 <= j < i :: names[j] in records && Complete(records[names[j]])
  }

  ghost predicate FirstIncomplete(names: seq<string>, records: map<string, Record>, i: nat)
    requires i < |names|
  {
    CompleteUpTo(names, records, i) && names[i] in records && !Complete(records[names[i]])
  }

  lemma ReportStep(values: map<Key, nat>, names: seq<string>, i: nat, records: map<string, Record>)
    requires i < |names| && Distinct(names) && ReportFor(values, names[..i], records)
    requires CompleteUpTo(names, records, i) && names[i] in records && Complete(records[names[i]])
    ensures ReportFor(WithEntry(values, names[i], records[names[i]]), names[..i + 1], records)
    ensures CompleteUpTo(names, records, i + 1)
  {
    var name := names[i];
    NotAmongEarlier(names, i);
    ReportNext(values, names[..i], name, records);
    TakeNext(names, i);
  }

  lemma NotAmongEarlier(names: seq<string>, i: nat)
    requires i < |names| && Distinct(names)
    ensures names[i] !in names[..i]
  {
  }

  /** The record `r'` is `r` with one more sample. */
  predicate Extends(r: Record, s: Sample, r': Record) {
    && r'.cpu == s.cpu
    && r'.memSum == r.memSum + s.mem
    && r'.points == r.points + 1
    && (s.peak.Some? ==> r'.memMax == s.peak.value)
    && (s.peak.None? && r.memMax < s.mem ==> r'.memMax == s.mem)
    && (s.peak.None? && s.mem <= r.memMax ==> r'.memMax == r.memMax)
  }

  /** A program's samples after a poll that gave `reading`. */
  function Polled(h: seq<Sample>, reading: Reading): seq<Sample> {
    if reading.Good? then h + [reading.sample] else h
  }

  /** The histories after one poll of every program, in order. */
  function PolledAll(history: map<string, seq<Sample>>, names: seq<string>, readings: seq<Reading>)
    : map<string, seq<Sample>>
    requires |names| == |readings| && forall n | n in names :: n in history
    decreases |names|
  {
    if names == [] then history
    else PolledAll(history[names[0] := Polled(history[names[0]], readings[0])], names[1..], readings[1..])
  }

  /** One poll adds each program's own reading to its own history. */
  lemma {:induction false} EachProgramIsPolledOnce(history: map<string, seq<Sample>>, names: seq<string>,
                                                   readings: seq<Reading>)
    requires |names| == |readings| && Distinct(names) && forall n | n in names :: n in history
    ensures PolledAll(history, names, readings).Keys == history.Keys
    ensures forall i | 0 <= i < |names| ::
              PolledAll(history, names, readings)[names[i]]
              == if readings[i].Good? then history[names[i]] + [readings[i].sample] else history[names[i]]
    ensures forall n | n in history && n !in names :: PolledAll(history, names, readings)[n] == history[n]
    decreases |names|
  {
    if names == [] {
    } else {
      var h1 := history[names[0] := Polled(history[names[0]], readings[0])];
      assert h1.Keys == history.Keys;
      EachProgramIsPolledOnce(h1, names[1..], readings[1..]);
      assert names[0] !in names[1..];
      assert forall i | 0 < i < |names| :: names[i] == names[1..][i - 1];
    }
  }

  class CgroupsBackend {
    /** The keys of `data_records` in insertion order, and its values. */
    var names: seq<string>
    var records: map<string, Record>
    /** The fully successful polls of each program since it was added. */
    ghost var history: map<string, seq<Sample>>

    ghost predicate Valid()
      reads this
    {
      && Distinct(names)
      && (forall n :: n in names <==> n in records)
      && records.Keys == history.Keys
      && (forall n | n in records :: records[n] == Replay(history[n]))
    }

    constructor ()
      ensures Valid() && names == [] && history == map[]
    {
      names, records, history := [], map[], map[];
    }

    method Add(name: string)
      requires Valid()
      modifies this
      ensures Valid()
      ensures history == old(history)[name := []]
      ensures name in records && records[name] == Record(0, 0, 0, 0)
      ensures names == if name in old(names) then old(names) else old(names) + [name]
    {
      if name !in names {
        names := names + [name];
      }
      records := records[name := EMPTY_RECORD];
      history := history[name := []];
    }

    /** The body of the loop of `poll` for one program, from the point where its reads are made. */
    method PollOne(i: nat, reading: Reading)
      requires Valid() && i < |names|
      modifies this
      ensures Valid() && names == old(names)
      ensures history == old(history)[names[i] := Polled(old(history)[names[i]], reading)]
      ensures reading.Unreadable? ==> records == old(records) && history == old(history)
      ensures reading.Good? ==>
                names[i] in records && Extends(old(records)[names[i]], reading.sample, records[names[i]])
      ensures forall n | n in records && n != names[i] :: n in old(records) && records[n] == old(records)[n]
    {
      assert names[i] in records;
      if reading.Good? {
        var s := reading.sample;
        var name := names[i];
        var r := records[name];
        var memMax := if s.peak.Some? then s.peak.value else Max(r.memMax, s.mem);
        ReplayNext(history[name], s);
        records := records[name := Record(s.cpu, r.memSum + s.mem, memMax, r.points + 1)];
        history := history[name := history[name] + [s]];
      }
    }

    /** `poll`, when nothing cancels it. */
    method Poll(readings: seq<Reading>)
      requires Valid() && |readings| == |names|
      modifies this
      ensures Valid() && names == old(names)
      ensures history == PolledAll(old(history), names, readings)
    {
      ghost var before := history;
      for i := 0 to |names|
        invariant Valid() && names == old(names)
        invariant PolledAll(before, names, readings) == PolledAll(history, names[i..], readings[i..])
      {
        assert names[i..][1..] == names[i + 1..] && readings[i..][1..] == readings[i + 1..];
        assert names[i] in records;
        PollOne(i, readings[i]);
      }
    }

    /** The report: three values for each program, or the first program without data. */
    method GenerateReport() returns (report: Report)
      requires Valid()
      ensures report.Ready? ==> CompleteUpTo(names, records, |names|) && ReportFor(report.values, names, records)
      ensures report.Incomplete? ==>
                exists i | 0 <= i < |names| :: FirstIncomplete(names, records, i) && report.name == names[i]
      ensures report.Ready? ==> forall name | name in names && RealisticPeaks(history[name]) ::
                && Key(name, AvgMem) in report.values && Key(name, MaxMem) in report.values
                && report.values[Key(name, AvgMem)] <= report.values[Key(name, MaxMem)]
    {
      var values: map<Key, nat> := map[];
      for i := 0 to |names|
        invariant CompleteUpTo(names, records, i)
        invariant ReportFor(values, names[..i], records)
      {
        var name := names[i];
        assert name in records;
        var info := records[name];
        if !Complete(info) {
          return Incomplete(name);
        }
        ReportStep(values, names, i, records);
        values := WithEntry(values, name, info);
      }
      TakeAll(names);
      report := Ready(values);
      forall name | name in names && RealisticPeaks(history[name])
        ensures Reports(values, name, records[name]) && values[Key(name, AvgMem)] <= values[Key(name, MaxMem)]
      {
        AverageAtMostMaximum(history[name]);
      }
    }
  }
}
