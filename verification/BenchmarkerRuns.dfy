/** What the log of a `Benchmarker` says about the order of enters, reads and exits. */
module BenchmarkerRuns {
  import opened Sequences
  import opened Division
  import opened Cgroups
  import opened Benchmarking

  // ---- a first use, by program ----

  /** The first `j` exits of `k` entered programs. */
  function ExitLog(k: nat, j: nat, leaving: nat -> Outcome): seq<Event>
    requires j <= k
  {
    if j == 0 then [] else ExitLog(k, j - 1, leaving) + [Exiting(k - j), Left(k - j, leaving(k - j))]
  }

  /** The outcomes of the exits of `k` programs, by program instead of by position. */
  function ById(k: nat, outcomes: nat -> Outcome): nat -> Outcome {
    (id: nat) => if id < k then outcomes(k - 1 - id) else Fine
  }

  /** Unwinding `k` programs stops after `m` exits: at the first that raises, or when all are done. */
  ghost predicate UnwindsTo(leaving: nat -> Outcome, k: nat, m: nat) {
    && m <= k
    && (forall id: nat | k - m < id < k :: leaving(id).Fine?)
    && (m < k ==> 0 < m && leaving(k - m).Fails?)
  }

  /** What a failed enter raises: the original error, unless the unwinding raised. */
  function UnwindResult(leaving: nat -> Outcome, k: nat, m: nat, original: string): Result
    requires m <= k
  {
    if 0 < m && leaving(k - m).Fails? then Raised(leaving(k - m).error) else Raised(original)
  }

  lemma {:induction false} ExitsOfAFirstUse(k: nat, j: nat, outcomes: nat -> Outcome)
    requires j <= k
    ensures ExitsOf(Descending(k), j, outcomes) == ExitLog(k, j, ById(k, outcomes))
  {
    if j == 0 {
    } else {
      ExitsOfAFirstUse(k, j - 1, outcomes);
    }
  }

  lemma UnwindingOfAFirstUse(k: nat, m: nat, outcomes: nat -> Outcome, original: string)
    requires StopsAfter(outcomes, k, m)
    ensures UnwindsTo(ById(k, outcomes), k, m)
    ensures UnwindError(outcomes, m, original) == UnwindResult(ById(k, outcomes), k, m, original)
  {
    forall id: nat | k - m < id < k
      ensures ById(k, outcomes)(id).Fine?
    {
      var j := k - 1 - id;
      assert j + 1 < m;
    }
  }

  /** The event at position `p` of the enters. */
  function EnterEvent(p: nat): Event {
    if p % 2 == 0 then Entering(p / 2) else Entered(p / 2)
  }

  /** The event at position `p` of the exits after `k` enters. */
  function ExitEvent(k: nat, p: nat, leaving: nat -> Outcome): Event
    requires p < 2 * k
  {
    var id := k - 1 - p / 2;
    if p % 2 == 0 then Exiting(id) else Left(id, leaving(id))
  }

  lemma {:induction false} EnterLogAt(k: nat)
    ensures |EnterLog(k)| == 2 * k
    ensures forall p: nat | p < 2 * k :: EnterLog(k)[p] == EnterEvent(p)
  {
    if k == 0 {
    } else {
      EnterLogAt(k - 1);
      assert EnterEvent(2 * k - 2) == Entering(k - 1) && EnterEvent(2 * k - 1) == Entered(k - 1);
    }
  }

  lemma {:induction false} ExitLogAt(k: nat, m: nat, leaving: nat -> Outcome)
    requires m <= k
    ensures |ExitLog(k, m, leaving)| == 2 * m
    ensures forall p: nat | p < 2 * m :: ExitLog(k, m, leaving)[p] == ExitEvent(k, p, leaving)
  {
    if m == 0 {
    } else {
      ExitLogAt(k, m - 1, leaving);
      assert ExitEvent(k, 2 * m - 2, leaving) == Exiting(k - m);
      assert ExitEvent(k, 2 * m - 1, leaving) == Left(k - m, leaving(k - m));
    }
  }

  /** The log of a benchmarker that was entered, sampled `ids` and was exited. */
  function FullLog(n: nat, ids: seq<nat>, leaving: nat -> Outcome): seq<Event> {
    EnterLog(n) + ReadLog(ids) + ExitLog(n, n, leaving)
  }

  predicate IsEnter(e: Event) {
    e.Entering? || e.Entered? || e.EnterFailed?
  }

  predicate IsExit(e: Event) {
    e.Exiting? || e.Left?
  }

  /** Where each kind of event can be. */
  lemma FullLogAt(n: nat, ids: seq<nat>, leaving: nat -> Outcome, p: nat)
    requires p < |FullLog(n, ids, leaving)|
    ensures |FullLog(n, ids, leaving)| == 4 * n + |ids|
    ensures var e := FullLog(n, ids, leaving)[p];
            && (p < 2 * n ==> e == EnterEvent(p))
            && (2 * n <= p < 2 * n + |ids| ==> e == Read(ids[p - 2 * n]))
            && (2 * n + |ids| <= p ==> e == ExitEvent(n, p - 2 * n - |ids|, leaving))
  {
    EnterLogAt(n);
    ExitLogAt(n, n, leaving);
  }

  /** Every cgroup read comes after the last enter and before the first exit, and every program
      has been entered by then. */
  lemma ReadsBetweenEntersAndExits(n: nat, ids: seq<nat>, leaving: nat -> Outcome, p: nat)
    requires p < |FullLog(n, ids, leaving)| && FullLog(n, ids, leaving)[p].Read?
    ensures forall q | 0 <= q < |FullLog(n, ids, leaving)| ::
              && (IsEnter(FullLog(n, ids, leaving)[q]) ==> q < p)
              && (IsExit(FullLog(n, ids, leaving)[q]) ==> p < q)
    ensures forall id: nat | id < n :: Entered(id) in FullLog(n, ids, leaving)[..p]
  {
    var log := FullLog(n, ids, leaving);
    FullLogAt(n, ids, leaving, p);
    forall q | 0 <= q < |log|
      ensures (IsEnter(log[q]) ==> q < p) && (IsExit(log[q]) ==> p < q)
    {
      FullLogAt(n, ids, leaving, q);
    }
    forall id: nat | id < n
      ensures Entered(id) in log[..p]
    {
      FullLogAt(n, ids, leaving, 2 * id + 1);
      assert log[..p][2 * id + 1] == Entered(id);
    }
  }

  /** The exits after `k` enters, `m` of them: each program once, the last entered first, and each
      only after the one before it has finished. */
  lemma ExitsInReverseOrder(k: nat, m: nat, leaving: nat -> Outcome, p: nat, q: nat)
    requires m <= k && p < q < |ExitLog(k, m, leaving)|
    ensures var log := ExitLog(k, m, leaving);
            && IsExit(log[p]) && IsExit(log[q])
            && log[q].id <= log[p].id
            && (log[p].id == log[q].id ==> log[p].Exiting? && log[q] == Left(log[p].id, leaving(log[p].id)))
  {
    ExitLogAt(k, m, leaving);
  }

  /** Which programs those are. */
  lemma {:induction false} ExitedPrograms(k: nat, m: nat, leaving: nat -> Outcome, id: nat)
    requires m <= k
    ensures Exiting(id) in ExitLog(k, m, leaving) <==> k - m <= id < k
    ensures Left(id, leaving(id)) in ExitLog(k, m, leaving) <==> k - m <= id < k
  {
    var log := ExitLog(k, m, leaving);
    ExitLogAt(k, m, leaving);
    if k - m <= id < k {
      var p := 2 * (k - 1 - id);
      assert log[p] == ExitEvent(k, p, leaving) == Exiting(id);
      assert log[p + 1] == ExitEvent(k, p + 1, leaving) == Left(id, leaving(id));
    }
  }

  /** Every program is entered once and exited once: no event of the full log but a read occurs
      twice, and all of them occur. */
  lemma EachProgramOnce(n: nat, ids: seq<nat>, leaving: nat -> Outcome, id: nat, p: nat, q: nat)
    requires p < q < |FullLog(n, ids, leaving)|
    ensures FullLog(n, ids, leaving)[p] == FullLog(n, ids, leaving)[q] ==> FullLog(n, ids, leaving)[p].Read?
    ensures id < n ==>
              && Entered(id) in FullLog(n, ids, leaving)
              && Exiting(id) in FullLog(n, ids, leaving)
              && Left(id, leaving(id)) in FullLog(n, ids, leaving)
  {
    FullLogAt(n, ids, leaving, p);
    FullLogAt(n, ids, leaving, q);
    if id < n {
      EnterLogAt(n);
      assert EnterLog(n)[2 * id + 1] == EnterEvent(2 * id + 1) == Entered(id);
      ExitedPrograms(n, n, leaving, id);
    }
  }

  /** When entering program `k` fails: the programs `k-1` to `k-m` are exited, the `k`-th is not, and
      unwinding reaches every entered program exactly when no exit but the last one raises. The
      original error is raised exactly when no exit raises at all. */
  lemma FailedEnter(k: nat, m: nat, leaving: nat -> Outcome, original: string)
    requires UnwindsTo(leaving, k, m)
    ensures m == k <==> forall id: nat | 0 < id < k :: leaving(id).Fine?
    ensures (forall id: nat | id < k :: leaving(id).Fine?) ==> UnwindResult(leaving, k, m, original) == Raised(original)
    ensures (exists id: nat | id < k :: leaving(id).Fails?) ==>
              exists id: nat | k - m <= id < k ::
                && leaving(id).Fails? && UnwindResult(leaving, k, m, original) == Raised(leaving(id).error)
                && forall other: nat | id < other < k :: leaving(other).Fine?
    ensures forall id: nat :: Exiting(id) in ExitLog(k, m, leaving) <==> k - m <= id < k
  {
    forall id: nat
      ensures Exiting(id) in ExitLog(k, m, leaving) <==> k - m <= id < k
    {
      ExitedPrograms(k, m, leaving, id);
    }
    if exists id: nat | id < k :: leaving(id).Fails? {
      var id: nat :| id < k && leaving(id).Fails?;
      assert id <= k - m;
      assert leaving(k - m).Fails?;
    }
  }

  /** Nested `async with` blocks over one fresh benchmarker: however deep they nest and whatever
      the loop runs in between, each program is entered and exited once. */
  method NestedBlocks(b: Benchmarker, depth: nat, entering: nat -> Outcome, outcomes: nat -> Outcome,
                      turns: Await -> seq<Wake>, wakes: nat -> seq<Wake>, wake: Wake)
    requires b.Fresh() && 0 < depth
    requires forall id: nat :: entering(id).Fine?
    modifies b, b.backend
    ensures b.Valid() && !b.running
    ensures b.log == FullLog(|b.programs|, b.readIds, ById(|b.programs|, outcomes))
  {
    ghost var n := |b.programs|;
    for i := 0 to depth
      invariant i == 0 ==> b.Fresh()
      invariant i > 0 ==> b.Valid() && b.running && b.OnlyReadsSince(EnterLog(n)) && b.runningPrograms == Descending(n)
    {
      var result, k, m := b.Enter(entering, outcomes, turns);
      b.Suspend(wakes(i), EnterLog(n));
    }
    ExitsOfAFirstUse(n, n, outcomes);
    for i := 0 to depth
      invariant b.Valid()
      invariant i == 0 ==> b.running && b.OnlyReadsSince(EnterLog(n)) && b.runningPrograms == Descending(n)
      invariant i > 0 ==> !b.running && b.log == FullLog(n, b.readIds, ById(n, outcomes))
    {
      var result := b.Exit(outcomes, turns, wake);
    }
  }

  // ---- repeated use ----

  lemma {:induction false} ExitCount(ids: seq<nat>, j: nat, outcomes: nat -> Outcome, id: nat)
    requires j <= |ids|
    ensures Count(ExitsOf(ids, j, outcomes), Exiting(id)) == Count(ids[..j], id)
    ensures Count(ExitsOf(ids, j, outcomes), Entered(id)) == 0
  {
    if j == 0 {
    } else {
      var before, last := ExitsOf(ids, j - 1, outcomes), [Exiting(ids[j - 1]), Left(ids[j - 1], outcomes(j - 1))];
      ExitCount(ids, j - 1, outcomes, id);
      CountParts(before, last, Exiting(id));
      CountParts(before, last, Entered(id));
      CountTwo(last[0], last[1], Exiting(id));
      CountTwo(last[0], last[1], Entered(id));
      assert ids[..j] == ids[..j - 1] + [ids[j - 1]];
      CountParts(ids[..j - 1], [ids[j - 1]], id);
      CountOne(ids[j - 1], id);
    }
  }

  lemma {:induction false} CountDown(n: nat, id: nat)
    ensures Count(Descending(n), id) == if id < n then 1 else 0
  {
    if n == 0 {
    } else {
      CountDown(n - 1, id);
      var top: nat := n - 1;
      CountParts([top], Descending(top), id);
      CountOne(top, id);
    }
  }

  /** How often an exit leaves a program: once for its enter, and once more for every time it is among
      the programs that earlier uses of the instance have left behind. */
  lemma ExitsOfALaterUse(n: nat, stale: seq<nat>, outcomes: nat -> Outcome, id: nat)
    requires id < n
    ensures Count(ExitsOf(Descending(n) + stale, n + |stale|, outcomes), Exiting(id)) == 1 + Count(stale, id)
    ensures Count(ExitsOf(Descending(n) + stale, n + |stale|, outcomes), Entered(id)) == 0
  {
    var ids := Descending(n) + stale;
    ExitCount(ids, |ids|, outcomes, id);
    TakeAll(ids);
    CountParts(Descending(n), stale, id);
    CountDown(n, id);
  }

  /** Leaving exits each program exactly once if and only if no earlier use has left programs behind. */
  lemma ExitedOnceIffFirstUse(n: nat, stale: seq<nat>, outcomes: nat -> Outcome)
    requires forall i | 0 <= i < |stale| :: stale[i] < n
    ensures (forall id: nat | id < n ::
               Count(ExitsOf(Descending(n) + stale, n + |stale|, outcomes), Exiting(id)) == 1)
            <==> stale == []
  {
    forall id: nat | id < n
      ensures Count(ExitsOf(Descending(n) + stale, n + |stale|, outcomes), Exiting(id)) == 1 + Count(stale, id)
    {
      ExitsOfALaterUse(n, stale, outcomes, id);
    }
    if stale != [] {
      CountNone(stale, stale[0]);
    }
  }

  lemma {:induction false} EnterCount(n: nat, id: nat)
    ensures Count(EnterLog(n), Entered(id)) == if id < n then 1 else 0
    ensures Count(EnterLog(n), Exiting(id)) == 0
  {
    if n == 0 {
    } else {
      var last := [Entering(n - 1), Entered(n - 1)];
      EnterCount(n - 1, id);
      CountParts(EnterLog(n - 1), last, Entered(id));
      CountParts(EnterLog(n - 1), last, Exiting(id));
      CountTwo(last[0], last[1], Entered(id));
      CountTwo(last[0], last[1], Exiting(id));
    }
  }

  function Triangle(n: nat): nat {
    if n == 0 then 0 else Triangle(n - 1) + n
  }

  /** After `uses` complete uses: how often a program was entered, exited, and is still listed. */
  predicate Counts(log: seq<Event>, listed: seq<nat>, uses: nat, id: nat) {
    && Count(log, Entered(id)) == uses
    && Count(log, Exiting(id)) == Triangle(uses)
    && Count(listed, id) == uses
  }

  lemma CountFour<T>(a: seq<T>, b: seq<T>, c: seq<T>, d: seq<T>, x: T)
    ensures Count(a + b + c + d, x) == Count(a, x) + Count(b, x) + Count(c, x) + Count(d, x)
  {
    CountParts(a, b, x);
    CountParts(a + b, c, x);
    CountParts(a + b + c, d, x);
  }

  lemma {:induction false} OneMoreUse(log: seq<Event>, stale: seq<nat>, n: nat, ids: seq<nat>,
                                      outcomes: nat -> Outcome, id: nat, uses: nat)
    requires id < n && Counts(log, stale, uses, id)
    ensures Counts(log + EnterLog(n) + ReadLog(ids) + ExitsOf(Descending(n) + stale, n + |stale|, outcomes),
                   Descending(n) + stale, uses + 1, id)
  {
    var exits := ExitsOf(Descending(n) + stale, n + |stale|, outcomes);
    EnterCount(n, id);
    ExitsOfALaterUse(n, stale, outcomes, id);
    CountDown(n, id);
    CountNone(ReadLog(ids), Entered(id));
    CountNone(ReadLog(ids), Exiting(id));
    CountFour(log, EnterLog(n), ReadLog(ids), exits, Entered(id));
    CountFour(log, EnterLog(n), ReadLog(ids), exits, Exiting(id));
    CountParts(Descending(n), stale, id);
  }

  /** One instance entered and left again and again: the list of programs to exit is never emptied, so
      the `i`-th use exits every program `i` times, while it enters each once. */
  method RepeatedUse(b: Benchmarker, uses: nat, entering: nat -> Outcome, outcomes: nat -> Outcome,
                     turns: Await -> seq<Wake>, wakes: nat -> seq<Wake>, wake: Wake)
    requires b.Fresh() && forall id: nat :: entering(id).Fine?
    modifies b, b.backend
    ensures b.Valid() && !b.running
    ensures forall id: nat | id < |b.programs| :: Counts(b.log, b.runningPrograms, uses, id)
  {
    for i := 0 to uses
      invariant b.Valid() && !b.running
      invariant forall id: nat | id < |b.programs| :: Counts(b.log, b.runningPrograms, i, id)
    {
      ghost var before, stale := b.log, b.runningPrograms;
      UseOnce(b, entering, outcomes, turns, wakes(i), wake);
      ghost var next := i + 1;
      forall id: nat | id < |b.programs|
        ensures Counts(b.log, b.runningPrograms, next, id)
      {
        OneMoreUse(before, stale, |b.programs|, b.readIds, outcomes, id, i);
      }
    }
  }

  /** One complete use, of an instance with any past. */
  method UseOnce(b: Benchmarker, entering: nat -> Outcome, outcomes: nat -> Outcome,
                 turns: Await -> seq<Wake>, wakes: seq<Wake>, wake: Wake)
    requires b.Valid() && !b.running && forall id: nat :: entering(id).Fine?
    modifies b, b.backend
    ensures b.Valid() && !b.running
    ensures var n, stale := |b.programs|, old(b.runningPrograms);
            && b.runningPrograms == Descending(n) + stale
            && b.log == old(b.log) + EnterLog(n) + ReadLog(b.readIds)
                        + ExitsOf(Descending(n) + stale, n + |stale|, outcomes)
  {
    var result, k, m := b.Enter(entering, outcomes, turns);
    b.Suspend(wakes, old(b.log) + EnterLog(|b.programs|));
    result := b.Exit(outcomes, turns, wake);
  }

  // ---- what leaving raises ----

  /** Some exit raises. */
  ghost predicate AnyFails(outcomes: nat -> Outcome, n: nat) {
    exists j: nat | j < n :: outcomes(j).Fails?
  }

  /** The errors of the exits that raise, in exit order, are the list that is joined. */
  lemma {:induction false} ErrorsInOrder(n: nat, outcomes: nat -> Outcome, j: nat)
    requires j < n && outcomes(j).Fails?
    ensures |ErrorsOf(j, outcomes)| < |ErrorsOf(n, outcomes)|
    ensures ErrorsOf(n, outcomes)[|ErrorsOf(j, outcomes)|] == outcomes(j).error
  {
    if n == j + 1 {
    } else {
      ErrorsInOrder(n - 1, outcomes, j);
    }
  }

  lemma {:induction false} ErrorsIffAnyFails(n: nat, outcomes: nat -> Outcome)
    ensures AnyFails(outcomes, n) <==> ErrorsOf(n, outcomes) != []
  {
    if n == 0 {
    } else {
      ErrorsIffAnyFails(n - 1, outcomes);
    }
  }

  ghost predicate Contains(text: string, part: string) {
    exists before, after :: text == before + part + after
  }

  /** A message is made of all its parts, with separators between them. */
  lemma {:induction false} Joined(a: seq<string>, b: seq<string>)
    requires a != [] && b != []
    ensures Join(a + b) == Join(a) + "; " + Join(b)
  {
    if |a| == 1 {
      assert (a + b)[1..] == b;
    } else {
      assert (a + b)[1..] == a[1..] + b;
      Joined(a[1..], b);
    }
  }

  lemma {:induction false} MessageContains(parts: seq<string>, i: nat)
    requires i < |parts|
    ensures Contains(Join(parts), parts[i])
  {
    var head, tail := parts[..i], parts[i + 1..];
    var message := [parts[i]];
    assert parts == head + (message + tail);
    var before := if head == [] then "" else Join(head) + "; ";
    var after := if tail == [] then "" else "; " + Join(tail);
    if tail != [] {
      Joined(message, tail);
    } else {
      assert message + tail == message;
    }
    if head != [] {
      Joined(head, message + tail);
    }
    assert Join(parts) == before + parts[i] + after;
  }

  /** What leaving raises: when some exit raised, one error with all their messages, whatever became of
      the task; otherwise the task's own error, if it broke; and otherwise it returns. */
  lemma LeavingRaises(n: nat, outcomes: nat -> Outcome, task: Task)
    ensures var result := ExitResult(ErrorsOf(n, outcomes), task);
            && (AnyFails(outcomes, n) ==>
                  && result.Raised?
                  && forall j: nat | j < n && outcomes(j).Fails? :: Contains(result.error, outcomes(j).error))
            && (!AnyFails(outcomes, n) && task.Ended? && task.how.Broke? ==> result == Raised(task.how.error))
            && (!AnyFails(outcomes, n) && !(task.Ended? && task.how.Broke?) ==> result == Returned)
  {
    var errors := ErrorsOf(n, outcomes);
    ErrorsIffAnyFails(n, outcomes);
    forall j: nat | j < n && outcomes(j).Fails?
      ensures Contains(Join(errors), outcomes(j).error)
    {
      ErrorsInOrder(n, outcomes, j);
      MessageContains(errors, |ErrorsOf(j, outcomes)|);
    }
  }

  // ---- what the task samples ----

  /** The reads go round and round. */
  lemma {:induction false} ReadsAreCyclic(readIds: seq<nat>, programs: nat)
    requires InTurn(readIds, programs)
    ensures forall j | 0 <= j < |readIds| :: 0 < programs && readIds[j] == j % programs
    ensures programs > 0 ==> Following(readIds, programs) == |readIds| % programs
  {
    if readIds == [] {
    } else {
      ReadsAreCyclic(readIds[..|readIds| - 1], programs);
      NextRemainder(|readIds| - 1, programs);
    }
  }

  /** The number of the wake that reads program `i` in poll `q`: the first wake starts the task, and one
      more wake ends the sleep after each poll of `n` programs. */
  function Slot(q: nat, i: nat, n: nat): nat {
    if q == 0 then 1 + i else Slot(q - 1, i, n) + n + 1
  }

  /** How much has been read after `q` polls of `n` programs and `i` further reads. */
  function ReadCount(q: nat, i: nat, n: nat): nat {
    if q == 0 then i else ReadCount(q - 1, i, n) + n
  }

  lemma {:induction false} NextSlot(q: nat, i: nat, n: nat)
    ensures Slot(q, i + 1, n) == Slot(q, i, n) + 1 && ReadCount(q, i + 1, n) == ReadCount(q, i, n) + 1
    ensures Slot(q, n, n) + 1 == Slot(q + 1, 0, n) && ReadCount(q, n, n) == ReadCount(q + 1, 0, n)
  {
    if q == 0 {
    } else {
      NextSlot(q - 1, i, n);
    }
  }

  lemma {:induction false} SlotIs(q: nat, i: nat, n: nat)
    ensures Slot(q, i, n) == 1 + q * (n + 1) + i && ReadCount(q, i, n) == q * n + i
  {
    if q == 0 {
    } else {
      SlotIs(q - 1, i, n);
      Difference(q, 1, n + 1);
      Difference(q, 1, n);
    }
  }

  /** The samples of program `i` in its first `count` reads. */
  function SamplesOf(wakes: seq<Wake>, n: nat, i: nat, count: nat): seq<Sample> {
    if count == 0 then []
    else
      var k := Slot(count - 1, i, n);
      SamplesOf(wakes, n, i, count - 1)
      + if k < |wakes| && wakes[k].Reads? && wakes[k].reading.Good? then [wakes[k].reading.sample] else []
  }

  function ReadsOf(polls: nat, at: nat, i: nat): nat {
    if i < at then polls + 1 else polls
  }

  /** After `polls` complete polls and `at` reads of the next one: where the task is, how much it has
      read, and what each program's history has gained. */
  ghost predicate Sampled(b: Benchmarker, before: map<string, seq<Sample>>, wakes: seq<Wake>, polls: nat, at: nat)
    reads b, b.backend
  {
    var n, names := |b.programs|, b.backend.names;
    && at <= n && |names| == n
    && b.task == (if at < n then Polling(at) else Sleeping)
    && |b.readIds| == ReadCount(polls, at, n)
    && Gained(names, before, b.backend.history, wakes, polls, at)
  }

  /** Each program has gained the samples of its reads. */
  ghost predicate Gained(names: seq<string>, before: map<string, seq<Sample>>, history: map<string, seq<Sample>>,
                         wakes: seq<Wake>, polls: nat, at: nat)
  {
    forall i | 0 <= i < |names| ::
      && names[i] in before && names[i] in history
      && history[names[i]] == before[names[i]] + SamplesOf(wakes, |names|, i, ReadsOf(polls, at, i))
  }

  /** The wake that comes next. */
  ghost predicate Next(b: Benchmarker, before: map<string, seq<Sample>>, wakes: seq<Wake>, k: nat, polls: nat, at: nat)
    reads b, b.backend
  {
    && b.Ready() && b.running && !b.cancelRequested
    && k == Slot(polls, at, |b.programs|) && k < |wakes| && wakes[k].Reads?
    && Sampled(b, before, wakes, polls, at)
  }

  lemma ReadAdds(names: seq<string>, before: map<string, seq<Sample>>, history: map<string, seq<Sample>>,
                 wakes: seq<Wake>, k: nat, polls: nat, at: nat)
    requires Gained(names, before, history, wakes, polls, at) && Distinct(names)
    requires at < |names| && k == Slot(polls, at, |names|) && k < |wakes| && wakes[k].Reads?
    ensures Gained(names, before, history[names[at] := Polled(history[names[at]], wakes[k].reading)],
                   wakes, polls, at + 1)
  {
    var after := history[names[at] := Polled(history[names[at]], wakes[k].reading)];
    forall i | 0 <= i < |names|
      ensures names[i] in after
      ensures after[names[i]] == before[names[i]] + SamplesOf(wakes, |names|, i, ReadsOf(polls, at + 1, i))
    {
      if i == at {
        LastSample(wakes, |names|, at, polls);
      } else {
        assert names[i] != names[at] && ReadsOf(polls, at + 1, i) == ReadsOf(polls, at, i);
      }
    }
  }

  lemma LastSample(wakes: seq<Wake>, n: nat, i: nat, polls: nat)
    requires Slot(polls, i, n) < |wakes| && wakes[Slot(polls, i, n)].Reads?
    ensures SamplesOf(wakes, n, i, polls + 1) == Polled(SamplesOf(wakes, n, i, polls), wakes[Slot(polls, i, n)].reading)
  {
  }

  method ReadOne(b: Benchmarker, ghost before: map<string, seq<Sample>>, wakes: seq<Wake>, k: nat, polls: nat, at: nat)
    requires Next(b, before, wakes, k, polls, at) && at < |b.programs|
    modifies b, b.backend
    ensures b.Ready() && b.running && !b.cancelRequested && b.backend.names == old(b.backend.names)
    ensures Sampled(b, before, wakes, polls, at + 1)
  {
    NextSlot(polls, at, |b.programs|);
    ReadAdds(b.backend.names, before, b.backend.history, wakes, k, polls, at);
    TakeReading(b, wakes[k]);
  }

  /** One turn of a task that polls. */
  method TakeReading(b: Benchmarker, wake: Wake)
    requires b.Ready() && b.running && !b.cancelRequested && b.task.Polling? && wake.Reads?
    requires b.backend.names[b.task.index] in b.backend.history
    modifies b, b.backend
    ensures b.Ready() && b.running && !b.cancelRequested && b.backend.names == old(b.backend.names)
    ensures |b.readIds| == |old(b.readIds)| + 1
    ensures var at, before := old(b.task).index, old(b.backend.history);
            var name := b.backend.names[at];
            && b.task == (if at + 1 < |b.programs| then Polling(at + 1) else Sleeping)
            && b.backend.history == before[name := Polled(before[name], wake.reading)]
  {
    b.TaskStep(wake);
  }

  method WakeUp(b: Benchmarker, ghost before: map<string, seq<Sample>>, wakes: seq<Wake>, k: nat, polls: nat, at: nat)
    requires Next(b, before, wakes, k, polls, at) && at == |b.programs|
    modifies b, b.backend
    ensures b.Ready() && b.running && !b.cancelRequested && b.backend.names == old(b.backend.names)
    ensures Sampled(b, before, wakes, polls + 1, 0)
  {
    b.TaskStep(wakes[k]);
    NextSlot(polls, 0, |b.programs|);
  }

  method SampleOne(b: Benchmarker, ghost before: map<string, seq<Sample>>, wakes: seq<Wake>, k: nat,
                   polls: nat, at: nat) returns (polls': nat, at': nat)
    requires Next(b, before, wakes, k, polls, at)
    modifies b, b.backend
    ensures b.Ready() && b.running && !b.cancelRequested && b.backend.names == old(b.backend.names)
    ensures Sampled(b, before, wakes, polls', at') && k + 1 == Slot(polls', at', |b.programs|)
  {
    NextSlot(polls, at, |b.programs|);
    if at < |b.programs| {
      ReadOne(b, before, wakes, k, polls, at);
      return polls, at + 1;
    }
    WakeUp(b, before, wakes, k, polls, at);
    return polls + 1, 0;
  }

  /** An uncancelled task that is only given readings: it reads the programs in order, from the first to
      the last, sleeps exactly after the last, and starts again at the first; each complete poll adds to
      every program's history its own reading, if that was good, and nothing else is added. */
  method SampleFor(b: Benchmarker, wakes: seq<Wake>) returns (polls: nat, at: nat)
    requires b.Ready() && b.task.Scheduled? && b.running && !b.cancelRequested
    requires wakes != [] && forall k | 0 <= k < |wakes| :: wakes[k].Reads?
    modifies b, b.backend
    ensures b.Ready() && InTurn(b.readIds, |b.programs|) && b.backend.names == old(b.backend.names)
    ensures |wakes| == Slot(polls, at, |b.programs|)
    ensures Sampled(b, old(b.backend.history), wakes, polls, at)
  {
    polls, at := 0, 0;
    ghost var before := b.backend.history;
    assert forall i | 0 <= i < |b.backend.names| :: b.backend.names[i] in b.backend.records;
    b.TaskStep(wakes[0]);
    for k := 1 to |wakes|
      invariant b.Ready() && b.running && !b.cancelRequested && b.backend.names == old(b.backend.names)
      invariant k == Slot(polls, at, |b.programs|)
      invariant Sampled(b, before, wakes, polls, at)
    {
      polls, at := SampleOne(b, before, wakes, k, polls, at);
    }
  }
}
