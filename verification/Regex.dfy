/** A backtracking matcher for the regular expressions in use: all ways to match, in the order in
    which the alternatives are tried. */
module Regex {
  import opened Options

  datatype Class = OneOf(chars: string) | NoneOf(chars: string)

  /** Repetition applies to character classes only; `Opt` tries its body first. */
  datatype Re =
    | Lit(text: string)
    | Plus(cls: Class, greedy: bool)
    | Star(cls: Class)
    | Opt(body: Re)
    | Cat(first: Re, second: Re)
    | Alt(left: Re, right: Re)
    | Group(name: string, body: Re)
    | End

  /** One way to match: where it ends and what its groups captured. */
  datatype Hit = Hit(at: nat, groups: map<string, string>)

  predicate InClass(c: char, cls: Class) {
    match cls
    case OneOf(chars) => c in chars
    case NoneOf(chars) => c !in chars
  }

  predicate AllIn(t: string, cls: Class) {
    forall i | 0 <= i < |t| :: InClass(t[i], cls)
  }

  /** Where the longest run of `cls` from `i` ends. */
  function RunEnd(cls: Class, s: string, i: nat): (e: nat)
    requires i <= |s|
    ensures i <= e <= |s|
    decreases |s| - i
  {
    if i < |s| && InClass(s[i], cls) then RunEnd(cls, s, i + 1) else i
  }

  function Down(hi: nat, lo: nat): (hits: seq<Hit>)
    ensures Ends(hits, lo, hi)
    decreases hi + 1 - lo
  {
    if hi < lo then [] else [Hit(hi, map[])] + if hi == 0 then [] else Down(hi - 1, lo)
  }

  function Up(lo: nat, hi: nat): (hits: seq<Hit>)
    ensures Ends(hits, lo, hi)
    decreases hi + 1 - lo
  {
    if hi < lo then [] else [Hit(lo, map[])] + Up(lo + 1, hi)
  }

  function Merge(a: Hit, b: Hit): Hit {
    Hit(b.at, a.groups + b.groups)
  }

  function MergeAll(a: Hit, hits: seq<Hit>): (merged: seq<Hit>)
    ensures |merged| == |hits| && forall i | 0 <= i < |hits| :: merged[i] == Merge(a, hits[i])
  {
    if hits == [] then [] else [Merge(a, hits[0])] + MergeAll(a, hits[1..])
  }

  function Capture(name: string, s: string, i: nat, hits: seq<Hit>): (captured: seq<Hit>)
    requires i <= |s| && forall h | h in hits :: i <= h.at <= |s|
    ensures |captured| == |hits|
    ensures forall k | 0 <= k < |hits| ::
              captured[k] == Hit(hits[k].at, hits[k].groups[name := s[i..hits[k].at]])
  {
    if hits == [] then []
    else [Hit(hits[0].at, hits[0].groups[name := s[i..hits[0].at]])] + Capture(name, s, i, hits[1..])
  }

  predicate Ends(hits: seq<Hit>, i: nat, n: nat) {
    forall h | h in hits :: i <= h.at <= n
  }

  lemma {:induction false} DownAt(hi: nat, lo: nat)
    ensures |Down(hi, lo)| == if hi < lo then 0 else hi + 1 - lo
    ensures forall k | 0 <= k < |Down(hi, lo)| :: Down(hi, lo)[k] == Hit(hi - k, map[])
    decreases hi + 1 - lo
  {
    if hi < lo || hi == 0 {
    } else {
      DownAt(hi - 1, lo);
    }
  }

  lemma {:induction false} UpAt(lo: nat, hi: nat)
    ensures |Up(lo, hi)| == if hi < lo then 0 else hi + 1 - lo
    ensures forall k | 0 <= k < |Up(lo, hi)| :: Up(lo, hi)[k] == Hit(lo + k, map[])
    decreases hi + 1 - lo
  {
    if hi < lo {
    } else {
      UpAt(lo + 1, hi);
    }
  }

  /** All ways to match `r` from position `i`, the preferred one first. */
  function All(r: Re, s: string, i: nat): (hits: seq<Hit>)
    requires i <= |s|
    ensures Ends(hits, i, |s|)
    decreases r, 0, s
  {
    match r
    case Lit(text) => if i + |text| <= |s| && s[i..i + |text|] == text then [Hit(i + |text|, map[])] else []
    case Plus(cls, greedy) =>
      var e := RunEnd(cls, s, i);
      if greedy then Down(e, i + 1) else Up(i + 1, e)
    case Star(cls) => Down(RunEnd(cls, s, i), i)
    case Opt(body) => All(body, s, i) + [Hit(i, map[])]
    case Cat(first, second) => Then(All(first, s, i), second, s, i)
    case Alt(left, right) => All(left, s, i) + All(right, s, i)
    case Group(name, body) => Capture(name, s, i, All(body, s, i))
    case End => if i == |s| || (i + 1 == |s| && s[i] == '\n') then [Hit(i, map[])] else []
  }

  /** Continues each hit with `second`, in order. */
  function Then(hits: seq<Hit>, second: Re, s: string, i: nat): (all: seq<Hit>)
    requires Ends(hits, i, |s|)
    ensures Ends(all, i, |s|)
    decreases second, 1 + |hits|, s
  {
    if hits == [] then []
    else
      assert hits[0] in hits;
      MergeAll(hits[0], All(second, s, hits[0].at)) + Then(hits[1..], second, s, i)
  }

  /** The first hit, or the first one that ends at `n` when the whole text has to match. */
  function Pick(hits: seq<Hit>, full: bool, n: nat): Option<Hit> {
    if hits == [] then None
    else if !full || hits[0].at == n then Some(hits[0])
    else Pick(hits[1..], full, n)
  }

  function First(r: Re, s: string, i: nat, full: bool): Option<Hit>
    requires i <= |s|
  {
    Pick(All(r, s, i), full, |s|)
  }

  /** `re.match` and `re.fullmatch`: the groups, or nothing. */
  function Match(r: Re, s: string, full: bool): Option<map<string, string>> {
    match First(r, s, 0, full)
    case None => None
    case Some(h) => Some(h.groups)
  }

  // ---- membership ----

  lemma {:induction false} PickIsIn(hits: seq<Hit>, full: bool, n: nat)
    ensures Pick(hits, full, n).Some? ==>
              Pick(hits, full, n).value in hits && (full ==> Pick(hits, full, n).value.at == n)
    ensures Pick(hits, full, n).None? <==> forall h | h in hits :: full && h.at != n
    decreases |hits|
  {
    if hits == [] {
    } else {
      PickIsIn(hits[1..], full, n);
      assert hits[0] in hits;
      assert forall h | h in hits :: h == hits[0] || h in hits[1..];
    }
  }

  lemma {:induction false} PickAppend(a: seq<Hit>, b: seq<Hit>, full: bool, n: nat)
    ensures Pick(a + b, full, n) == if Pick(a, full, n).Some? then Pick(a, full, n) else Pick(b, full, n)
    decreases |a|
  {
    if a == [] {
      assert a + b == b;
    } else {
      assert (a + b)[1..] == a[1..] + b;
      PickAppend(a[1..], b, full, n);
    }
  }

  lemma {:induction false} PickMerged(a: Hit, hits: seq<Hit>, full: bool, n: nat)
    ensures Pick(MergeAll(a, hits), full, n)
         == match Pick(hits, full, n) case None => None case Some(h) => Some(Merge(a, h))
    decreases |hits|
  {
    if hits == [] {
    } else {
      PickMerged(a, hits[1..], full, n);
    }
  }

  lemma InMerged(a: Hit, hits: seq<Hit>, y: Hit)
    requires y in hits
    ensures Merge(a, y) in MergeAll(a, hits)
  {
    var k :| 0 <= k < |hits| && hits[k] == y;
    assert MergeAll(a, hits)[k] == Merge(a, y);
  }

  /** A continued hit is a hit of the concatenation. */
  lemma {:induction false} ThenHas(hits: seq<Hit>, second: Re, s: string, i: nat, x: Hit, y: Hit)
    requires Ends(hits, i, |s|) && x in hits && x.at <= |s| && y in All(second, s, x.at)
    ensures Merge(x, y) in Then(hits, second, s, i)
    decreases |hits|
  {
    assert hits[0] in hits;
    if x == hits[0] {
      InMerged(x, All(second, s, x.at), y);
    } else {
      assert x in hits[1..];
      ThenHas(hits[1..], second, s, i, x, y);
    }
  }

  /** A hit of the concatenation is a continued hit. */
  lemma {:induction false} ThenOnly(hits: seq<Hit>, second: Re, s: string, i: nat, h: Hit) returns (x: Hit, y: Hit)
    requires Ends(hits, i, |s|) && h in Then(hits, second, s, i)
    ensures x in hits && x.at <= |s| && y in All(second, s, x.at) && h == Merge(x, y)
    decreases |hits|
  {
    assert hits[0] in hits;
    x := hits[0];
    var inner := All(second, s, x.at);
    var head := MergeAll(x, inner);
    if h in head {
      var k :| 0 <= k < |head| && head[k] == h;
      y := inner[k];
    } else {
      x, y := ThenOnly(hits[1..], second, s, i, h);
    }
  }

  /** The first hit decides, if it can be continued, and otherwise the others do. */
  lemma ThenStep(hits: seq<Hit>, second: Re, s: string, i: nat, full: bool)
    requires Ends(hits, i, |s|) && hits != [] && hits[0].at <= |s|
    ensures var first := First(second, s, hits[0].at, full);
            Pick(Then(hits, second, s, i), full, |s|)
            == if first.Some? then Some(Merge(hits[0], first.value)) else Pick(Then(hits[1..], second, s, i), full, |s|)
  {
    var all := All(second, s, hits[0].at);
    PickMerged(hits[0], all, full, |s|);
    PickAppend(MergeAll(hits[0], all), Then(hits[1..], second, s, i), full, |s|);
  }

  /** A concatenation matches from the first hit of its first part that can be continued. */
  lemma {:induction false} FirstThen(hits: seq<Hit>, second: Re, s: string, i: nat, full: bool, k: nat)
    requires Ends(hits, i, |s|) && k < |hits|
    requires forall h | h in hits :: h.at <= |s|
    requires forall j | 0 <= j < k :: First(second, s, hits[j].at, full).None?
    requires First(second, s, hits[k].at, full).Some?
    ensures Pick(Then(hits, second, s, i), full, |s|)
         == Some(Merge(hits[k], First(second, s, hits[k].at, full).value))
    decreases k
  {
    ThenStep(hits, second, s, i, full);
    if k == 0 {
    } else {
      FirstThen(hits[1..], second, s, i, full, k - 1);
    }
  }

  lemma {:induction false} NoneThen(hits: seq<Hit>, second: Re, s: string, i: nat, full: bool)
    requires Ends(hits, i, |s|)
    requires forall h | h in hits :: h.at <= |s| && First(second, s, h.at, full).None?
    ensures Pick(Then(hits, second, s, i), full, |s|).None?
    decreases |hits|
  {
    if hits == [] {
    } else {
      assert hits[0] in hits;
      ThenStep(hits, second, s, i, full);
      NoneThen(hits[1..], second, s, i, full);
    }
  }

  /** Where the first match of a concatenation comes from. */
  lemma FirstSplits(hits: seq<Hit>, second: Re, s: string, i: nat, full: bool) returns (k: nat)
    requires Ends(hits, i, |s|) && Pick(Then(hits, second, s, i), full, |s|).Some?
    ensures k < |hits| && hits[k].at <= |s|
    ensures First(second, s, hits[k].at, full).Some?
    ensures Pick(Then(hits, second, s, i), full, |s|)
         == Some(Merge(hits[k], First(second, s, hits[k].at, full).value))
    ensures forall j | 0 <= j < k :: hits[j].at <= |s| && First(second, s, hits[j].at, full).None?
  {
    assert forall h | h in hits :: h.at <= |s|;
    k := FirstContinued(hits, second, s, full);
    if k == |hits| {
      NoneThen(hits, second, s, i, full);
      assert false;
    } else {
      FirstThen(hits, second, s, i, full, k);
    }
  }

  /** The first hit that can be continued, if there is one. */
  lemma FirstContinued(hits: seq<Hit>, second: Re, s: string, full: bool) returns (k: nat)
    requires forall h | h in hits :: h.at <= |s|
    ensures k <= |hits| && forall j | 0 <= j < k :: First(second, s, hits[j].at, full).None?
    ensures k < |hits| ==> First(second, s, hits[k].at, full).Some?
  {
    k := 0;
    while k < |hits| && First(second, s, hits[k].at, full).None?
      invariant k <= |hits|
      invariant forall j | 0 <= j < k :: First(second, s, hits[j].at, full).None?
    {
      k := k + 1;
    }
  }

  /** The hits of a repeated class: every end of a non-empty part of the run. */
  lemma PlusHits(cls: Class, greedy: bool, s: string, i: nat)
    requires i <= |s|
    ensures var hits, e := All(Plus(cls, greedy), s, i), RunEnd(cls, s, i);
            && |hits| == e - i
            && forall k | 0 <= k < |hits| :: hits[k] == Hit(if greedy then e - k else i + 1 + k, map[])
  {
    DownAt(RunEnd(cls, s, i), i + 1);
    UpAt(i + 1, RunEnd(cls, s, i));
  }

  lemma {:induction false} RunStops(cls: Class, s: string, i: nat)
    requires i <= |s|
    ensures var e := RunEnd(cls, s, i);
            AllIn(s[i..e], cls) && (e < |s| ==> !InClass(s[e], cls))
    decreases |s| - i
  {
    if i == |s| || !InClass(s[i], cls) {
    } else {
      RunStops(cls, s, i + 1);
      var e := RunEnd(cls, s, i + 1);
      assert s[i..e] == [s[i]] + s[i + 1..e];
    }
  }

  lemma RunCovers(cls: Class, s: string, i: nat, j: nat)
    requires i <= j <= |s|
    ensures AllIn(s[i..j], cls) <==> j <= RunEnd(cls, s, i)
  {
    var e := RunEnd(cls, s, i);
    RunStops(cls, s, i);
    if j <= e {
      assert forall k | 0 <= k < j - i :: s[i..j][k] == s[i..e][k];
    } else {
      assert s[i..j][e - i] == s[e];
    }
  }

  lemma InPlus(cls: Class, greedy: bool, s: string, i: nat, h: Hit)
    requires i <= |s|
    ensures h in All(Plus(cls, greedy), s, i) <==>
            i < h.at <= |s| && AllIn(s[i..h.at], cls) && h.groups == map[]
  {
    PlusHits(cls, greedy, s, i);
    var hits, e := All(Plus(cls, greedy), s, i), RunEnd(cls, s, i);
    if i < h.at <= |s| {
      RunCovers(cls, s, i, h.at);
      if h.at <= e && h.groups == map[] {
        assert hits[if greedy then e - h.at else h.at - i - 1] == h;
      }
    }
    if h in hits {
      RunCovers(cls, s, i, h.at);
    }
  }

  /** The same, captured. */
  lemma GroupPlusHits(name: string, cls: Class, greedy: bool, s: string, i: nat)
    requires i <= |s|
    ensures var hits, e := All(Group(name, Plus(cls, greedy)), s, i), RunEnd(cls, s, i);
            && |hits| == e - i
            && forall k | 0 <= k < |hits| ::
                 var at := if greedy then e - k else i + 1 + k;
                 hits[k] == Hit(at, map[name := s[i..at]])
  {
    PlusHits(cls, greedy, s, i);
  }

  lemma StarHits(cls: Class, s: string, i: nat)
    requires i <= |s|
    ensures var hits, e := All(Star(cls), s, i), RunEnd(cls, s, i);
            && |hits| == e - i + 1
            && forall k | 0 <= k < |hits| :: hits[k] == Hit(e - k, map[])
  {
    DownAt(RunEnd(cls, s, i), i);
  }

  lemma GroupOnly(name: string, body: Re, s: string, i: nat, h: Hit) returns (x: Hit)
    requires i <= |s| && h in All(Group(name, body), s, i)
    ensures x in All(body, s, i) && i <= x.at <= |s| && h == Hit(x.at, x.groups[name := s[i..x.at]])
  {
    var inner, outer := All(body, s, i), All(Group(name, body), s, i);
    var k :| 0 <= k < |outer| && outer[k] == h;
    x := inner[k];
  }

  lemma GroupHas(name: string, body: Re, s: string, i: nat, x: Hit)
    requires i <= |s| && x in All(body, s, i) && i <= x.at <= |s|
    ensures Hit(x.at, x.groups[name := s[i..x.at]]) in All(Group(name, body), s, i)
  {
    var inner, outer := All(body, s, i), All(Group(name, body), s, i);
    var k :| 0 <= k < |inner| && inner[k] == x;
    assert outer[k] == Hit(x.at, x.groups[name := s[i..x.at]]);
  }

  lemma CatHas(a: Re, b: Re, s: string, i: nat, x: Hit, y: Hit)
    requires i <= |s| && x in All(a, s, i) && x.at <= |s| && y in All(b, s, x.at)
    ensures Merge(x, y) in All(Cat(a, b), s, i)
  {
    ThenHas(All(a, s, i), b, s, i, x, y);
  }

  lemma CatOnly(a: Re, b: Re, s: string, i: nat, h: Hit) returns (x: Hit, y: Hit)
    requires i <= |s| && h in All(Cat(a, b), s, i)
    ensures x in All(a, s, i) && i <= x.at <= |s| && y in All(b, s, x.at) && h == Merge(x, y)
  {
    x, y := ThenOnly(All(a, s, i), b, s, i, h);
  }

  lemma StarIn(cls: Class, s: string, i: nat, h: Hit)
    requires i <= |s|
    ensures h in All(Star(cls), s, i) <==> i <= h.at <= |s| && AllIn(s[i..h.at], cls) && h.groups == map[]
  {
    StarHits(cls, s, i);
    var hits, e := All(Star(cls), s, i), RunEnd(cls, s, i);
    if i <= h.at <= |s| {
      RunCovers(cls, s, i, h.at);
      if h.at <= e && h.groups == map[] {
        assert hits[e - h.at] == h;
      }
    }
    if h in hits {
      RunCovers(cls, s, i, h.at);
    }
  }

  // ---- which ends can be reached ----

  /** Some way to match `r` from `i` ends at `e`. */
  ghost predicate Reaches(r: Re, s: string, i: nat, e: nat) {
    i <= e <= |s| && exists h :: h in All(r, s, i) && h.at == e
  }

  lemma ReachLit(text: string, s: string, i: nat)
    requires i + |text| <= |s| && s[i..i + |text|] == text
    ensures Reaches(Lit(text), s, i, i + |text|)
  {
    LitIn(text, s, i);
  }

  lemma ReachPlus(cls: Class, s: string, i: nat, e: nat)
    requires i < e <= |s| && AllIn(s[i..e], cls)
    ensures Reaches(Plus(cls, true), s, i, e)
  {
    InPlus(cls, true, s, i, Hit(e, map[]));
  }

  lemma ReachStar(cls: Class, s: string, i: nat, e: nat)
    requires i <= e <= |s| && AllIn(s[i..e], cls)
    ensures Reaches(Star(cls), s, i, e)
  {
    StarIn(cls, s, i, Hit(e, map[]));
  }

  lemma ReachEnd(s: string)
    ensures Reaches(End, s, |s|, |s|)
  {
    assert All(End, s, |s|) == [Hit(|s|, map[])];
  }

  lemma ReachGroup(name: string, body: Re, s: string, i: nat, e: nat)
    requires Reaches(body, s, i, e)
    ensures Reaches(Group(name, body), s, i, e)
  {
    var x :| x in All(body, s, i) && x.at == e;
    GroupHas(name, body, s, i, x);
  }

  lemma ReachCat(a: Re, b: Re, s: string, i: nat, j: nat, e: nat)
    requires Reaches(a, s, i, j) && Reaches(b, s, j, e)
    ensures Reaches(Cat(a, b), s, i, e)
  {
    var x :| x in All(a, s, i) && x.at == j;
    var y :| y in All(b, s, j) && y.at == e;
    CatHas(a, b, s, i, x, y);
    assert Merge(x, y).at == e;
  }

  lemma ReachAlt(a: Re, b: Re, s: string, i: nat, e: nat)
    requires Reaches(a, s, i, e) || Reaches(b, s, i, e)
    ensures Reaches(Alt(a, b), s, i, e)
  {
    var x :| (x in All(a, s, i) || x in All(b, s, i)) && x.at == e;
    assert x in All(a, s, i) + All(b, s, i);
  }

  lemma ReachOpt(body: Re, s: string, i: nat, e: nat)
    requires i <= |s| && (e == i || Reaches(body, s, i, e))
    ensures Reaches(Opt(body), s, i, e)
  {
    if e == i {
      assert Hit(i, map[]) in All(Opt(body), s, i);
    } else {
      var x :| x in All(body, s, i) && x.at == e;
      assert x in All(Opt(body), s, i);
    }
  }

  // ---- concatenations with any rest ----

  /** The hits of a captured lazy run, by their ends. */
  lemma LazyHits(name: string, cls: Class, s: string, i: nat, e: nat) returns (hits: seq<Hit>)
    requires i < e <= |s| && AllIn(s[i..e], cls)
    ensures hits == All(Group(name, Plus(cls, false)), s, i) && e - i <= |hits|
    ensures hits[e - i - 1] == Hit(e, map[name := s[i..e]])
    ensures forall j | 0 <= j < e - i - 1 :: hits[j].at == i + 1 + j
  {
    hits := All(Group(name, Plus(cls, false)), s, i);
    GroupPlusHits(name, cls, false, s, i);
    RunCovers(cls, s, i, e);
  }

  /** A lazy group ends at the first place from which the rest matches. */
  lemma LazyGroup(name: string, cls: Class, rest: Re, s: string, i: nat, e: nat)
    requires i < e <= |s| && AllIn(s[i..e], cls)
    requires forall q: nat | i < q < e :: First(rest, s, q, false).None?
    requires First(rest, s, e, false).Some?
    ensures First(Cat(Group(name, Plus(cls, false)), rest), s, i, false)
         == Some(Merge(Hit(e, map[name := s[i..e]]), First(rest, s, e, false).value))
  {
    var hits := LazyHits(name, cls, s, i, e);
    FirstThen(hits, rest, s, i, false, e - i - 1);
    FirstOfCat(Group(name, Plus(cls, false)), rest, s, i, false);
  }

  lemma FirstOfCat(a: Re, b: Re, s: string, i: nat, full: bool)
    requires i <= |s|
    ensures First(Cat(a, b), s, i, full) == Pick(Then(All(a, s, i), b, s, i), full, |s|)
  {
    assert All(Cat(a, b), s, i) == Then(All(a, s, i), b, s, i);
  }

  /** A hit that can be continued makes the concatenation match. */
  lemma {:induction false} ContinuedHit(hits: seq<Hit>, x: Hit, rest: Re, s: string, i: nat)
    requires Ends(hits, i, |s|) && x in hits && x.at <= |s| && First(rest, s, x.at, false).Some?
    ensures Pick(Then(hits, rest, s, i), false, |s|).Some?
  {
    PickIsIn(All(rest, s, x.at), false, |s|);
    ThenHas(hits, rest, s, i, x, First(rest, s, x.at, false).value);
    PickIsIn(Then(hits, rest, s, i), false, |s|);
  }

  /** A lazy group and its rest match somewhere if the rest matches from some end of the group. */
  lemma LazyGroupMatches(name: string, cls: Class, rest: Re, s: string, i: nat, e: nat)
    requires i < e <= |s| && AllIn(s[i..e], cls) && First(rest, s, e, false).Some?
    ensures First(Cat(Group(name, Plus(cls, false)), rest), s, i, false).Some?
  {
    var hits := All(Group(name, Plus(cls, false)), s, i);
    GroupPlusHits(name, cls, false, s, i);
    RunCovers(cls, s, i, e);
    ContinuedHit(hits, hits[e - i - 1], rest, s, i);
  }

  lemma EmptyGroupDoesNotMatch(name: string, cls: Class, rest: Re, s: string)
    ensures First(Cat(Group(name, Plus(cls, false)), rest), s, |s|, false).None?
  {
    GroupPlusHits(name, cls, false, s, |s|);
    NoneThen([], rest, s, |s|, false);
  }

  ghost predicate Decreasing(hits: seq<Hit>) {
    forall j, k | 0 <= j < k < |hits| :: hits[k].at < hits[j].at
  }

  lemma LitOnly(text: string, s: string, i: nat, h: Hit)
    requires i <= |s| && h in All(Lit(text), s, i)
    ensures h == Hit(i + |text|, map[]) && i + |text| <= |s| && s[i..i + |text|] == text
  {
  }

  lemma LitHit(text: string, s: string, i: nat)
    requires i <= |s|
    ensures |All(Lit(text), s, i)| <= 1
    ensures forall h | h in All(Lit(text), s, i) ::
              h == Hit(i + |text|, map[]) && i + |text| <= |s| && s[i..i + |text|] == text
  {
  }

  lemma GroupRunOnly(name: string, cls: Class, s: string, i: nat, h: Hit)
    requires i <= |s| && h in All(Group(name, Plus(cls, true)), s, i)
    ensures i < h.at <= |s| && AllIn(s[i..h.at], cls) && h.groups == map[name := s[i..h.at]]
  {
    var run := GroupOnly(name, Plus(cls, true), s, i, h);
    InPlus(cls, true, s, i, run);
  }

  lemma GroupKey(name: string, cls: Class, greedy: bool, s: string, i: nat, h: Hit)
    requires i <= |s| && h in All(Group(name, Plus(cls, greedy)), s, i)
    ensures i <= h.at <= |s| && h.groups.Keys == {name}
  {
    GroupPlusHits(name, cls, greedy, s, i);
  }

  lemma MergedAfterLit(x: Hit, y: Hit)
    requires x.groups == map[]
    ensures Merge(x, y) == y
  {
  }

  lemma LitThenRun(text: string, name: string, cls: Class, s: string, i: nat, x: Hit, y: Hit)
    requires i <= |s| && x in All(Lit(text), s, i) && x.at <= |s| && y in All(Group(name, Plus(cls, true)), s, x.at)
    ensures i + |text| < y.at <= |s| && s[i..i + |text|] == text && AllIn(s[i + |text|..y.at], cls)
    ensures Merge(x, y) == Hit(y.at, map[name := s[i + |text|..y.at]])
  {
    LitOnly(text, s, i, x);
    GroupRunOnly(name, cls, s, x.at, y);
    MergedAfterLit(x, y);
  }

  lemma LitGroupOnly(text: string, name: string, cls: Class, s: string, i: nat, h: Hit)
    requires i <= |s| && h in All(Cat(Lit(text), Group(name, Plus(cls, true))), s, i)
    ensures i + |text| < h.at <= |s| && s[i..i + |text|] == text && AllIn(s[i + |text|..h.at], cls)
    ensures h.groups == map[name := s[i + |text|..h.at]]
  {
    var x, y := CatOnly(Lit(text), Group(name, Plus(cls, true)), s, i, h);
    LitThenRun(text, name, cls, s, i, x, y);
  }

  lemma LitIn(text: string, s: string, i: nat)
    requires i + |text| <= |s| && s[i..i + |text|] == text
    ensures Hit(i + |text|, map[]) in All(Lit(text), s, i)
  {
  }

  lemma {:induction false} LitKeepsOrder(hits: seq<Hit>, text: string, s: string)
    requires Ends(hits, 0, |s|) && Decreasing(hits)
    ensures Decreasing(Then(hits, Lit(text), s, 0))
    decreases |hits|
  {
    if hits == [] {
    } else {
      assert hits[0] in hits;
      LitHit(text, s, hits[0].at);
      var head := MergeAll(hits[0], All(Lit(text), s, hits[0].at));
      var tail := Then(hits[1..], Lit(text), s, 0);
      LitKeepsOrder(hits[1..], text, s);
      forall k | 0 <= k < |tail|
        ensures tail[k].at < hits[0].at + |text|
      {
        var x, y := ThenOnly(hits[1..], Lit(text), s, 0, tail[k]);
        LitOnly(text, s, x.at, y);
      }
      DecreasingAppend(head, tail);
    }
  }

  lemma DecreasingAppend(a: seq<Hit>, b: seq<Hit>)
    requires |a| <= 1 && Decreasing(b) && (a != [] ==> forall k | 0 <= k < |b| :: b[k].at < a[0].at)
    ensures Decreasing(a + b)
  {
  }

  lemma MergeEmpty(x: Hit, at: nat)
    ensures Merge(x, Hit(at, map[])) == Hit(at, x.groups)
  {
  }

  /** The literal starts at `q`, which is an end of the run. */
  predicate LitAt(cls: Class, text: string, s: string, q: nat) {
    0 < q <= RunEnd(cls, s, 0) && q + |text| <= |s| && s[q..q + |text|] == text
  }

  function NamedHit(name: string, text: string, s: string, q: nat): Hit
    requires q <= |s|
  {
    Merge(Hit(q, map[name := s[0..q]]), Hit(q + |text|, map[]))
  }

  /** The hits of a captured greedy run, by their ends. */
  lemma InRuns(name: string, cls: Class, s: string, x: Hit)
    ensures x in All(Group(name, Plus(cls, true)), s, 0) <==>
            0 < x.at <= RunEnd(cls, s, 0) && x == Hit(x.at, map[name := s[0..x.at]])
  {
    var runs, e := All(Group(name, Plus(cls, true)), s, 0), RunEnd(cls, s, 0);
    GroupPlusHits(name, cls, true, s, 0);
    if 0 < x.at <= e && x == Hit(x.at, map[name := s[0..x.at]]) {
      assert runs[e - x.at] == x;
    }
  }

  lemma RunThenLitOnly(name: string, cls: Class, text: string, s: string, h: Hit) returns (q: nat)
    requires h in All(Cat(Group(name, Plus(cls, true)), Lit(text)), s, 0)
    ensures LitAt(cls, text, s, q) && h == NamedHit(name, text, s, q)
  {
    var runs := All(Group(name, Plus(cls, true)), s, 0);
    var x, y := ThenOnly(runs, Lit(text), s, 0, h);
    InRuns(name, cls, s, x);
    LitOnly(text, s, x.at, y);
    q := x.at;
  }

  lemma RunThenLitAll(name: string, cls: Class, text: string, s: string, q: nat)
    requires LitAt(cls, text, s, q)
    ensures NamedHit(name, text, s, q) in All(Cat(Group(name, Plus(cls, true)), Lit(text)), s, 0)
  {
    var runs := All(Group(name, Plus(cls, true)), s, 0);
    var x, y := Hit(q, map[name := s[0..q]]), Hit(q + |text|, map[]);
    InRuns(name, cls, s, x);
    LitIn(text, s, q);
    ThenHas(runs, Lit(text), s, 0, x, y);
  }

  /** A captured greedy run before a literal: every place where the literal starts, last one first. */
  lemma RunThenLitOrder(name: string, cls: Class, text: string, s: string)
    ensures Decreasing(All(Cat(Group(name, Plus(cls, true)), Lit(text)), s, 0))
  {
    var runs := All(Group(name, Plus(cls, true)), s, 0);
    GroupPlusHits(name, cls, true, s, 0);
    LitKeepsOrder(runs, text, s);
  }
}
