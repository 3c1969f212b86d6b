/** The version string of a snap in the store: how it is printed and how it is matched. */
module SnapVersion {
  import opened Options
  import opened Sequences
  import opened Regex

  const ANY := NoneOf("\n")
  const MIR := "-mir"
  const SNAP := "-snap"

  // Perhaps a server, as much as possible, before the marker; then the mir version, as little as
  // possible; then perhaps the snap's own version after its marker.
  const SERVER_RE := Cat(Group("server", Plus(ANY, true)), Lit(MIR))
  const SNAP_PART_RE := Cat(Lit(SNAP), Group("snap", Plus(ANY, true)))
  const SNAP_END_RE := Cat(Opt(SNAP_PART_RE), End)
  const MIR_END_RE := Cat(Group("mir", Plus(ANY, false)), SNAP_END_RE)
  const SNAP_VERSION_RE := Cat(Opt(SERVER_RE), MIR_END_RE)

  predicate OneLine(t: string) {
    '\n' !in t
  }

  predicate DashFree(t: string) {
    '-' !in t
  }

  /** A version string from its parts. */
  function Print(server: Option<string>, mir: string, snap: Option<string>): string {
    Prefix(server) + mir + Suffix(snap)
  }

  function Prefix(server: Option<string>): string {
    match server
    case None => ""
    case Some(name) => name + MIR
  }

  function Suffix(snap: Option<string>): string {
    match snap
    case None => ""
    case Some(tag) => SNAP + tag
  }

  function Groups(server: Option<string>, mir: string, snap: Option<string>): map<string, string> {
    (if server.Some? then map["server" := server.value] else map[])
    + map["mir" := mir]
    + (if snap.Some? then map["snap" := snap.value] else map[])
  }

  /** The server, the mir version and the snap's own version, with their markers. */
  lemma PrintedText(server: string, mir: string, snap: string)
    ensures Print(Some(server), mir, Some(snap)) == server + "-mir" + mir + "-snap" + snap
    ensures Print(Some(server), mir, None) == server + "-mir" + mir
    ensures Print(None, mir, Some(snap)) == mir + "-snap" + snap
    ensures Print(None, mir, None) == mir
  {
    assert Prefix(None) + mir == mir;
  }

  /** "-mir" starts at `q`. */
  predicate MirAt(t: string, q: nat) {
    q + |MIR| <= |t| && t[q..q + |MIR|] == MIR
  }

  predicate SnapAt(t: string, q: nat) {
    q + |SNAP| <= |t| && t[q..q + |SNAP|] == SNAP
  }

  /** "-mir" followed by a further character. */
  ghost predicate MirInside(t: string) {
    exists q: nat :: MirAt(t, q) && q + |MIR| < |t|
  }

  predicate ServerOk(server: Option<string>) {
    server.Some? ==> server.value != "" && OneLine(server.value)
  }

  ghost predicate SnapOk(snap: Option<string>) {
    snap.Some? ==> snap.value != "" && OneLine(snap.value) && !MirInside(snap.value)
  }

  // ---- the end of the expression ----

  lemma WholeRun(t: string, i: nat)
    requires OneLine(t) && i <= |t|
    ensures RunEnd(ANY, t, i) == |t|
  {
    RunCovers(ANY, t, i, |t|);
  }

  lemma EndHits(t: string, i: nat)
    requires OneLine(t) && i <= |t|
    ensures All(End, t, i) == if i == |t| then [Hit(i, map[])] else []
  {
  }

  /** The greedy group takes everything that is left. */
  lemma SnapGroupHits(t: string, i: nat)
    requires OneLine(t) && i <= |t|
    ensures var hits := All(Group("snap", Plus(ANY, true)), t, i);
            && |hits| == |t| - i
            && (i < |t| ==> hits[0] == Hit(|t|, map["snap" := t[i..]]))
  {
    WholeRun(t, i);
    GroupPlusHits("snap", ANY, true, t, i);
    DropIsSlice(t, i);
  }

  lemma DropIsSlice(t: string, i: nat)
    requires i <= |t|
    ensures t[i..|t|] == t[i..]
  {
  }

  lemma SnapPartHits(t: string, i: nat)
    requires OneLine(t) && i <= |t|
    ensures var hits := All(SNAP_PART_RE, t, i);
            && (SnapAt(t, i) && i + |SNAP| < |t| ==> hits != [] && hits[0] == Hit(|t|, map["snap" := t[i + |SNAP|..]]))
            && (!SnapAt(t, i) || i + |SNAP| == |t| ==> hits == [])
  {
    var lits := All(Lit(SNAP), t, i);
    if SnapAt(t, i) {
      assert lits == [Hit(i + |SNAP|, map[])];
      SnapGroupHits(t, i + |SNAP|);
      var inner := All(Group("snap", Plus(ANY, true)), t, i + |SNAP|);
      assert Then(lits[1..], Group("snap", Plus(ANY, true)), t, i) == [];
      assert All(SNAP_PART_RE, t, i) == MergeAll(lits[0], inner) + [];
      if inner != [] {
        assert map[] + inner[0].groups == inner[0].groups;
      }
    } else {
      assert lits == [];
    }
  }

  /** What follows the mir group: the whole rest as "-snap" and a tag, or nothing at all. */
  lemma SnapEnd(t: string, i: nat)
    requires OneLine(t) && i <= |t|
    ensures First(SNAP_END_RE, t, i, false) ==
            if SnapAt(t, i) && i + |SNAP| < |t| then Some(Hit(|t|, map["snap" := t[i + |SNAP|..]]))
            else if i == |t| then Some(Hit(i, map[]))
            else None
  {
    var hits := All(Opt(SNAP_PART_RE), t, i);
    SnapPartHits(t, i);
    EndHits(t, i);
    EndHits(t, |t|);
    if SnapAt(t, i) && i + |SNAP| < |t| {
      assert hits[0] == Hit(|t|, map["snap" := t[i + |SNAP|..]]);
      FirstThen(hits, End, t, i, false, 0);
      assert hits[0].groups + map[] == hits[0].groups;
    } else {
      assert hits == [Hit(i, map[])];
      if i == |t| {
        FirstThen(hits, End, t, i, false, 0);
      } else {
        NoneThen(hits, End, t, i, false);
      }
    }
  }

  /** The rest of the expression matches any non-empty rest of the string, and no empty one. */
  lemma MirEndMatches(t: string, i: nat)
    requires OneLine(t) && i <= |t|
    ensures First(MIR_END_RE, t, i, false).Some? <==> i < |t|
  {
    SnapEnd(t, |t|);
    if i < |t| {
      RunCovers(ANY, t, i, |t|);
      LazyGroupMatches("mir", ANY, SNAP_END_RE, t, i, |t|);
    } else {
      EmptyGroupDoesNotMatch("mir", ANY, SNAP_END_RE, t);
    }
  }

  /** "-snap" does not start inside a dash-free part. */
  lemma NoSnapInside(before: string, mir: string, after: string, q: nat)
    requires DashFree(mir) && |before| <= q < |before + mir|
    ensures !SnapAt(before + mir + after, q)
  {
    var t := before + mir + after;
    SnapAtDash(t, q);
    assert t[q] == mir[q - |before|];
  }

  lemma SnapAtDash(t: string, q: nat)
    ensures SnapAt(t, q) ==> q < |t| && t[q] == '-'
  {
    assert SnapAt(t, q) ==> t[q] == t[q..q + |SNAP|][0];
  }

  /** What is left after the mir version is its suffix. */
  lemma SuffixIsLeft(before: string, mir: string, snap: Option<string>)
    ensures var t, e := before + mir + Suffix(snap), |before + mir|;
            && t[|before|..e] == mir
            && (snap.None? ==> e == |t|)
            && (snap.Some? ==> SnapAt(t, e) && t[e + |SNAP|..] == snap.value)
  {
  }

  lemma NoEndInside(before: string, mir: string, after: string)
    requires DashFree(mir) && OneLine(before + mir + after)
    ensures forall q: nat | |before| < q < |before + mir| :: First(SNAP_END_RE, before + mir + after, q, false).None?
  {
    forall q: nat | |before| < q < |before + mir|
      ensures First(SNAP_END_RE, before + mir + after, q, false).None?
    {
      NoSnapInside(before, mir, after, q);
      SnapEnd(before + mir + after, q);
    }
  }

  /** What the expression captures after the server. */
  function MirHit(e: nat, mir: string): Hit {
    Hit(e, map["mir" := mir])
  }

  function TagHit(n: nat, snap: Option<string>): Hit {
    Hit(n, if snap.Some? then map["snap" := snap.value] else map[])
  }

  lemma TagIsMatched(before: string, mir: string, snap: Option<string>)
    requires snap.Some? ==> snap.value != ""
    requires OneLine(before + mir + Suffix(snap))
    ensures var t, e := before + mir + Suffix(snap), |before + mir|;
            First(SNAP_END_RE, t, e, false) == Some(TagHit(|t|, snap))
  {
    SuffixIsLeft(before, mir, snap);
    SnapEnd(before + mir + Suffix(snap), |before + mir|);
  }

  /** The lazy group stops at the first place where the rest can be matched. */
  lemma MirEndExact(before: string, mir: string, snap: Option<string>)
    requires mir != "" && DashFree(mir) && (snap.Some? ==> snap.value != "")
    requires OneLine(before + mir + Suffix(snap))
    ensures var t, e := before + mir + Suffix(snap), |before + mir|;
            First(MIR_END_RE, t, |before|, false) == Some(Merge(MirHit(e, mir), TagHit(|t|, snap)))
  {
    var t, i := before + mir + Suffix(snap), |before|;
    var e := |before + mir|;
    NoEndInside(before, mir, Suffix(snap));
    SuffixIsLeft(before, mir, snap);
    TagIsMatched(before, mir, snap);
    LazyGroup("mir", ANY, SNAP_END_RE, t, i, e);
  }

  // ---- the server group ----

  /** The server taken by a "-mir" at `q`, or none. */
  function ServerHit(t: string, q: Option<nat>): Hit
    requires q.Some? ==> q.value <= |t|
  {
    if q.Some? then NamedHit("server", MIR, t, q.value) else Hit(0, map[])
  }

  /** Over an optional server and a rest that matches exactly the non-empty remainders: the last
      "-mir" that has something on both sides is taken, if there is one. */
  lemma OptionalServer(t: string, rest: Re) returns (q: Option<nat>)
    requires OneLine(t) && t != ""
    requires forall i: nat | i <= |t| :: First(rest, t, i, false).Some? <==> i < |t|
    ensures q.Some? ==> 0 < q.value && MirAt(t, q.value) && q.value + |MIR| < |t|
    ensures forall p: nat | 0 < p && MirAt(t, p) && p + |MIR| < |t| :: q.Some? && p <= q.value
    ensures First(Cat(Opt(SERVER_RE), rest), t, 0, false)
         == Some(Merge(ServerHit(t, q), First(rest, t, ServerHit(t, q).at, false).value))
  {
    var servers := All(SERVER_RE, t, 0);
    var p := OptionalPart(SERVER_RE, rest, t);
    q := None;
    if p < |servers| {
      var r := RunThenLitOnly("server", ANY, MIR, t, servers[p]);
      q := Some(r);
    }
    forall o: nat | 0 < o && MirAt(t, o) && o + |MIR| < |t|
      ensures q.Some? && o <= q.value
    {
      LaterServer(t, p, o);
    }
  }

  /** A "-mir" with something on both sides is not after the first server that leaves something. */
  lemma LaterServer(t: string, p: nat, o: nat)
    requires OneLine(t) && 0 < o && MirAt(t, o) && o + |MIR| < |t|
    requires p <= |All(SERVER_RE, t, 0)| && forall j | 0 <= j < p :: All(SERVER_RE, t, 0)[j].at == |t|
    ensures p < |All(SERVER_RE, t, 0)| && o + |MIR| <= All(SERVER_RE, t, 0)[p].at
  {
    var servers := All(SERVER_RE, t, 0);
    RunThenLitOrder("server", ANY, MIR, t);
    WholeRun(t, 0);
    RunThenLitAll("server", ANY, MIR, t, o);
    var j :| 0 <= j < |servers| && servers[j] == NamedHit("server", MIR, t, o);
  }

  /** An optional part before a rest that matches the non-empty remainders: its first hit that leaves
      something, or none of it. */
  lemma OptionalPart(part: Re, rest: Re, t: string) returns (p: nat)
    requires t != ""
    requires forall i: nat | i <= |t| :: First(rest, t, i, false).Some? <==> i < |t|
    ensures var hits := All(part, t, 0);
            && p <= |hits| && (forall j | 0 <= j < p :: hits[j].at == |t|)
            && (p < |hits| ==> hits[p].at < |t|)
            && var hit := if p < |hits| then hits[p] else Hit(0, map[]);
               First(Cat(Opt(part), rest), t, 0, false) == Some(Merge(hit, First(rest, t, hit.at, false).value))
  {
    var taken := All(part, t, 0);
    var hits := taken + [Hit(0, map[])];
    assert All(Opt(part), t, 0) == hits;
    p := FirstBelow(taken, |t|);
    OneOfBoth(taken, Hit(0, map[]), p);
    FirstThen(hits, rest, t, 0, false, p);
    FirstOfCat(Opt(part), rest, t, 0, false);
  }

  lemma OneOfBoth<T>(items: seq<T>, last: T, p: nat)
    requires p <= |items|
    ensures (items + [last])[p] == if p < |items| then items[p] else last
    ensures forall j | 0 <= j < p :: (items + [last])[j] == items[j]
  {
  }

  /** The first hit that does not end at `n`. */
  lemma FirstBelow(hits: seq<Hit>, n: nat) returns (p: nat)
    requires Ends(hits, 0, n)
    ensures p <= |hits| && (forall j | 0 <= j < p :: hits[j].at == n)
    ensures p < |hits| ==> hits[p].at < n
  {
    p := 0;
    while p < |hits| && hits[p].at == n
      invariant p <= |hits| && forall j | 0 <= j < p :: hits[j].at == n
    {
      p := p + 1;
    }
    assert p < |hits| ==> hits[p] in hits;
  }

  lemma SnapMatch(t: string) returns (q: Option<nat>)
    requires OneLine(t) && t != ""
    ensures q.Some? ==> 0 < q.value && MirAt(t, q.value) && q.value + |MIR| < |t|
    ensures forall p: nat | 0 < p && MirAt(t, p) && p + |MIR| < |t| :: q.Some? && p <= q.value
    ensures First(MIR_END_RE, t, ServerHit(t, q).at, false).Some?
    ensures Match(SNAP_VERSION_RE, t, false)
         == Some(ServerHit(t, q).groups + First(MIR_END_RE, t, ServerHit(t, q).at, false).value.groups)
  {
    forall i: nat | i <= |t|
      ensures First(MIR_END_RE, t, i, false).Some? <==> i < |t|
    {
      MirEndMatches(t, i);
    }
    q := OptionalServer(t, MIR_END_RE);
  }

  // ---- the round trip ----

  lemma PrintedChar(before: string, mir: string, snap: Option<string>, q: nat)
    requires DashFree(mir) && |before| <= q < |before + mir + Suffix(snap)|
    ensures var t, e := before + mir + Suffix(snap), |before + mir|;
            && (q < e ==> t[q] != '-')
            && (e <= q < e + |SNAP| ==> t[q] == SNAP[q - e])
  {
    var t, e := before + mir + Suffix(snap), |before + mir|;
    if q < e {
      assert t[q] == mir[q - |before|];
    }
  }

  lemma MirAtChars(t: string, q: nat)
    requires MirAt(t, q)
    ensures t[q] == '-' && t[q + 1] == 'm'
  {
    assert t[q] == t[q..q + |MIR|][0] && t[q + 1] == t[q..q + |MIR|][1];
  }

  /** "-mir" starts in the printed mir version and its suffix only inside the tag. */
  lemma LaterMir(before: string, mir: string, snap: Option<string>, q: nat)
    requires DashFree(mir) && |before| <= q && MirAt(before + mir + Suffix(snap), q)
    ensures snap.Some? && |before + mir| + |SNAP| <= q && MirAt(snap.value, q - |before + mir| - |SNAP|)
  {
    var t, e := before + mir + Suffix(snap), |before + mir|;
    SuffixIsLeft(before, mir, snap);
    PrintedChar(before, mir, snap, q);
    PrintedChar(before, mir, snap, q + 1);
    MirAtChars(t, q);
    LaterSlice(t, e + |SNAP|, q, |MIR|);
  }

  /** "-mir" inside the tag is "-mir" inside the printed string. */
  lemma TagMir(before: string, mir: string, tag: string, q: nat)
    requires MirAt(tag, q) && q + |MIR| < |tag|
    ensures var t := before + mir + Suffix(Some(tag));
            var p := |before + mir| + |SNAP| + q;
            MirAt(t, p) && p + |MIR| < |t|
  {
    var t := before + mir + Suffix(Some(tag));
    var p := |before + mir| + |SNAP| + q;
    SuffixIsLeft(before, mir, Some(tag));
    assert t[p..p + |MIR|] == t[|before + mir| + |SNAP|..][q..q + |MIR|];
  }

  /** What a matched group can contain: something, on one line. */
  predicate Clean(groups: map<string, string>, name: string) {
    name in groups ==> groups[name] != "" && OneLine(groups[name])
  }

  lemma OneLineRun(t: string, i: nat, e: nat)
    requires i <= |t| && i < e <= RunEnd(ANY, t, i)
    ensures t[i..e] != "" && OneLine(t[i..e])
  {
    RunCovers(ANY, t, i, e);
  }

  lemma TagIsClean(t: string, i: nat, z: Hit)
    requires i <= |t| && z in All(SNAP_END_RE, t, i)
    ensures z.groups.Keys <= {"snap"} && Clean(z.groups, "snap")
  {
    var w, end := ThenOnly(All(Opt(SNAP_PART_RE), t, i), End, t, i, z);
    EndOnly(t, w.at, end);
    if w in All(SNAP_PART_RE, t, i) {
      PartIsClean(t, i, w);
    }
  }

  lemma EndOnly(t: string, i: nat, end: Hit)
    requires i <= |t| && end in All(End, t, i)
    ensures end == Hit(i, map[])
  {
  }

  lemma PartIsClean(t: string, i: nat, w: Hit)
    requires i <= |t| && w in All(SNAP_PART_RE, t, i)
    ensures w.groups.Keys == {"snap"} && Clean(w.groups, "snap")
  {
    LitGroupOnly(SNAP, "snap", ANY, t, i, w);
    AnyIsOneLine(t[i + |SNAP|..w.at]);
  }

  lemma AnyIsOneLine(t: string)
    requires AllIn(t, ANY)
    ensures OneLine(t)
  {
  }

  lemma RestIsClean(t: string, i: nat, y: Hit)
    requires i <= |t| && y in All(MIR_END_RE, t, i)
    ensures "server" !in y.groups && Clean(y.groups, "snap")
  {
    var m, z := ThenOnly(All(Group("mir", Plus(ANY, false)), t, i), SNAP_END_RE, t, i, y);
    GroupKey("mir", ANY, false, t, i, m);
    TagIsClean(t, m.at, z);
    MergedIsClean(m, z);
  }

  lemma MergedIsClean(m: Hit, z: Hit)
    requires m.groups.Keys == {"mir"} && z.groups.Keys <= {"snap"} && Clean(z.groups, "snap")
    ensures "server" !in Merge(m, z).groups && Clean(Merge(m, z).groups, "snap")
  {
  }

  lemma MatchIsClean(t: string)
    requires Match(SNAP_VERSION_RE, t, false).Some?
    ensures var groups := Match(SNAP_VERSION_RE, t, false).value;
            Clean(groups, "server") && Clean(groups, "snap")
  {
    PickIsIn(All(SNAP_VERSION_RE, t, 0), false, |t|);
    var h := First(SNAP_VERSION_RE, t, 0, false).value;
    var x, y := ThenOnly(All(Opt(SERVER_RE), t, 0), MIR_END_RE, t, 0, h);
    RestIsClean(t, x.at, y);
    if x in All(SERVER_RE, t, 0) {
      var q := RunThenLitOnly("server", ANY, MIR, t, x);
      OneLineRun(t, 0, q);
    }
  }

  lemma AllGroups(server: Option<string>, mir: string, snap: Option<string>, e: nat, n: nat)
    ensures (if server.Some? then map["server" := server.value] else map[])
            + Merge(MirHit(e, mir), TagHit(n, snap)).groups
         == Groups(server, mir, snap)
  {
  }

  /** A "-mir" behind the server of a printed version can only be inside the tag. */
  lemma LastMir(server: Option<string>, mir: string, snap: Option<string>, q: nat)
    requires DashFree(mir) && ServerOk(server) && SnapOk(snap)
    requires 0 < q && MirAt(Print(server, mir, snap), q) && q + |MIR| < |Print(server, mir, snap)|
    ensures server.Some? && q <= |server.value|
  {
    var t, before := Print(server, mir, snap), Prefix(server);
    MirAtChars(t, q);
    if |before| <= q {
      LaterMir(before, mir, snap, q);
    } else {
      assert t[q] == before[q];
    }
  }

  lemma PrintedServer(server: string, mir: string, snap: Option<string>)
    ensures MirAt(Print(Some(server), mir, snap), |server|)
    ensures Print(Some(server), mir, snap)[0..|server|] == server
  {
  }

  lemma PrintedOneLine(server: Option<string>, mir: string, snap: Option<string>)
    requires OneLine(mir) && (server.Some? ==> OneLine(server.value)) && (snap.Some? ==> OneLine(snap.value))
    ensures OneLine(Print(server, mir, snap))
  {
  }

  lemma RoundTripHolds(server: Option<string>, mir: string, snap: Option<string>)
    requires mir != "" && DashFree(mir) && OneLine(mir) && ServerOk(server) && SnapOk(snap)
    ensures Match(SNAP_VERSION_RE, Print(server, mir, snap), false) == Some(Groups(server, mir, snap))
  {
    var t, before := Print(server, mir, snap), Prefix(server);
    PrintedOneLine(server, mir, snap);
    var q := SnapMatch(t);
    if q.Some? {
      LastMir(server, mir, snap, q.value);
    }
    TakenServer(server, mir, snap, q);
    MirEndExact(before, mir, snap);
    AllGroups(server, mir, snap, |before + mir|, |t|);
  }

  lemma TakenServer(server: Option<string>, mir: string, snap: Option<string>, q: Option<nat>)
    requires mir != "" && ServerOk(server)
    requires q.Some? ==> server.Some? && q.value <= |server.value|
    requires server.Some? && MirAt(Print(server, mir, snap), |server.value|) ==> q.Some? && |server.value| <= q.value
    ensures var t := Print(server, mir, snap);
            && q == (if server.Some? then Some(|server.value|) else None)
            && (q.Some? ==> q.value <= |t|)
            && ServerHit(t, q).at == |Prefix(server)|
            && ServerHit(t, q).groups == if server.Some? then map["server" := server.value] else map[]
  {
    if server.Some? {
      PrintedServer(server.value, mir, snap);
      MergeEmpty(Hit(|server.value|, map["server" := server.value]), |server.value| + |MIR|);
    }
  }

  /** A "-mir" inside the tag is taken as the end of a longer server. */
  lemma TagTaken(server: Option<string>, mir: string, tag: string)
    requires OneLine(Print(server, mir, Some(tag))) && mir != "" && MirInside(tag)
    ensures var t := Print(server, mir, Some(tag));
            && Match(SNAP_VERSION_RE, t, false).Some?
            && "server" in Match(SNAP_VERSION_RE, t, false).value
            && |Match(SNAP_VERSION_RE, t, false).value["server"]| > |Prefix(server)|
  {
    var t, before := Print(server, mir, Some(tag)), Prefix(server);
    var o: nat :| MirAt(tag, o) && o + |MIR| < |tag|;
    TagMir(before, mir, tag, o);
    var q := SnapMatch(t);
    var rest := First(MIR_END_RE, t, ServerHit(t, q).at, false).value;
    PickIsIn(All(MIR_END_RE, t, ServerHit(t, q).at), false, |t|);
    RestIsClean(t, ServerHit(t, q).at, rest);
    assert (ServerHit(t, q).groups + rest.groups)["server"] == t[0..q.value];
  }

  lemma RoundTripNeeds(server: Option<string>, mir: string, snap: Option<string>)
    requires mir != "" && OneLine(mir)
    requires Match(SNAP_VERSION_RE, Print(server, mir, snap), false) == Some(Groups(server, mir, snap))
    ensures ServerOk(server) && SnapOk(snap)
  {
    var t, before := Print(server, mir, snap), Prefix(server);
    MatchIsClean(t);
    assert server.Some? ==> Groups(server, mir, snap)["server"] == server.value;
    assert snap.Some? ==> Groups(server, mir, snap)["snap"] == snap.value;
    PrintedOneLine(server, mir, snap);
    if snap.Some? && MirInside(snap.value) {
      TagTaken(server, mir, snap.value);
    }
  }

  /** Printing a version and matching it returns exactly the parts, in the order of preference of the
      expression, if and only if the server is non-empty and on one line, and the tag is non-empty, on
      one line, and has no "-mir" that is followed by a further character. */
  lemma RoundTrip(server: Option<string>, mir: string, snap: Option<string>)
    requires mir != "" && DashFree(mir) && OneLine(mir)
    ensures Match(SNAP_VERSION_RE, Print(server, mir, snap), false) == Some(Groups(server, mir, snap))
       <==> ServerOk(server) && SnapOk(snap)
  {
    if ServerOk(server) && SnapOk(snap) {
      RoundTripHolds(server, mir, snap);
    } else if Match(SNAP_VERSION_RE, Print(server, mir, snap), false) == Some(Groups(server, mir, snap)) {
      RoundTripNeeds(server, mir, snap);
    }
  }
}
