/** Which snaps the nightly script asks to be rebuilt, and which errors it records. */
module RebuildLoop {
  import opened Options
  import opened Regex
  import M = MirVersion
  import S = SnapVersion

  const DEFAULT_RELEASE := "resolute"

  datatype Status = Published | Pending | Superseded | Deleted | Obsolete

  datatype BuildState =
    | NeedsBuilding | DependencyWait | CurrentlyBuilding | UploadingBuild
    | FailedToBuild | SuccessfullyBuilt | OtherState

  datatype Build = Build(state: BuildState, arch: string)
  datatype Binary = Binary(status: Status, arch: string)
  datatype Source = Source(status: Status, version: string, builds: seq<Build>, binaries: seq<Binary>)
  datatype Series = Series(id: nat)
  datatype Recipe = Recipe(processors: seq<string>, pendingBuilds: nat)

  /** What the store says about a snap on one processor; `Unparsable` is not JSON. */
  datatype StoreAnswer = Unparsable | NotInStore | Stored(version: string)

  /** The notices found for one revision. */
  type Notices = seq<string>

  datatype Error = RecipeNotFound | BuildsFailed | NonUniformVersions | PathError(message: string) | NonUniformNotices

  datatype Config = Config(ppa: Option<string>, release: Option<string>,
                           nonUniform: bool, checkPaths: bool, checkUsns: bool)

  /** What the services answer while one pair is processed; `pathErrors` and `notices` are missing when
      the check itself fails. */
  datatype Answers = Answers(recipe: Option<Recipe>, sources: Series -> seq<Source>,
                             store: string -> StoreAnswer, pathErrors: Option<seq<string>>,
                             notices: Option<seq<Notices>>)

  datatype Pair = Pair(channel: string, config: Config, answers: Answers)
  datatype SnapEntry = SnapEntry(name: string, channels: seq<Pair>)

  /** What does not depend on the pair. */
  datatype World = World(series: string -> Series, canCheckNotices: bool)

  /** A requested build; the archive is the configured one, or the main one. */
  datatype Request = Request(snap: string, channel: string, ppa: Option<string>)

  // ---- the decision in closed form ----

  predicate Ignored(s: Status) {
    s.Deleted? || s.Obsolete?
  }

  predicate IsPending(s: BuildState) {
    s.NeedsBuilding? || s.DependencyWait? || s.CurrentlyBuilding? || s.UploadingBuild?
  }

  /** The first source that is not ignored. */
  function Latest(sources: seq<Source>): Option<Source> {
    if sources == [] then None
    else if Ignored(sources[0].status) then Latest(sources[1..])
    else Some(sources[0])
  }

  function Sources(w: World, p: Pair): seq<Source> {
    p.answers.sources(w.series(if p.config.release.Some? then p.config.release.value else DEFAULT_RELEASE))
  }

  /** The mir version of a source version, if it can be parsed. */
  function SourceMir(version: string): Option<string> {
    match Match(M.MIR_VERSION_RE, version, true)
    case None => None
    case Some(groups) => Some(ExtractedFrom(groups))
  }

  function ExtractedFrom(groups: map<string, string>): string {
    if "version" in groups then M.Extracted(groups) else ""
  }

  function LatestSource(w: World, p: Pair): Option<Source> {
    Latest(Sources(w, p))
  }

  /** The source's version can be parsed and the source is published. */
  predicate SourcePublished(s: Source) {
    SourceMir(s.version).Some? && s.status.Published?
  }

  ghost predicate AnyBuildFailed(s: Source) {
    exists b | b in s.builds :: b.state.FailedToBuild?
  }

  /** Nothing that the recipe's processors need is still being built or published. */
  ghost predicate SourceComplete(s: Source, processors: seq<string>) {
    && (forall b | b in s.builds && b.arch in processors :: !IsPending(b.state))
    && (forall b | b in s.binaries && b.arch in processors :: b.status.Published?)
  }

  ghost predicate SourceReady(w: World, p: Pair, recipe: Recipe) {
    p.config.ppa.Some? ==>
      && LatestSource(w, p).Some?
      && var s := LatestSource(w, p).value;
         SourcePublished(s) && !AnyBuildFailed(s) && SourceComplete(s, recipe.processors)
  }

  /** The store is asked about the pair. */
  ghost predicate ReachesStore(w: World, p: Pair) {
    && p.answers.recipe.Some?
    && SourceReady(w, p, p.answers.recipe.value)
    && p.answers.recipe.value.pendingBuilds == 0
  }

  function VersionsOf(answer: StoreAnswer): seq<string> {
    if answer.Stored? then [answer.version] else []
  }

  /** The versions in the store, processor by processor. */
  function StoredVersions(p: Pair, processors: seq<string>): seq<string> {
    if processors == [] then []
    else VersionsOf(p.answers.store(processors[0])) + StoredVersions(p, processors[1..])
  }

  function Versions(p: Pair): seq<string>
    requires p.answers.recipe.Some?
  {
    StoredVersions(p, p.answers.recipe.value.processors)
  }

  lemma MatchedHasMir(version: string)
    ensures Match(S.SNAP_VERSION_RE, version, false).Some? ==> "mir" in Match(S.SNAP_VERSION_RE, version, false).value
  {
    if Match(S.SNAP_VERSION_RE, version, false).Some? {
      PickIsIn(All(S.SNAP_VERSION_RE, version, 0), false, |version|);
      var h := First(S.SNAP_VERSION_RE, version, 0, false).value;
      var x, y := CatOnly(Opt(S.SERVER_RE), S.MIR_END_RE, version, 0, h);
      var m, z := CatOnly(Group("mir", Plus(S.ANY, false)), S.SNAP_END_RE, version, x.at, y);
      GroupPlusHits("mir", S.ANY, false, version, x.at);
    }
  }

  /** The mir version of a store version, if it can be matched. */
  function MirOf(version: string): (mir: Option<string>)
  {
    MatchedHasMir(version);
    match Match(S.SNAP_VERSION_RE, version, false)
    case None => None
    case Some(groups) => Some(groups["mir"])
  }

  /** The store version was built from another mir than the latest source. */
  ghost predicate Stale(w: World, p: Pair, version: string) {
    && p.config.ppa.Some? && LatestSource(w, p).Some?
    && MirOf(version) != SourceMir(LatestSource(w, p).value.version)
  }

  ghost predicate AnyStale(w: World, p: Pair)
    requires p.answers.recipe.Some?
  {
    exists v | v in Versions(p) :: Stale(w, p, v)
  }

  predicate ChecksNotices(w: World, p: Pair) {
    p.config.checkUsns && w.canCheckNotices
  }

  ghost predicate AnyNotices(p: Pair) {
    p.answers.notices.Some? && exists n | n in p.answers.notices.value :: n != []
  }

  ghost predicate UniformNotices(p: Pair) {
    p.answers.notices.Some? && forall n, o | n in p.answers.notices.value && o in p.answers.notices.value :: n == o
  }

  /** The first version that is not current cannot be matched. */
  ghost predicate UnmatchedVersion(w: World, p: Pair)
    requires p.answers.recipe.Some?
  {
    && p.config.ppa.Some?
    && exists i | 0 <= i < |Versions(p)| ::
         MirOf(Versions(p)[i]).None? && forall j | 0 <= j < i :: !Stale(w, p, Versions(p)[j])
  }

  ghost predicate AnyUnparsable(p: Pair)
    requires p.answers.recipe.Some?
  {
    exists a | a in p.answers.recipe.value.processors :: p.answers.store(a).Unparsable?
  }

  /** An answer raises an exception that the script does not catch. */
  ghost predicate Throws(w: World, p: Pair) {
    && ReachesStore(w, p)
    && (|| AnyUnparsable(p)
        || (p.config.checkPaths && p.answers.pathErrors.None?)
        || UnmatchedVersion(w, p)
        || (!AnyStale(w, p) && ChecksNotices(w, p) && p.answers.notices.None?))
  }

  /** A rebuild is due. */
  ghost predicate ShouldRequest(w: World, p: Pair) {
    && ReachesStore(w, p)
    && (AnyStale(w, p) || (ChecksNotices(w, p) && AnyNotices(p) && UniformNotices(p)))
  }

  /** The source is ready but for a failed build. */
  ghost predicate BuildFailure(w: World, p: Pair) {
    && p.answers.recipe.Some? && p.config.ppa.Some?
    && LatestSource(w, p).Some?
    && SourcePublished(LatestSource(w, p).value) && AnyBuildFailed(LatestSource(w, p).value)
  }

  ghost predicate DifferentVersions(p: Pair)
    requires p.answers.recipe.Some?
  {
    exists v, u :: v in Versions(p) && u in Versions(p) && v != u
  }

  ghost predicate NoticesDiffer(w: World, p: Pair) {
    ReachesStore(w, p) && !AnyStale(w, p) && ChecksNotices(w, p) && AnyNotices(p) && !UniformNotices(p)
  }

  function PathErrors(messages: seq<string>): seq<Error> {
    seq(|messages|, i requires 0 <= i < |messages| => PathError(messages[i]))
  }

  /** The errors of the checks of uniform versions and of paths. */
  ghost function UniformErrors(p: Pair): seq<Error>
    requires p.answers.recipe.Some?
  {
    (if !p.config.nonUniform && DifferentVersions(p) then [NonUniformVersions] else [])
    + (if p.config.checkPaths && p.answers.pathErrors.Some? then PathErrors(p.answers.pathErrors.value) else [])
  }

  /** The errors recorded for a pair that reaches the store. */
  ghost function StoreErrors(w: World, p: Pair): seq<Error>
    requires p.answers.recipe.Some?
  {
    UniformErrors(p) + (if NoticesDiffer(w, p) then [NonUniformNotices] else [])
  }

  /** The errors that a pair has recorded when an answer throws. */
  ghost function ErrorsAtThrow(p: Pair): seq<Error> {
    if p.answers.recipe.None? || AnyUnparsable(p) then [] else UniformErrors(p)
  }

  /** The errors that one pair records. */
  ghost function ErrorsOf(w: World, p: Pair): seq<Error> {
    if p.answers.recipe.None? then [RecipeNotFound]
    else if BuildFailure(w, p) then [BuildsFailed]
    else if !ReachesStore(w, p) then []
    else StoreErrors(w, p)
  }

  ghost function RequestsOf(w: World, snap: string, p: Pair): seq<Request> {
    if ShouldRequest(w, p) then [Request(snap, p.channel, p.config.ppa)] else []
  }

  lemma PrintedIsCurrent(s: string, server: Option<string>, snap: Option<string>)
    requires SourceMir(s).Some? && S.ServerOk(server) && S.SnapOk(snap)
    ensures MirOf(S.Print(server, SourceMir(s).value, snap)) == SourceMir(s)
  {
    M.ExtractedRoundTrip(s, server, snap);
  }

  /** A snap whose version was printed from the latest source never makes a rebuild due: with such
      versions only, and without checks of notices, the pair stays as it is. */
  lemma RebuiltSnapsRest(w: World, p: Pair)
    requires ReachesStore(w, p) && p.config.ppa.Some? && !ChecksNotices(w, p)
    requires forall v | v in Versions(p) :: exists server, snap ::
               S.ServerOk(server) && S.SnapOk(snap)
               && v == S.Print(server, SourceMir(LatestSource(w, p).value.version).value, snap)
    ensures !ShouldRequest(w, p) && !UnmatchedVersion(w, p)
  {
    forall v | v in Versions(p)
      ensures !Stale(w, p, v) && MirOf(v).Some?
    {
      var source := LatestSource(w, p).value.version;
      var server, snap :| S.ServerOk(server) && S.SnapOk(snap) && v == S.Print(server, SourceMir(source).value, snap);
      PrintedIsCurrent(source, server, snap);
    }
  }

  // ---- whole runs ----

  /** One turn of the loops. */
  datatype Entry = Entry(snap: string, pair: Pair)

  function Listed(name: string, channels: seq<Pair>): (entries: seq<Entry>)
    ensures |entries| == |channels|
  {
    seq(|channels|, i requires 0 <= i < |channels| => Entry(name, channels[i]))
  }

  function FlatMap<A, B>(f: A -> seq<B>, items: seq<A>): seq<B> {
    if items == [] then [] else f(items[0]) + FlatMap(f, items[1..])
  }

  lemma {:induction false} FlatMapParts<A, B>(f: A -> seq<B>, a: seq<A>, b: seq<A>)
    ensures FlatMap(f, a + b) == FlatMap(f, a) + FlatMap(f, b)
  {
    if a == [] {
      assert a + b == b;
    } else {
      assert (a + b)[1..] == a[1..] + b;
      FlatMapParts(f, a[1..], b);
    }
  }

  lemma FlatMapOne<A, B>(f: A -> seq<B>, a: A)
    ensures FlatMap(f, [a]) == f(a)
  {
    assert FlatMap(f, [a][1..]) == [];
  }

  function Lister(): SnapEntry -> seq<Entry> {
    (snap: SnapEntry) => Listed(snap.name, snap.channels)
  }

  /** All pairs in the order of the table. */
  function Flat(table: seq<SnapEntry>): seq<Entry> {
    FlatMap(Lister(), table)
  }

  ghost predicate Quiet(w: World, entries: seq<Entry>) {
    forall e | e in entries :: !Throws(w, e.pair)
  }

  /** The pairs before the first one that throws. */
  ghost function UntilThrow(w: World, entries: seq<Entry>): seq<Entry> {
    TakeUntil(Thrower(w), entries)
  }

  ghost function Thrower(w: World): Entry -> bool {
    (e: Entry) => Throws(w, e.pair)
  }

  /** The items before the first with the property. */
  function TakeUntil<T>(f: T -> bool, items: seq<T>): seq<T> {
    if items == [] || f(items[0]) then [] else [items[0]] + TakeUntil(f, items[1..])
  }

  lemma {:induction false} TakeUntilParts<T>(f: T -> bool, a: seq<T>, b: seq<T>)
    requires forall x | x in a :: !f(x)
    ensures TakeUntil(f, a + b) == a + TakeUntil(f, b)
  {
    if a == [] {
      assert a + b == b;
    } else {
      assert a[0] in a && forall x | x in a[1..] :: x in a;
      TakeUntilParts(f, a[1..], b);
      assert (a + b)[1..] == a[1..] + b;
    }
  }

  lemma {:induction false} TakeUntilIsPrefix<T>(f: T -> bool, items: seq<T>)
    ensures TakeUntil(f, items) <= items
  {
    if items == [] || f(items[0]) {
    } else {
      TakeUntilIsPrefix(f, items[1..]);
    }
  }

  ghost function Requester(w: World): Entry -> seq<Request> {
    (e: Entry) => RequestsOf(w, e.snap, e.pair)
  }

  ghost function Recorder(w: World): Entry -> seq<Error> {
    (e: Entry) => ErrorsOf(w, e.pair)
  }

  ghost function Requested(w: World, entries: seq<Entry>): seq<Request> {
    FlatMap(Requester(w), entries)
  }

  ghost function Recorded(w: World, entries: seq<Entry>): seq<Error> {
    FlatMap(Recorder(w), entries)
  }

  /** The errors of the pair that ends the script, if there is one. */
  ghost function LastErrors(w: World, entries: seq<Entry>): seq<Error> {
    var done := |UntilThrow(w, entries)|;
    if done < |entries| then ErrorsAtThrow(entries[done].pair) else []
  }

  /** Every snap lists a channel once, and every snap is listed once. */
  ghost predicate Distinct(entries: seq<Entry>) {
    forall i, j | 0 <= i < j < |entries| ::
      entries[i].snap != entries[j].snap || entries[i].pair.channel != entries[j].pair.channel
  }

  function RequestFor(e: Entry): Request {
    Request(e.snap, e.pair.channel, e.pair.config.ppa)
  }

  /** What is requested and recorded over a list of pairs is what its parts give, one after the other. */
  lemma PartsAddUp(w: World, a: seq<Entry>, b: seq<Entry>)
    ensures Requested(w, a + b) == Requested(w, a) + Requested(w, b)
    ensures Recorded(w, a + b) == Recorded(w, a) + Recorded(w, b)
  {
    FlatMapParts(Requester(w), a, b);
    FlatMapParts(Recorder(w), a, b);
  }

  /** Requests come from pairs that are due. */
  lemma {:induction false} RequestsAreDue(w: World, entries: seq<Entry>, r: Request)
    requires r in Requested(w, entries)
    ensures exists e | e in entries ::
              ShouldRequest(w, e.pair) && r == Request(e.snap, e.pair.channel, e.pair.config.ppa)
  {
    if r !in RequestsOf(w, entries[0].snap, entries[0].pair) {
      RequestsAreDue(w, entries[1..], r);
      var e :| e in entries[1..] && ShouldRequest(w, e.pair) && r == Request(e.snap, e.pair.channel, e.pair.config.ppa);
      assert e in entries;
    } else {
      assert r == RequestFor(entries[0]);
    }
  }

  lemma {:induction false} NotRequested(w: World, entries: seq<Entry>, r: Request)
    requires forall e | e in entries :: r != RequestFor(e)
    ensures multiset(Requested(w, entries))[r] == 0
  {
    if r in Requested(w, entries) {
      RequestsAreDue(w, entries, r);
    }
  }

  /** A pair is requested once if it is due and never otherwise. */
  lemma {:induction false} RequestedOnceIffDue(w: World, entries: seq<Entry>, i: nat)
    requires Distinct(entries) && i < |entries|
    ensures var e := entries[i];
            (multiset(Requested(w, entries))[Request(e.snap, e.pair.channel, e.pair.config.ppa)]
             == if ShouldRequest(w, e.pair) then 1 else 0)
  {
    var r := RequestFor(entries[i]);
    var head, rest := RequestsOf(w, entries[0].snap, entries[0].pair), entries[1..];
    assert multiset(Requested(w, entries)) == multiset(head) + multiset(Requested(w, rest));
    if i == 0 {
      NotRequested(w, rest, r);
    } else {
      RequestedOnceIffDue(w, rest, i - 1);
      assert r != RequestFor(entries[0]);
    }
  }

  lemma StopsAt(w: World, a: seq<Entry>, b: seq<Entry>)
    requires Quiet(w, a)
    ensures UntilThrow(w, a + b) == a + UntilThrow(w, b)
  {
    TakeUntilParts(Thrower(w), a, b);
  }

  lemma {:induction false} QuietRuns(w: World, entries: seq<Entry>)
    requires Quiet(w, entries)
    ensures UntilThrow(w, entries) == entries && LastErrors(w, entries) == []
  {
    StopsAt(w, entries, []);
    assert entries + [] == entries;
  }

  /** The turns before, at and after channel `j` of snap `i`. */
  lemma FlatAt(table: seq<SnapEntry>, i: nat)
    requires i < |table|
    ensures Flat(table) == Flat(table[..i]) + Listed(table[i].name, table[i].channels) + Flat(table[i + 1..])
    ensures Flat(table[..i + 1]) == Flat(table[..i]) + Listed(table[i].name, table[i].channels)
  {
    assert table == table[..i + 1] + table[i + 1..] && table[..i + 1] == table[..i] + [table[i]];
    FlatMapParts(Lister(), table[..i + 1], table[i + 1..]);
    FlatMapParts(Lister(), table[..i], [table[i]]);
    FlatMapOne(Lister(), table[i]);
  }

  lemma ListedAt(name: string, channels: seq<Pair>, j: nat)
    requires j < |channels|
    ensures Listed(name, channels)
         == Listed(name, channels[..j]) + [Entry(name, channels[j])] + Listed(name, channels[j + 1..])
    ensures Listed(name, channels[..j + 1]) == Listed(name, channels[..j]) + [Entry(name, channels[j])]
  {
  }

  /** A further turn. */
  lemma OneMore(w: World, entries: seq<Entry>, e: Entry)
    ensures Requested(w, entries + [e]) == Requested(w, entries) + RequestsOf(w, e.snap, e.pair)
    ensures Recorded(w, entries + [e]) == Recorded(w, entries) + ErrorsOf(w, e.pair)
  {
    PartsAddUp(w, entries, [e]);
    FlatMapOne(Requester(w), e);
    FlatMapOne(Recorder(w), e);
  }

  lemma StoppedBy(w: World, a: seq<Entry>, e: Entry, b: seq<Entry>)
    requires Quiet(w, a) && Throws(w, e.pair)
    ensures UntilThrow(w, a + [e] + b) == a && !Quiet(w, a + [e] + b)
    ensures LastErrors(w, a + [e] + b) == ErrorsAtThrow(e.pair)
  {
    StopsAt(w, a, [e] + b);
    assert a + [e] + b == a + ([e] + b);
    assert e in a + [e] + b;
  }

  lemma FlatSplit(table: seq<SnapEntry>, i: nat, j: nat) returns (after: seq<Entry>)
    requires i < |table| && j < |table[i].channels|
    ensures Flat(table) == Flat(table[..i]) + Listed(table[i].name, table[i].channels[..j])
                           + [Entry(table[i].name, table[i].channels[j])] + after
  {
    FlatAt(table, i);
    ListedAt(table[i].name, table[i].channels, j);
    after := Listed(table[i].name, table[i].channels[j + 1..]) + Flat(table[i + 1..]);
  }

  lemma StoppedIn(w: World, table: seq<SnapEntry>, i: nat, done: nat)
    requires i < |table| && done < |table[i].channels|
    requires Quiet(w, Flat(table[..i]) + Listed(table[i].name, table[i].channels[..done]))
    requires Throws(w, table[i].channels[done])
    ensures UntilThrow(w, Flat(table)) == Flat(table[..i]) + Listed(table[i].name, table[i].channels[..done])
    ensures !Quiet(w, Flat(table)) && LastErrors(w, Flat(table)) == ErrorsAtThrow(table[i].channels[done])
  {
    var before := Flat(table[..i]) + Listed(table[i].name, table[i].channels[..done]);
    var after := FlatSplit(table, i, done);
    StoppedBy(w, before, Entry(table[i].name, table[i].channels[done]), after);
  }

  lemma NotReached(w: World, p: Pair)
    requires p.answers.recipe.Some? && !ReachesStore(w, p)
    ensures !Throws(w, p) && !ShouldRequest(w, p)
    ensures ErrorsOf(w, p) == if BuildFailure(w, p) then [BuildsFailed] else []
  {
  }

  lemma Reached(w: World, p: Pair)
    requires ReachesStore(w, p) && !BuildFailure(w, p)
    ensures ErrorsOf(w, p) == StoreErrors(w, p)
  {
  }

  // ---- the script ----

  lemma {:induction false} LatestIsFirst(sources: seq<Source>, k: nat)
    requires k <= |sources| && forall j | 0 <= j < k :: Ignored(sources[j].status)
    ensures k == |sources| ==> Latest(sources) == None
    ensures k < |sources| && !Ignored(sources[k].status) ==> Latest(sources) == Some(sources[k])
  {
    if k == 0 {
    } else {
      LatestIsFirst(sources[1..], k - 1);
    }
  }

  lemma StaleMeans(w: World, p: Pair, mir: Option<string>)
    requires p.config.ppa.Some? ==> LatestSource(w, p).Some? && mir == SourceMir(LatestSource(w, p).value.version)
    ensures forall v :: Stale(w, p, v) <==> p.config.ppa.Some? && MirOf(v) != mir
  {
  }

  lemma StoredKnown(p: Pair, processors: seq<string>, i: nat)
    requires i < |processors|
    ensures StoredVersions(p, processors[..i + 1])
         == StoredVersions(p, processors[..i]) + VersionsOf(p.answers.store(processors[i]))
  {
    if i > 0 {
      StoredKnown(p, processors[1..], i - 1);
      assert processors[..i + 1][1..] == processors[1..][..i];
      assert processors[..i][1..] == processors[1..][..i - 1];
    } else {
      assert processors[..1] == [processors[0]];
    }
  }

  class Script {
    const world: World
    var errors: seq<Error>
    var serie: map<string, Series>
    var requests: seq<Request>

    ghost predicate Valid()
      reads this
    {
      forall name | name in serie :: serie[name] == world.series(name)
    }

    constructor (world: World)
      ensures Valid() && errors == [] && requests == [] && this.world == world
    {
      this.world, errors, serie, requests := world, [], map[], [];
    }

    /** The cached lookup of a series. */
    method GetSeries(name: string) returns (series: Series)
      requires Valid()
      modifies `serie
      ensures Valid() && series == world.series(name)
      ensures serie == if name in old(serie) then old(serie) else old(serie)[name := series]
    {
      if name in serie {
        return serie[name];
      }
      serie := serie[name := world.series(name)];
      series := serie[name];
    }

    method FindLatest(sources: seq<Source>) returns (latest: Option<Source>)
      ensures latest == Latest(sources)
    {
      for i := 0 to |sources|
        invariant Latest(sources) == Latest(sources[i..])
      {
        assert sources[i..][1..] == sources[i + 1..];
        if !Ignored(sources[i].status) {
          return Some(sources[i]);
        }
      }
      latest := None;
    }

    method AnyFailed(s: Source) returns (any: bool)
      ensures any <==> AnyBuildFailed(s)
    {
      for i := 0 to |s.builds|
        invariant forall j | 0 <= j < i :: !s.builds[j].state.FailedToBuild?
      {
        if s.builds[i].state.FailedToBuild? {
          return true;
        }
      }
      any := false;
    }

    method IsComplete(s: Source, processors: seq<string>) returns (complete: bool)
      ensures complete <==> SourceComplete(s, processors)
    {
      for i := 0 to |s.builds|
        invariant forall j | 0 <= j < i :: s.builds[j].arch in processors ==> !IsPending(s.builds[j].state)
      {
        if s.builds[i].arch in processors && IsPending(s.builds[i].state) {
          return false;
        }
      }
      for i := 0 to |s.binaries|
        invariant forall j | 0 <= j < i :: s.binaries[j].arch in processors ==> s.binaries[j].status.Published?
      {
        if s.binaries[i].arch in processors && !s.binaries[i].status.Published? {
          return false;
        }
      }
      complete := true;
    }

    /** The part of the loop body for a configured archive: the mir version to build, or nothing when
        the pair is skipped. */
    method CheckSource(p: Pair, recipe: Recipe) returns (mir: Option<string>)
      requires Valid() && p.answers.recipe == Some(recipe) && p.config.ppa.Some?
      modifies `serie, `errors
      ensures Valid()
      ensures mir.Some? <==> SourceReady(world, p, recipe)
      ensures mir.Some? ==> LatestSource(world, p).Some? && mir == SourceMir(LatestSource(world, p).value.version)
      ensures errors == old(errors) + if BuildFailure(world, p) then [BuildsFailed] else []
      ensures mir.Some? ==> !BuildFailure(world, p)
    {
      var series := GetSeries(if p.config.release.Some? then p.config.release.value else DEFAULT_RELEASE);
      var sources := p.answers.sources(series);
      if sources == [] {
        return None;
      }
      var latest := FindLatest(sources);
      if latest.None? {
        return None;
      }
      mir := SourceMir(latest.value.version);
      if mir.None? || !latest.value.status.Published? {
        return None;
      }
      var failed := AnyFailed(latest.value);
      if failed {
        errors := errors + [BuildsFailed];
        return None;
      }
      var complete := IsComplete(latest.value, recipe.processors);
      if !complete {
        return None;
      }
    }

    /** The store answers of all processors; false when one of them is not JSON. */
    method AskStore(p: Pair, recipe: Recipe) returns (versions: seq<string>, ok: bool)
      requires p.answers.recipe == Some(recipe)
      ensures ok <==> !AnyUnparsable(p)
      ensures ok ==> versions == Versions(p)
    {
      versions := [];
      var processors := recipe.processors;
      for i := 0 to |processors|
        invariant versions == StoredVersions(p, processors[..i])
        invariant forall j | 0 <= j < i :: !p.answers.store(processors[j]).Unparsable?
      {
        var answer := p.answers.store(processors[i]);
        if answer.Unparsable? {
          return versions, false;
        }
        StoredKnown(p, processors, i);
        if answer.Stored? {
          versions := versions + [answer.version];
        }
      }
      assert processors[..|processors|] == processors;
      ok := true;
    }

    method AnyDifferent<T(==)>(items: seq<T>) returns (different: bool)
      ensures different <==> exists v, u :: v in items && u in items && v != u
    {
      for i := 0 to |items|
        invariant forall j | 0 <= j < i :: items[j] == items[0]
      {
        if items[i] != items[0] {
          assert items[i] in items && items[0] in items;
          return true;
        }
      }
      different := false;
    }

    /** Whether all store versions are current; nothing when the comparison meets one that cannot be
        matched. */
    method AllCurrent(versions: seq<string>, mir: Option<string>) returns (current: Option<bool>)
      ensures current == Some(true) ==> mir.Some? ==> forall v | v in versions :: MirOf(v) == mir
      ensures current == Some(false) ==> mir.Some? && exists v | v in versions :: MirOf(v) != mir
      ensures current.None? <==> mir.Some? && exists i | 0 <= i < |versions| ::
                                   MirOf(versions[i]).None? && forall j | 0 <= j < i :: MirOf(versions[j]) == mir
    {
      for i := 0 to |versions|
        invariant mir.Some? ==> forall j | 0 <= j < i :: MirOf(versions[j]) == mir
      {
        if mir.Some? {
          var storeMir := MirOf(versions[i]);
          if storeMir.None? {
            return None;
          }
          if storeMir != mir {
            return Some(false);
          }
        }
      }
      current := Some(true);
    }

    /** The decision on notices once the store is current; nothing when the check of notices failed. */
    method NoticesDue(p: Pair) returns (due: Option<bool>)
      modifies `errors
      ensures due.None? <==> ChecksNotices(world, p) && p.answers.notices.None?
      ensures due == Some(true) <==> ChecksNotices(world, p) && AnyNotices(p) && UniformNotices(p)
      ensures errors == old(errors)
                        + if ChecksNotices(world, p) && AnyNotices(p) && !UniformNotices(p)
                          then [NonUniformNotices] else []
    {
      if !(p.config.checkUsns && world.canCheckNotices) {
        return Some(false);
      }
      if p.answers.notices.None? {
        return None;
      }
      var notices := p.answers.notices.value;
      var any := HasNotices(notices);
      if !any {
        return Some(false);
      }
      var different := AnyDifferent(notices);
      if different {
        errors := errors + [NonUniformNotices];
        return Some(false);
      }
      due := Some(true);
    }

    method HasNotices(notices: seq<Notices>) returns (any: bool)
      ensures any <==> exists n | n in notices :: n != []
    {
      for i := 0 to |notices|
        invariant forall j | 0 <= j < i :: notices[j] == []
      {
        if notices[i] != [] {
          assert notices[i] in notices;
          return true;
        }
      }
      any := false;
    }

    /** The checks of uniform versions and of paths; false when the second one fails. */
    method CheckUniform(p: Pair, versions: seq<string>) returns (ok: bool)
      requires p.answers.recipe.Some? && versions == Versions(p)
      modifies `errors
      ensures ok <==> p.config.checkPaths ==> p.answers.pathErrors.Some?
      ensures errors == old(errors) + UniformErrors(p)
    {
      var different := AnyDifferent(versions);
      if different && !p.config.nonUniform {
        errors := errors + [NonUniformVersions];
      }
      if p.config.checkPaths {
        if p.answers.pathErrors.None? {
          return false;
        }
        errors := errors + PathErrors(p.answers.pathErrors.value);
      }
      ok := true;
    }

    /** The versions and then the notices decide. */
    method Decide(p: Pair, versions: seq<string>, mir: Option<string>) returns (due: Option<bool>)
      requires p.answers.recipe.Some? && versions == Versions(p)
      requires mir.Some? <==> p.config.ppa.Some?
      requires mir.Some? ==> LatestSource(world, p).Some? && mir == SourceMir(LatestSource(world, p).value.version)
      modifies `errors
      ensures due.None? <==>
                || UnmatchedVersion(world, p)
                || (!AnyStale(world, p) && ChecksNotices(world, p) && p.answers.notices.None?)
      ensures due.Some? ==>
                (due.value <==> AnyStale(world, p) || (ChecksNotices(world, p) && AnyNotices(p) && UniformNotices(p)))
      ensures due.Some? ==>
                errors == old(errors)
                          + if !AnyStale(world, p) && ChecksNotices(world, p) && AnyNotices(p) && !UniformNotices(p)
                            then [NonUniformNotices] else []
      ensures due.None? ==> errors == old(errors)
    {
      StaleMeans(world, p, mir);
      var current := AllCurrent(versions, mir);
      if current.None? {
        return None;
      }
      if !current.value {
        return Some(true);
      }
      due := NoticesDue(p);
    }

    /** The end of the loop body, where a pair is neither missing nor pending: whether to request a
        build, or nothing when an answer threw. */
    method CheckStore(p: Pair, recipe: Recipe, mir: Option<string>) returns (due: Option<bool>)
      requires p.answers.recipe == Some(recipe) && ReachesStore(world, p)
      requires mir.Some? <==> p.config.ppa.Some?
      requires mir.Some? ==> mir == SourceMir(LatestSource(world, p).value.version)
      modifies `errors
      ensures due.None? <==> Throws(world, p)
      ensures due.Some? ==> (due.value <==> ShouldRequest(world, p))
      ensures errors == old(errors) + if due.Some? then StoreErrors(world, p) else ErrorsAtThrow(p)
    {
      var versions, ok := AskStore(p, recipe);
      if !ok {
        return None;
      }
      ok := CheckUniform(p, versions);
      if !ok {
        return None;
      }
      due := Decide(p, versions, mir);
    }

    /** The loop body up to the store: whether it gets there, and the mir version to compare with. */
    method BeforeStore(p: Pair, recipe: Recipe) returns (reached: bool, mir: Option<string>)
      requires Valid() && p.answers.recipe == Some(recipe)
      modifies `serie, `errors
      ensures Valid()
      ensures reached <==> ReachesStore(world, p)
      ensures reached ==> (mir.Some? <==> p.config.ppa.Some?)
      ensures reached && mir.Some? ==> mir == SourceMir(LatestSource(world, p).value.version)
      ensures reached ==> !BuildFailure(world, p)
      ensures errors == old(errors) + if BuildFailure(world, p) then [BuildsFailed] else []
    {
      mir := None;
      if p.config.ppa.Some? {
        mir := CheckSource(p, recipe);
        if mir.None? {
          return false, None;
        }
      }
      reached := recipe.pendingBuilds == 0;
    }

    /** The body of the inner loop up to the request. */
    method IsDue(p: Pair) returns (due: Option<bool>)
      requires Valid()
      modifies `serie, `errors
      ensures Valid()
      ensures due.None? <==> Throws(world, p)
      ensures due.Some? ==> (due.value <==> ShouldRequest(world, p))
      ensures errors == old(errors) + if due.Some? then ErrorsOf(world, p) else ErrorsAtThrow(p)
    {
      if p.answers.recipe.None? {
        errors := errors + [RecipeNotFound];
        return Some(false);
      }
      due := IsDueFor(p, p.answers.recipe.value);
    }

    method IsDueFor(p: Pair, recipe: Recipe) returns (due: Option<bool>)
      requires Valid() && p.answers.recipe == Some(recipe)
      modifies `serie, `errors
      ensures Valid()
      ensures due.None? <==> Throws(world, p)
      ensures due.Some? ==> (due.value <==> ShouldRequest(world, p))
      ensures errors == old(errors) + if due.Some? then ErrorsOf(world, p) else ErrorsAtThrow(p)
    {
      var reached, mir := BeforeStore(p, recipe);
      if !reached {
        NotReached(world, p);
        return Some(false);
      }
      Reached(world, p);
      due := CheckStore(p, recipe, mir);
    }

    /** One turn of the inner loop; a turn that throws ends the script. */
    method ProcessPair(snap: string, p: Pair) returns (thrown: bool)
      requires Valid()
      modifies this
      ensures Valid()
      ensures thrown <==> Throws(world, p)
      ensures requests == old(requests) + if !thrown && ShouldRequest(world, p)
                                          then [Request(snap, p.channel, p.config.ppa)] else []
      ensures errors == old(errors) + if thrown then ErrorsAtThrow(p) else ErrorsOf(world, p)
    {
      var due := IsDue(p);
      if due.Some? && due.value {
        requests := requests + [Request(snap, p.channel, p.config.ppa)];
      }
      thrown := due.None?;
    }

    /** The inner loop, over the channels of one snap. */
    method ProcessSnap(name: string, channels: seq<Pair>, ghost before: seq<Entry>)
      returns (thrown: bool, ghost done: nat)
      requires Valid() && Quiet(world, before)
      requires requests == Requested(world, before) && errors == Recorded(world, before)
      modifies this
      ensures Valid() && done <= |channels| && (thrown <==> done < |channels|)
      ensures Quiet(world, before + Listed(name, channels[..done]))
      ensures requests == Requested(world, before + Listed(name, channels[..done]))
      ensures thrown ==> Throws(world, channels[done])
      ensures errors == Recorded(world, before + Listed(name, channels[..done]))
                        + if thrown then ErrorsAtThrow(channels[done]) else []
    {
      assert before + Listed(name, channels[..0]) == before;
      for j := 0 to |channels|
        invariant Valid()
        invariant Quiet(world, before + Listed(name, channels[..j]))
        invariant requests == Requested(world, before + Listed(name, channels[..j]))
        invariant errors == Recorded(world, before + Listed(name, channels[..j]))
      {
        thrown := ProcessPair(name, channels[j]);
        if thrown {
          return true, j;
        }
        ListedAt(name, channels, j);
        OneMore(world, before + Listed(name, channels[..j]), Entry(name, channels[j]));
        assert before + Listed(name, channels[..j + 1])
            == before + Listed(name, channels[..j]) + [Entry(name, channels[j])];
      }
      return false, |channels|;
    }

    /** The script after its start: the exit status is 1 when an error was recorded or when an answer
        threw, which also ends the loops. */
    method Run(table: seq<SnapEntry>) returns (status: nat)
      requires Valid() && errors == [] && requests == []
      modifies this
      ensures requests == Requested(world, UntilThrow(world, Flat(table)))
      ensures errors == Recorded(world, UntilThrow(world, Flat(table))) + LastErrors(world, Flat(table))
      ensures status == if Quiet(world, Flat(table)) && Recorded(world, Flat(table)) == [] then 0 else 1
    {
      for i := 0 to |table|
        invariant Valid() && Quiet(world, Flat(table[..i]))
        invariant requests == Requested(world, Flat(table[..i]))
        invariant errors == Recorded(world, Flat(table[..i]))
      {
        FlatAt(table, i);
        var thrown, done := ProcessSnap(table[i].name, table[i].channels, Flat(table[..i]));
        if thrown {
          StoppedIn(world, table, i, done);
          return 1;
        }
        assert table[i].channels[..done] == table[i].channels;
      }
      assert table[..|table|] == table;
      QuietRuns(world, Flat(table));
      status := if errors != [] then 1 else 0;
    }
  }

  lemma UntilThrowIsPrefix(w: World, entries: seq<Entry>)
    ensures UntilThrow(w, entries) <= entries
  {
    TakeUntilIsPrefix(Thrower(w), entries);
  }

  /** What a run has recorded before, for and after one of the pairs that it completes. */
  ghost predicate RecordedAround(w: World, errors: seq<Error>, entries: seq<Entry>, i: nat)
    requires i < |UntilThrow(w, entries)|
  {
    var done := UntilThrow(w, entries);
    errors == Recorded(w, done[..i]) + ErrorsOf(w, done[i].pair) + Recorded(w, done[i + 1..]) + LastErrors(w, entries)
  }

  lemma RecordedAt(w: World, entries: seq<Entry>, i: nat)
    requires i < |entries|
    ensures Recorded(w, entries)
         == Recorded(w, entries[..i]) + ErrorsOf(w, entries[i].pair) + Recorded(w, entries[i + 1..])
  {
    assert entries == entries[..i + 1] + entries[i + 1..] && entries[..i + 1] == entries[..i] + [entries[i]];
    PartsAddUp(w, entries[..i + 1], entries[i + 1..]);
    OneMore(w, entries[..i], entries[i]);
  }

  /** The position in a table of a pair that a run over the table completes: one before the first that
      throws. No two pairs of the table have the same snap and channel. */
  ghost predicate Completes(w: World, table: seq<SnapEntry>, i: nat) {
    Distinct(Flat(table)) && i < |UntilThrow(w, Flat(table))|
  }

  /** Pairs do not influence each other through the state that the script shares between them: two
      runs over tables that have a pair in common, which both runs complete, request that pair equally
      often, once or never, and record the same errors for it; whatever else the tables contain, and
      whether or not a later pair throws. */
  method TwoRuns(world: World, a: seq<SnapEntry>, b: seq<SnapEntry>, ghost i: nat, ghost j: nat)
    returns (requestsA: seq<Request>, errorsA: seq<Error>, requestsB: seq<Request>, errorsB: seq<Error>)
    requires Completes(world, a, i) && Completes(world, b, j)
    requires UntilThrow(world, Flat(a))[i] == UntilThrow(world, Flat(b))[j]
    ensures var pair := UntilThrow(world, Flat(a))[i];
            && multiset(requestsA)[RequestFor(pair)] == multiset(requestsB)[RequestFor(pair)]
            && multiset(requestsA)[RequestFor(pair)] == if ShouldRequest(world, pair.pair) then 1 else 0
    ensures RecordedAround(world, errorsA, Flat(a), i) && RecordedAround(world, errorsB, Flat(b), j)
  {
    requestsA, errorsA := FreshRun(world, a, i);
    requestsB, errorsB := FreshRun(world, b, j);
  }

  method FreshRun(world: World, table: seq<SnapEntry>, ghost i: nat)
    returns (requests: seq<Request>, errors: seq<Error>)
    requires Completes(world, table, i)
    ensures var pair := UntilThrow(world, Flat(table))[i];
            multiset(requests)[RequestFor(pair)] == if ShouldRequest(world, pair.pair) then 1 else 0
    ensures RecordedAround(world, errors, Flat(table), i)
  {
    var script := new Script(world);
    var status := script.Run(table);
    requests, errors := script.requests, script.errors;
    UntilThrowIsPrefix(world, Flat(table));
    RequestedOnceIffDue(world, UntilThrow(world, Flat(table)), i);
    RecordedAt(world, UntilThrow(world, Flat(table)), i);
  }
}
