/** The decision of `RebuildLoop`, written out over what the services answer. */
module RebuildMeaning {
  import opened Options
  import opened RebuildLoop
  import opened Regex
  import M = MirVersion
  import S = SnapVersion

  // ---- the mir version of a source ----

  /** The mir version in the parts of a source version. */
  function MirIn(p: M.Parts): string {
    match p.tag
    case None => p.version
    case Some(t) => p.version + (t.sign + t.kind + t.number)
  }

  /** From the version of a source, its upstream version and its build tag are taken. */
  lemma SourceMirOfText(p: M.Parts)
    requires M.WellFormed(p)
    ensures SourceMir(M.Text(p)) == Some(MirIn(p))
  {
    M.Accepted(M.Text(p));
    var q := M.Reassembles(M.Text(p));
    M.Unique(p, q);
    M.ExtractedText(q);
    assert p.version + "" == p.version;
  }

  /** Nothing is taken exactly when the version has no such parts. */
  lemma SourceMirNone(s: string)
    ensures SourceMir(s).None? <==> !exists p :: M.WellFormed(p) && M.Text(p) == s
  {
    M.Accepted(s);
  }

  ghost predicate IsMirOf(mir: string, version: string) {
    exists p :: M.WellFormed(p) && M.Text(p) == version && mir == MirIn(p)
  }

  lemma SourceMirIs(version: string)
    ensures forall mir :: SourceMir(version) == Some(mir) <==> IsMirOf(mir, version)
  {
    SourceMirNone(version);
    forall p | M.WellFormed(p) && M.Text(p) == version
      ensures SourceMir(version) == Some(MirIn(p))
    {
      SourceMirOfText(p);
    }
  }

  // ---- the sources of an archive ----

  /** The sources for the configured release, or for "resolute". */
  function SourcesFor(w: World, p: Pair): seq<Source> {
    p.answers.sources(w.series(match p.config.release case Some(name) => name case None => "resolute"))
  }

  /** The first source that is neither deleted nor obsolete. */
  ghost predicate IsLatest(sources: seq<Source>, s: Source) {
    exists k | 0 <= k < |sources| ::
      && s == sources[k] && s.status != Deleted && s.status != Obsolete
      && forall j | 0 <= j < k :: sources[j].status == Deleted || sources[j].status == Obsolete
  }

  lemma {:induction false} LatestMeans(sources: seq<Source>, s: Source)
    ensures Latest(sources) == Some(s) <==> IsLatest(sources, s)
  {
    if sources == [] {
    } else {
      var rest := sources[1..];
      LatestMeans(rest, s);
      if Ignored(sources[0].status) {
        if IsLatest(rest, s) {
          var k :| 0 <= k < |rest| && s == rest[k] && forall j | 0 <= j < k :: Ignored(rest[j].status);
          assert sources[k + 1] == s;
          assert forall j | 0 <= j < k + 1 :: Ignored(sources[j].status);
        }
        if IsLatest(sources, s) {
          var k :| 0 <= k < |sources| && s == sources[k] && !Ignored(s.status)
                   && forall j | 0 <= j < k :: Ignored(sources[j].status);
          assert rest[k - 1] == s;
          assert forall j | 0 <= j < k - 1 :: Ignored(rest[j].status);
        }
      } else {
        assert s == sources[0] ==> IsLatest(sources, s);
      }
    }
  }

  /** Published, with a version that can be parsed. */
  ghost predicate IsUsable(s: Source) {
    s.status == Published && exists mir :: IsMirOf(mir, s.version)
  }

  ghost predicate HasFailed(s: Source) {
    exists b | b in s.builds :: b.state == FailedToBuild
  }

  /** Nothing that the processors need is being built or published. */
  ghost predicate IsFinished(s: Source, processors: seq<string>) {
    && (forall b | b in s.builds && b.arch in processors ::
          b.state != NeedsBuilding && b.state != DependencyWait
          && b.state != CurrentlyBuilding && b.state != UploadingBuild)
    && (forall b | b in s.binaries && b.arch in processors :: b.status == Published)
  }

  /** The store is asked: there is a recipe without pending builds, and the configured archive, if
      there is one, has a source that is ready. */
  ghost predicate StoreIsAsked(w: World, p: Pair) {
    && p.answers.recipe.Some? && p.answers.recipe.value.pendingBuilds == 0
    && (p.config.ppa.Some? ==>
          exists s :: IsLatest(SourcesFor(w, p), s) && IsUsable(s) && !HasFailed(s)
                      && IsFinished(s, p.answers.recipe.value.processors))
  }

  /** The version in the store of a snap on one of the recipe's processors. */
  ghost predicate InStore(p: Pair, version: string)
    requires p.answers.recipe.Some?
  {
    exists a | a in p.answers.recipe.value.processors :: p.answers.store(a) == Stored(version)
  }

  /** The snap was built from that mir version. */
  ghost predicate BuiltFrom(version: string, mir: string) {
    var groups := Match(S.SNAP_VERSION_RE, version, false);
    groups.Some? && "mir" in groups.value && groups.value["mir"] == mir
  }

  /** Some version in the store was not built from the latest source. */
  ghost predicate SomeAreStale(w: World, p: Pair)
    requires p.answers.recipe.Some?
  {
    && p.config.ppa.Some?
    && exists version, s, mir ::
         InStore(p, version) && IsLatest(SourcesFor(w, p), s) && IsMirOf(mir, s.version) && !BuiltFrom(version, mir)
  }

  ghost predicate NoticesAreDue(w: World, p: Pair) {
    && p.config.checkUsns && w.canCheckNotices && p.answers.notices.Some?
    && (exists i | 0 <= i < |p.answers.notices.value| :: p.answers.notices.value[i] != [])
    && (forall i, j | 0 <= i < j < |p.answers.notices.value| ::
          p.answers.notices.value[i] == p.answers.notices.value[j])
  }

  /** Notices were found, but not the same for all revisions. */
  ghost predicate NoticesDisagree(w: World, p: Pair) {
    && p.config.checkUsns && w.canCheckNotices && p.answers.notices.Some?
    && (exists i | 0 <= i < |p.answers.notices.value| :: p.answers.notices.value[i] != [])
    && (exists i, j | 0 <= i < j < |p.answers.notices.value| ::
          p.answers.notices.value[i] != p.answers.notices.value[j])
  }

  /** The first version in the store, processor by processor, that was not built from `mir` cannot even
      be matched. */
  ghost predicate MeetsUnmatched(versions: seq<string>, mir: string) {
    exists i | 0 <= i < |versions| ::
      && Match(S.SNAP_VERSION_RE, versions[i], false).None?
      && forall j | 0 <= j < i :: BuiltFrom(versions[j], mir)
  }

  // ---- the meaning of the steps ----

  lemma {:induction false} StoredMeans(p: Pair, processors: seq<string>, version: string)
    ensures version in StoredVersions(p, processors)
       <==> exists a | a in processors :: p.answers.store(a) == Stored(version)
  {
    if processors == [] {
    } else {
      StoredMeans(p, processors[1..], version);
      assert processors == [processors[0]] + processors[1..];
    }
  }

  lemma BuiltFromMeans(version: string, mir: string)
    ensures MirOf(version) == Some(mir) <==> BuiltFrom(version, mir)
  {
    MatchedHasMir(version);
  }

  lemma UsableMeans(s: Source)
    ensures SourcePublished(s) <==> IsUsable(s)
  {
    SourceMirIs(s.version);
    if SourceMir(s.version).Some? {
      assert IsMirOf(SourceMir(s.version).value, s.version);
    }
  }

  lemma ReadyMeans(w: World, p: Pair, recipe: Recipe)
    requires p.config.ppa.Some?
    ensures SourceReady(w, p, recipe)
       <==> exists s ::
              IsLatest(SourcesFor(w, p), s) && IsUsable(s) && !HasFailed(s) && IsFinished(s, recipe.processors)
  {
    forall s: Source
      ensures LatestSource(w, p) == Some(s) <==> IsLatest(SourcesFor(w, p), s)
      ensures SourcePublished(s) <==> IsUsable(s)
    {
      LatestMeans(SourcesFor(w, p), s);
      UsableMeans(s);
    }
    if LatestSource(w, p).Some? {
      assert IsLatest(SourcesFor(w, p), LatestSource(w, p).value);
    }
  }

  lemma AskedMeans(w: World, p: Pair)
    ensures ReachesStore(w, p) <==> StoreIsAsked(w, p)
  {
    if p.answers.recipe.Some? && p.config.ppa.Some? {
      ReadyMeans(w, p, p.answers.recipe.value);
    }
  }

  lemma StaleMeansBuiltFrom(w: World, p: Pair, version: string)
    requires ReachesStore(w, p)
    ensures Stale(w, p, version)
       <==> p.config.ppa.Some? && exists s, mir ::
              IsLatest(SourcesFor(w, p), s) && IsMirOf(mir, s.version) && !BuiltFrom(version, mir)
  {
    if p.config.ppa.Some? {
      var s := LatestSource(w, p).value;
      var mir := SourceMir(s.version).value;
      SourceMirIs(s.version);
      BuiltFromMeans(version, mir);
      LatestMeans(SourcesFor(w, p), s);
      assert IsLatest(SourcesFor(w, p), s) && IsMirOf(mir, s.version);
      forall t, n | IsLatest(SourcesFor(w, p), t) && IsMirOf(n, t.version)
        ensures t == s && n == mir
      {
        LatestMeans(SourcesFor(w, p), t);
      }
    }
  }

  lemma AnyStaleMeans(w: World, p: Pair)
    requires ReachesStore(w, p)
    ensures AnyStale(w, p) <==> SomeAreStale(w, p)
  {
    forall version
      ensures version in Versions(p) <==> InStore(p, version)
      ensures Stale(w, p, version)
         <==> p.config.ppa.Some? && exists s, mir ::
                IsLatest(SourcesFor(w, p), s) && IsMirOf(mir, s.version) && !BuiltFrom(version, mir)
    {
      StoredMeans(p, p.answers.recipe.value.processors, version);
      StaleMeansBuiltFrom(w, p, version);
    }
  }

  lemma NoticesMean(w: World, p: Pair)
    ensures ChecksNotices(w, p) && AnyNotices(p) && UniformNotices(p) <==> NoticesAreDue(w, p)
    ensures ChecksNotices(w, p) && AnyNotices(p) && !UniformNotices(p) <==> NoticesDisagree(w, p)
  {
    if p.answers.notices.Some? {
      var notices := p.answers.notices.value;
      assert forall i | 0 <= i < |notices| :: notices[i] in notices;
      if NoticesAreDue(w, p) {
        forall n, o | n in notices && o in notices
          ensures n == o
        {
          var i :| 0 <= i < |notices| && notices[i] == n;
          var j :| 0 <= j < |notices| && notices[j] == o;
        }
      }
    }
  }

  // ---- the results ----

  /** A build is requested exactly when the store is asked and either some version in it is stale, or
      checks of notices are on and give uniform notices that are not all empty. */
  lemma DueMeans(w: World, p: Pair)
    ensures ShouldRequest(w, p) <==> StoreIsAsked(w, p) && (SomeAreStale(w, p) || NoticesAreDue(w, p))
  {
    AskedMeans(w, p);
    NoticesMean(w, p);
    if ReachesStore(w, p) {
      AnyStaleMeans(w, p);
    }
  }

  lemma UnmatchedMeans(w: World, p: Pair)
    requires ReachesStore(w, p) && p.config.ppa.Some?
    ensures UnmatchedVersion(w, p)
       <==> exists s, mir ::
              IsLatest(SourcesFor(w, p), s) && IsMirOf(mir, s.version) && MeetsUnmatched(Versions(p), mir)
  {
    var s := LatestSource(w, p).value;
    var mir := SourceMir(s.version).value;
    SourceMirIs(s.version);
    LatestMeans(SourcesFor(w, p), s);
    assert IsLatest(SourcesFor(w, p), s) && IsMirOf(mir, s.version);
    forall t, n | IsLatest(SourcesFor(w, p), t) && IsMirOf(n, t.version)
      ensures t == s && n == mir
    {
      LatestMeans(SourcesFor(w, p), t);
    }
    UnmatchedFor(w, p, mir);
  }

  lemma UnmatchedFor(w: World, p: Pair, mir: string)
    requires p.answers.recipe.Some? && p.config.ppa.Some? && LatestSource(w, p).Some?
    requires SourceMir(LatestSource(w, p).value.version) == Some(mir)
    ensures UnmatchedVersion(w, p) <==> MeetsUnmatched(Versions(p), mir)
  {
    var versions := Versions(p);
    forall i | 0 <= i < |versions|
      ensures Stale(w, p, versions[i]) <==> !BuiltFrom(versions[i], mir)
      ensures MirOf(versions[i]).None? <==> Match(S.SNAP_VERSION_RE, versions[i], false).None?
    {
      BuiltFromMeans(versions[i], mir);
    }
    if UnmatchedVersion(w, p) {
      var i :| 0 <= i < |versions| && MirOf(versions[i]).None? && forall j | 0 <= j < i :: !Stale(w, p, versions[j]);
      assert Match(S.SNAP_VERSION_RE, versions[i], false).None? && forall j | 0 <= j < i :: BuiltFrom(versions[j], mir);
    }
    if MeetsUnmatched(versions, mir) {
      var i :| 0 <= i < |versions| && Match(S.SNAP_VERSION_RE, versions[i], false).None?
               && forall j | 0 <= j < i :: BuiltFrom(versions[j], mir);
      assert MirOf(versions[i]).None? && forall j | 0 <= j < i :: !Stale(w, p, versions[j]);
    }
  }

  /** When an answer throws: one of the store is no text, the check of paths or of notices fails where
      it is made, or the comparison meets a version that cannot be matched. */
  lemma ThrowsMeans(w: World, p: Pair)
    ensures Throws(w, p) <==>
              && StoreIsAsked(w, p)
              && (|| (exists a | a in p.answers.recipe.value.processors :: p.answers.store(a) == Unparsable)
                  || (p.config.checkPaths && p.answers.pathErrors.None?)
                  || (p.config.ppa.Some? && exists s, mir ::
                        IsLatest(SourcesFor(w, p), s) && IsMirOf(mir, s.version) && MeetsUnmatched(Versions(p), mir))
                  || (!SomeAreStale(w, p) && p.config.checkUsns && w.canCheckNotices && p.answers.notices.None?))
  {
    AskedMeans(w, p);
    if ReachesStore(w, p) {
      AnyStaleMeans(w, p);
      if p.config.ppa.Some? {
        UnmatchedMeans(w, p);
      }
    }
  }

  /** Which errors a pair records. */
  lemma ErrorsMean(w: World, p: Pair)
    ensures RecipeNotFound in ErrorsOf(w, p) <==> p.answers.recipe.None?
    ensures BuildsFailed in ErrorsOf(w, p)
       <==> p.answers.recipe.Some? && p.config.ppa.Some?
            && exists s :: IsLatest(SourcesFor(w, p), s) && IsUsable(s) && HasFailed(s)
    ensures NonUniformVersions in ErrorsOf(w, p)
       <==> StoreIsAsked(w, p) && !p.config.nonUniform
            && exists v, u :: InStore(p, v) && InStore(p, u) && v != u
    ensures forall message ::
              PathError(message) in ErrorsOf(w, p)
              <==> StoreIsAsked(w, p) && p.config.checkPaths
                   && p.answers.pathErrors.Some? && message in p.answers.pathErrors.value
    ensures NonUniformNotices in ErrorsOf(w, p)
       <==> StoreIsAsked(w, p) && !SomeAreStale(w, p) && NoticesDisagree(w, p)
  {
    AskedMeans(w, p);
    FailureMeans(w, p);
    NoticesMean(w, p);
    if ReachesStore(w, p) {
      AnyStaleMeans(w, p);
      UniformMeans(p);
      NoFailure(w, p);
    }
  }

  lemma FailureMeans(w: World, p: Pair)
    ensures BuildFailure(w, p)
       <==> p.answers.recipe.Some? && p.config.ppa.Some?
            && exists s :: IsLatest(SourcesFor(w, p), s) && IsUsable(s) && HasFailed(s)
  {
    forall s: Source
      ensures LatestSource(w, p) == Some(s) <==> IsLatest(SourcesFor(w, p), s)
      ensures SourcePublished(s) <==> IsUsable(s)
    {
      LatestMeans(SourcesFor(w, p), s);
      UsableMeans(s);
    }
  }

  lemma NoFailure(w: World, p: Pair)
    requires ReachesStore(w, p)
    ensures !BuildFailure(w, p)
  {
  }

  lemma UniformMeans(p: Pair)
    requires p.answers.recipe.Some?
    ensures DifferentVersions(p) <==> exists v, u :: InStore(p, v) && InStore(p, u) && v != u
    ensures forall message ::
              PathError(message) in UniformErrors(p)
              <==> p.config.checkPaths && p.answers.pathErrors.Some? && message in p.answers.pathErrors.value
  {
    forall version
      ensures version in Versions(p) <==> InStore(p, version)
    {
      StoredMeans(p, p.answers.recipe.value.processors, version);
    }
    if p.answers.pathErrors.Some? {
      PathErrorsMean(p.answers.pathErrors.value);
    }
  }

  lemma PathErrorsMean(messages: seq<string>)
    ensures forall message :: PathError(message) in PathErrors(messages) <==> message in messages
    ensures forall e | e in PathErrors(messages) :: e.PathError?
  {
    forall message | message in messages
      ensures PathError(message) in PathErrors(messages)
    {
      var i :| 0 <= i < |messages| && messages[i] == message;
      assert PathErrors(messages)[i] == PathError(message);
    }
  }
}
