/** The version of a source package: which strings are accepted and what is extracted from them. */
module MirVersion {
  import opened Options
  import opened Sequences
  import opened Regex
  import S = SnapVersion

  const ANY := NoneOf("\n")
  const NO_DASH := NoneOf("-")
  const DIGIT := OneOf("0123456789")
  const DIGIT_OR_DOT := OneOf("0123456789.")
  const HEX := OneOf("0123456789abcdef")

  // A version of digits and dots; perhaps a build tag, of a sign, a kind and a number, with the commit
  // it was built from; then the distribution, and anything else on the same line.
  const SIGN_RE := Alt(Lit("+"), Lit("~"))
  const KIND_RE := Alt(Lit("rc"), Lit("dev"))
  const BUILD_RE := Cat(SIGN_RE, Cat(KIND_RE, Plus(DIGIT, true)))
  const COMMIT_RE := Cat(Lit("-g"), Group("commit", Plus(HEX, true)))
  const TAG_RE := Cat(Group("build", BUILD_RE), COMMIT_RE)
  const EXTRA_RE := Cat(Group("extra", Star(ANY)), End)
  const DISTRO_RE := Cat(Group("distro", Plus(NO_DASH, true)), EXTRA_RE)
  const REST_RE := Cat(Lit("-"), DISTRO_RE)
  const AFTER_VERSION_RE := Cat(Opt(TAG_RE), REST_RE)
  const MIR_VERSION_RE := Cat(Group("version", Plus(DIGIT_OR_DOT, true)), AFTER_VERSION_RE)

  /** The build tag with its git suffix. */
  datatype Tag = Tag(sign: string, kind: string, number: string, commit: string)

  datatype Parts = Parts(version: string, tag: Option<Tag>, distro: string, extra: string)

  predicate GoodTag(t: Tag) {
    && (t.sign == "+" || t.sign == "~")
    && (t.kind == "rc" || t.kind == "dev")
    && t.number != "" && AllIn(t.number, DIGIT)
    && t.commit != "" && AllIn(t.commit, HEX)
  }

  predicate WellFormed(p: Parts) {
    && p.version != "" && AllIn(p.version, DIGIT_OR_DOT)
    && (p.tag.Some? ==> GoodTag(p.tag.value))
    && p.distro != "" && AllIn(p.distro, NO_DASH)
    && AllIn(p.extra, ANY)
  }

  function Build(t: Tag): string {
    t.sign + t.kind + t.number
  }

  function TagText(tag: Option<Tag>): string {
    match tag
    case None => ""
    case Some(t) => Build(t) + "-g" + t.commit
  }

  function RestText(p: Parts): string {
    "-" + p.distro + p.extra
  }

  function Text(p: Parts): string {
    p.version + TagText(p.tag) + RestText(p)
  }

  function TagGroups(tag: Option<Tag>): map<string, string> {
    match tag
    case None => map[]
    case Some(t) => map["build" := Build(t), "commit" := t.commit]
  }

  function RestGroups(p: Parts): map<string, string> {
    map["distro" := p.distro, "extra" := p.extra]
  }

  function GroupsOf(p: Parts): map<string, string> {
    map["version" := p.version] + (TagGroups(p.tag) + RestGroups(p))
  }

  /** The distribution goes on to the next dash or to the end. */
  predicate MaximalDistro(p: Parts) {
    p.extra == "" || p.extra[0] == '-'
  }

  /** The characters of the parts. */
  lemma Characters(c: char)
    ensures InClass(c, DIGIT) <==> '0' <= c <= '9'
    ensures InClass(c, DIGIT_OR_DOT) <==> '0' <= c <= '9' || c == '.'
    ensures InClass(c, HEX) <==> '0' <= c <= '9' || 'a' <= c <= 'f'
    ensures InClass(c, NO_DASH) <==> c != '-'
    ensures InClass(c, ANY) <==> c != '\n'
  {
    var digits := "0123456789";
    assert forall i | 0 <= i < 10 :: digits[i] == '0' + i as char;
    if '0' <= c <= '9' {
      assert digits[c as int - '0' as int] == c;
      assert "0123456789."[c as int - '0' as int] == c;
      assert "0123456789abcdef"[c as int - '0' as int] == c;
    }
    if 'a' <= c <= 'f' {
      assert "0123456789abcdef"[10 + c as int - 'a' as int] == c;
    }
    assert "0123456789."[10] == '.';
  }

  // ---- every hit comes from parts ----

  lemma BuildOnly(s: string, i: nat, h: Hit) returns (sign: string, kind: string, number: string)
    requires i <= |s| && h in All(BUILD_RE, s, i)
    ensures i <= h.at <= |s| && s[i..h.at] == sign + kind + number && h.groups == map[]
    ensures (sign == "+" || sign == "~") && (kind == "rc" || kind == "dev") && number != "" && AllIn(number, DIGIT)
  {
    var x, y := CatOnly(SIGN_RE, Cat(KIND_RE, Plus(DIGIT, true)), s, i, h);
    AltOnly("+", "~", s, i, x);
    var k := KindOnly(s, x.at, y);
    sign, kind, number := s[i..x.at], s[x.at..k], s[k..y.at];
    Slices(s, i, x.at, k);
    Slices(s, i, k, y.at);
  }

  lemma KindOnly(s: string, i: nat, h: Hit) returns (k: nat)
    requires i <= |s| && h in All(Cat(KIND_RE, Plus(DIGIT, true)), s, i)
    ensures i <= k < h.at <= |s| && (s[i..k] == "rc" || s[i..k] == "dev") && AllIn(s[k..h.at], DIGIT)
    ensures h.groups == map[]
  {
    var x, y := CatOnly(KIND_RE, Plus(DIGIT, true), s, i, h);
    AltOnly("rc", "dev", s, i, x);
    InPlus(DIGIT, true, s, x.at, y);
    k := x.at;
  }

  lemma AltOnly(a: string, b: string, s: string, i: nat, h: Hit)
    requires i <= |s| && h in All(Alt(Lit(a), Lit(b)), s, i)
    ensures i <= h.at <= |s| && (s[i..h.at] == a || s[i..h.at] == b) && h.groups == map[]
  {
    if h in All(Lit(a), s, i) {
      LitOnly(a, s, i, h);
    } else {
      LitOnly(b, s, i, h);
    }
  }

  lemma BuildGroupOnly(s: string, i: nat, h: Hit) returns (sign: string, kind: string, number: string)
    requires i <= |s| && h in All(Group("build", BUILD_RE), s, i)
    ensures i <= h.at <= |s| && s[i..h.at] == sign + kind + number && h.groups == map["build" := s[i..h.at]]
    ensures (sign == "+" || sign == "~") && (kind == "rc" || kind == "dev") && number != "" && AllIn(number, DIGIT)
  {
    var inner := GroupOnly("build", BUILD_RE, s, i, h);
    sign, kind, number := BuildOnly(s, i, inner);
  }

  lemma CommitOnly(s: string, i: nat, h: Hit)
    requires i <= |s| && h in All(COMMIT_RE, s, i)
    ensures i + 2 < h.at <= |s| && s[i..i + 2] == "-g" && AllIn(s[i + 2..h.at], HEX)
    ensures h.groups == map["commit" := s[i + 2..h.at]]
  {
    LitGroupOnly("-g", "commit", HEX, s, i, h);
  }

  lemma TagOnly(s: string, i: nat, h: Hit) returns (t: Tag)
    requires i <= |s| && h in All(TAG_RE, s, i)
    ensures i <= h.at <= |s| && GoodTag(t) && s[i..h.at] == TagText(Some(t)) && h.groups == TagGroups(Some(t))
  {
    var b, c := CatOnly(Group("build", BUILD_RE), COMMIT_RE, s, i, h);
    var sign, kind, number := BuildGroupOnly(s, i, b);
    CommitOnly(s, b.at, c);
    t := Tag(sign, kind, number, s[b.at + 2..c.at]);
    Joined(s, i, b.at, "-g", c.at);
    MergedGroups(b, c, "build", s[i..b.at], "commit", t.commit);
  }

  lemma Joined(s: string, i: nat, j: nat, text: string, k: nat)
    requires i <= j && j + |text| <= k <= |s| && s[j..j + |text|] == text
    ensures s[i..k] == s[i..j] + text + s[j + |text|..k]
  {
  }

  lemma MergedGroups(x: Hit, y: Hit, n: string, v: string, m: string, u: string)
    requires n != m && x.groups == map[n := v] && y.groups == map[m := u]
    ensures Merge(x, y).groups == map[n := v, m := u]
  {
  }

  lemma ExtraOnly(s: string, i: nat, h: Hit)
    requires i <= |s| && h in All(EXTRA_RE, s, i) && h.at == |s|
    ensures AllIn(s[i..|s|], ANY) && h.groups == map["extra" := s[i..|s|]]
  {
    var e, end := CatOnly(Group("extra", Star(ANY)), End, s, i, h);
    var star := GroupOnly("extra", Star(ANY), s, i, e);
    StarIn(ANY, s, i, star);
  }

  lemma DistroOnly(s: string, i: nat, h: Hit) returns (k: nat)
    requires i <= |s| && h in All(DISTRO_RE, s, i) && h.at == |s|
    ensures i < k <= |s| && AllIn(s[i..k], NO_DASH) && AllIn(s[k..|s|], ANY)
    ensures h.groups == map["distro" := s[i..k], "extra" := s[k..|s|]]
  {
    var d, z := CatOnly(Group("distro", Plus(NO_DASH, true)), EXTRA_RE, s, i, h);
    var run := GroupOnly("distro", Plus(NO_DASH, true), s, i, d);
    InPlus(NO_DASH, true, s, i, run);
    k := d.at;
    ExtraOnly(s, k, z);
  }

  lemma RestOnly(s: string, i: nat, h: Hit) returns (distro: string, extra: string)
    requires i <= |s| && h in All(REST_RE, s, i) && h.at == |s|
    ensures distro != "" && AllIn(distro, NO_DASH) && AllIn(extra, ANY)
    ensures s[i..|s|] == "-" + distro + extra && h.groups == map["distro" := distro, "extra" := extra]
  {
    var dash, y := CatOnly(Lit("-"), DISTRO_RE, s, i, h);
    LitOnly("-", s, i, dash);
    var k := DistroOnly(s, dash.at, y);
    distro, extra := s[dash.at..k], s[k..|s|];
    Slices(s, i, dash.at, k);
    Slices(s, i, k, |s|);
  }

  /** A hit that reaches the end reassembles from its groups. */
  lemma HitOnly(s: string, h: Hit) returns (p: Parts)
    requires h in All(MIR_VERSION_RE, s, 0) && h.at == |s|
    ensures WellFormed(p) && Text(p) == s && h.groups == GroupsOf(p)
  {
    var v, y := CatOnly(Group("version", Plus(DIGIT_OR_DOT, true)), AFTER_VERSION_RE, s, 0, h);
    var run := GroupOnly("version", Plus(DIGIT_OR_DOT, true), s, 0, v);
    InPlus(DIGIT_OR_DOT, true, s, 0, run);
    var t, r := CatOnly(Opt(TAG_RE), REST_RE, s, v.at, y);
    var tag: Option<Tag> := None;
    if t in All(TAG_RE, s, v.at) {
      var found := TagOnly(s, v.at, t);
      tag := Some(found);
    } else {
      assert t == Hit(v.at, map[]);
    }
    var distro, extra := RestOnly(s, t.at, r);
    p := Parts(s[0..v.at], tag, distro, extra);
    Slices(s, 0, v.at, t.at);
    Slices(s, 0, t.at, |s|);
    assert s[0..|s|] == s;
  }

  // ---- all parts give a hit ----

  lemma BuildReaches(s: string, i: nat, t: Tag)
    requires GoodTag(t) && i + |Build(t)| <= |s| && s[i..i + |Build(t)|] == Build(t)
    ensures Reaches(BUILD_RE, s, i, i + |Build(t)|)
  {
    var j, k, e := i + |t.sign|, i + |t.sign| + |t.kind|, i + |Build(t)|;
    PartSlices(s, i, t.sign, t.kind, t.number);
    SignReaches(s, i, t.sign);
    KindReaches(s, j, t.kind);
    ReachPlus(DIGIT, s, k, e);
    ReachCat(KIND_RE, Plus(DIGIT, true), s, j, k, e);
    ReachCat(SIGN_RE, Cat(KIND_RE, Plus(DIGIT, true)), s, i, j, e);
  }

  lemma SignReaches(s: string, i: nat, sign: string)
    requires (sign == "+" || sign == "~") && i + |sign| <= |s| && s[i..i + |sign|] == sign
    ensures Reaches(SIGN_RE, s, i, i + |sign|)
  {
    ReachLit(sign, s, i);
    ReachAlt(Lit("+"), Lit("~"), s, i, i + |sign|);
  }

  lemma KindReaches(s: string, i: nat, kind: string)
    requires (kind == "rc" || kind == "dev") && i + |kind| <= |s| && s[i..i + |kind|] == kind
    ensures Reaches(KIND_RE, s, i, i + |kind|)
  {
    ReachLit(kind, s, i);
    ReachAlt(Lit("rc"), Lit("dev"), s, i, i + |kind|);
  }

  lemma CommitReaches(s: string, j: nat, e: nat)
    requires j + 2 < e <= |s| && s[j..j + 2] == "-g" && AllIn(s[j + 2..e], HEX)
    ensures Reaches(COMMIT_RE, s, j, e)
  {
    ReachLit("-g", s, j);
    ReachPlus(HEX, s, j + 2, e);
    ReachGroup("commit", Plus(HEX, true), s, j + 2, e);
    ReachCat(Lit("-g"), Group("commit", Plus(HEX, true)), s, j, j + 2, e);
  }

  lemma TagReaches(s: string, i: nat, t: Tag)
    requires GoodTag(t) && i + |TagText(Some(t))| <= |s| && s[i..i + |TagText(Some(t))|] == TagText(Some(t))
    ensures Reaches(TAG_RE, s, i, i + |TagText(Some(t))|)
  {
    var j, e := i + |Build(t)|, i + |TagText(Some(t))|;
    PartSlices(s, i, Build(t), "-g", t.commit);
    BuildReaches(s, i, t);
    CommitReaches(s, j, e);
    TagJoins(BUILD_RE, COMMIT_RE, s, i, j, e);
  }

  lemma TagJoins(build: Re, commit: Re, s: string, i: nat, j: nat, e: nat)
    requires Reaches(build, s, i, j) && Reaches(commit, s, j, e)
    ensures Reaches(Cat(Group("build", build), commit), s, i, e)
  {
    ReachGroup("build", build, s, i, j);
    ReachCat(Group("build", build), commit, s, i, j, e);
  }

  /** Where three parts of a known slice are. */
  lemma PartSlices(s: string, i: nat, a: string, b: string, c: string)
    requires i + |a + b + c| <= |s| && s[i..i + |a + b + c|] == a + b + c
    ensures s[i..i + |a|] == a
    ensures s[i + |a|..i + |a| + |b|] == b
    ensures s[i + |a| + |b|..i + |a + b + c|] == c
  {
    var text := a + b + c;
    ThreeParts(a, b, c);
    SliceOf(s, i, text, 0, |a|);
    SliceOf(s, i, text, |a|, |a| + |b|);
    SliceOf(s, i, text, |a| + |b|, |text|);
  }

  lemma RestReaches(s: string, i: nat, p: Parts)
    requires WellFormed(p) && i + |RestText(p)| == |s| && s[i..|s|] == RestText(p)
    ensures Reaches(REST_RE, s, i, |s|)
  {
    var k := i + 1 + |p.distro|;
    PartSlices(s, i, "-", p.distro, p.extra);
    ReachLit("-", s, i);
    ReachPlus(NO_DASH, s, i + 1, k);
    ReachGroup("distro", Plus(NO_DASH, true), s, i + 1, k);
    ExtraReaches(s, k);
    ReachCat(Group("distro", Plus(NO_DASH, true)), EXTRA_RE, s, i + 1, k, |s|);
    ReachCat(Lit("-"), DISTRO_RE, s, i, i + 1, |s|);
  }

  lemma ExtraReaches(s: string, i: nat)
    requires i <= |s| && AllIn(s[i..|s|], ANY)
    ensures Reaches(EXTRA_RE, s, i, |s|)
  {
    ReachStar(ANY, s, i, |s|);
    ReachGroup("extra", Star(ANY), s, i, |s|);
    ReachEnd(s);
    ReachCat(Group("extra", Star(ANY)), End, s, i, |s|, |s|);
  }

  lemma TextReaches(p: Parts)
    requires WellFormed(p)
    ensures Reaches(MIR_VERSION_RE, Text(p), 0, |Text(p)|)
  {
    var s := Text(p);
    var j, k := |p.version|, |p.version| + |TagText(p.tag)|;
    ThreeParts(p.version, TagText(p.tag), RestText(p));
    ReachPlus(DIGIT_OR_DOT, s, 0, j);
    ReachGroup("version", Plus(DIGIT_OR_DOT, true), s, 0, j);
    if p.tag.Some? {
      TagReaches(s, j, p.tag.value);
    }
    ReachOpt(TAG_RE, s, j, k);
    RestReaches(s, k, p);
    ReachCat(Opt(TAG_RE), REST_RE, s, j, k, |s|);
    ReachCat(Group("version", Plus(DIGIT_OR_DOT, true)), AFTER_VERSION_RE, s, 0, j, |s|);
  }

  // ---- the preferred match ----

  lemma ExtraFirst(s: string, i: nat)
    requires i <= |s|
    ensures First(EXTRA_RE, s, i, true).Some? <==> AllIn(s[i..|s|], ANY)
  {
    PickIsIn(All(EXTRA_RE, s, i), true, |s|);
    if First(EXTRA_RE, s, i, true).Some? {
      ExtraOnly(s, i, First(EXTRA_RE, s, i, true).value);
    }
    if AllIn(s[i..|s|], ANY) {
      ExtraReaches(s, i);
    }
  }

  lemma SuffixOneLine(s: string, j: nat, k: nat)
    requires j <= k <= |s| && AllIn(s[j..|s|], ANY)
    ensures AllIn(s[k..|s|], ANY)
  {
    assert forall i | 0 <= i < |s| - k :: s[k..|s|][i] == s[j..|s|][k - j + i];
  }

  /** The greedy distribution stops only at a dash or at the end. */
  lemma DistroFirst(s: string, i: nat)
    requires i <= |s| && First(DISTRO_RE, s, i, true).Some?
    ensures var h := First(DISTRO_RE, s, i, true).value;
            && "extra" in h.groups && (h.groups["extra"] == "" || h.groups["extra"][0] == '-')
  {
    var hits, e := All(Group("distro", Plus(NO_DASH, true)), s, i), RunEnd(NO_DASH, s, i);
    GroupPlusHits("distro", NO_DASH, true, s, i);
    RunStops(NO_DASH, s, i);
    var k := FirstSplits(hits, EXTRA_RE, s, i, true);
    ExtraFirst(s, hits[k].at);
    SuffixOneLine(s, hits[k].at, e);
    ExtraFirst(s, e);
    assert k == 0;
    PickIsIn(All(EXTRA_RE, s, e), true, |s|);
    ExtraOnly(s, e, First(EXTRA_RE, s, e, true).value);
  }

  lemma MergedExtra(x: Hit, y: Hit)
    requires "extra" in y.groups
    ensures "extra" in Merge(x, y).groups && Merge(x, y).groups["extra"] == y.groups["extra"]
  {
  }

  lemma PreferredDistro(s: string)
    requires First(MIR_VERSION_RE, s, 0, true).Some?
    ensures var h := First(MIR_VERSION_RE, s, 0, true).value;
            && "extra" in h.groups && (h.groups["extra"] == "" || h.groups["extra"][0] == '-')
  {
    var versions := All(Group("version", Plus(DIGIT_OR_DOT, true)), s, 0);
    var k := FirstSplits(versions, AFTER_VERSION_RE, s, 0, true);
    var i := versions[k].at;
    var tags := All(Opt(TAG_RE), s, i);
    var l := FirstSplits(tags, REST_RE, s, i, true);
    var j := tags[l].at;
    var dashes := All(Lit("-"), s, j);
    var m := FirstSplits(dashes, DISTRO_RE, s, j, true);
    DistroFirst(s, dashes[m].at);
    MergedExtra(dashes[m], First(DISTRO_RE, s, dashes[m].at, true).value);
    MergedExtra(tags[l], First(REST_RE, s, j, true).value);
    MergedExtra(versions[k], First(AFTER_VERSION_RE, s, i, true).value);
  }

  /** A string is accepted exactly when it is the text of some parts. */
  lemma Accepted(s: string)
    ensures Match(MIR_VERSION_RE, s, true).Some? <==> exists p :: WellFormed(p) && Text(p) == s
  {
    PickIsIn(All(MIR_VERSION_RE, s, 0), true, |s|);
    if First(MIR_VERSION_RE, s, 0, true).Some? {
      var p := HitOnly(s, First(MIR_VERSION_RE, s, 0, true).value);
    }
    if p :| WellFormed(p) && Text(p) == s {
      TextReaches(p);
    }
  }

  /** An accepted string reassembles from its groups, and the distribution is the maximal dash-free
      run. */
  lemma Reassembles(s: string) returns (p: Parts)
    requires Match(MIR_VERSION_RE, s, true).Some?
    ensures WellFormed(p) && Text(p) == s && MaximalDistro(p)
    ensures Match(MIR_VERSION_RE, s, true) == Some(GroupsOf(p))
  {
    PickIsIn(All(MIR_VERSION_RE, s, 0), true, |s|);
    p := HitOnly(s, First(MIR_VERSION_RE, s, 0, true).value);
    PreferredDistro(s);
    assert GroupsOf(p)["extra"] == p.extra;
  }

  // ---- uniqueness ----

  /** A run is determined by what cannot continue it. */
  lemma SameRun(a: string, x: string, b: string, y: string, cls: Class)
    requires a + x == b + y && AllIn(a, cls) && AllIn(b, cls)
    requires x != "" && !InClass(x[0], cls) && y != "" && !InClass(y[0], cls)
    ensures a == b && x == y
  {
    var t := a + x;
    assert t[|a|] == x[0] && t[|b|] == y[0];
    assert forall i | 0 <= i < |a| :: t[i] == a[i];
    assert forall i | 0 <= i < |b| :: t[i] == b[i];
    SameHead(a, x, b, y);
  }

  lemma SameKind(k: string, x: string, l: string, y: string)
    requires (k == "rc" || k == "dev") && (l == "rc" || l == "dev") && k + x == l + y
    ensures k == l && x == y
  {
    assert (k + x)[0] == k[0] && (l + y)[0] == l[0];
    SameHead(k, x, l, y);
  }

  lemma SameNumber(n: string, c: string, x: string, m: string, d: string, y: string)
    requires AllIn(n, DIGIT) && AllIn(m, DIGIT) && AllIn(c, HEX) && AllIn(d, HEX)
    requires x != "" && x[0] == '-' && y != "" && y[0] == '-'
    requires n + ("-g" + (c + x)) == m + ("-g" + (d + y))
    ensures n == m && c == d && x == y
  {
    SameRun(n, "-g" + (c + x), m, "-g" + (d + y), DIGIT);
    SameHead("-g", c + x, "-g", d + y);
    SameRun(c, x, d, y, HEX);
  }

  lemma TagNested(t: Tag, x: string)
    ensures TagText(Some(t)) + x == t.sign + (t.kind + (t.number + ("-g" + (t.commit + x))))
  {
  }

  lemma SameTag(t: Tag, x: string, u: Tag, y: string)
    requires GoodTag(t) && GoodTag(u) && x != "" && x[0] == '-' && y != "" && y[0] == '-'
    requires TagText(Some(t)) + x == TagText(Some(u)) + y
    ensures t == u && x == y
  {
    TagNested(t, x);
    TagNested(u, y);
    var t2, u2 := t.number + ("-g" + (t.commit + x)), u.number + ("-g" + (u.commit + y));
    SameHead(t.sign, t.kind + t2, u.sign, u.kind + u2);
    SameKind(t.kind, t2, u.kind, u2);
    SameNumber(t.number, t.commit, x, u.number, u.commit, y);
  }

  lemma RestNested(p: Parts)
    ensures RestText(p) == "-" + (p.distro + p.extra)
    ensures RestText(p) != "" && RestText(p)[0] == '-'
  {
  }

  lemma TagStarts(t: Tag, x: string)
    requires GoodTag(t)
    ensures var y := TagText(Some(t)) + x;
            y != "" && (y[0] == '+' || y[0] == '~')
  {
    TagNested(t, x);
  }

  /** What follows the version shows whether there is a build tag. */
  lemma AfterVersion(p: Parts)
    requires WellFormed(p)
    ensures var x := TagText(p.tag) + RestText(p);
            && Text(p) == p.version + x && x != "" && !InClass(x[0], DIGIT_OR_DOT)
            && (p.tag.None? <==> x[0] == '-')
            && (p.tag.None? ==> x == RestText(p))
  {
    RestNested(p);
    if p.tag.Some? {
      TagStarts(p.tag.value, RestText(p));
    }
    Regroup(p.version, TagText(p.tag), RestText(p));
  }

  lemma Regroup(a: string, b: string, c: string)
    ensures a + b + c == a + (b + c)
    ensures "" + c == c
  {
  }

  /** The version, the build and the commit are the same in all decompositions, and so is the rest;
      with maximal distributions there is only one decomposition. */
  lemma Unique(p: Parts, q: Parts)
    requires WellFormed(p) && WellFormed(q) && Text(p) == Text(q)
    ensures p.version == q.version && p.tag == q.tag && p.distro + p.extra == q.distro + q.extra
    ensures MaximalDistro(p) && MaximalDistro(q) ==> p == q
  {
    var x, y := TagText(p.tag) + RestText(p), TagText(q.tag) + RestText(q);
    AfterVersion(p);
    AfterVersion(q);
    RestNested(p);
    RestNested(q);
    SameRun(p.version, x, q.version, y, DIGIT_OR_DOT);
    if p.tag.Some? {
      SameTag(p.tag.value, RestText(p), q.tag.value, RestText(q));
    }
    SameHead("-", p.distro + p.extra, "-", q.distro + q.extra);
    if MaximalDistro(p) && MaximalDistro(q) {
      SameDistro(p.distro, p.extra, q.distro, q.extra);
    }
  }

  lemma SameDistro(a: string, x: string, b: string, y: string)
    requires a + x == b + y && AllIn(a, NO_DASH) && AllIn(b, NO_DASH)
    requires (x == "" || x[0] == '-') && (y == "" || y[0] == '-')
    ensures a == b && x == y
  {
    assert a + (x + "-") == b + (y + "-") by {
      assert a + (x + "-") == (a + x) + "-" && b + (y + "-") == (b + y) + "-";
    }
    SameRun(a, x + "-", b, y + "-", NO_DASH);
    assert x == (x + "-")[..|x|] && y == (y + "-")[..|y|];
  }

  // ---- what is extracted ----

  /** The version and the build tag, joined. */
  function Extracted(groups: map<string, string>): string
    requires "version" in groups
  {
    groups["version"] + if "build" in groups then groups["build"] else ""
  }

  lemma ExtractedText(p: Parts)
    ensures "version" in GroupsOf(p)
    ensures Extracted(GroupsOf(p)) == p.version + if p.tag.Some? then Build(p.tag.value) else ""
  {
    var groups := TagGroups(p.tag) + RestGroups(p);
    assert "version" !in groups && ("build" in groups <==> p.tag.Some?);
  }

  lemma RunHasNo(t: string, cls: Class, c: char)
    requires AllIn(t, cls) && !InClass(c, cls)
    ensures c !in t
  {
  }

  /** The version and the build contain no dash and no newline. */
  lemma ExtractedIsPlain(p: Parts)
    requires WellFormed(p)
    ensures var mir := p.version + if p.tag.Some? then Build(p.tag.value) else "";
            mir != "" && S.DashFree(mir) && S.OneLine(mir)
  {
    RunHasNo(p.version, DIGIT_OR_DOT, '-');
    RunHasNo(p.version, DIGIT_OR_DOT, '\n');
    if p.tag.Some? {
      RunHasNo(p.tag.value.number, DIGIT, '-');
      RunHasNo(p.tag.value.number, DIGIT, '\n');
    }
  }

  /** The two expressions agree: whatever is extracted from an accepted source version survives being
      printed into a store version and matched there, exactly when the other parts are acceptable. */
  lemma ExtractedRoundTrip(s: string, server: Option<string>, snap: Option<string>)
    requires Match(MIR_VERSION_RE, s, true).Some?
    ensures "version" in Match(MIR_VERSION_RE, s, true).value
    ensures var mir := Extracted(Match(MIR_VERSION_RE, s, true).value);
            && mir != "" && S.DashFree(mir)
            && (Match(S.SNAP_VERSION_RE, S.Print(server, mir, snap), false) == Some(S.Groups(server, mir, snap))
                <==> S.ServerOk(server) && S.SnapOk(snap))
  {
    var p := Reassembles(s);
    ExtractedText(p);
    ExtractedIsPlain(p);
    S.RoundTrip(server, Extracted(GroupsOf(p)), snap);
  }
}
