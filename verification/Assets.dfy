/** The files a suite is assembled from: layers of directories, where later ones override. */
module Assets {
  import opened Options

  /** A path below the directory of the robot files, by its components. */
  type Path = seq<string>

  datatype Item = Item(name: string, isFile: bool)

  datatype Found = Found(path: Path, name: string, isFile: bool)

  /** What a directory lists, in any order; nothing when it does not exist. */
  type Tree = Path -> seq<Item>

  // ---- the collection ----

  function DropLast<T>(s: seq<T>): seq<T> {
    if s == [] then [] else s[..|s| - 1]
  }

  function Reversed<T>(s: seq<T>): seq<T> {
    if s == [] then [] else [s[|s| - 1]] + Reversed(s[..|s| - 1])
  }

  /** The parents of a relative path, the nearest first and the empty path last. */
  function Parents(path: Path): seq<Path> {
    if path == [] then [] else [DropLast(path)] + Parents(DropLast(path))
  }

  function Variants(variant: Path): seq<Path> {
    Reversed([variant] + DropLast(Parents(variant)))
  }

  function Glob(tree: Tree, dir: Path): (found: seq<Found>)
    ensures |found| == |tree(dir)|
  {
    seq(|tree(dir)|, i requires 0 <= i < |tree(dir)| =>
      Found(dir + [tree(dir)[i].name], tree(dir)[i].name, tree(dir)[i].isFile))
  }

  function GlobAll(tree: Tree, dirs: seq<Path>): seq<Found> {
    if dirs == [] then [] else Glob(tree, dirs[0]) + GlobAll(tree, dirs[1..])
  }

  function VariantDirs(asset: Path, variants: seq<Path>): (dirs: seq<Path>)
    ensures |dirs| == |variants|
  {
    seq(|variants|, i requires 0 <= i < |variants| => asset + ["variants"] + variants[i])
  }

  function CollectAsset(tree: Tree, asset: Path, variant: Path): seq<Found> {
    Glob(tree, asset) + GlobAll(tree, VariantDirs(asset, Variants(variant)))
  }

  function CollectResources(tree: Tree, resources: seq<string>, variant: Path): seq<Found> {
    if resources == [] then []
    else CollectAsset(tree, ["resources", resources[0]], variant) + CollectResources(tree, resources[1..], variant)
  }

  /** The dictionary built from a chain of files, where the last one of a name stays. */
  function Dictionary(found: seq<Found>): map<string, Path> {
    if found == [] then map[]
    else
      var last := found[|found| - 1];
      var before := Dictionary(found[..|found| - 1]);
      if last.isFile then before[last.name := last.path] else before
  }

  function CollectAssets(tree: Tree, platform: string, resources: seq<string>, suite: string, variant: Path)
    : map<string, Path>
  {
    Dictionary(CollectAsset(tree, ["platforms", platform], variant)
               + CollectResources(tree, resources, variant)
               + CollectAsset(tree, ["suites", suite], variant))
  }

  // ---- the search ----

  predicate HasFile(tree: Tree, dir: Path, name: string) {
    Item(name, true) in tree(dir)
  }

  function FirstHit(tree: Tree, dirs: seq<Path>, name: string): Option<Path> {
    if dirs == [] then None
    else if HasFile(tree, dirs[0], name) then Some(dirs[0] + [name])
    else FirstHit(tree, dirs[1..], name)
  }

  /** The variants of an asset from the one with `n` components down to the one with a single one, and
      then the asset itself. */
  function Narrowing(asset: Path, variant: Path, n: nat): seq<Path>
    requires n <= |variant|
  {
    if n == 0 then [asset] else [asset + ["variants"] + variant[..n]] + Narrowing(asset, variant, n - 1)
  }

  /** Where an asset is looked for, the most specific directory first. */
  function AssetSearch(asset: Path, variant: Path): seq<Path> {
    if variant == [] then [asset + ["variants"], asset] else Narrowing(asset, variant, |variant|)
  }

  /** Later resources come before earlier ones. */
  function ResourceSearch(resources: seq<string>, variant: Path): seq<Path> {
    if resources == [] then []
    else ResourceSearch(resources[1..], variant) + AssetSearch(["resources", resources[0]], variant)
  }

  function SearchOrder(platform: string, resources: seq<string>, suite: string, variant: Path): seq<Path> {
    AssetSearch(["suites", suite], variant)
    + ResourceSearch(resources, variant)
    + AssetSearch(["platforms", platform], variant)
  }

  // ---- sequences ----

  lemma {:induction false} ReversedParts<T>(a: seq<T>, b: seq<T>)
    ensures Reversed(a + b) == Reversed(b) + Reversed(a)
  {
    if b == [] {
      assert a + b == a;
    } else {
      assert (a + b)[..|a + b| - 1] == a + b[..|b| - 1];
      ReversedParts(a, b[..|b| - 1]);
    }
  }

  lemma {:induction false} GlobAllParts(tree: Tree, a: seq<Path>, b: seq<Path>)
    ensures GlobAll(tree, a + b) == GlobAll(tree, a) + GlobAll(tree, b)
  {
    if a == [] {
      assert a + b == b;
    } else {
      assert (a + b)[1..] == a[1..] + b;
      GlobAllParts(tree, a[1..], b);
    }
  }

  lemma {:induction false} DictionaryParts(a: seq<Found>, b: seq<Found>)
    ensures Dictionary(a + b) == Dictionary(a) + Dictionary(b)
  {
    if b == [] {
      assert a + b == a;
    } else {
      assert (a + b)[..|a + b| - 1] == a + b[..|b| - 1];
      DictionaryParts(a, b[..|b| - 1]);
    }
  }

  // ---- the variants of one asset ----

  /** The parents are the proper prefixes, the longest first. */
  lemma {:induction false} ParentsArePrefixes(path: Path)
    ensures |Parents(path)| == |path| && forall k | 0 <= k < |path| :: Parents(path)[k] == path[..|path| - 1 - k]
  {
    if path == [] {
    } else {
      ParentsArePrefixes(DropLast(path));
    }
  }

  lemma {:induction false} ReversedAt<T>(s: seq<T>)
    ensures |Reversed(s)| == |s| && forall k | 0 <= k < |s| :: Reversed(s)[k] == s[|s| - 1 - k]
  {
    if s == [] {
    } else {
      ReversedAt(s[..|s| - 1]);
    }
  }

  /** The variants are all prefixes but the empty one, each before the more specific ones. */
  lemma VariantsArePrefixes(variant: Path)
    ensures variant == [] ==> Variants(variant) == [[]]
    ensures variant != [] ==> |Variants(variant)| == |variant|
    ensures variant != [] ==> forall n | 1 <= n <= |variant| :: Variants(variant)[n - 1] == variant[..n]
  {
    ParentsArePrefixes(variant);
    var down := [variant] + DropLast(Parents(variant));
    ReversedAt(down);
    if variant != [] {
      forall n | 1 <= n <= |variant|
        ensures down[|variant| - n] == variant[..n]
      {
        if n < |variant| {
          assert down[|variant| - n] == Parents(variant)[|variant| - n - 1];
        }
      }
    }
  }

  lemma {:induction false} NarrowingReverses(asset: Path, variant: Path, n: nat)
    requires n <= |variant|
    requires |variant| <= |Variants(variant)|
    requires forall m | 1 <= m <= n :: Variants(variant)[m - 1] == variant[..m]
    ensures Narrowing(asset, variant, n) == Reversed([asset] + VariantDirs(asset, Variants(variant)[..n]))
  {
    var vs := Variants(variant);
    if n == 0 {
    } else {
      NarrowingReverses(asset, variant, n - 1);
      var up := [asset] + VariantDirs(asset, vs[..n]);
      assert up[..|up| - 1] == [asset] + VariantDirs(asset, vs[..n - 1]);
      assert up[|up| - 1] == asset + ["variants"] + variant[..n];
    }
  }

  lemma SearchReverses(asset: Path, variant: Path)
    ensures AssetSearch(asset, variant) == Reversed([asset] + VariantDirs(asset, Variants(variant)))
  {
    VariantsArePrefixes(variant);
    if variant == [] {
      assert asset + ["variants"] + [] == asset + ["variants"];
      assert [asset] + VariantDirs(asset, [[]]) == [asset, asset + ["variants"]];
      assert [asset, asset + ["variants"]][..1] == [asset];
    } else {
      NarrowingReverses(asset, variant, |variant|);
      assert Variants(variant)[..|variant|] == Variants(variant);
    }
  }

  /** What an asset yields is listed in the opposite order of its search. */
  lemma AssetIsSearched(tree: Tree, asset: Path, variant: Path)
    ensures CollectAsset(tree, asset, variant) == GlobAll(tree, Reversed(AssetSearch(asset, variant)))
  {
    var dirs := [asset] + VariantDirs(asset, Variants(variant));
    SearchReverses(asset, variant);
    ReversedTwice(dirs);
    assert dirs[1..] == VariantDirs(asset, Variants(variant));
  }

  lemma ReversedTwice<T>(s: seq<T>)
    ensures Reversed(Reversed(s)) == s
  {
    ReversedAt(s);
    ReversedAt(Reversed(s));
  }

  lemma {:induction false} ResourcesAreSearched(tree: Tree, resources: seq<string>, variant: Path)
    ensures CollectResources(tree, resources, variant) == GlobAll(tree, Reversed(ResourceSearch(resources, variant)))
  {
    if resources == [] {
    } else {
      var rest, first := ResourceSearch(resources[1..], variant), AssetSearch(["resources", resources[0]], variant);
      ResourcesAreSearched(tree, resources[1..], variant);
      AssetIsSearched(tree, ["resources", resources[0]], variant);
      ReversedParts(rest, first);
      GlobAllParts(tree, Reversed(first), Reversed(rest));
    }
  }

  // ---- the last one of a name ----

  lemma {:induction false} LastOfChain(found: seq<Found>, dir: Path, name: string)
    requires forall f | f in found :: f.path == dir + [f.name]
    ensures name in Dictionary(found) <==> Found(dir + [name], name, true) in found
    ensures name in Dictionary(found) ==> Dictionary(found)[name] == dir + [name]
  {
    if found == [] {
    } else {
      var before, last := found[..|found| - 1], found[|found| - 1];
      assert found == before + [last] && last in found;
      LastOfChain(before, dir, name);
    }
  }

  /** The files of one directory. */
  lemma OneDirectory(tree: Tree, dir: Path, name: string)
    ensures name in Dictionary(Glob(tree, dir)) <==> HasFile(tree, dir, name)
    ensures name in Dictionary(Glob(tree, dir)) ==> Dictionary(Glob(tree, dir))[name] == dir + [name]
  {
    var found := Glob(tree, dir);
    LastOfChain(found, dir, name);
    if HasFile(tree, dir, name) {
      var i :| 0 <= i < |tree(dir)| && tree(dir)[i] == Item(name, true);
      assert found[i] == Found(dir + [name], name, true);
    }
  }

  function Lookup(names: map<string, Path>, name: string): Option<Path> {
    if name in names then Some(names[name]) else None
  }

  /** The last directory of a chain is the first one searched. */
  lemma {:induction false} LastIsFirst(tree: Tree, search: seq<Path>, name: string)
    ensures Lookup(Dictionary(GlobAll(tree, Reversed(search))), name) == FirstHit(tree, search, name)
  {
    if search == [] {
    } else {
      var rest := search[1..];
      LastIsFirst(tree, rest, name);
      OneDirectory(tree, search[0], name);
      assert search == [search[0]] + rest;
      ReversedParts([search[0]], rest);
      assert Reversed([search[0]]) == [search[0]];
      GlobAllParts(tree, Reversed(rest), [search[0]]);
      assert GlobAll(tree, [search[0]]) == Glob(tree, search[0]);
      DictionaryParts(GlobAll(tree, Reversed(rest)), Glob(tree, search[0]));
    }
  }

  // ---- the results ----

  lemma ChainIsSearched(tree: Tree, s: seq<Path>, r: seq<Path>, p: seq<Path>)
    ensures GlobAll(tree, Reversed(p)) + GlobAll(tree, Reversed(r)) + GlobAll(tree, Reversed(s))
         == GlobAll(tree, Reversed(s + r + p))
  {
    ReversedParts(s + r, p);
    ReversedParts(s, r);
    GlobAllParts(tree, Reversed(p), Reversed(s + r));
    GlobAllParts(tree, Reversed(r), Reversed(s));
  }

  /** The dictionary is the search from the most specific directory to the least specific one. */
  lemma CollectedIsSearched(tree: Tree, platform: string, resources: seq<string>, suite: string, variant: Path,
                            name: string)
    ensures Lookup(CollectAssets(tree, platform, resources, suite, variant), name)
         == FirstHit(tree, SearchOrder(platform, resources, suite, variant), name)
  {
    var s := AssetSearch(["suites", suite], variant);
    var r := ResourceSearch(resources, variant);
    var p := AssetSearch(["platforms", platform], variant);
    AssetIsSearched(tree, ["suites", suite], variant);
    ResourcesAreSearched(tree, resources, variant);
    AssetIsSearched(tree, ["platforms", platform], variant);
    ChainIsSearched(tree, s, r, p);
    LastIsFirst(tree, s + r + p, name);
  }

  lemma {:induction false} FirstHitIsFirst(tree: Tree, search: seq<Path>, name: string, k: nat)
    requires k <= |search| && forall j | 0 <= j < k :: !HasFile(tree, search[j], name)
    ensures k == |search| ==> FirstHit(tree, search, name) == None
    ensures k < |search| && HasFile(tree, search[k], name) ==> FirstHit(tree, search, name) == Some(search[k] + [name])
  {
    if k == 0 {
    } else {
      FirstHitIsFirst(tree, search[1..], name, k - 1);
    }
  }

  /** A file overrides those of the same name in less specific directories. */
  lemma MostSpecificWins(tree: Tree, platform: string, resources: seq<string>, suite: string, variant: Path,
                         name: string, k: nat)
    requires k < |SearchOrder(platform, resources, suite, variant)|
    requires HasFile(tree, SearchOrder(platform, resources, suite, variant)[k], name)
    requires forall j | 0 <= j < k :: !HasFile(tree, SearchOrder(platform, resources, suite, variant)[j], name)
    ensures Lookup(CollectAssets(tree, platform, resources, suite, variant), name)
         == Some(SearchOrder(platform, resources, suite, variant)[k] + [name])
  {
    CollectedIsSearched(tree, platform, resources, suite, variant, name);
    FirstHitIsFirst(tree, SearchOrder(platform, resources, suite, variant), name, k);
  }

  /** The directories of one asset, by their depth: 0 is the asset itself, `n` its variant with `n`
      components, and 1 the variants themselves when the variant has no component. */
  function LayerOf(asset: Path, variant: Path, n: nat): Path {
    if n == 0 then asset else asset + ["variants"] + if n <= |variant| then variant[..n] else []
  }

  function Depth(variant: Path): nat {
    if variant == [] then 1 else |variant|
  }

  /** The assets, the strongest first: the suite, the resources from the last to the first, and the
      platform. */
  function AssetAt(platform: string, resources: seq<string>, suite: string, g: nat): Path
    requires g <= |resources| + 1
  {
    if g == 0 then ["suites", suite]
    else if g <= |resources| then ["resources", resources[|resources| - g]]
    else ["platforms", platform]
  }

  /** No directory of the asset that is deeper than `n` has a file of that name. */
  ghost predicate NotDeeper(tree: Tree, asset: Path, variant: Path, name: string, n: nat) {
    forall m: nat | n < m <= Depth(variant) :: !HasFile(tree, LayerOf(asset, variant, m), name)
  }

  ghost predicate Nowhere(tree: Tree, asset: Path, variant: Path, name: string) {
    NotDeeper(tree, asset, variant, name, 0) && !HasFile(tree, asset, name)
  }

  lemma {:induction false} FirstHitParts(tree: Tree, a: seq<Path>, b: seq<Path>, name: string)
    ensures FirstHit(tree, a + b, name)
         == if FirstHit(tree, a, name).Some? then FirstHit(tree, a, name) else FirstHit(tree, b, name)
  {
    if a == [] {
      assert a + b == b;
    } else {
      assert (a + b)[1..] == a[1..] + b;
      FirstHitParts(tree, a[1..], b, name);
    }
  }

  lemma {:induction false} NarrowingHit(tree: Tree, asset: Path, variant: Path, name: string, top: nat, n: nat)
    requires n <= top <= |variant|
    requires forall m: nat | n < m <= top :: !HasFile(tree, LayerOf(asset, variant, m), name)
    ensures HasFile(tree, LayerOf(asset, variant, n), name) ==>
              FirstHit(tree, Narrowing(asset, variant, top), name) == Some(LayerOf(asset, variant, n) + [name])
    ensures n == 0 && !HasFile(tree, asset, name) ==> FirstHit(tree, Narrowing(asset, variant, top), name) == None
    decreases top
  {
    var search := Narrowing(asset, variant, top);
    if top == 0 {
      assert search[1..] == [];
    } else {
      assert search[0] == LayerOf(asset, variant, top) && search[1..] == Narrowing(asset, variant, top - 1);
      if n < top {
        NarrowingHit(tree, asset, variant, name, top - 1, n);
      }
    }
  }

  /** In one asset the deepest directory with the file is hit first. */
  lemma AssetHit(tree: Tree, asset: Path, variant: Path, name: string, n: nat)
    requires n <= Depth(variant) && NotDeeper(tree, asset, variant, name, n)
    ensures HasFile(tree, LayerOf(asset, variant, n), name) ==>
              FirstHit(tree, AssetSearch(asset, variant), name) == Some(LayerOf(asset, variant, n) + [name])
    ensures n == 0 && !HasFile(tree, asset, name) ==> FirstHit(tree, AssetSearch(asset, variant), name) == None
  {
    if variant == [] {
      assert LayerOf(asset, variant, 1) == asset + ["variants"];
      if n == 0 {
        FirstHitIsFirst(tree, AssetSearch(asset, variant), name, if HasFile(tree, asset, name) then 1 else 2);
      }
    } else {
      NarrowingHit(tree, asset, variant, name, |variant|, n);
    }
  }

  lemma {:induction false} ResourceHit(tree: Tree, resources: seq<string>, variant: Path, name: string, i: nat, n: nat)
    requires i < |resources| && n <= Depth(variant)
    requires forall j | i < j < |resources| :: Nowhere(tree, ["resources", resources[j]], variant, name)
    requires NotDeeper(tree, ["resources", resources[i]], variant, name, n)
    requires HasFile(tree, LayerOf(["resources", resources[i]], variant, n), name)
    ensures FirstHit(tree, ResourceSearch(resources, variant), name)
         == Some(LayerOf(["resources", resources[i]], variant, n) + [name])
  {
    var first := AssetSearch(["resources", resources[0]], variant);
    FirstHitParts(tree, ResourceSearch(resources[1..], variant), first, name);
    if i == 0 {
      NoResourceHit(tree, resources[1..], variant, name);
      AssetHit(tree, ["resources", resources[0]], variant, name, n);
    } else {
      ResourceHit(tree, resources[1..], variant, name, i - 1, n);
    }
  }

  lemma {:induction false} NoResourceHit(tree: Tree, resources: seq<string>, variant: Path, name: string)
    requires forall j | 0 <= j < |resources| :: Nowhere(tree, ["resources", resources[j]], variant, name)
    ensures FirstHit(tree, ResourceSearch(resources, variant), name) == None
  {
    if resources == [] {
    } else {
      var first := AssetSearch(["resources", resources[0]], variant);
      FirstHitParts(tree, ResourceSearch(resources[1..], variant), first, name);
      assert Nowhere(tree, ["resources", resources[0]], variant, name);
      AssetHit(tree, ["resources", resources[0]], variant, name, 0);
      NoResourceHit(tree, resources[1..], variant, name);
    }
  }

  /** The rule of overriding, written out: the suite comes before the resources, a later resource before
      an earlier one, and these before the platform; in each of them a longer part of the variant comes
      before a shorter one, and the asset itself is last. */
  lemma {:induction false} LayerWins(tree: Tree, platform: string, resources: seq<string>, suite: string,
                                     variant: Path, name: string, g: nat, n: nat)
    requires g <= |resources| + 1 && n <= Depth(variant)
    requires forall h: nat | h < g :: Nowhere(tree, AssetAt(platform, resources, suite, h), variant, name)
    requires NotDeeper(tree, AssetAt(platform, resources, suite, g), variant, name, n)
    requires HasFile(tree, LayerOf(AssetAt(platform, resources, suite, g), variant, n), name)
    ensures var collected := CollectAssets(tree, platform, resources, suite, variant);
            && name in collected
            && collected[name] == LayerOf(AssetAt(platform, resources, suite, g), variant, n) + [name]
  {
    CollectedIsSearched(tree, platform, resources, suite, variant, name);
    SuiteFirst(tree, platform, resources, suite, variant, name);
    if g == 0 {
      AssetHit(tree, ["suites", suite], variant, name, n);
    } else {
      assert Nowhere(tree, AssetAt(platform, resources, suite, 0), variant, name);
      AssetHit(tree, ["suites", suite], variant, name, 0);
      BelowSuite(tree, platform, resources, suite, variant, name, g, n);
    }
  }

  lemma SuiteFirst(tree: Tree, platform: string, resources: seq<string>, suite: string, variant: Path, name: string)
    ensures var suiteHit := FirstHit(tree, AssetSearch(["suites", suite], variant), name);
            FirstHit(tree, SearchOrder(platform, resources, suite, variant), name)
            == if suiteHit.Some? then suiteHit
               else FirstHit(tree, ResourceSearch(resources, variant) + AssetSearch(["platforms", platform], variant),
                             name)
  {
    var s, r := AssetSearch(["suites", suite], variant), ResourceSearch(resources, variant);
    var p := AssetSearch(["platforms", platform], variant);
    FirstHitParts(tree, s, r + p, name);
    assert s + r + p == s + (r + p);
  }

  lemma {:induction false} BelowSuite(tree: Tree, platform: string, resources: seq<string>, suite: string,
                                      variant: Path, name: string, g: nat, n: nat)
    requires 0 < g <= |resources| + 1 && n <= Depth(variant)
    requires forall h: nat | h < g :: Nowhere(tree, AssetAt(platform, resources, suite, h), variant, name)
    requires NotDeeper(tree, AssetAt(platform, resources, suite, g), variant, name, n)
    requires HasFile(tree, LayerOf(AssetAt(platform, resources, suite, g), variant, n), name)
    ensures FirstHit(tree, ResourceSearch(resources, variant) + AssetSearch(["platforms", platform], variant), name)
         == Some(LayerOf(AssetAt(platform, resources, suite, g), variant, n) + [name])
  {
    var r, p := ResourceSearch(resources, variant), AssetSearch(["platforms", platform], variant);
    FirstHitParts(tree, r, p, name);
    ResourcesAbove(tree, platform, resources, suite, variant, name, g);
    if g <= |resources| {
      ResourceHit(tree, resources, variant, name, |resources| - g, n);
    } else {
      NoResourceHit(tree, resources, variant, name);
      AssetHit(tree, ["platforms", platform], variant, name, n);
    }
  }

  /** The assets that are stronger than the `g`-th, as resources. */
  lemma ResourcesAbove(tree: Tree, platform: string, resources: seq<string>, suite: string, variant: Path,
                       name: string, g: nat)
    requires 0 < g <= |resources| + 1
    requires forall h: nat | h < g :: Nowhere(tree, AssetAt(platform, resources, suite, h), variant, name)
    ensures forall j: nat | |resources| - g < j < |resources| ::
              Nowhere(tree, ["resources", resources[j]], variant, name)
  {
    forall j: nat | |resources| - g < j < |resources|
      ensures Nowhere(tree, ["resources", resources[j]], variant, name)
    {
      var h: nat := |resources| - j;
      assert AssetAt(platform, resources, suite, h) == ["resources", resources[j]];
    }
  }

  lemma {:induction false} HitSomewhere(tree: Tree, search: seq<Path>, name: string)
    ensures FirstHit(tree, search, name).Some? <==> exists dir | dir in search :: HasFile(tree, dir, name)
  {
    if search == [] {
    } else {
      HitSomewhere(tree, search[1..], name);
      assert search == [search[0]] + search[1..];
    }
  }

  /** No name is lost: one is collected exactly when some directory has a file of that name. */
  lemma NoNameIsLost(tree: Tree, platform: string, resources: seq<string>, suite: string, variant: Path, name: string)
    ensures name in CollectAssets(tree, platform, resources, suite, variant)
       <==> exists dir | dir in SearchOrder(platform, resources, suite, variant) :: HasFile(tree, dir, name)
  {
    CollectedIsSearched(tree, platform, resources, suite, variant, name);
    HitSomewhere(tree, SearchOrder(platform, resources, suite, variant), name);
  }

  ghost predicate SameContents(a: Tree, b: Tree) {
    forall dir, item :: item in a(dir) <==> item in b(dir)
  }

  lemma {:induction false} SameHits(a: Tree, b: Tree, search: seq<Path>, name: string)
    requires SameContents(a, b)
    ensures FirstHit(a, search, name) == FirstHit(b, search, name)
  {
    if search == [] {
    } else {
      SameHits(a, b, search[1..], name);
      assert Item(name, true) in a(search[0]) <==> Item(name, true) in b(search[0]);
    }
  }

  /** The order in which directories list their items does not matter. */
  lemma ListingOrderIsIrrelevant(a: Tree, b: Tree, platform: string, resources: seq<string>, suite: string,
                                 variant: Path)
    requires SameContents(a, b)
    ensures CollectAssets(a, platform, resources, suite, variant)
         == CollectAssets(b, platform, resources, suite, variant)
  {
    var x := CollectAssets(a, platform, resources, suite, variant);
    var y := CollectAssets(b, platform, resources, suite, variant);
    forall name
      ensures Lookup(x, name) == Lookup(y, name)
    {
      CollectedIsSearched(a, platform, resources, suite, variant, name);
      CollectedIsSearched(b, platform, resources, suite, variant, name);
      SameHits(a, b, SearchOrder(platform, resources, suite, variant), name);
    }
    forall name
      ensures name in x <==> name in y
      ensures name in x ==> x[name] == y[name]
    {
      assert Lookup(x, name) == Lookup(y, name);
    }
  }
}
