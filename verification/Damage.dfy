/** Damage rectangles as sets of pixels, and what a sum of their areas says about the union. */
module Damage {
  datatype Rect = Rect(x: nat, y: nat, width: nat, height: nat)
  datatype Pixel = Pixel(x: nat, y: nat)

  function Area(r: Rect): nat {
    r.width * r.height
  }

  function Pixels(r: Rect): set<Pixel> {
    set i, j | r.x <= i < r.x + r.width && r.y <= j < r.y + r.height :: Pixel(i, j)
  }

  /** The sum that a tracker accumulates while it receives `rs`. */
  function AreaSum(rs: seq<Rect>): nat {
    if rs == [] then 0 else AreaSum(rs[..|rs| - 1]) + Area(rs[|rs| - 1])
  }

  function Union(rs: seq<Rect>): set<Pixel> {
    if rs == [] then {} else Union(rs[..|rs| - 1]) + Pixels(rs[|rs| - 1])
  }

  ghost predicate PairwiseDisjoint(rs: seq<Rect>) {
    forall i, j | 0 <= i < j < |rs| :: Pixels(rs[i]) !! Pixels(rs[j])
  }

  ghost predicate Inside(rs: seq<Rect>, width: nat, height: nat) {
    forall i | 0 <= i < |rs| :: rs[i].x + rs[i].width <= width && rs[i].y + rs[i].height <= height
  }

  function Row(x: nat, y: nat, width: nat): set<Pixel> {
    set i | x <= i < x + width :: Pixel(i, y)
  }

  lemma {:induction false} RowSize(x: nat, y: nat, width: nat)
    ensures |Row(x, y, width)| == width
  {
    if width == 0 {
    } else {
      RowSize(x, y, width - 1);
      assert Row(x, y, width) == Row(x, y, width - 1) + {Pixel(x + width - 1, y)};
    }
  }

  lemma SplitLastRow(r: Rect)
    requires 0 < r.height
    ensures var y := r.y + r.height - 1;
            var above := Pixels(r.(height := r.height - 1));
            Pixels(r) == above + Row(r.x, y, r.width) && above !! Row(r.x, y, r.width)
  {
  }

  lemma AreaOfRows(width: nat, height: nat)
    requires 0 < height
    ensures width * height == width * (height - 1) + width
  {
  }

  /** The area is the number of pixels. */
  lemma {:induction false} AreaCountsPixels(r: Rect)
    ensures |Pixels(r)| == Area(r)
    decreases r.height
  {
    if r.height == 0 {
      assert Pixels(r) == {};
    } else {
      SplitLastRow(r);
      AreaCountsPixels(r.(height := r.height - 1));
      RowSize(r.x, r.y + r.height - 1, r.width);
      AreaOfRows(r.width, r.height);
    }
  }

  lemma {:induction false} InUnion(rs: seq<Rect>, p: Pixel)
    ensures p in Union(rs) <==> exists i | 0 <= i < |rs| :: p in Pixels(rs[i])
    decreases |rs|
  {
    if rs == [] {
    } else {
      var front := rs[..|rs| - 1];
      InUnion(front, p);
      assert forall i | 0 <= i < |front| :: front[i] == rs[i];
    }
  }

  lemma {:induction false} DisjointFromUnion(rs: seq<Rect>, r: Rect)
    ensures Union(rs) !! Pixels(r) <==> forall i | 0 <= i < |rs| :: Pixels(rs[i]) !! Pixels(r)
  {
    forall p: Pixel
      ensures p in Union(rs) <==> exists i | 0 <= i < |rs| :: p in Pixels(rs[i])
    {
      InUnion(rs, p);
    }
  }

  lemma DisjointPrefix(rs: seq<Rect>)
    requires rs != []
    ensures var front := rs[..|rs| - 1];
            PairwiseDisjoint(rs) <==> PairwiseDisjoint(front) && Union(front) !! Pixels(rs[|rs| - 1])
  {
    var front := rs[..|rs| - 1];
    DisjointFromUnion(front, rs[|rs| - 1]);
    assert forall i | 0 <= i < |front| :: front[i] == rs[i];
  }

  lemma {:induction false} UnionSize<T>(a: set<T>, b: set<T>)
    ensures |a + b| <= |a| + |b|
    ensures |a + b| == |a| + |b| <==> a !! b
  {
    assert |a + b| == |a| + |b| - |a * b|;
  }

  /** The sum of the areas is at least the number of damaged pixels, and equal to it exactly when no
      pixel is in two rectangles. */
  lemma {:induction false} SumAgainstUnion(rs: seq<Rect>)
    ensures |Union(rs)| <= AreaSum(rs)
    ensures |Union(rs)| == AreaSum(rs) <==> PairwiseDisjoint(rs)
    decreases |rs|
  {
    if rs == [] {
    } else {
      var front, last := rs[..|rs| - 1], rs[|rs| - 1];
      SumAgainstUnion(front);
      AreaCountsPixels(last);
      UnionSize(Union(front), Pixels(last));
      DisjointPrefix(rs);
    }
  }

  lemma SubsetSize<T>(a: set<T>, b: set<T>)
    requires a <= b
    ensures |a| <= |b|
  {
    assert b == a + (b - a);
  }

  /** Disjoint damage inside the buffer never adds up to more than the buffer. */
  lemma DisjointDamageFits(rs: seq<Rect>, width: nat, height: nat)
    requires PairwiseDisjoint(rs) && Inside(rs, width, height)
    ensures AreaSum(rs) <= width * height
  {
    SumAgainstUnion(rs);
    var buffer := Rect(0, 0, width, height);
    AreaCountsPixels(buffer);
    forall p | p in Union(rs)
      ensures p in Pixels(buffer)
    {
      InUnion(rs, p);
    }
    SubsetSize(Union(rs), Pixels(buffer));
  }
}
