/** The optional values shared by the models. */
module Options {
  datatype Option<+T> = None | Some(value: T)
}

/** Facts about sequences of any element type. */
module Sequences {
  lemma TakeNext<T>(s: seq<T>, i: nat)
    requires i < |s|
    ensures s[..i + 1] == s[..i] + [s[i]]
  {
  }

  lemma TakeAll<T>(s: seq<T>)
    ensures s[..|s|] == s
  {
  }

  lemma ThreeParts<T>(a: seq<T>, b: seq<T>, c: seq<T>)
    ensures (a + b + c)[0..|a|] == a
    ensures (a + b + c)[|a|..|a| + |b|] == b
    ensures (a + b + c)[|a| + |b|..|a + b + c|] == c
  {
  }

  /** Where a part of a known slice is. */
  lemma SliceOf<T>(s: seq<T>, i: nat, text: seq<T>, a: nat, b: nat)
    requires i + |text| <= |s| && s[i..i + |text|] == text && a <= b <= |text|
    ensures s[i + a..i + b] == text[a..b]
  {
    forall k | i + a <= k < i + b
      ensures s[k] == text[k - i]
    {
      assert s[k] == s[i..i + |text|][k - i];
    }
  }

  /** A slice, taken from a later start. */
  lemma LaterSlice<T>(s: seq<T>, start: nat, q: nat, n: nat)
    requires start <= q && q + n <= |s|
    ensures s[q..q + n] == s[start..][q - start..q - start + n]
  {
  }

  lemma Slices<T>(s: seq<T>, i: nat, j: nat, k: nat)
    requires i <= j <= k <= |s|
    ensures s[i..j] + s[j..k] == s[i..k]
  {
  }

  lemma SameHead<T>(a: seq<T>, x: seq<T>, b: seq<T>, y: seq<T>)
    requires a + x == b + y && |a| == |b|
    ensures a == b && x == y
  {
    assert a == (a + x)[..|a|] && x == (a + x)[|a|..];
    assert b == (b + y)[..|b|] && y == (b + y)[|b|..];
  }

  /** How often `x` occurs. */
  function Count<T(==)>(s: seq<T>, x: T): nat {
    if s == [] then 0 else Count(s[..|s| - 1], x) + if s[|s| - 1] == x then 1 else 0
  }

  lemma {:induction false} CountParts<T>(a: seq<T>, b: seq<T>, x: T)
    ensures Count(a + b, x) == Count(a, x) + Count(b, x)
  {
    if b == [] {
      assert a + b == a;
    } else {
      assert (a + b)[..|a + b| - 1] == a + b[..|b| - 1];
      CountParts(a, b[..|b| - 1], x);
    }
  }

  lemma {:induction false} CountNone<T>(s: seq<T>, x: T)
    ensures Count(s, x) == 0 <==> x !in s
  {
    if s == [] {
    } else {
      CountNone(s[..|s| - 1], x);
      assert s == s[..|s| - 1] + [s[|s| - 1]];
    }
  }

  lemma CountOne<T>(x: T, z: T)
    ensures Count([x], z) == if z == x then 1 else 0
  {
    assert [x][..0] == [];
  }

  lemma CountTwo<T>(x: T, y: T, z: T)
    requires x != y
    ensures Count([x, y], z) == if z == x || z == y then 1 else 0
  {
    assert [x, y] == [x] + [y];
    CountParts([x], [y], z);
    CountOne(x, z);
    CountOne(y, z);
  }
}
