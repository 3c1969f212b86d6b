/** The geometry of a pointer walk, in exact arithmetic. */
module PointerPath {
  import opened Division

  /** `n` steps of length `stepDistance` cover a distance whose square is `squared`, and fewer do not. */
  ghost predicate LeastSteps(n: nat, stepDistance: nat, squared: nat) {
    && squared <= Square(n * stepDistance)
    && forall m: nat | m < n :: Square(m * stepDistance) < squared
  }

  function Square(a: int): nat {
    a * a
  }

  lemma SquarePositive(a: int)
    ensures 0 < Square(a) <==> a != 0
  {
  }

  lemma SquareGrows(n: nat, stepDistance: nat)
    requires 0 < stepDistance
    ensures n <= Square(n * stepDistance)
  {
    assert n <= n * stepDistance;
    assert n * stepDistance <= Square(n * stepDistance);
  }

  /** The number of steps of a walk, the rounded-up quotient of distance and step distance. */
  function Steps(squared: nat, stepDistance: nat): (n: nat)
    requires 0 < stepDistance
    ensures LeastSteps(n, stepDistance, squared)
  {
    StepsFrom(0, squared, stepDistance)
  }

  function StepsFrom(tried: nat, squared: nat, stepDistance: nat): (n: nat)
    requires 0 < stepDistance && forall m: nat | m < tried :: Square(m * stepDistance) < squared
    ensures LeastSteps(n, stepDistance, squared)
    decreases squared - tried
  {
    if squared <= Square(tried * stepDistance) then tried
    else
      SquareGrows(tried, stepDistance);
      StepsFrom(tried + 1, squared, stepDistance)
  }

  lemma LeastStepsUnique(n: nat, m: nat, stepDistance: nat, squared: nat)
    requires LeastSteps(n, stepDistance, squared) && LeastSteps(m, stepDistance, squared)
    ensures n == m
  {
  }

  /** One axis of the walk from `a` to `b` after `k` of `n` steps. */
  function Along(a: int, b: int, k: nat, n: nat): real
    requires 0 < n
  {
    var t := k as real / n as real;
    (1.0 - t) * a as real + t * b as real
  }

  /** Python's `int` of a float. */
  function Truncate(r: real): int {
    if 0.0 <= r then r.Floor else -(-r).Floor
  }

  lemma Distribute(t: real, a: real, b: real)
    ensures (1.0 - t) * a + t * b == a + t * (b - a)
  {
  }

  lemma RatioStep(k: nat, n: nat)
    requires 0 < n
    ensures (k + 1) as real / n as real == k as real / n as real + 1.0 / n as real
    ensures 0.0 < 1.0 / n as real
  {
  }

  lemma RatioRange(k: nat, n: nat)
    requires k <= n && 0 < n
    ensures 0.0 <= k as real / n as real <= 1.0
    ensures k == n ==> k as real / n as real == 1.0
  {
  }

  lemma MulOrder(t: real, d: real)
    requires 0.0 <= t <= 1.0
    ensures 0.0 <= d ==> 0.0 <= t * d <= d
    ensures d <= 0.0 ==> d <= t * d <= 0.0
  {
  }

  /** A walk starts and ends exactly, and stays between its ends. */
  lemma AlongRange(a: int, b: int, k: nat, n: nat)
    requires k <= n && 0 < n
    ensures k == 0 ==> Along(a, b, k, n) == a as real
    ensures k == n ==> Along(a, b, k, n) == b as real
    ensures a <= b ==> a as real <= Along(a, b, k, n) <= b as real
    ensures b <= a ==> b as real <= Along(a, b, k, n) <= a as real
  {
    var t := k as real / n as real;
    RatioRange(k, n);
    Distribute(t, a as real, b as real);
    MulOrder(t, b as real - a as real);
  }

  /** Every step advances each axis by the same amount. */
  lemma AlongStep(a: int, b: int, k: nat, n: nat)
    requires k < n
    ensures Along(a, b, k + 1, n) - Along(a, b, k, n) == (1.0 / n as real) * (b - a) as real
  {
    var t, u := k as real / n as real, 1.0 / n as real;
    RatioStep(k, n);
    Distribute(t, a as real, b as real);
    Distribute(t + u, a as real, b as real);
    assert (t + u) * (b as real - a as real) == t * (b as real - a as real) + u * (b as real - a as real);
  }

  /** Each axis is monotone, before and after truncation. */
  lemma AlongMonotone(a: int, b: int, k: nat, n: nat)
    requires k < n
    ensures a <= b ==> Along(a, b, k, n) <= Along(a, b, k + 1, n)
    ensures b <= a ==> Along(a, b, k + 1, n) <= Along(a, b, k, n)
    ensures a <= b ==> Truncate(Along(a, b, k, n)) <= Truncate(Along(a, b, k + 1, n))
    ensures b <= a ==> Truncate(Along(a, b, k + 1, n)) <= Truncate(Along(a, b, k, n))
  {
    AlongStep(a, b, k, n);
    RatioRange(1, n);
    MulOrder(1.0 / n as real, (b - a) as real);
    TruncateMonotone(Along(a, b, k, n), Along(a, b, k + 1, n));
    TruncateMonotone(Along(a, b, k + 1, n), Along(a, b, k, n));
  }

  lemma TruncateMonotone(p: real, q: real)
    ensures p <= q ==> Truncate(p) <= Truncate(q)
  {
  }

  lemma TruncateOfInt(a: int)
    ensures Truncate(a as real) == a
  {
  }

  /** Values that differ by at most `d` truncate to integers that differ by at most `d`. */
  lemma TruncatedJump(p: real, q: real, d: nat)
    requires 0.0 <= p && 0.0 <= q && -(d as real) <= q - p <= d as real
    ensures Truncate(p) - d <= Truncate(q) <= Truncate(p) + d
  {
    FloorPlusInt(p, d);
    FloorPlusInt(q, d);
    TruncateMonotone(q, p + d as real);
    TruncateMonotone(p, q + d as real);
  }

  lemma FloorPlusInt(p: real, d: nat)
    requires 0.0 <= p
    ensures Truncate(p + d as real) == Truncate(p) + d
  {
    assert (p + d as real).Floor == p.Floor + d;
  }

  /** Truncation goes towards zero, by less than one. */
  lemma TruncateMeans(r: real)
    ensures 0.0 <= r ==> 0 <= Truncate(r) && Truncate(r) as real <= r < Truncate(r) as real + 1.0
    ensures r <= 0.0 ==> Truncate(r) <= 0 && Truncate(r) as real - 1.0 < r <= Truncate(r) as real
  {
  }

  lemma LessThanMultiple(r: real, q: int, n: nat)
    requires 0 < n
    ensures r * n as real < (q * n) as real <==> r < q as real
  {
    assert (q * n) as real == q as real * n as real;
    if r < q as real {
      PositiveProduct(q as real - r, n as real);
    } else {
      MulKeepsOrder(n as real, q as real, r);
    }
  }

  lemma FloorOfQuotient(r: real, m: int, n: nat)
    requires 0 < n && r * n as real == m as real
    ensures r.Floor == m / n
  {
    var q := m / n;
    DivMod(m, n);
    Difference(q + 1, q, n);
    LessThanMultiple(r, q, n);
    LessThanMultiple(r, q + 1, n);
  }

  /** The coordinate after `k` of `n` steps, in integers. */
  lemma AlongIsQuotient(a: int, b: int, k: nat, n: nat)
    requires 0 <= a && 0 <= b && k <= n && 0 < n
    ensures Truncate(Along(a, b, k, n)) == (n * a + k * (b - a)) / n
  {
    AlongRange(a, b, k, n);
    AlongTimes(a, b, k, n);
    FloorOfQuotient(Along(a, b, k, n), n * a + k * (b - a), n);
  }

  lemma AlongTimes(a: int, b: int, k: nat, n: nat)
    requires 0 < n
    ensures Along(a, b, k, n) * n as real == (n * a + k * (b - a)) as real
  {
    var t, d := k as real / n as real, (b - a) as real;
    Distribute(t, a as real, b as real);
    QuotientTimes(k as real, n as real, d);
    assert (n * a) as real == n as real * a as real;
    assert (k * (b - a)) as real == k as real * d;
    SumTimes(a as real, t * d, n as real);
  }

  lemma QuotientTimes(k: real, n: real, d: real)
    requires n != 0.0
    ensures ((k / n) * d) * n == k * d
  {
    assert (k / n) * n == k;
    assert ((k / n) * d) * n == ((k / n) * n) * d;
  }

  lemma SumTimes(x: real, y: real, n: real)
    ensures (x + y) * n == n * x + y * n
  {
  }

  // ---- distances in the plane ----

  datatype Point = Point(x: real, y: real)

  function SquaredDistance(p: Point, q: Point): real {
    (q.x - p.x) * (q.x - p.x) + (q.y - p.y) * (q.y - p.y)
  }

  function WalkPoint(from: (int, int), to: (int, int), k: nat, n: nat): Point
    requires 0 < n
  {
    Point(Along(from.0, to.0, k, n), Along(from.1, to.1, k, n))
  }

  function Span(from: (int, int), to: (int, int)): nat {
    Square(from.0 - to.0) + Square(from.1 - to.1)
  }

  lemma DistanceOf(p: Point, q: Point, x: real, y: real)
    requires q.x - p.x == x && q.y - p.y == y
    ensures SquaredDistance(p, q) == x * x + y * y
  {
  }

  lemma ScaledSquares(u: real, dx: real, dy: real, n: real, s: real)
    requires u * n == 1.0 && dx * dx + dy * dy <= (n * s) * (n * s)
    ensures (u * dx) * (u * dx) + (u * dy) * (u * dy) <= s * s
  {
    assert (u * dx) * (u * dx) + (u * dy) * (u * dy) == (u * u) * (dx * dx + dy * dy);
    assert (u * u) * (dx * dx + dy * dy) <= (u * u) * ((n * s) * (n * s)) by {
      assert 0.0 <= u * u;
      MulKeepsOrder(u * u, dx * dx + dy * dy, (n * s) * (n * s));
    }
    assert (u * u) * ((n * s) * (n * s)) == (u * n) * (u * n) * (s * s);
  }

  lemma MulKeepsOrder(c: real, a: real, b: real)
    requires 0.0 <= c && a <= b
    ensures c * a <= c * b
  {
    assert 0.0 <= c * (b - a);
  }

  lemma InverseOf(n: nat)
    requires 0 < n
    ensures (1.0 / n as real) * n as real == 1.0
  {
  }

  lemma SquareAsReal(a: int)
    ensures Square(a) as real == a as real * a as real
  {
  }

  lemma SpanAsReal(from: (int, int), to: (int, int), n: nat, s: nat)
    requires Span(from, to) <= Square(n * s)
    ensures var dx, dy := (to.0 - from.0) as real, (to.1 - from.1) as real;
            dx * dx + dy * dy <= (n as real * s as real) * (n as real * s as real)
  {
    SquareAsReal(from.0 - to.0);
    SquareAsReal(from.1 - to.1);
    SquareAsReal(n * s);
    ProductAsReal(n, s);
  }

  lemma ProductAsReal(n: nat, s: nat)
    ensures (n * s) as real == n as real * s as real
  {
  }

  /** Consecutive points of a walk are at most the step distance apart. */
  lemma StepsAreShort(from: (int, int), to: (int, int), k: nat, n: nat, s: nat)
    requires k < n && LeastSteps(n, s, Span(from, to))
    ensures SquaredDistance(WalkPoint(from, to, k, n), WalkPoint(from, to, k + 1, n)) <= s as real * s as real
  {
    AlongStep(from.0, to.0, k, n);
    AlongStep(from.1, to.1, k, n);
    InverseOf(n);
    SpanAsReal(from, to, n, s);
    var u, dx, dy := 1.0 / n as real, (to.0 - from.0) as real, (to.1 - from.1) as real;
    ScaledSquares(u, dx, dy, n as real, s as real);
    DistanceOf(WalkPoint(from, to, k, n), WalkPoint(from, to, k + 1, n), u * dx, u * dy);
  }

  lemma PositiveProduct(a: real, b: real)
    requires 0.0 < a && 0.0 < b
    ensures 0.0 < a * b
  {
  }

  lemma RootOrder(x: real, y: real)
    requires 0.0 <= y && x * x <= y * y
    ensures x <= y
  {
    assert x * x - y * y == (x - y) * (x + y);
    if y < x {
      PositiveProduct(x - y, x + y);
    }
  }

  lemma SquareBound(d: real, e: real, s: real)
    requires 0.0 <= s && d * d + e * e <= s * s
    ensures -s <= d <= s
  {
    assert 0.0 <= e * e;
    RootOrder(d, s);
    assert (-d) * (-d) == d * d;
    RootOrder(-d, s);
  }

  /** The coordinates that are sent jump by at most the step distance on each axis. */
  lemma JumpsAreShort(from: (int, int), to: (int, int), k: nat, n: nat, s: nat)
    requires k < n && LeastSteps(n, s, Span(from, to))
    requires 0 <= from.0 && 0 <= from.1 && 0 <= to.0 && 0 <= to.1
    ensures var p, q := WalkPoint(from, to, k, n), WalkPoint(from, to, k + 1, n);
            && Truncate(p.x) - s <= Truncate(q.x) <= Truncate(p.x) + s
            && Truncate(p.y) - s <= Truncate(q.y) <= Truncate(p.y) + s
  {
    var p, q := WalkPoint(from, to, k, n), WalkPoint(from, to, k + 1, n);
    StepsAreShort(from, to, k, n, s);
    SquareBound(q.x - p.x, q.y - p.y, s as real);
    SquareBound(q.y - p.y, q.x - p.x, s as real);
    AlongRange(from.0, to.0, k, n);
    AlongRange(from.1, to.1, k, n);
    AlongRange(from.0, to.0, k + 1, n);
    AlongRange(from.1, to.1, k + 1, n);
    TruncatedJump(p.x, q.x, s);
    TruncatedJump(p.y, q.y, s);
  }

  // ---- no other path does with fewer steps ----

  ghost predicate ShortSteps(path: seq<Point>, s: real) {
    forall i | 0 <= i < |path| - 1 :: SquaredDistance(path[i], path[i + 1]) <= s * s
  }

  lemma DotBound(a: real, b: real, c: real, d: real, p: real, q: real)
    requires 0.0 <= p && 0.0 <= q && a * a + b * b <= p * p && c * c + d * d <= q * q
    ensures a * c + b * d <= p * q
  {
    var dot, cross := a * c + b * d, a * d - b * c;
    assert dot * dot + cross * cross == (a * a + b * b) * (c * c + d * d);
    assert 0.0 <= cross * cross;
    assert (a * a + b * b) * (c * c + d * d) <= (p * p) * (q * q) by {
      assert 0.0 <= a * a && 0.0 <= b * b && 0.0 <= q * q;
      MulKeepsOrder(a * a + b * b, c * c + d * d, q * q);
      MulKeepsOrder(q * q, a * a + b * b, p * p);
    }
    assert (p * p) * (q * q) == (p * q) * (p * q);
    RootOrder(dot, p * q);
  }

  /** The triangle inequality, on squared distances. */
  lemma Triangle(a: real, b: real, c: real, d: real, p: real, q: real)
    requires 0.0 <= p && 0.0 <= q && a * a + b * b <= p * p && c * c + d * d <= q * q
    ensures (a + c) * (a + c) + (b + d) * (b + d) <= (p + q) * (p + q)
  {
    DotBound(a, b, c, d, p, q);
    assert (a + c) * (a + c) + (b + d) * (b + d) == (a * a + b * b) + (c * c + d * d) + 2.0 * (a * c + b * d);
    assert (p + q) * (p + q) == p * p + q * q + 2.0 * (p * q);
  }

  lemma OneMoreStep(a: Point, b: Point, c: Point, reach: real, s: real)
    requires 0.0 <= reach && 0.0 <= s
    requires SquaredDistance(a, b) <= reach * reach && SquaredDistance(b, c) <= s * s
    ensures SquaredDistance(a, c) <= (reach + s) * (reach + s)
  {
    Triangle(b.x - a.x, b.y - a.y, c.x - b.x, c.y - b.y, reach, s);
  }

  function Reach(steps: nat, s: real): real {
    steps as real * s
  }

  lemma ReachNext(steps: nat, s: real)
    requires 0.0 <= s
    ensures 0.0 <= Reach(steps, s) && Reach(steps + 1, s) == Reach(steps, s) + s
  {
  }

  /** A path of short steps ends within the sum of their lengths. */
  lemma {:induction false} PathReach(path: seq<Point>, s: real)
    requires 0.0 <= s && path != [] && ShortSteps(path, s)
    ensures SquaredDistance(path[0], path[|path| - 1]) <= Reach(|path| - 1, s) * Reach(|path| - 1, s)
    decreases |path|
  {
    var last := |path| - 1;
    if last == 0 {
    } else {
      var front := path[..last];
      assert ShortSteps(front, s) by {
        assert forall i | 0 <= i < |front| :: front[i] == path[i];
      }
      PathReach(front, s);
      ReachNext(last - 1, s);
      OneMoreStep(path[0], path[last - 1], path[last], Reach(last - 1, s), s);
    }
  }

  /** No path between the same ends, through whatever points, has fewer steps than the walk and
      keeps every step within the step distance. */
  lemma WalkIsShortest(path: seq<Point>, from: (int, int), to: (int, int), n: nat, s: nat)
    requires path != [] && ShortSteps(path, s as real) && LeastSteps(n, s, Span(from, to))
    requires path[0] == Point(from.0 as real, from.1 as real)
    requires path[|path| - 1] == Point(to.0 as real, to.1 as real)
    ensures n <= |path| - 1
  {
    PathReach(path, s as real);
    var m := |path| - 1;
    SquareAsReal(from.0 - to.0);
    SquareAsReal(from.1 - to.1);
    ProductAsReal(m, s);
    SquareAsReal(m * s);
    assert Reach(m, s as real) * Reach(m, s as real) == Square(m * s) as real;
  }
}
