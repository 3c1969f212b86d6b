/** The pointer keywords of `WaylandHid` over `VirtualPointer`: what they send and what they track. */
module PointerKeywords {
  import opened Options
  import opened PointerPath

  /** The connected client; `sent` holds the coordinates of all motion requests. */
  datatype Hid = Hid(width: int, height: int, position: Option<(int, int)>, sent: seq<(int, int)>)

  datatype Keyword =
    | MoveToAbsolute(x: int, y: int)
    | MoveToProportional(px: real, py: real)
    | WalkToAbsolute(x: int, y: int, stepDistance: int)
    | WalkToProportional(px: real, py: real, stepDistance: int)

  /** The state after a keyword, which may end at a failed assertion. */
  datatype Done = Done(hid: Hid, ok: bool)

  predicate Sized(h: Hid) {
    0 < h.width && 0 < h.height
  }

  predicate OnOutput(h: Hid, x: real, y: real) {
    0.0 <= x <= h.width as real && 0.0 <= y <= h.height as real
  }

  predicate Proportions(px: real, py: real) {
    0.0 <= px <= 1.0 && 0.0 <= py <= 1.0
  }

  /** `VirtualPointer.move_to_absolute`. */
  function SendMotion(h: Hid, x: real, y: real): Done {
    if Sized(h) && OnOutput(h, x, y) then Done(h.(sent := h.sent + [(Truncate(x), Truncate(y))]), true)
    else Done(h, false)
  }

  /** A proportion of an extent. */
  function Scale(p: real, extent: int): real {
    p * extent as real
  }

  function AbsoluteFromProportional(h: Hid, px: real, py: real): (int, int) {
    (Truncate(Scale(px, h.width)), Truncate(Scale(py, h.height)))
  }

  /** A motion request whose coordinates are tracked as `at`. */
  function MoveTracked(h: Hid, x: real, y: real, at: (int, int)): Done {
    var moved := SendMotion(h, x, y);
    if moved.ok then Done(moved.hid.(position := Some(at)), true) else moved
  }

  function SentPoint(from: (int, int), to: (int, int), k: nat, n: nat): (int, int)
    requires 0 < n
  {
    (Truncate(Along(from.0, to.0, k, n)), Truncate(Along(from.1, to.1, k, n)))
  }

  /** The moves `k` to `n` of a walk. */
  function WalkFrom(h: Hid, from: (int, int), to: (int, int), k: nat, n: nat): Done
    requires 0 < n
    decreases n + 1 - k
  {
    if n < k then Done(h, true) else
    var moved := SendMotion(h, Along(from.0, to.0, k, n), Along(from.1, to.1, k, n));
    if moved.ok then WalkFrom(moved.hid, from, to, k + 1, n) else moved
  }

  function Walk(h: Hid, to: (int, int), stepDistance: int): Done {
    if stepDistance <= 0 then Done(h, false) else
    var start := if h.position.Some? then Done(h, true) else SendMotion(h.(position := Some((0, 0))), 0.0, 0.0);
    if !start.ok then start else
    var from := start.hid.position.value;
    if from == to then start else
    var walked := WalkFrom(start.hid, from, to, 0, StepCount(from, to, stepDistance));
    if walked.ok then Done(walked.hid.(position := Some(to)), true) else walked
  }

  function StepCount(from: (int, int), to: (int, int), stepDistance: nat): (n: nat)
    requires 0 < stepDistance && from != to
    ensures 0 < n && LeastSteps(n, stepDistance, Span(from, to))
  {
    SpanPositive(from, to);
    Steps(Span(from, to), stepDistance)
  }

  lemma SpanPositive(from: (int, int), to: (int, int))
    ensures from != to <==> 0 < Span(from, to)
  {
    SquarePositive(from.0 - to.0);
    SquarePositive(from.1 - to.1);
  }

  function Perform(h: Hid, k: Keyword): Done {
    match k
    case MoveToAbsolute(x, y) => MoveTracked(h, x as real, y as real, (x, y))
    case MoveToProportional(px, py) =>
      if Proportions(px, py)
      then MoveTracked(h, Scale(px, h.width), Scale(py, h.height), AbsoluteFromProportional(h, px, py))
      else Done(SendMotion(h, Scale(px, h.width), Scale(py, h.height)).hid, false)
    case WalkToAbsolute(x, y, stepDistance) => Walk(h, (x, y), stepDistance)
    case WalkToProportional(px, py, stepDistance) =>
      if Proportions(px, py) && Sized(h) then Walk(h, AbsoluteFromProportional(h, px, py), stepDistance)
      else Done(h, false)
  }

  /** What a caller has to respect. */
  predicate InRange(h: Hid, k: Keyword) {
    match k
    case MoveToAbsolute(x, y) => 0 <= x <= h.width && 0 <= y <= h.height
    case MoveToProportional(px, py) => Proportions(px, py)
    case WalkToAbsolute(x, y, stepDistance) => 0 <= x <= h.width && 0 <= y <= h.height && 0 < stepDistance
    case WalkToProportional(px, py, stepDistance) => Proportions(px, py) && 0 < stepDistance
  }

  predicate Within(h: Hid, p: (int, int)) {
    0 <= p.0 <= h.width && 0 <= p.1 <= h.height
  }

  /** The tracked position is the last one sent, and nothing was ever sent outside the extent. */
  ghost predicate Tracks(h: Hid) {
    && Sized(h)
    && (forall i | 0 <= i < |h.sent| :: Within(h, h.sent[i]))
    && match h.position
       case None => h.sent == []
       case Some(p) => h.sent != [] && h.sent[|h.sent| - 1] == p
  }

  lemma MoveTracks(h: Hid, x: real, y: real)
    requires Sized(h) && forall i | 0 <= i < |h.sent| :: Within(h, h.sent[i])
    ensures SendMotion(h, x, y).ok <==> OnOutput(h, x, y)
    ensures var h' := SendMotion(h, x, y).hid;
            && h' == h.(sent := h'.sent) && h.sent <= h'.sent
            && forall i | 0 <= i < |h'.sent| :: Within(h', h'.sent[i])
  {
    if OnOutput(h, x, y) {
      TruncateWithin(x, h.width);
      TruncateWithin(y, h.height);
    }
  }

  /** The coordinates that a walk sends. */
  function WalkSent(from: (int, int), to: (int, int), k: nat, n: nat): seq<(int, int)>
    requires 0 < n
    decreases n + 1 - k
  {
    if n < k then []
    else [SentPoint(from, to, k, n)] + WalkSent(from, to, k + 1, n)
  }

  lemma {:induction false} WalkTracks(h: Hid, from: (int, int), to: (int, int), k: nat, n: nat)
    requires 0 < n && Sized(h) && Within(h, from)
    requires forall i | 0 <= i < |h.sent| :: Within(h, h.sent[i])
    ensures Within(h, to) ==> WalkFrom(h, from, to, k, n).ok
    ensures WalkFrom(h, from, to, k, n).ok && k <= n ==> Within(h, to)
    ensures WalkFrom(h, from, to, k, n).ok ==>
              WalkFrom(h, from, to, k, n).hid == h.(sent := h.sent + WalkSent(from, to, k, n))
    ensures var h' := WalkFrom(h, from, to, k, n).hid;
            && h' == h.(sent := h'.sent) && h.sent <= h'.sent
            && forall i | 0 <= i < |h'.sent| :: Within(h', h'.sent[i])
    decreases n + 1 - k
  {
    if n < k {
    } else {
      var x, y := Along(from.0, to.0, k, n), Along(from.1, to.1, k, n);
      AlongRange(from.0, to.0, k, n);
      AlongRange(from.1, to.1, k, n);
      MoveTracks(h, x, y);
      var moved := SendMotion(h, x, y);
      if moved.ok {
        WalkTracks(moved.hid, from, to, k + 1, n);
        SplitSent(h.sent, SentPoint(from, to, k, n), WalkSent(from, to, k + 1, n));
      }
    }
  }

  lemma SplitSent<T>(a: seq<T>, b: T, c: seq<T>)
    ensures (a + [b]) + c == a + ([b] + c)
  {
  }

  /** The last coordinates of a walk are its target. */
  lemma {:induction false} WalkSentEnds(from: (int, int), to: (int, int), k: nat, n: nat)
    requires 0 < n && k <= n
    ensures |WalkSent(from, to, k, n)| == n + 1 - k
    ensures WalkSent(from, to, k, n)[n - k] == to
    ensures forall i: nat | i <= n - k :: WalkSent(from, to, k, n)[i] == SentPoint(from, to, k + i, n)
    decreases n - k
  {
    if k == n {
      AlongRange(from.0, to.0, n, n);
      AlongRange(from.1, to.1, n, n);
      TruncateOfInt(to.0);
      TruncateOfInt(to.1);
    } else {
      WalkSentEnds(from, to, k + 1, n);
    }
  }

  lemma ScaleOrder(p: real, w: int)
    requires 0 < w
    ensures 0.0 <= p <= 1.0 <==> 0.0 <= Scale(p, w) <= w as real
  {
    if 0.0 <= p <= 1.0 {
      MulOrder(p, w as real);
    } else if p < 0.0 {
      PositiveProduct(-p, w as real);
    } else {
      PositiveProduct(p - 1.0, w as real);
    }
  }

  lemma ProportionsOnOutput(h: Hid, px: real, py: real)
    requires Sized(h)
    ensures Proportions(px, py) <==> OnOutput(h, Scale(px, h.width), Scale(py, h.height))
    ensures Proportions(px, py) ==> Within(h, AbsoluteFromProportional(h, px, py))
  {
    ScaleOrder(px, h.width);
    ScaleOrder(py, h.height);
    if Proportions(px, py) {
      TruncateWithin(Scale(px, h.width), h.width);
      TruncateWithin(Scale(py, h.height), h.height);
    }
  }

  lemma TruncateWithin(x: real, extent: int)
    requires 0.0 <= x <= extent as real
    ensures 0 <= Truncate(x) <= extent
  {
    TruncateMonotone(0.0, x);
    TruncateMonotone(x, extent as real);
    TruncateOfInt(extent);
  }

  lemma WalkKeepsTrack(h: Hid, to: (int, int), stepDistance: int)
    requires Tracks(h)
    ensures Walk(h, to, stepDistance).ok <==> Within(h, to) && 0 < stepDistance
    ensures Walk(h, to, stepDistance).ok ==> Walk(h, to, stepDistance).hid.position == Some(to)
    ensures Walk(h, to, stepDistance).ok ==> Tracks(Walk(h, to, stepDistance).hid)
    ensures KeepsExtent(h, Walk(h, to, stepDistance).hid)
  {
    if 0 < stepDistance {
      MoveTracks(h.(position := Some((0, 0))), 0.0, 0.0);
      var start := if h.position.Some? then h else SendMotion(h.(position := Some((0, 0))), 0.0, 0.0).hid;
      var from := start.position.value;
      assert Within(h, from) by {
        assert h.position.Some? ==> Within(h, h.sent[|h.sent| - 1]);
      }
      if from != to {
        var n := StepCount(from, to, stepDistance);
        WalkTracks(start, from, to, 0, n);
        WalkSentEnds(from, to, 0, n);
      }
    }
  }

  lemma MoveKeepsTrack(h: Hid, x: real, y: real)
    requires Tracks(h)
    ensures var done := MoveTracked(h, x, y, (Truncate(x), Truncate(y)));
            && (done.ok <==> OnOutput(h, x, y)) && (done.ok ==> Tracks(done.hid)) && KeepsExtent(h, done.hid)
            && SendMotion(h, x, y).ok == done.ok && KeepsExtent(h, SendMotion(h, x, y).hid)
  {
    MoveTracks(h, x, y);
  }

  /** The output size is unchanged and nothing out of range was sent. */
  ghost predicate KeepsExtent(h: Hid, h': Hid) {
    && h'.width == h.width && h'.height == h.height && h.sent <= h'.sent
    && forall i | 0 <= i < |h'.sent| :: Within(h', h'.sent[i])
  }

  /** A keyword succeeds exactly when its arguments are in range; it then keeps the tracked position
      equal to the last coordinates sent. Even a keyword that fails sends nothing out of range. */
  lemma KeywordKeepsTrack(h: Hid, k: Keyword)
    requires Tracks(h)
    ensures Perform(h, k).ok <==> InRange(h, k)
    ensures Perform(h, k).ok ==> Tracks(Perform(h, k).hid)
    ensures KeepsExtent(h, Perform(h, k).hid)
  {
    match k {
      case MoveToAbsolute(x, y) =>
        MoveKeepsTrack(h, x as real, y as real);
        TruncateOfInt(x);
        TruncateOfInt(y);
      case MoveToProportional(px, py) =>
        MoveKeepsTrack(h, Scale(px, h.width), Scale(py, h.height));
        ProportionsOnOutput(h, px, py);
      case WalkToAbsolute(x, y, stepDistance) =>
        WalkKeepsTrack(h, (x, y), stepDistance);
      case WalkToProportional(px, py, stepDistance) =>
        ProportionsOnOutput(h, px, py);
        if Proportions(px, py) {
          WalkKeepsTrack(h, AbsoluteFromProportional(h, px, py), stepDistance);
        }
    }
  }

  /** A sequence of keywords, ended by the first that fails. */
  function PerformAll(h: Hid, ks: seq<Keyword>): Done
    decreases |ks|
  {
    if ks == [] then Done(h, true) else
    var done := Perform(h, ks[0]);
    if done.ok then PerformAll(done.hid, ks[1..]) else done
  }

  /** For a fixed output size no sequence of keywords trips an assertion unless one of them is out of
      range; every coordinate sent is within the extent, and the tracked position is always the last
      one sent. */
  lemma {:induction false} KeywordSequence(h: Hid, ks: seq<Keyword>)
    requires Tracks(h)
    ensures PerformAll(h, ks).ok <==> forall k | k in ks :: InRange(h, k)
    ensures PerformAll(h, ks).ok ==> Tracks(PerformAll(h, ks).hid)
    ensures KeepsExtent(h, PerformAll(h, ks).hid)
    decreases |ks|
  {
    if ks == [] {
    } else {
      KeywordKeepsTrack(h, ks[0]);
      var h1 := Perform(h, ks[0]).hid;
      assert forall k :: InRange(h1, k) == InRange(h, k);
      assert forall k :: k in ks <==> k == ks[0] || k in ks[1..];
      if Perform(h, ks[0]).ok {
        KeywordSequence(h1, ks[1..]);
      }
    }
  }

  /** One axis moves from `p` to `q` towards its end, by at most `s`. */
  predicate OneWay(from: int, to: int, p: int, q: int, s: int) {
    && (from <= to ==> p <= q <= p + s)
    && (to <= from ==> p - s <= q <= p)
  }

  lemma SentStep(from: (int, int), to: (int, int), j: nat, n: nat, s: nat)
    requires j < n && LeastSteps(n, s, Span(from, to))
    requires 0 <= from.0 && 0 <= from.1 && 0 <= to.0 && 0 <= to.1
    ensures var p, q := SentPoint(from, to, j, n), SentPoint(from, to, j + 1, n);
            OneWay(from.0, to.0, p.0, q.0, s) && OneWay(from.1, to.1, p.1, q.1, s)
  {
    JumpsAreShort(from, to, j, n, s);
    AlongMonotone(from.0, to.0, j, n);
    AlongMonotone(from.1, to.1, j, n);
  }

  /** The coordinates a successful walk sends: from the tracked position to the target, moving each
      axis one way only and by at most the step distance at a time. */
  lemma WalkedPath(h: Hid, to: (int, int), s: nat)
    requires Tracks(h) && h.position.Some? && h.position.value != to && Within(h, to) && 0 < s
    ensures var from := h.position.value;
            var n := StepCount(from, to, s);
            var walk := WalkSent(from, to, 0, n);
            && Walk(h, to, s).hid.sent == h.sent + walk
            && |walk| == n + 1 && walk[0] == from && walk[n] == to
            && forall i, j | 0 <= i < n && j == i + 1 ::
                 OneWay(from.0, to.0, walk[i].0, walk[j].0, s) && OneWay(from.1, to.1, walk[i].1, walk[j].1, s)
  {
    var from := h.position.value;
    assert Within(h, from) by {
      assert Within(h, h.sent[|h.sent| - 1]);
    }
    var n := StepCount(from, to, s);
    WalkTracks(h, from, to, 0, n);
    WalkSentEnds(from, to, 0, n);
    var walk := WalkSent(from, to, 0, n);
    assert walk[0] == SentPoint(from, to, 0, n);
    StartsAt(from, to, n);
    forall i, j | 0 <= i < n && j == i + 1
      ensures OneWay(from.0, to.0, walk[i].0, walk[j].0, s) && OneWay(from.1, to.1, walk[i].1, walk[j].1, s)
    {
      SentStep(from, to, i, n, s);
    }
  }

  /** The `i`-th coordinates of a walk in `n` steps, in integers. */
  lemma WalkedPixel(from: (int, int), to: (int, int), n: nat, i: nat)
    requires 0 <= from.0 && 0 <= from.1 && 0 <= to.0 && 0 <= to.1 && i <= n && 0 < n
    ensures |WalkSent(from, to, 0, n)| == n + 1
    ensures WalkSent(from, to, 0, n)[i].0 == (n * from.0 + i * (to.0 - from.0)) / n
    ensures WalkSent(from, to, 0, n)[i].1 == (n * from.1 + i * (to.1 - from.1)) / n
  {
    WalkSentEnds(from, to, 0, n);
    assert WalkSent(from, to, 0, n)[i] == SentPoint(from, to, i, n);
    AlongIsQuotient(from.0, to.0, i, n);
    AlongIsQuotient(from.1, to.1, i, n);
  }

  /** The first walk of a client that has sent nothing starts with a move to the corner. */
  lemma FirstWalk(h: Hid, to: (int, int), s: nat)
    requires Tracks(h) && h.position.None? && Within(h, to) && 0 < s
    ensures Walk(h, to, s).ok
    ensures Walk(h, to, s).hid.sent
         == [(0, 0)] + if to == (0, 0) then [] else WalkSent((0, 0), to, 0, StepCount((0, 0), to, s))
  {
    WalkKeepsTrack(h, to, s);
    TruncateOfInt(0);
    var start := SendMotion(h.(position := Some((0, 0))), 0.0, 0.0).hid;
    if to != (0, 0) {
      WalkTracks(start, (0, 0), to, 0, StepCount((0, 0), to, s));
    }
  }

  /** A move to a point sends just that, and both kinds of keywords end there. */
  lemma AbsoluteTarget(h: Hid, x: int, y: int, s: nat)
    requires Tracks(h) && 0 < s && Within(h, (x, y))
    ensures Perform(h, MoveToAbsolute(x, y)).hid == h.(position := Some((x, y)), sent := h.sent + [(x, y)])
    ensures Perform(h, WalkToAbsolute(x, y, s)).hid.position == Some((x, y))
  {
    TruncateOfInt(x);
    TruncateOfInt(y);
    WalkKeepsTrack(h, (x, y), s);
  }

  /** Where a proportion is: the whole pixels of that part of the width and of the height. */
  function PixelAt(h: Hid, px: real, py: real): (int, int) {
    (PartOf(px, h.width), PartOf(py, h.height))
  }

  function PartOf(p: real, extent: int): int {
    (p * extent as real).Floor
  }

  lemma ScaledPixel(p: real, extent: int)
    requires 0.0 <= p && 0 <= extent
    ensures 0.0 <= Scale(p, extent) && Truncate(Scale(p, extent)) == PartOf(p, extent)
  {
    NotNegative(p, extent as real);
  }

  lemma PixelIsAbsolute(h: Hid, px: real, py: real)
    requires Sized(h) && Proportions(px, py)
    ensures AbsoluteFromProportional(h, px, py) == PixelAt(h, px, py)
  {
    ScaledPixel(px, h.width);
    ScaledPixel(py, h.height);
  }

  /** For proportions the target of both kinds of keywords is the pixel at these parts of the output. */
  lemma ProportionalTarget(h: Hid, px: real, py: real, s: nat)
    requires Tracks(h) && 0 < s && Proportions(px, py)
    ensures var at := PixelAt(h, px, py);
            && Perform(h, MoveToProportional(px, py)).hid == h.(position := Some(at), sent := h.sent + [at])
            && Perform(h, WalkToProportional(px, py, s)).hid.position == Some(at)
  {
    PixelIsAbsolute(h, px, py);
    ProportionsOnOutput(h, px, py);
    WalkKeepsTrack(h, PixelAt(h, px, py), s);
    MoveSendsTarget(h, px, py, PixelAt(h, px, py));
  }

  lemma MoveSendsTarget(h: Hid, px: real, py: real, at: (int, int))
    requires Sized(h) && Proportions(px, py) && at == AbsoluteFromProportional(h, px, py)
    requires OnOutput(h, Scale(px, h.width), Scale(py, h.height))
    ensures Perform(h, MoveToProportional(px, py)).hid == h.(position := Some(at), sent := h.sent + [at])
  {
  }

  lemma StartsAt(from: (int, int), to: (int, int), n: nat)
    requires 0 < n
    ensures SentPoint(from, to, 0, n) == from
  {
    AlongRange(from.0, to.0, 0, n);
    AlongRange(from.1, to.1, 0, n);
    TruncateOfInt(from.0);
    TruncateOfInt(from.1);
  }

  // ---- changes of the output size ----

  /** The client after a logical size of its output. */
  function Resized(h: Hid, scale: real, width: nat, height: nat): Hid {
    h.(width := Truncate(width as real * scale), height := Truncate(height as real * scale))
  }

  lemma SizedAfter(h: Hid, scale: real, width: nat, height: nat)
    ensures Sized(Resized(h, scale, width, height)) <==> 1.0 <= width as real * scale && 1.0 <= height as real * scale
  {
    TruncatePositive(width as real * scale);
    TruncatePositive(height as real * scale);
  }

  /** The output is as wide and as high as its scaled sizes, in whole pixels. */
  lemma ScaledSizes(h: Hid, scale: real, width: nat, height: nat)
    requires 0.0 <= scale
    ensures Resized(h, scale, width, height).width == PartOf(scale, width)
    ensures Resized(h, scale, width, height).height == PartOf(scale, height)
    ensures Resized(h, scale, width, height).sent == h.sent && Resized(h, scale, width, height).position == h.position
  {
    ScaledSize(scale, width);
    ScaledSize(scale, height);
  }

  lemma ScaledSize(scale: real, size: nat)
    requires 0.0 <= scale
    ensures Truncate(size as real * scale) == PartOf(scale, size)
  {
    NotNegative(size as real, scale);
    assert size as real * scale == scale * size as real;
  }

  lemma NotNegative(a: real, b: real)
    requires 0.0 <= a && 0.0 <= b
    ensures 0.0 <= a * b
  {
  }

  lemma TruncatePositive(r: real)
    ensures 0 < Truncate(r) <==> 1.0 <= r
  {
  }

  /** A client that has sent nothing can be used once both scaled sizes are at least 1, and tracks its
      position from then on; before that no keyword succeeds, whatever its arguments. */
  lemma UsableOnceSized(h: Hid, scale: real, width: nat, height: nat)
    requires h.position.None? && h.sent == []
    ensures var h' := Resized(h, scale, width, height);
            var usable := 1.0 <= width as real * scale && 1.0 <= height as real * scale;
            && (usable <==> Tracks(h'))
            && (usable <==> exists k :: Perform(h', k).ok)
  {
    var h' := Resized(h, scale, width, height);
    SizedAfter(h, scale, width, height);
    if Sized(h') {
      KeywordKeepsTrack(h', MoveToAbsolute(0, 0));
      assert Perform(h', MoveToAbsolute(0, 0)).ok;
    } else {
      forall k
        ensures !Perform(h', k).ok
      {
        UnsizedFails(h', k);
      }
    }
  }

  lemma UnsizedFails(h: Hid, k: Keyword)
    requires !Sized(h) && h.position.None?
    ensures !Perform(h, k).ok
  {
  }

  lemma {:induction false} SentIsIrrelevant(h: Hid, sent: seq<(int, int)>, from: (int, int), to: (int, int),
                                            k: nat, n: nat)
    requires 0 < n
    ensures WalkFrom(h.(sent := sent), from, to, k, n).ok == WalkFrom(h, from, to, k, n).ok
    decreases n + 1 - k
  {
    if n < k {
    } else {
      var x, y := Along(from.0, to.0, k, n), Along(from.1, to.1, k, n);
      var moved := SendMotion(h, x, y);
      var other := SendMotion(h.(sent := sent), x, y);
      assert other.hid == moved.hid.(sent := other.hid.sent);
      SentIsIrrelevant(moved.hid, other.hid.sent, from, to, k + 1, n);
    }
  }

  /** After a change of the output size, a walk to a target on the output succeeds exactly when the
      tracked position is still on it: the walk starts by sending that position again. */
  lemma WalkAfterResize(h: Hid, scale: real, width: nat, height: nat, to: (int, int), s: nat)
    requires Tracks(h) && h.position.Some? && 0 < s
    requires Sized(Resized(h, scale, width, height)) && Within(Resized(h, scale, width, height), to)
    ensures var h' := Resized(h, scale, width, height);
            Walk(h', to, s).ok <==> Within(h', h.position.value)
  {
    var h', from := Resized(h, scale, width, height), h.position.value;
    if from != to {
      var n := StepCount(from, to, s);
      if Within(h', from) {
        WalkTracks(h'.(sent := []), from, to, 0, n);
        SentIsIrrelevant(h', [], from, to, 0, n);
      } else {
        AlongRange(from.0, to.0, 0, n);
        AlongRange(from.1, to.1, 0, n);
      }
    }
  }

  class WaylandHid {
    var outputWidth: int
    var outputHeight: int
    var outputScale: real
    var pointerPosition: Option<(int, int)>
    ghost var sent: seq<(int, int)>

    ghost function View(): Hid
      reads this
    {
      Hid(outputWidth, outputHeight, pointerPosition, sent)
    }

    constructor (outputScale: real)
      ensures View() == Hid(0, 0, None, []) && this.outputScale == outputScale
    {
      outputWidth, outputHeight, this.outputScale := 0, 0, outputScale;
      pointerPosition, sent := None, [];
    }

    /** `xdg_output_logical_size`; only the first output counts. */
    method XdgOutputLogicalSize(isFirst: bool, width: nat, height: nat)
      modifies this`outputWidth, this`outputHeight
      ensures View() == if isFirst then Resized(old(View()), outputScale, width, height) else old(View())
      ensures isFirst ==> (Sized(View()) <==> 1.0 <= width as real * outputScale && 1.0 <= height as real * outputScale)
    {
      if isFirst {
        SizedAfter(View(), outputScale, width, height);
        outputWidth := Truncate(width as real * outputScale);
        outputHeight := Truncate(height as real * outputScale);
      }
    }

    method Move(x: real, y: real) returns (ok: bool)
      modifies this`sent
      ensures Done(View(), ok) == SendMotion(old(View()), x, y)
    {
      if !(outputWidth > 0 && outputHeight > 0) {
        return false;
      }
      if !(x >= 0.0 && x <= outputWidth as real && y >= 0.0 && y <= outputHeight as real) {
        return false;
      }
      sent := sent + [(Truncate(x), Truncate(y))];
      ok := true;
    }

    method MovePointerToAbsolute(x: int, y: int) returns (ok: bool)
      modifies this`sent, this`pointerPosition
      ensures Done(View(), ok) == Perform(old(View()), MoveToAbsolute(x, y))
    {
      ok := Move(x as real, y as real);
      if ok {
        pointerPosition := Some((x, y));
      }
    }

    method MovePointerToProportional(px: real, py: real) returns (ok: bool)
      modifies this`sent, this`pointerPosition
      ensures Done(View(), ok) == Perform(old(View()), MoveToProportional(px, py))
    {
      ok := Move(Scale(px, outputWidth), Scale(py, outputHeight));
      if Sized(View()) {
        ProportionsOnOutput(View(), px, py);
      }
      if ok {
        var absolutePosition := GetAbsoluteFromProportional(px, py);
        pointerPosition := absolutePosition;
        ok := absolutePosition.Some?;
      }
    }

    /** `get_absolute_from_proportional`, or nothing when one of its assertions fails. */
    method GetAbsoluteFromProportional(px: real, py: real) returns (at: Option<(int, int)>)
      ensures at == if Proportions(px, py) && Sized(View()) then Some(AbsoluteFromProportional(View(), px, py))
                    else None
    {
      if !(0.0 <= px <= 1.0) || !(0.0 <= py <= 1.0) || !(outputWidth > 0) || !(outputHeight > 0) {
        return None;
      }
      at := Some((Truncate(Scale(px, outputWidth)), Truncate(Scale(py, outputHeight))));
    }

    /** The number of steps, found by counting. */
    method CountSteps(squared: nat, stepDistance: nat) returns (steps: nat)
      requires 0 < stepDistance
      ensures LeastSteps(steps, stepDistance, squared)
    {
      steps := 0;
      while (steps * stepDistance) * (steps * stepDistance) < squared
        invariant forall m: nat | m < steps :: Square(m * stepDistance) < squared
        decreases squared - steps
      {
        SquareGrows(steps, stepDistance);
        assert Square(steps * stepDistance) < squared;
        steps := steps + 1;
      }
    }

    method WalkPointerToAbsolute(x: int, y: int, stepDistance: int) returns (ok: bool)
      modifies this`sent, this`pointerPosition
      ensures Done(View(), ok) == Perform(old(View()), WalkToAbsolute(x, y, stepDistance))
    {
      if stepDistance <= 0 {
        return false;
      }
      if pointerPosition.None? {
        pointerPosition := Some((0, 0));
        ok := Move(0.0, 0.0);
        if !ok {
          return;
        }
      }
      var from, to := pointerPosition.value, (x, y);
      var squared := Square(from.0 - x) + Square(from.1 - y);
      SpanPositive(from, to);
      if squared == 0 {
        return true;
      }
      var steps := CountSteps(squared, stepDistance);
      LeastStepsUnique(steps, StepCount(from, to, stepDistance), stepDistance, squared);
      ok := MakeSteps(from, to, steps);
      if ok {
        pointerPosition := Some((x, y));
      }
    }

    /** The loop of a walk. */
    method MakeSteps(from: (int, int), to: (int, int), steps: nat) returns (ok: bool)
      requires 0 < steps
      modifies this`sent
      ensures Done(View(), ok) == WalkFrom(old(View()), from, to, 0, steps)
    {
      ghost var start := View();
      for step := 0 to steps + 1
        invariant View() == start.(sent := sent)
        invariant WalkFrom(start, from, to, 0, steps) == WalkFrom(View(), from, to, step, steps)
      {
        ok := Move(Along(from.0, to.0, step, steps), Along(from.1, to.1, step, steps));
        if !ok {
          return;
        }
      }
      ok := true;
    }

    method WalkPointerToProportional(px: real, py: real, stepDistance: int) returns (ok: bool)
      modifies this`sent, this`pointerPosition
      ensures Done(View(), ok) == Perform(old(View()), WalkToProportional(px, py, stepDistance))
    {
      var at := GetAbsoluteFromProportional(px, py);
      if at.None? {
        return false;
      }
      ok := WalkPointerToAbsolute(at.value.0, at.value.1, stepDistance);
    }
  }
}
