/** `ScreencopyTracker`: the client side of wlr-screencopy-unstable-v1, one frame after the other,
    with its damage accounting. */
module Screencopy {
  import opened Options
  import opened Damage

  datatype Dimensions = Dimensions(width: nat, height: nat, stride: nat)

  /** Events of zwlr_screencopy_frame_v1 that have a handler; frames are numbered from 0. */
  datatype Wire =
    | BufferInfo(frame: nat, dimensions: Dimensions)
    | DamageRect(frame: nat, rect: Rect)
    | Flags(frame: nat, flags: nat)
    | Ready(frame: nat)

  datatype Request = Capture(frame: nat) | Copy(frame: nat) | CopyWithDamage(frame: nat) | Destroy(frame: nat)

  /** The frame requests that lead to the `n`-th copy request. */
  function FrameLog(n: nat): seq<Request> {
    if n == 0 then []
    else if n == 1 then [Capture(0), Copy(0)]
    else FrameLog(n - 1) + [Destroy(n - 2), Capture(n - 1), CopyWithDamage(n - 1)]
  }

  /** The request at position `p` of `FrameLog`. */
  function RequestAt(p: nat): Request {
    if p == 0 then Capture(0) else if p == 1 then Copy(0)
    else if p % 3 == 2 then Destroy(p / 3) else if p % 3 == 0 then Capture(p / 3)
    else CopyWithDamage(p / 3)
  }

  lemma {:induction false} FrameLogAt(n: nat)
    requires 0 < n
    ensures |FrameLog(n)| == 3 * n - 1
    ensures forall p | 0 <= p < |FrameLog(n)| :: FrameLog(n)[p] == RequestAt(p)
  {
    if n == 1 {
    } else {
      FrameLogAt(n - 1);
      assert RequestAt(3 * n - 4) == Destroy(n - 2);
      assert RequestAt(3 * n - 3) == Capture(n - 1);
      assert RequestAt(3 * n - 2) == CopyWithDamage(n - 1);
    }
  }

  lemma NoRequestTwice(n: nat)
    requires 0 < n
    ensures forall p, q | 0 <= p < q < |FrameLog(n)| :: FrameLog(n)[p] != FrameLog(n)[q]
  {
    FrameLogAt(n);
  }

  /** Every captured frame but the newest has been destroyed, each was asked to be copied exactly
      once, the first one by `copy` and the others by `copy_with_damage`, and no request is ever
      repeated. */
  lemma RequestsOfARun(n: nat, f: nat)
    requires 0 < n
    ensures Capture(f) in FrameLog(n) <==> f < n
    ensures Destroy(f) in FrameLog(n) <==> f + 1 < n
    ensures Copy(f) in FrameLog(n) <==> f == 0
    ensures CopyWithDamage(f) in FrameLog(n) <==> 0 < f < n
    ensures forall p, q | 0 <= p < q < |FrameLog(n)| :: FrameLog(n)[p] != FrameLog(n)[q]
  {
    var log := FrameLog(n);
    FrameLogAt(n);
    NoRequestTwice(n);
    if f < n {
      assert log[if f == 0 then 0 else 3 * f] == Capture(f);
      if f > 0 {
        assert log[3 * f + 1] == RequestAt(3 * f + 1) == CopyWithDamage(f);
      } else {
        assert log[1] == Copy(0);
      }
    }
    if f + 1 < n {
      assert log[3 * f + 2] == RequestAt(3 * f + 2) == Destroy(f);
    }
    assert log[1] == Copy(0);
  }

  /** A frame never overlaps the next: it is destroyed before the next is captured, and asked to be
      copied after it was captured. */
  lemma FramesDoNotOverlap(n: nat, p: nat, q: nat)
    requires 0 < n && p < |FrameLog(n)| && q < |FrameLog(n)|
    ensures FrameLog(n)[p].Capture? && FrameLog(n)[q].Destroy? ==>
              (q < p <==> FrameLog(n)[q].frame < FrameLog(n)[p].frame)
    ensures FrameLog(n)[p].Capture? && (FrameLog(n)[q].Copy? || FrameLog(n)[q].CopyWithDamage?) ==>
              (p < q <==> FrameLog(n)[p].frame <= FrameLog(n)[q].frame)
  {
    FrameLogAt(n);
  }

  /** A ready frame: the damage received for it and the buffer it was copied to. */
  datatype Shot = Shot(damage: seq<Rect>, width: nat, height: nat)

  function Counted(s: Shot): nat {
    if AreaSum(s.damage) != 0 then AreaSum(s.damage) else s.width * s.height
  }

  function Total(shots: seq<Shot>): nat {
    if shots == [] then 0 else Total(shots[..|shots| - 1]) + Counted(shots[|shots| - 1])
  }

  lemma CountedAs(s: Shot, damage: nat)
    requires damage == AreaSum(s.damage)
    ensures Counted(s) == if damage != 0 then damage else s.width * s.height
  {
  }

  lemma TotalNext(shots: seq<Shot>, s: Shot)
    ensures Total(shots + [s]) == Total(shots) + Counted(s)
  {
    assert (shots + [s])[..|shots|] == shots;
  }

  /** A frame counts as many pixels as are in the union of its damage, if the damage is disjoint, and
      the whole buffer without any. */
  lemma FrameCounts(shots: seq<Shot>, s: Shot)
    requires PairwiseDisjoint(s.damage)
    ensures Total(shots + [s]) == Total(shots) + if Union(s.damage) == {} then s.width * s.height else |Union(s.damage)|
  {
    TotalNext(shots, s);
    SumAgainstUnion(s.damage);
  }

  ghost predicate AllOf(shots: seq<Shot>, width: nat, height: nat) {
    forall i | 0 <= i < |shots| :: shots[i].width == width && shots[i].height == height
  }

  ghost predicate WellDamaged(shots: seq<Shot>) {
    forall i | 0 <= i < |shots| ::
      PairwiseDisjoint(shots[i].damage) && Inside(shots[i].damage, shots[i].width, shots[i].height)
  }

  lemma OneMoreTime(n: nat, most: nat)
    ensures (n + 1) * most == n * most + most
  {
  }

  lemma {:induction false} TotalBound(shots: seq<Shot>, most: nat)
    requires forall i | 0 <= i < |shots| :: Counted(shots[i]) <= most
    ensures Total(shots) <= |shots| * most
    decreases |shots|
  {
    if shots == [] {
    } else {
      TotalBound(shots[..|shots| - 1], most);
      OneMoreTime(|shots| - 1, most);
    }
  }

  /** With disjoint damage inside the buffer, a run never counts more than every pixel of every frame. */
  lemma {:induction false} TotalFits(shots: seq<Shot>, width: nat, height: nat)
    requires AllOf(shots, width, height) && WellDamaged(shots)
    ensures Total(shots) <= |shots| * (width * height)
  {
    forall i | 0 <= i < |shots|
      ensures Counted(shots[i]) <= width * height
    {
      DisjointDamageFits(shots[i].damage, width, height);
    }
    TotalBound(shots, width * height);
  }

  function Max(a: int, b: int): int {
    if a < b then b else a
  }

  /** `percent_damage` of `properties`, for a number of possible pixels. */
  function Percent(damage: nat, possible: nat): real {
    damage as real * 100.0 / Max(Max(possible, damage), 1) as real
  }

  lemma QuotientInRange(a: real, b: real)
    requires 0.0 <= a <= b && 0.0 < b
    ensures 0.0 <= a * 100.0 / b <= 100.0
  {
    assert a * 100.0 <= b * 100.0;
  }

  /** The percentage is in range whatever the compositor reports: the plain ratio while less damage than
      possible pixels was counted, and 100 as soon as there is that much, if there is any. */
  lemma PercentInRange(damage: nat, possible: nat)
    ensures 0.0 <= Percent(damage, possible) <= 100.0
    ensures damage < possible ==> Percent(damage, possible) == damage as real * 100.0 / possible as real
    ensures 0 < damage && possible <= damage ==> Percent(damage, possible) == 100.0
    ensures damage == 0 ==> Percent(damage, possible) == 0.0
  {
    QuotientInRange(damage as real, Max(Max(possible, damage), 1) as real);
    if 0 < damage {
      WholeRatio(damage as real);
    }
  }

  lemma WholeRatio(a: real)
    requires a != 0.0
    ensures a * 100.0 / a == 100.0
  {
  }

  /** Over a run with a fixed non-empty buffer and disjoint damage inside it, the percentage is the
      exact ratio of damaged to possible pixels, which are those of the buffer for every frame. */
  lemma {:induction false} PercentIsExact(shots: seq<Shot>, width: nat, height: nat, possible: nat)
    requires AllOf(shots, width, height) && WellDamaged(shots)
    requires shots != [] && 0 < width && 0 < height && possible == |shots| * width * height
    ensures 0 < possible
    ensures Percent(Total(shots), possible) == Total(shots) as real * 100.0 / possible as real
  {
    TotalFits(shots, width, height);
    PositiveProduct(|shots|, width, height);
    PercentWithin(Total(shots), possible);
  }

  lemma PercentWithin(damage: nat, possible: nat)
    requires 0 < possible && damage <= possible
    ensures Percent(damage, possible) == damage as real * 100.0 / possible as real
  {
    PercentInRange(damage, possible);
    WholeRatio(possible as real);
  }

  lemma PositiveProduct(a: nat, b: nat, c: nat)
    requires 0 < a && 0 < b && 0 < c
    ensures a * b * c == a * (b * c) && 0 < a * b * c
  {
    assert 0 < b * c;
    assert a * (b * c) >= b * c;
  }

  predicate Positive(d: Dimensions) {
    0 < d.width && 0 < d.height && 0 < d.stride
  }

  /** Among the first `n` events, all buffer information for frame `f` is `d`. */
  ghost predicate Agree(batch: seq<Wire>, n: nat, f: nat, d: Dimensions)
    requires n <= |batch|
  {
    forall j | 0 <= j < n && batch[j].frame == f && batch[j].BufferInfo? :: batch[j].dimensions == d
  }

  ghost predicate NoInfo(batch: seq<Wire>, n: nat, f: nat)
    requires n <= |batch|
  {
    forall j | 0 <= j < n :: !(batch[j].frame == f && batch[j].BufferInfo?)
  }

  /** The dimensions that matter for frame `f` are positive. */
  ghost predicate AllPositive(buffer: Option<Dimensions>, batch: seq<Wire>, f: nat) {
    match buffer
    case Some(d) => Positive(d)
    case None => forall e | e in batch && e.frame == f && e.BufferInfo? :: Positive(e.dimensions)
  }

  /** The buffer information for frame `f` is that of the buffer, or of a single new one. */
  ghost predicate Consistent(buffer: Option<Dimensions>, batch: seq<Wire>, f: nat) {
    match buffer
    case Some(d) => Agree(batch, |batch|, f, d)
    case None => exists d :: BufferInfo(f, d) in batch && Agree(batch, |batch|, f, d)
  }

  class ScreencopyTracker {
    var frame: Option<nat>
    var frameFlags: nat
    var pendingFlags: nat
    /** The wl_buffer, as it was created. */
    var buffer: Option<Dimensions>
    var frameCount: nat
    var totalDamage: nat
    var bufferWidth: nat
    var bufferHeight: nat
    var bufferSize: nat
    var bufferStride: nat
    var pendingDamage: nat
    /** The number of frame objects captured so far. */
    var captured: nat

    ghost var requests: seq<Request>
    ghost var buffersCreated: nat
    ghost var pending: seq<Rect>
    ghost var shots: seq<Shot>

    /** The accounting, which every handler keeps. */
    ghost predicate Accounts()
      reads this
    {
      && |shots| == frameCount
      && totalDamage == Total(shots)
      && pendingDamage == AreaSum(pending)
    }

    /** The buffer is allocated once; from then on its positive dimensions are those of all events
        and of all frames. */
    ghost predicate BufferFixed()
      reads this
    {
      && buffersCreated == (if buffer.Some? then 1 else 0)
      && (buffer.Some? && Positive(buffer.value) ==>
            && Dimensions(bufferWidth, bufferHeight, bufferStride) == buffer.value
            && bufferSize == bufferStride * bufferHeight
            && AllOf(shots, bufferWidth, bufferHeight))
      && (buffer.None? ==> shots == [] && bufferWidth == bufferHeight == bufferSize == 0)
    }

    /** Connected and not inside a handler: exactly one frame is live, and it is being copied. */
    ghost predicate Quiescent()
      reads this
    {
      && Accounts() && BufferFixed() && buffer.Some?
      && captured == frameCount + 1
      && frame == Some(captured - 1)
      && requests == FrameLog(captured)
    }

    constructor ()
      ensures Accounts() && BufferFixed() && buffer.None? && shots == []
      ensures frame.None? && captured == 0 && requests == []
    {
      frame, frameFlags, pendingFlags, buffer := None, 0, 0, None;
      frameCount, totalDamage, pendingDamage, captured := 0, 0, 0, 0;
      bufferWidth, bufferHeight, bufferSize, bufferStride := 0, 0, 0, 0;
      requests, buffersCreated, pending, shots := [], 0, [], [];
    }

    /** `_frame_buffer`; false when one of its assertions fails. */
    method FrameBuffer(d: Dimensions) returns (ok: bool)
      requires BufferFixed()
      modifies `bufferWidth, `bufferHeight, `bufferStride, `bufferSize, `buffer, `buffersCreated
      ensures ok ==> BufferFixed() && buffer.Some?
      ensures ok ==> buffer == if old(buffer).Some? then old(buffer) else Some(d)
      ensures ok ==> bufferWidth == d.width && bufferHeight == d.height && bufferStride == d.stride
      ensures ok <==>
              && (old(bufferWidth) == 0 || old(bufferWidth) == d.width)
              && (old(bufferHeight) == 0 || old(bufferHeight) == d.height)
              && (old(bufferSize) == 0 || old(bufferSize) == d.stride * d.height)
    {
      if bufferWidth != 0 && bufferWidth != d.width {
        return false;
      }
      bufferWidth := d.width;
      if bufferHeight != 0 && bufferHeight != d.height {
        return false;
      }
      bufferHeight := d.height;
      bufferStride := d.stride;
      var size := d.stride * d.height;
      if bufferSize != 0 && bufferSize != size {
        return false;
      }
      if buffer.Some? && Positive(buffer.value) {
        SameStride(buffer.value.stride, d.stride, d.height);
      }
      bufferSize := size;
      if buffer.None? {
        buffer := Some(d);
        buffersCreated := buffersCreated + 1;
      }
      ok := true;
    }

    /** `_frame_damage`. */
    method FrameDamage(r: Rect)
      requires Accounts()
      modifies `pendingDamage, `pending
      ensures Accounts() && pending == old(pending) + [r]
    {
      pendingDamage := pendingDamage + r.width * r.height;
      pending := pending + [r];
      assert pending[..|pending| - 1] == old(pending);
    }

    /** `_frame_flags`. */
    method FrameFlags(flags: nat)
      modifies `pendingFlags
      ensures pendingFlags == flags
    {
      pendingFlags := flags;
    }

    /** `_frame_ready`, with the events that its roundtrip dispatches. */
    method FrameReady(batch: seq<Wire>) returns (ok: bool)
      requires Quiescent()
      requires forall e | e in batch :: BeforeCopy(e, captured)
      modifies this
      ensures shots == old(shots) + [Shot(old(pending), old(bufferWidth), old(bufferHeight))]
      ensures frameFlags == old(pendingFlags) && pendingFlags == 0 && pending == []
      ensures ok ==>
                totalDamage == old(totalDamage) + if AreaSum(old(pending)) != 0 then AreaSum(old(pending))
                                                  else old(bufferWidth) * old(bufferHeight)
      ensures ok ==> Quiescent() && captured == old(captured) + 1 && buffer == old(buffer)
      ensures Positive(old(buffer).value) ==> (ok <==> Consistent(old(buffer), batch, old(captured)))
    {
      frameCount := frameCount + 1;
      frameFlags := pendingFlags;
      pendingFlags := 0;
      CountDamage();
      ok := CopyFrame(false, batch);
    }

    method CountDamage()
      requires |shots| + 1 == frameCount && totalDamage == Total(shots) && pendingDamage == AreaSum(pending)
      requires BufferFixed() && buffer.Some?
      modifies `totalDamage, `pendingDamage, `shots, `pending
      ensures Accounts() && BufferFixed() && pending == []
      ensures shots == old(shots) + [Shot(old(pending), bufferWidth, bufferHeight)]
      ensures totalDamage == old(totalDamage) + if AreaSum(old(pending)) != 0 then AreaSum(old(pending))
                                                else bufferWidth * bufferHeight
    {
      ghost var shot := Shot(pending, bufferWidth, bufferHeight);
      TotalNext(shots, shot);
      CountedAs(shot, pendingDamage);
      totalDamage := totalDamage + if pendingDamage != 0 then pendingDamage else bufferWidth * bufferHeight;
      pendingDamage := 0;
      shots, pending := shots + [shot], [];
    }

    /** `copy_frame`. Its roundtrip can only bring buffer information for the new frame: the
        compositor sends everything else after a copy request, and events of the destroyed frame
        are dropped. */
    method CopyFrame(isInitial: bool, batch: seq<Wire>) returns (ok: bool)
      requires Accounts() && BufferFixed()
      requires captured == frameCount && requests == FrameLog(captured)
      requires if isInitial then captured == 0 && frame.None? else frame == Some(captured - 1) && 0 < captured
      requires forall e | e in batch :: BeforeCopy(e, captured)
      modifies this
      ensures shots == old(shots) && pending == old(pending) && totalDamage == old(totalDamage)
      ensures frameFlags == old(frameFlags) && pendingFlags == old(pendingFlags)
      ensures ok ==> Quiescent() && captured == old(captured) + 1
      ensures ok && old(buffer).Some? ==> buffer == old(buffer)
      ensures ok && old(buffer).None? ==>
                exists d :: BufferInfo(old(captured), d) in batch && buffer == Some(d)
      ensures AllPositive(old(buffer), batch, old(captured)) ==> (ok <==> Consistent(old(buffer), batch, old(captured)))
    {
      var f := captured;
      CaptureOutput();
      ok := Roundtrip(f, batch);
      if !ok || buffer.None? {
        return false;
      }
      if isInitial {
        requests := requests + [Copy(f)];
      } else {
        requests := requests + [CopyWithDamage(f)];
      }
    }

    /** The old frame is destroyed and a new one captured. */
    method CaptureOutput()
      modifies `frame, `captured, `requests
      ensures frame == Some(old(captured)) && captured == old(captured) + 1
      ensures requests == old(requests) + (if old(frame).Some? then [Destroy(old(frame).value)] else [])
                          + [Capture(old(captured))]
    {
      if frame.Some? {
        requests := requests + [Destroy(frame.value)];
      }
      frame, captured := Some(captured), captured + 1;
      requests := requests + [Capture(frame.value)];
    }

    /** `display.roundtrip()` while frame `f` is new. */
    method Roundtrip(f: nat, batch: seq<Wire>) returns (ok: bool)
      requires BufferFixed() && forall e | e in batch :: BeforeCopy(e, f)
      modifies `bufferWidth, `bufferHeight, `bufferStride, `bufferSize, `buffer, `buffersCreated
      ensures ok ==> BufferFixed()
      ensures ok && old(buffer).Some? ==> buffer == old(buffer)
      ensures ok && old(buffer).None? && buffer.Some? ==> exists d :: BufferInfo(f, d) in batch && buffer == Some(d)
      ensures AllPositive(old(buffer), batch, f) ==> (ok && buffer.Some? <==> Consistent(old(buffer), batch, f))
    {
      for i := 0 to |batch|
        invariant BufferFixed()
        invariant old(buffer).Some? ==> buffer == old(buffer)
        invariant old(buffer).None? && buffer.Some? ==> BufferInfo(f, buffer.value) in batch
        invariant AllPositive(old(buffer), batch, f) ==> Seen(batch, i, f)
      {
        var e := batch[i];
        if e.frame == f {
          assert BeforeCopy(e, f);
          ok := FrameBuffer(e.dimensions);
          if !ok {
            return;
          }
        }
      }
      ok := true;
    }

    /** After `n` events of a roundtrip with positive dimensions. */
    ghost predicate Seen(batch: seq<Wire>, n: nat, f: nat)
      requires n <= |batch|
      reads this
    {
      match buffer
      case None => NoInfo(batch, n, f)
      case Some(d) => Positive(d) && Agree(batch, n, f, d)
    }

    /** `connected`. */
    method Connected(batch: seq<Wire>) returns (ok: bool)
      requires Accounts() && BufferFixed() && buffer.None?
      requires frame.None? && captured == 0 && requests == [] && frameCount == 0
      requires forall e | e in batch :: BeforeCopy(e, 0)
      modifies this
      ensures ok ==> Quiescent() && captured == 1
      ensures AllPositive(None, batch, 0) ==> (ok <==> Consistent(None, batch, 0))
    {
      ok := CopyFrame(true, batch);
    }

    /** One event dispatched to the live frame; events of destroyed frames are dropped. */
    method Dispatch(e: Wire, batch: seq<Wire>) returns (ok: bool)
      requires Quiescent()
      requires forall w | w in batch :: BeforeCopy(w, captured)
      modifies this
      ensures ok ==> Quiescent() && buffer == old(buffer)
      ensures ok && Some(e.frame) == old(frame) && e.Ready? ==>
                && captured == old(captured) + 1
                && shots == old(shots) + [Shot(old(pending), old(bufferWidth), old(bufferHeight))]
                && totalDamage == old(totalDamage) + if AreaSum(old(pending)) != 0 then AreaSum(old(pending))
                                                     else old(bufferWidth) * old(bufferHeight)
      ensures ok && !(Some(e.frame) == old(frame) && e.Ready?) ==>
                captured == old(captured) && shots == old(shots) && requests == old(requests)
      ensures ok && Some(e.frame) == old(frame) ==>
                && pending == (if e.Ready? then [] else if e.DamageRect? then old(pending) + [e.rect] else old(pending))
                && pendingFlags == (if e.Ready? then 0 else if e.Flags? then e.flags else old(pendingFlags))
                && frameFlags == (if e.Ready? then old(pendingFlags) else old(frameFlags))
      ensures Some(e.frame) != old(frame) ==> unchanged(this)
      ensures Positive(old(buffer).value) ==>
                (ok <==> Some(e.frame) == old(frame) ==>
                           && (e.BufferInfo? ==> e.dimensions == old(buffer).value)
                           && (e.Ready? ==> Consistent(old(buffer), batch, old(captured))))
    {
      ok := true;
      if Some(e.frame) == frame {
        match e {
          case BufferInfo(_, d) => ok := FrameBuffer(d);
          case DamageRect(_, r) => FrameDamage(r);
          case Flags(_, flags) => FrameFlags(flags);
          case Ready(_) => ok := FrameReady(batch);
        }
      }
    }

    /** `properties`, at any time: also before a frame is ready, or without a connection. */
    method Properties()
      returns (frames: nat, resolution: (nat, nat), damage: nat, percent: real, ghost possible: nat)
      requires Accounts()
      ensures frames == |shots| && resolution == (bufferWidth, bufferHeight) && damage == Total(shots)
      ensures possible == |shots| * bufferWidth * bufferHeight
      ensures 0.0 <= percent <= 100.0
      ensures shots == [] ==> percent == 0.0
      ensures damage < possible ==> percent == damage as real * 100.0 / possible as real
      ensures 0 < damage && possible <= damage ==> percent == 100.0
      ensures BufferFixed() && buffer.Some? && Positive(buffer.value) && shots != [] && WellDamaged(shots) ==>
                0 < possible && percent == damage as real * 100.0 / possible as real
    {
      frames, resolution, damage := frameCount, (bufferWidth, bufferHeight), totalDamage;
      percent, possible := PercentOf(frames, bufferWidth, bufferHeight, damage);
      if BufferFixed() && buffer.Some? && Positive(buffer.value) && shots != [] && WellDamaged(shots) {
        PercentIsExact(shots, bufferWidth, bufferHeight, possible);
      }
    }

    method PercentOf(frames: nat, width: nat, height: nat, damage: nat) returns (percent: real, ghost possible: nat)
      ensures possible == frames * width * height && percent == Percent(damage, possible)
      ensures 0.0 <= percent <= 100.0
      ensures damage == 0 ==> percent == 0.0
      ensures damage < possible ==> percent == damage as real * 100.0 / possible as real
      ensures 0 < damage && possible <= damage ==> percent == 100.0
    {
      possible := frames * width * height;
      percent := Percent(damage, frames * width * height);
      PercentInRange(damage, possible);
    }
  }

  /** What the protocol allows for frame `f` before it is asked to be copied. */
  predicate BeforeCopy(e: Wire, f: nat) {
    e.frame == f ==> e.BufferInfo?
  }

  /** With a positive height an equal size means an equal stride. */
  lemma SameStride(a: nat, b: nat, height: nat)
    ensures 0 < height && a * height == b * height ==> a == b
  {
  }
}
