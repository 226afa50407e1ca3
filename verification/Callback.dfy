/** The realtime IOProc: resolve once, silence every output, copy one strided lane times the gain
    into two others. */
module Callback {
  import opened CStrings
  import opened Numbers
  import opened Buffers

  /** The channels to route and the linear gain. */
  datatype Route = Route(gain: real, src: uint32, dstL: uint32, dstR: uint32)

  /** The flags and locations the callback caches between calls. */
  datatype Cache = Cache(resolved: bool, failed: bool, src: ChanLoc, dl: ChanLoc, dr: ChanLoc)

  const FRESH: Cache := Cache(false, false, ChanLoc(0, 0, 0), ChanLoc(0, 0, 0), ChanLoc(0, 0, 0))

  // ---- specification ------------------------------------------------------

  function Resolve(r: Route, c: Cache, ins: seq<nat>, outs: seq<nat>): Cache {
    if c.resolved then c
    else
      var s, l, t := Locate(ins, r.src), Locate(outs, r.dstL), Locate(outs, r.dstR);
      Cache(true, c.failed || s.buffer < 0 || l.buffer < 0 || t.buffer < 0, s, l, t)
  }

  /** The same with the walk of the code, which computes in 32 bits. */
  function ResolveWalk(r: Route, c: Cache, ins: seq<uint32>, outs: seq<uint32>): Cache {
    if c.resolved then c
    else
      var s, l, t := Walk(ins, r.src, 0, 0), Walk(outs, r.dstL, 0, 0), Walk(outs, r.dstR, 0, 0);
      Cache(true, c.failed || s.buffer < 0 || l.buffer < 0 || t.buffer < 0, s, l, t)
  }

  lemma ResolveWalkIsResolve(r: Route, c: Cache, ins: seq<uint32>, outs: seq<uint32>)
    requires |ins| < TWO_31 && Total(ins) < TWO_31 && |outs| < TWO_31 && Total(outs) < TWO_31
    ensures ResolveWalk(r, c, ins, outs) == Resolve(r, c, ins, outs)
  {
    WalkIsLocate(ins, r.src);
    WalkIsLocate(outs, r.dstL);
    WalkIsLocate(outs, r.dstR);
  }

  predicate ValidLoc(loc: ChanLoc) {
    0 <= loc.buffer && 0 <= loc.lane < loc.stride
  }

  /** A cache that resolved without failing holds three real locations. */
  predicate ValidCache(c: Cache) {
    && (c.failed ==> c.resolved)
    && (c.resolved && !c.failed ==> ValidLoc(c.src) && ValidLoc(c.dl) && ValidLoc(c.dr))
  }

  /** The lists still have the buffers the cache points at. */
  predicate Reachable(c: Cache, ins: nat, outs: nat) {
    c.resolved && !c.failed ==> c.src.buffer < ins && c.dl.buffer < outs && c.dr.buffer < outs
  }

  function Zeros(n: nat): seq<real> {
    seq(n, _ => 0.0)
  }

  function Zeroed(v: View): View {
    v.(samples := if v.samples.None? then None else Some(Zeros(|v.samples.value|)))
  }

  function Silence(vs: seq<View>): (r: seq<View>)
    ensures SameShape(vs, r)
  {
    seq(|vs|, i requires 0 <= i < |vs| => Zeroed(vs[i]))
  }

  function At(f: nat, loc: ChanLoc): int {
    f * loc.stride + loc.lane
  }

  /** Whole frames of `stride` samples in `n` samples. */
  function Frames(n: nat, stride: int): nat
    requires stride > 0
  {
    n / stride
  }

  function Min(a: nat, b: nat): nat {
    if b < a then b else a
  }

  /** The buffer at `loc` is present and holds at least `n` frames of its stride. */
  predicate Holds(vs: seq<View>, loc: ChanLoc, n: nat) {
    ValidLoc(loc) && loc.buffer < |vs| && vs[loc.buffer].samples.Some?
    && n <= Frames(|vs[loc.buffer].samples.value|, loc.stride)
  }

  lemma StridedInBounds(f: nat, n: nat, loc: ChanLoc, size: nat)
    requires ValidLoc(loc) && f < n <= Frames(size, loc.stride)
    ensures 0 <= At(f, loc) < size
  {
    var s := loc.stride;
    DivBounds(size, s);
    MulMonotone(f + 1, size / s, s);
    MulMonotone(0, f, s);
    assert (f + 1) * s == f * s + s;
  }

  lemma MulMonotone(a: int, b: int, s: nat)
    requires a <= b
    ensures a * s <= b * s
  {
  }

  /** The same buffers with possibly different sample values. */
  predicate SameShape(a: seq<View>, b: seq<View>) {
    && |a| == |b|
    && forall i :: 0 <= i < |a| ==>
         && a[i].channels == b[i].channels && a[i].samples.Some? == b[i].samples.Some?
         && (a[i].samples.Some? ==> |a[i].samples.value| == |b[i].samples.value|)
  }

  /** One strided write. */
  function Put(vs: seq<View>, loc: ChanLoc, f: nat, v: real): (r: seq<View>)
    requires Holds(vs, loc, f + 1)
    ensures SameShape(vs, r)
  {
    StridedInBounds(f, f + 1, loc, |vs[loc.buffer].samples.value|);
    var s := vs[loc.buffer].samples.value;
    vs[loc.buffer := vs[loc.buffer].(samples := Some(s[At(f, loc) := v]))]
  }

  function Sample(vs: seq<View>, loc: ChanLoc, f: nat): real
    requires Holds(vs, loc, f + 1)
  {
    StridedInBounds(f, f + 1, loc, |vs[loc.buffer].samples.value|);
    vs[loc.buffer].samples.value[At(f, loc)]
  }

  function Amplified(s: real, gain: real): real {
    s * gain
  }

  /** Writing `v` into frame `f` of both destinations. */
  function Round(c: Cache, outs: seq<View>, f: nat, v: real): (r: seq<View>)
    requires Holds(outs, c.dl, f + 1) && Holds(outs, c.dr, f + 1)
    ensures SameShape(outs, r)
  {
    Put(Put(outs, c.dl, f, v), c.dr, f, v)
  }

  /** `outs` after the first `n` rounds of the copy loop. */
  function Copied(c: Cache, gain: real, ins: seq<View>, outs: seq<View>, n: nat): (r: seq<View>)
    requires Holds(ins, c.src, n) && Holds(outs, c.dl, n) && Holds(outs, c.dr, n)
    ensures SameShape(outs, r)
  {
    if n == 0 then outs
    else Round(c, Copied(c, gain, ins, outs, n - 1), n - 1, Amplified(Sample(ins, c.src, n - 1), gain))
  }

  // ---- buffers that share storage -----------------------------------------

  /** One strided write as every buffer sees that has the same storage. */
  function PutShared(vs: seq<View>, cells: Cells, loc: ChanLoc, f: nat, v: real): (r: seq<View>)
    requires Holds(vs, loc, f + 1) && |cells| == |vs|
    ensures SameShape(vs, r)
  {
    seq(|vs|, i requires 0 <= i < |vs| =>
      if cells[i] == cells[loc.buffer] then Written(vs[i], At(f, loc), v) else vs[i])
  }

  function Written(view: View, k: int, v: real): View {
    if view.samples.Some? && 0 <= k < |view.samples.value| then view.(samples := Some(view.samples.value[k := v]))
    else view
  }

  function RoundShared(c: Cache, cells: Cells, outs: seq<View>, f: nat, v: real): (r: seq<View>)
    requires Holds(outs, c.dl, f + 1) && Holds(outs, c.dr, f + 1) && |cells| == |outs|
    ensures SameShape(outs, r)
  {
    PutShared(PutShared(outs, cells, c.dl, f, v), cells, c.dr, f, v)
  }

  /** `outs`, stored in `cells`, after the first `n` rounds of the copy loop. */
  function CopiedShared(c: Cache, gain: real, ins: seq<View>, cells: Cells, outs: seq<View>, n: nat): (r: seq<View>)
    requires Holds(ins, c.src, n) && Holds(outs, c.dl, n) && Holds(outs, c.dr, n) && |cells| == |outs|
    ensures SameShape(outs, r)
  {
    if n == 0 then outs
    else RoundShared(c, cells, CopiedShared(c, gain, ins, cells, outs, n - 1), n - 1, Amplified(Sample(ins, c.src, n - 1), gain))
  }

  // ---- one callback -------------------------------------------------------

  predicate HasData(vs: seq<View>, loc: ChanLoc) {
    0 <= loc.buffer < |vs| && vs[loc.buffer].samples.Some?
  }

  function FramesAt(vs: seq<View>, loc: ChanLoc): nat
    requires ValidLoc(loc) && HasData(vs, loc)
  {
    Frames(|vs[loc.buffer].samples.value|, loc.stride)
  }

  predicate ValidLocs(c: Cache) {
    ValidLoc(c.src) && ValidLoc(c.dl) && ValidLoc(c.dr)
  }

  /** Copy the frames all three buffers have; nothing if one of the data pointers is NULL. */
  function MixInto(c: Cache, gain: real, ins: seq<View>, z: seq<View>): (r: seq<View>)
    requires ValidLocs(c)
    ensures SameShape(z, r)
  {
    if HasData(ins, c.src) && HasData(z, c.dl) && HasData(z, c.dr) then
      var n := Min(Min(FramesAt(ins, c.src), FramesAt(z, c.dl)), FramesAt(z, c.dr));
      Copied(c, gain, ins, z, n)
    else z
  }

  /** Silence everything, then copy. */
  function Mix(c: Cache, gain: real, ins: seq<View>, outs: seq<View>): (r: seq<View>)
    requires ValidLocs(c)
    ensures SameShape(outs, r)
  {
    MixInto(c, gain, ins, Silence(outs))
  }

  function MixIntoShared(c: Cache, gain: real, ins: seq<View>, cells: Cells, z: seq<View>): (r: seq<View>)
    requires ValidLocs(c) && |cells| == |z|
    ensures SameShape(z, r)
  {
    if HasData(ins, c.src) && HasData(z, c.dl) && HasData(z, c.dr) then
      var n := Min(Min(FramesAt(ins, c.src), FramesAt(z, c.dl)), FramesAt(z, c.dr));
      CopiedShared(c, gain, ins, cells, z, n)
    else z
  }

  /** The flags and locations after a callback; a callback without lists changes nothing. */
  function CacheAfter(r: Route, c: Cache, ins: Option<seq<View>>, outs: Option<seq<View>>): Cache {
    if ins.None? || outs.None? then c
    else Resolve(r, c, ViewCounts(ins.value), ViewCounts(outs.value))
  }

  /** The output buffers after a callback. */
  function OutputAfter(r: Route, c: Cache, ins: Option<seq<View>>, outs: seq<View>): (o: seq<View>)
    requires ValidCache(c)
    ensures SameShape(outs, o)
  {
    if ins.None? then outs
    else
      ResolveValid(r, c, ViewCounts(ins.value), ViewCounts(outs));
      var c' := Resolve(r, c, ViewCounts(ins.value), ViewCounts(outs));
      if c'.failed then Silence(outs) else Mix(c', r.gain, ins.value, outs)
  }

  /** The output buffers after a callback, whichever of them share storage. */
  function OutputAfterShared(r: Route, c: Cache, ins: Option<seq<View>>, cells: Cells, outs: seq<View>): (o: seq<View>)
    requires ValidCache(c) && |cells| == |outs|
    ensures SameShape(outs, o)
  {
    if ins.None? then outs
    else
      ResolveValid(r, c, ViewCounts(ins.value), ViewCounts(outs));
      var c' := Resolve(r, c, ViewCounts(ins.value), ViewCounts(outs));
      if c'.failed then Silence(outs) else MixIntoShared(c', r.gain, ins.value, cells, Silence(outs))
  }

  lemma OutputOfResolved(r: Route, c: Cache, ins: seq<View>, cells: Cells, outs: seq<View>, c': Cache)
    requires ValidCache(c) && c' == Resolve(r, c, ViewCounts(ins), ViewCounts(outs)) && |cells| == |outs|
    ensures ValidCache(c')
    ensures OutputAfterShared(r, c, Some(ins), cells, outs)
         == if c'.failed then Silence(outs) else MixIntoShared(c', r.gain, ins, cells, Silence(outs))
  {
    ResolveValid(r, c, ViewCounts(ins), ViewCounts(outs));
  }

  lemma ResolveValid(r: Route, c: Cache, ins: seq<nat>, outs: seq<nat>)
    requires ValidCache(c)
    ensures ValidCache(Resolve(r, c, ins, outs))
    ensures Resolve(r, c, ins, outs).resolved
    ensures !c.resolved ==> Reachable(Resolve(r, c, ins, outs), |ins|, |outs|)
  {
    LocateSound(ins, r.src);
    LocateSound(outs, r.dstL);
    LocateSound(outs, r.dstR);
  }

  // ---- the callback -------------------------------------------------------

  function ViewsOpt(bl: Option<BufferList>): Option<seq<View>>
    reads if bl.None? then {} else Storage(bl.value)
  {
    if bl.None? then None else Some(Views(bl.value))
  }

  /** Silencing one buffer's storage. */
  method Memset(a: array<real>)
    modifies a
    ensures a[..] == Zeros(a.Length)
  {
    for i := 0 to a.Length
      invariant forall j :: 0 <= j < i ==> a[j] == 0.0
    {
      a[i] := 0.0;
    }
  }

  /** The loop that silences every output buffer that has data. */
  method SilenceOutputs(outs: BufferList)
    requires ValidList(outs)
    modifies Storage(outs)
    ensures Views(outs) == Silence(old(Views(outs)))
  {
    for b := 0 to |outs|
      invariant forall k :: 0 <= k < b && outs[k].data != null ==> outs[k].data[..] == Zeros(outs[k].data.Length)
    {
      var ob := outs[b];
      if ob.data != null && ob.byteSize > 0 {
        Memset(ob.data);
      }
    }
    forall k | 0 <= k < |outs| ensures Views(outs)[k] == Silence(old(Views(outs)))[k] {
    }
  }

  /** One sample store of the copy loop, into frame `f` of the lane at `loc`. */
  method Store(outs: BufferList, loc: ChanLoc, f: nat, v: real)
    requires ValidList(outs) && Holds(Views(outs), loc, f + 1)
    modifies Storage(outs)
    ensures Views(outs) == PutShared(old(Views(outs)), CellsOf(outs), loc, f, v)
  {
    var a := outs[loc.buffer].data;
    StridedInBounds(f, f + 1, loc, a.Length);
    a[f * loc.stride + loc.lane] := v;
    forall k | 0 <= k < |outs| ensures Views(outs)[k] == PutShared(old(Views(outs)), CellsOf(outs), loc, f, v)[k] {
      if outs[k].data == a {
        assert a[..] == old(a[..])[At(f, loc) := v];
      }
    }
  }

  /** The whole frames in a buffer's byte size, 0 for a stride that is not positive. */
  method FrameCount(b: AudioBuffer, stride: int) returns (frames: int)
    requires ValidBuffer(b) && b.data != null && stride < CHANNEL_LIMIT
    ensures frames == if stride > 0 then Frames(b.data.Length, stride) else 0
    ensures stride > 0 ==> frames * (4 * stride) <= b.byteSize < (frames + 1) * (4 * stride)
  {
    if stride > 0 {
      DivTwice(b.byteSize, stride);
      DivBounds(b.byteSize, 4 * stride);
      frames := b.byteSize / (stride * BYTES_PER_SAMPLE);
    } else {
      frames := 0;
    }
  }

  lemma DivTwice(n: nat, stride: int)
    requires stride > 0
    ensures (n / BYTES_PER_SAMPLE) / stride == n / (stride * BYTES_PER_SAMPLE)
  {
    var q := n / BYTES_PER_SAMPLE;
    var p := q / stride;
    DivBounds(q, stride);
    assert p * (stride * BYTES_PER_SAMPLE) == (p * stride) * BYTES_PER_SAMPLE;
    assert (p + 1) * (stride * BYTES_PER_SAMPLE) == ((p + 1) * stride) * BYTES_PER_SAMPLE;
    DivUnique(n, stride * BYTES_PER_SAMPLE, p);
  }

  lemma DivBounds(n: int, d: int)
    requires d > 0
    ensures (n / d) * d <= n < (n / d + 1) * d
  {
    assert n == (n / d) * d + n % d;
    assert (n / d + 1) * d == (n / d) * d + d;
  }

  lemma DivUnique(n: int, d: nat, q: int)
    requires d > 0 && q * d <= n < (q + 1) * d
    ensures n / d == q
  {
    DivBounds(n, d);
    if n / d > q { MulMonotone(q + 1, n / d, d); }
    if n / d < q { MulMonotone(n / d + 1, q, d); }
  }

  /** Strides a 32-bit byte count can express. */
  predicate BoundedStrides(c: Cache) {
    c.src.stride < CHANNEL_LIMIT && c.dl.stride < CHANNEL_LIMIT && c.dr.stride < CHANNEL_LIMIT
  }

  /** The frames all three buffers have. */
  method FrameLimit(c: Cache, ins: BufferList, outs: BufferList) returns (frames: nat)
    requires ValidList(ins) && ValidList(outs) && ValidLocs(c) && BoundedStrides(c)
    requires HasData(Views(ins), c.src) && HasData(Views(outs), c.dl) && HasData(Views(outs), c.dr)
    ensures frames == Min(Min(FramesAt(Views(ins), c.src), FramesAt(Views(outs), c.dl)), FramesAt(Views(outs), c.dr))
  {
    frames := FrameCount(ins[c.src.buffer], c.src.stride);
    var lFrames := FrameCount(outs[c.dl.buffer], c.dl.stride);
    var rFrames := FrameCount(outs[c.dr.buffer], c.dr.stride);
    if lFrames < frames { frames := lFrames; }
    if rFrames < frames { frames := rFrames; }
  }

  /** One sample read of the copy loop, from frame `f` of the lane at `loc`. */
  method Fetch(ins: BufferList, loc: ChanLoc, f: nat) returns (v: real)
    requires ValidList(ins) && Holds(Views(ins), loc, f + 1)
    ensures v == Sample(Views(ins), loc, f)
  {
    var a := ins[loc.buffer].data;
    StridedInBounds(f, f + 1, loc, a.Length);
    v := a[f * loc.stride + loc.lane];
  }

  method StoreBoth(c: Cache, outs: BufferList, f: nat, v: real)
    requires ValidList(outs)
    requires Holds(Views(outs), c.dl, f + 1) && Holds(Views(outs), c.dr, f + 1)
    modifies Storage(outs)
    ensures Views(outs) == RoundShared(c, CellsOf(outs), old(Views(outs)), f, v)
  {
    Store(outs, c.dl, f, v);
    Store(outs, c.dr, f, v);
  }

  /** What the callback reads of its inputs: a buffer whose storage is also an output's has been
      silenced before it is read. */
  function InputSeen(ins: BufferList, outs: BufferList): (vs: seq<View>)
    reads Storage(ins)
    ensures |vs| == |ins|
  {
    seq(|ins|, i requires 0 <= i < |ins| reads Storage(ins) =>
      if ins[i].data != null && ins[i].data in Storage(outs) then Zeroed(ViewOf(ins[i])) else ViewOf(ins[i]))
  }

  /** Inputs that share no storage with the outputs are read as they are. */
  lemma SeparateInputIsSeen(ins: BufferList, outs: BufferList)
    requires Storage(ins) !! Storage(outs)
    ensures InputSeen(ins, outs) == Views(ins)
  {
  }

  predicate AllZero(vs: seq<View>, b: nat) {
    b < |vs| && vs[b].samples.Some? && vs[b].samples.value == Zeros(|vs[b].samples.value|)
  }

  /** Writing zeros keeps a silent buffer silent. */
  lemma RoundOfZero(c: Cache, cells: Cells, outs: seq<View>, f: nat, b: nat)
    requires Holds(outs, c.dl, f + 1) && Holds(outs, c.dr, f + 1) && AllZero(outs, b) && |cells| == |outs|
    ensures AllZero(RoundShared(c, cells, outs, f, 0.0), b)
  {
    PutZeroShared(outs, cells, c.dl, f, b);
    PutZeroShared(PutShared(outs, cells, c.dl, f, 0.0), cells, c.dr, f, b);
  }

  lemma PutZeroShared(outs: seq<View>, cells: Cells, loc: ChanLoc, f: nat, b: nat)
    requires Holds(outs, loc, f + 1) && AllZero(outs, b) && |cells| == |outs|
    ensures AllZero(PutShared(outs, cells, loc, f, 0.0), b)
  {
  }

  /** The copy loop. If the source buffer shares its storage with an output, it is silent. */
  method CopyFrames(c: Cache, gain: real, ins: BufferList, outs: BufferList, frames: nat)
    requires ValidList(ins) && ValidList(outs)
    requires Holds(Views(ins), c.src, frames) && Holds(Views(outs), c.dl, frames) && Holds(Views(outs), c.dr, frames)
    requires ins[c.src.buffer].data in Storage(outs) ==> AllZero(Views(ins), c.src.buffer)
    modifies Storage(outs)
    ensures Views(outs) == CopiedShared(c, gain, old(Views(ins)), CellsOf(outs), old(Views(outs)), frames)
  {
    ghost var inViews, z := Views(ins), Views(outs);
    for f := 0 to frames
      invariant Views(ins)[c.src.buffer] == inViews[c.src.buffer]
      invariant Views(outs) == CopiedShared(c, gain, inViews, CellsOf(outs), z, f)
    {
      CopyRound(c, gain, ins, outs, f, inViews, z);
    }
  }

  /** Round `f` of the copy loop. */
  method CopyRound(c: Cache, gain: real, ins: BufferList, outs: BufferList, f: nat, ghost inViews: seq<View>, ghost z: seq<View>)
    requires ValidList(ins) && ValidList(outs) && |inViews| == |ins| && |z| == |outs|
    requires Holds(inViews, c.src, f + 1) && Holds(z, c.dl, f + 1) && Holds(z, c.dr, f + 1)
    requires Views(ins)[c.src.buffer] == inViews[c.src.buffer]
    requires Views(outs) == CopiedShared(c, gain, inViews, CellsOf(outs), z, f)
    requires ins[c.src.buffer].data in Storage(outs) ==> AllZero(Views(ins), c.src.buffer)
    modifies Storage(outs)
    ensures Views(ins)[c.src.buffer] == inViews[c.src.buffer]
    ensures Views(outs) == CopiedShared(c, gain, inViews, CellsOf(outs), z, f + 1)
  {
    var s := Fetch(ins, c.src, f);
    assert s == Sample(inViews, c.src, f);
    StoreKeepsSource(c, gain, ins, outs, f, s);
  }

  /** One round: the source buffer reads the same afterwards, shared or not. */
  method StoreKeepsSource(c: Cache, gain: real, ins: BufferList, outs: BufferList, f: nat, s: real)
    requires ValidList(ins) && ValidList(outs)
    requires Holds(Views(ins), c.src, f + 1) && Holds(Views(outs), c.dl, f + 1) && Holds(Views(outs), c.dr, f + 1)
    requires s == Sample(Views(ins), c.src, f)
    requires ins[c.src.buffer].data in Storage(outs) ==> AllZero(Views(ins), c.src.buffer)
    modifies Storage(outs)
    ensures Views(outs) == RoundShared(c, CellsOf(outs), old(Views(outs)), f, Amplified(s, gain))
    ensures Views(ins)[c.src.buffer] == old(Views(ins)[c.src.buffer])
  {
    ghost var a := ins[c.src.buffer].data;
    ghost var b := 0;
    if a in Storage(outs) {
      b :| 0 <= b < |outs| && outs[b].data == a;
      SilentSample(Views(ins), c.src, f);
      assert Views(outs)[b].samples == Views(ins)[c.src.buffer].samples;
      RoundOfZero(c, CellsOf(outs), Views(outs), f, b);
    }
    StoreBoth(c, outs, f, Amplified(s, gain));
    if a in Storage(outs) {
      assert Views(outs)[b].samples == Some(a[..]);
    }
  }

  lemma SilentSample(vs: seq<View>, loc: ChanLoc, f: nat)
    requires Holds(vs, loc, f + 1) && AllZero(vs, loc.buffer)
    ensures Sample(vs, loc, f) == 0.0
  {
    StridedInBounds(f, f + 1, loc, |vs[loc.buffer].samples.value|);
  }

  /** Copy unless a data pointer is NULL. */
  method CopyOutputs(c: Cache, gain: real, ins: BufferList, outs: BufferList)
    requires ValidList(ins) && ValidList(outs)
    requires ValidLocs(c) && BoundedStrides(c)
    requires c.src.buffer < |ins| && c.dl.buffer < |outs| && c.dr.buffer < |outs|
    requires ins[c.src.buffer].data in Storage(outs) ==> AllZero(Views(ins), c.src.buffer)
    modifies Storage(outs)
    ensures Views(outs) == MixIntoShared(c, gain, old(Views(ins)), CellsOf(outs), old(Views(outs)))
  {
    ghost var inViews, z := Views(ins), Views(outs);
    assert HasData(inViews, c.src) <==> ins[c.src.buffer].data != null;
    assert HasData(z, c.dl) <==> outs[c.dl.buffer].data != null;
    assert HasData(z, c.dr) <==> outs[c.dr.buffer].data != null;
    if ins[c.src.buffer].data == null || outs[c.dl.buffer].data == null || outs[c.dr.buffer].data == null {
      return;
    }
    var frames := FrameLimit(c, ins, outs);
    assert Views(ins) == inViews && Views(outs) == z;
    LimitHolds(c, gain, inViews, CellsOf(outs), z, frames);
    CopyFrames(c, gain, ins, outs, frames);
  }

  lemma LimitHolds(c: Cache, gain: real, ins: seq<View>, cells: Cells, z: seq<View>, n: nat)
    requires ValidLocs(c) && |cells| == |z| && HasData(ins, c.src) && HasData(z, c.dl) && HasData(z, c.dr)
    requires n == Min(Min(FramesAt(ins, c.src), FramesAt(z, c.dl)), FramesAt(z, c.dr))
    ensures Holds(ins, c.src, n) && Holds(z, c.dl, n) && Holds(z, c.dr, n)
    ensures MixIntoShared(c, gain, ins, cells, z) == CopiedShared(c, gain, ins, cells, z, n)
  {
  }

  /** Silence everything, then copy. */
  method MixOutputs(c: Cache, gain: real, ins: BufferList, outs: BufferList)
    requires ValidList(ins) && ValidList(outs)
    requires ValidLocs(c) && BoundedStrides(c)
    requires c.src.buffer < |ins| && c.dl.buffer < |outs| && c.dr.buffer < |outs|
    modifies Storage(outs)
    ensures Views(outs) == MixIntoShared(c, gain, old(InputSeen(ins, outs)), CellsOf(outs), Silence(old(Views(outs))))
  {
    SilenceInputs(ins, outs);
    CopyOutputs(c, gain, ins, outs);
  }

  /** The output side of a callback whose cache is resolved. */
  method FillOutputs(c: Cache, gain: real, ins: BufferList, outs: BufferList)
    requires ValidList(ins) && ValidList(outs) && BoundedStrides(c)
    requires ValidCache(c) && c.resolved && Reachable(c, |ins|, |outs|)
    modifies Storage(outs)
    ensures Views(outs) == if c.failed then Silence(old(Views(outs)))
                           else MixIntoShared(c, gain, old(InputSeen(ins, outs)), CellsOf(outs), Silence(old(Views(outs))))
  {
    if c.failed {
      SilenceOutputs(outs);
    } else {
      MixOutputs(c, gain, ins, outs);
    }
  }

  /** Silencing the outputs, and what it does to inputs that share their storage. */
  method SilenceInputs(ins: BufferList, outs: BufferList)
    requires ValidList(ins) && ValidList(outs)
    modifies Storage(outs)
    ensures Views(outs) == Silence(old(Views(outs)))
    ensures Views(ins) == old(InputSeen(ins, outs))
    ensures forall i :: 0 <= i < |ins| && ins[i].data != null && ins[i].data in Storage(outs) ==> AllZero(Views(ins), i)
  {
    SilenceOutputs(outs);
    forall i | 0 <= i < |ins| ensures Views(ins)[i] == old(InputSeen(ins, outs))[i] {
      if ins[i].data != null && ins[i].data in Storage(outs) {
        var b :| 0 <= b < |outs| && outs[b].data == ins[i].data;
        assert Views(outs)[b].samples == Some(ins[i].data[..]);
      }
    }
  }

  class IoprocCtx {
    const route: Route
    var resolved: bool
    var src: ChanLoc
    var dl: ChanLoc
    var dr: ChanLoc
    var resolveFailed: bool

    constructor (r: Route)
      ensures route == r && Cached() == FRESH
    {
      route := r;
      resolved, resolveFailed := false, false;
      src, dl, dr := ChanLoc(0, 0, 0), ChanLoc(0, 0, 0), ChanLoc(0, 0, 0);
    }

    function Cached(): Cache
      reads this
    {
      Cache(resolved, resolveFailed, src, dl, dr)
    }

    /** The first part of xb_ioproc: resolve unless that was done before. */
    method ResolveOnce(ins: BufferList, outs: BufferList)
      modifies this
      ensures Cached() == ResolveWalk(route, old(Cached()), Counts(ins), Counts(outs))
    {
      if !resolved {
        src := LocateChannel(ins, route.src);
        dl := LocateChannel(outs, route.dstL);
        dr := LocateChannel(outs, route.dstR);
        if src.buffer < 0 || dl.buffer < 0 || dr.buffer < 0 {
          resolveFailed := true;
        }
        resolved := true;
      }
    }

    /** xb_ioproc: the cache and the output buffers become what `CacheAfter` and `OutputAfterShared`
        say, every access is in bounds, and nothing but the output storage is written. */
    method Ioproc(ins: Option<BufferList>, outs: Option<BufferList>)
      requires ins.Some? ==> ValidList(ins.value)
      requires outs.Some? ==> ValidList(outs.value)
      requires ins.Some? && outs.Some? ==> Reachable(Cached(), |ins.value|, |outs.value|)
      requires ValidCache(Cached()) && BoundedStrides(Cached())
      modifies this, if outs.Some? then Storage(outs.value) else {}
      ensures Cached() == CacheAfter(route, old(Cached()), old(ViewsOpt(ins)), old(ViewsOpt(outs)))
      ensures outs.Some? ==>
        Views(outs.value)
          == OutputAfterShared(route, old(Cached()), old(SeenOpt(ins, outs.value)), CellsOf(outs.value), old(Views(outs.value)))
      ensures ValidCache(Cached()) && BoundedStrides(Cached())
    {
      if ins.None? || outs.None? {
        return;
      }
      ghost var c, seen, z := Cached(), InputSeen(ins.value, outs.value), Views(outs.value);
      CountsOfViews(ins.value);
      CountsOfSeen(ins.value, outs.value);
      CountsOfViews(outs.value);
      ResolveValid(route, Cached(), Counts(ins.value), Counts(outs.value));
      ResolveBounded(route, Cached(), Counts(ins.value), Counts(outs.value));
      ResolveWalkIsResolve(route, Cached(), Counts(ins.value), Counts(outs.value));
      ResolveOnce(ins.value, outs.value);
      assert InputSeen(ins.value, outs.value) == seen && Views(outs.value) == z;
      OutputOfResolved(route, c, seen, CellsOf(outs.value), z, Cached());
      FillOutputs(Cached(), route.gain, ins.value, outs.value);
    }
  }

  function SeenOpt(ins: Option<BufferList>, outs: BufferList): Option<seq<View>>
    reads if ins.None? then {} else Storage(ins.value)
  {
    if ins.None? then None else Some(InputSeen(ins.value, outs))
  }

  lemma CountsOfSeen(ins: BufferList, outs: BufferList)
    ensures ViewCounts(InputSeen(ins, outs)) == Counts(ins)
  {
  }

  lemma CountsOfViews(bl: BufferList)
    ensures ViewCounts(Views(bl)) == Counts(bl)
  {
  }

  lemma ResolveBounded(r: Route, c: Cache, ins: seq<nat>, outs: seq<nat>)
    requires (forall i :: 0 <= i < |ins| ==> ins[i] < CHANNEL_LIMIT) && (forall i :: 0 <= i < |outs| ==> outs[i] < CHANNEL_LIMIT)
    requires BoundedStrides(c)
    ensures BoundedStrides(Resolve(r, c, ins, outs))
  {
    LocateSound(ins, r.src);
    LocateSound(outs, r.dstL);
    LocateSound(outs, r.dstR);
  }

  /** Resolving with a fresh cache fails exactly if one of the three channels is not in the lists. */
  lemma ResolveExact(r: Route, ins: seq<nat>, outs: seq<nat>)
    ensures var c := Resolve(r, FRESH, ins, outs);
      && c.resolved
      && (c.failed <==> r.src >= Total(ins) || r.dstL >= Total(outs) || r.dstR >= Total(outs))
  {
    LocateSound(ins, r.src);
    LocateSound(outs, r.dstL);
    LocateSound(outs, r.dstR);
  }

  /** A callback that lacks a list changes neither cache nor outputs. */
  lemma NullListIsIgnored(r: Route, c: Cache, ins: Option<seq<View>>, outs: Option<seq<View>>)
    requires ValidCache(c) && (ins.None? || outs.None?)
    ensures CacheAfter(r, c, ins, outs) == c
    ensures outs.Some? ==> OutputAfter(r, c, ins, outs.value) == outs.value
    ensures outs.Some? ==> forall cells: Cells :: |cells| == |outs.value| ==> OutputAfterShared(r, c, ins, cells, outs.value) == outs.value
  {
  }

  // ---- outputs that share no storage --------------------------------------

  /** No two buffers with samples are in the same cell. */
  predicate Distinct(cells: Cells, vs: seq<View>) {
    |cells| == |vs| && forall i, j :: 0 <= i < |vs| && 0 <= j < |vs| && vs[i].samples.Some? && cells[i] == cells[j] ==> i == j
  }

  lemma SeparateIsDistinct(bl: BufferList)
    ensures Separate(bl) <==> Distinct(CellsOf(bl), Views(bl))
  {
    var cells, vs := CellsOf(bl), Views(bl);
    if Separate(bl) {
      forall i, j | 0 <= i < |bl| && 0 <= j < |bl| && vs[i].samples.Some? && cells[i] == cells[j] ensures i == j {
        assert bl[i].data == bl[j].data;
      }
    } else {
      var i, j :| 0 <= i < j < |bl| && bl[i].data != null && bl[i].data == bl[j].data;
      assert vs[i].samples.Some? && cells[i] == cells[j];
    }
  }

  lemma PutOfDistinct(cells: Cells, vs: seq<View>, loc: ChanLoc, f: nat, v: real)
    requires Holds(vs, loc, f + 1) && Distinct(cells, vs)
    ensures PutShared(vs, cells, loc, f, v) == Put(vs, loc, f, v)
  {
    StridedInBounds(f, f + 1, loc, |vs[loc.buffer].samples.value|);
  }

  lemma RoundOfDistinct(c: Cache, cells: Cells, outs: seq<View>, f: nat, v: real)
    requires Holds(outs, c.dl, f + 1) && Holds(outs, c.dr, f + 1) && Distinct(cells, outs)
    ensures RoundShared(c, cells, outs, f, v) == Round(c, outs, f, v)
  {
    PutOfDistinct(cells, outs, c.dl, f, v);
    PutOfDistinct(cells, Put(outs, c.dl, f, v), c.dr, f, v);
  }

  lemma {:induction false} CopiedOfDistinct(c: Cache, gain: real, ins: seq<View>, cells: Cells, outs: seq<View>, n: nat)
    requires Holds(ins, c.src, n) && Holds(outs, c.dl, n) && Holds(outs, c.dr, n) && Distinct(cells, outs)
    ensures CopiedShared(c, gain, ins, cells, outs, n) == Copied(c, gain, ins, outs, n)
  {
    hide RoundShared, Round;
    if n > 0 {
      CopiedOfDistinct(c, gain, ins, cells, outs, n - 1);
      var mid, v := Copied(c, gain, ins, outs, n - 1), Amplified(Sample(ins, c.src, n - 1), gain);
      assert Distinct(cells, mid);
      RoundOfDistinct(c, cells, mid, n - 1, v);
    }
  }

  /** Where no two outputs share storage, one callback is `OutputAfter`. */
  lemma DistinctOutputs(r: Route, c: Cache, ins: Option<seq<View>>, cells: Cells, outs: seq<View>)
    requires ValidCache(c) && Distinct(cells, outs)
    ensures OutputAfterShared(r, c, ins, cells, outs) == OutputAfter(r, c, ins, outs)
  {
    if ins.Some? {
      ResolveValid(r, c, ViewCounts(ins.value), ViewCounts(outs));
      var c' := Resolve(r, c, ViewCounts(ins.value), ViewCounts(outs));
      var z := Silence(outs);
      if !c'.failed && HasData(ins.value, c'.src) && HasData(z, c'.dl) && HasData(z, c'.dr) {
        var n := Min(Min(FramesAt(ins.value, c'.src), FramesAt(z, c'.dl)), FramesAt(z, c'.dr));
        CopiedOfDistinct(c', r.gain, ins.value, cells, z, n);
      }
    }
  }

  // ---- what any output may hold -------------------------------------------

  /** Silence, or one of the first `n` samples of the source lane times the gain. */
  ghost predicate FromSource(x: real, c: Cache, gain: real, ins: seq<View>, n: nat)
    requires Holds(ins, c.src, n)
  {
    x == 0.0 || exists f: nat :: f < n && x == Sample(ins, c.src, f) * gain
  }

  ghost predicate OnlySource(vs: seq<View>, c: Cache, gain: real, ins: seq<View>, n: nat)
    requires Holds(ins, c.src, n)
  {
    forall b, k :: 0 <= b < |vs| && vs[b].samples.Some? && 0 <= k < |vs[b].samples.value| ==>
      FromSource(vs[b].samples.value[k], c, gain, ins, n)
  }

  lemma {:induction false} CopiedOnlySource(c: Cache, gain: real, ins: seq<View>, cells: Cells, z: seq<View>, n: nat)
    requires Holds(ins, c.src, n) && Holds(z, c.dl, n) && Holds(z, c.dr, n) && |cells| == |z|
    requires Silent(z)
    ensures OnlySource(CopiedShared(c, gain, ins, cells, z, n), c, gain, ins, n)
  {
    hide RoundShared;
    if n > 0 {
      CopiedOnlySource(c, gain, ins, cells, z, n - 1);
      RoundOnlySource(CopiedShared(c, gain, ins, cells, z, n - 1), cells, c, gain, ins, n - 1);
    }
  }

  lemma RoundOnlySource(mid: seq<View>, cells: Cells, c: Cache, gain: real, ins: seq<View>, f: nat)
    requires Holds(ins, c.src, f + 1) && Holds(mid, c.dl, f + 1) && Holds(mid, c.dr, f + 1) && |cells| == |mid|
    requires OnlySource(mid, c, gain, ins, f)
    ensures OnlySource(RoundShared(c, cells, mid, f, Amplified(Sample(ins, c.src, f), gain)), c, gain, ins, f + 1)
  {
    var v := Amplified(Sample(ins, c.src, f), gain);
    OnlySourceGrows(mid, c, gain, ins, f);
    PutOnlySource(mid, cells, c.dl, f, v, c, gain, ins, f + 1);
    PutOnlySource(PutShared(mid, cells, c.dl, f, v), cells, c.dr, f, v, c, gain, ins, f + 1);
  }

  lemma OnlySourceGrows(vs: seq<View>, c: Cache, gain: real, ins: seq<View>, n: nat)
    requires Holds(ins, c.src, n + 1) && OnlySource(vs, c, gain, ins, n)
    ensures OnlySource(vs, c, gain, ins, n + 1)
  {
  }

  lemma PutOnlySource(vs: seq<View>, cells: Cells, loc: ChanLoc, f: nat, v: real, c: Cache, gain: real, ins: seq<View>, n: nat)
    requires Holds(vs, loc, f + 1) && |cells| == |vs| && Holds(ins, c.src, n)
    requires OnlySource(vs, c, gain, ins, n) && FromSource(v, c, gain, ins, n)
    ensures OnlySource(PutShared(vs, cells, loc, f, v), c, gain, ins, n)
  {
  }

  /** Nothing the outputs held before leaks into them, and no other input lane does, whichever buffers
      share storage. */
  lemma OutputsHoldOnlySource(r: Route, c: Cache, ins: seq<View>, cells: Cells, outs: seq<View>)
    requires ValidCache(c) && |cells| == |outs|
    ensures var o := OutputAfterShared(r, c, Some(ins), cells, outs);
      var c' := Resolve(r, c, ViewCounts(ins), ViewCounts(outs));
      Silent(o) || (!c'.failed && ValidLoc(c'.src) && HasData(ins, c'.src)
                    && OnlySource(o, c', r.gain, ins, FramesAt(ins, c'.src)))
  {
    ResolveValid(r, c, ViewCounts(ins), ViewCounts(outs));
    var c' := Resolve(r, c, ViewCounts(ins), ViewCounts(outs));
    var z := Silence(outs);
    if !c'.failed && HasData(ins, c'.src) && HasData(z, c'.dl) && HasData(z, c'.dr) {
      var n := Min(Min(FramesAt(ins, c'.src), FramesAt(z, c'.dl)), FramesAt(z, c'.dr));
      CopiedOnlySource(c', r.gain, ins, cells, z, n);
      MoreFrames(CopiedShared(c', r.gain, ins, cells, z, n), c', r.gain, ins, n, FramesAt(ins, c'.src));
    }
  }

  lemma MoreFrames(vs: seq<View>, c: Cache, gain: real, ins: seq<View>, m: nat, n: nat)
    requires m <= n && Holds(ins, c.src, n) && OnlySource(vs, c, gain, ins, m)
    ensures OnlySource(vs, c, gain, ins, n)
  {
  }

  /** A source that is silent when it is read, as one that shares its storage with an output is,
      makes the whole callback silent. */
  lemma SilentSourceIsSilence(r: Route, c: Cache, ins: seq<View>, outs: seq<View>)
    requires ValidCache(c)
    requires var c' := Resolve(r, c, ViewCounts(ins), ViewCounts(outs));
      !c'.failed ==> c'.src.buffer < |ins| && (ins[c'.src.buffer].samples.None? || AllZero(ins, c'.src.buffer))
    ensures OutputAfter(r, c, Some(ins), outs) == Silence(outs)
  {
    ResolveValid(r, c, ViewCounts(ins), ViewCounts(outs));
    var c' := Resolve(r, c, ViewCounts(ins), ViewCounts(outs));
    var z := Silence(outs);
    if !c'.failed && HasData(ins, c'.src) && HasData(z, c'.dl) && HasData(z, c'.dr) {
      var n := Min(Min(FramesAt(ins, c'.src), FramesAt(z, c'.dl)), FramesAt(z, c'.dr));
      CopiedSilence(c', r.gain, ins, z, n);
    }
  }

  predicate Silent(vs: seq<View>) {
    forall b :: 0 <= b < |vs| && vs[b].samples.Some? ==> AllZero(vs, b)
  }

  lemma {:induction false} CopiedSilence(c: Cache, gain: real, ins: seq<View>, z: seq<View>, n: nat)
    requires Holds(ins, c.src, n) && Holds(z, c.dl, n) && Holds(z, c.dr, n)
    requires AllZero(ins, c.src.buffer) && Silent(z)
    ensures Copied(c, gain, ins, z, n) == z
  {
    if n > 0 {
      CopiedSilence(c, gain, ins, z, n - 1);
      SilentSample(ins, c.src, n - 1);
      PutZero(z, c.dl, n - 1);
      PutZero(z, c.dr, n - 1);
    }
  }

  lemma PutZero(z: seq<View>, loc: ChanLoc, f: nat)
    requires Holds(z, loc, f + 1) && AllZero(z, loc.buffer)
    ensures Put(z, loc, f, 0.0) == z
  {
    var s := z[loc.buffer].samples.value;
    StridedInBounds(f, f + 1, loc, |s|);
    assert s[At(f, loc) := 0.0] == s;
  }
}
