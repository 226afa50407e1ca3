/** What the callback means: on the channel-by-frame matrices its buffers flatten to it is a plain
    copy of one row times the gain into two rows of an otherwise silent matrix. */
module Matrix {
  import opened CStrings
  import opened Buffers
  import opened Callback

  /** One channel's samples, None where its buffer has no data. */
  type Row = Option<seq<real>>

  function SampleAt(s: seq<real>, stride: nat, lane: nat, f: nat): real {
    var i := f * stride + lane;
    if 0 <= i < |s| then s[i] else 0.0
  }

  function LaneRow(s: seq<real>, stride: nat, lane: nat): (row: seq<real>)
    requires lane < stride
    ensures |row| == Frames(|s|, stride)
  {
    seq(Frames(|s|, stride), f requires 0 <= f => SampleAt(s, stride, lane, f))
  }

  /** Lane `c` of a buffer, over its whole frames. */
  function LaneOf(v: View, c: nat): Row
    requires c < v.channels
  {
    if v.samples.None? then None
    else
      Some(LaneRow(v.samples.value, v.channels, c))
  }

  function Lanes(v: View): seq<Row> {
    seq(v.channels, c requires 0 <= c < v.channels => LaneOf(v, c))
  }

  /** Lane `c` holds every sample that stands `c` behind a multiple of the channel count, up to the last
      whole frame. */
  lemma LaneExact(v: View, c: nat, f: nat)
    requires c < v.channels && v.samples.Some?
    ensures var row, s := LaneOf(v, c), v.samples.value;
      && row.Some? && |row.value| * v.channels <= |s| < (|row.value| + 1) * v.channels
      && (f < |row.value| ==> 0 <= f * v.channels + c < |s| && row.value[f] == s[f * v.channels + c])
  {
    var s := v.samples.value;
    DivBounds(|s|, v.channels);
    if f < |LaneOf(v, c).value| { StridedInBounds(f, f + 1, ChanLoc(0, v.channels, c), |s|); }
  }

  /** The channels of a buffer list in order. */
  function Flatten(vs: seq<View>): seq<Row> {
    if vs == [] then [] else Lanes(vs[0]) + Flatten(vs[1..])
  }

  lemma {:induction false} FlattenLength(vs: seq<View>)
    ensures |Flatten(vs)| == Total(ViewCounts(vs))
  {
    if vs != [] {
      FlattenLength(vs[1..]);
      assert ViewCounts(vs)[1..] == ViewCounts(vs[1..]);
    }
  }

  lemma {:induction false} FlattenAt(vs: seq<View>, loc: ChanLoc)
    requires InLayout(ViewCounts(vs), loc)
    ensures var i := Total(ViewCounts(vs)[..loc.buffer]) + loc.lane;
      i < |Flatten(vs)| && Flatten(vs)[i] == LaneOf(vs[loc.buffer], loc.lane)
  {
    var counts := ViewCounts(vs);
    FlattenLength(vs);
    LocateComplete(counts, loc);
    if loc.buffer == 0 {
      assert counts[..0] == [];
    } else {
      assert counts[1..] == ViewCounts(vs[1..]);
      assert counts[..loc.buffer][1..] == counts[1..][..loc.buffer - 1];
      FlattenAt(vs[1..], loc.(buffer := loc.buffer - 1));
    }
  }

  /** locate_channel finds the channel's row. */
  lemma FlattenLocated(vs: seq<View>, ch: nat)
    requires ch < Total(ViewCounts(vs))
    ensures var loc := Locate(ViewCounts(vs), ch);
      && InLayout(ViewCounts(vs), loc) && ch < |Flatten(vs)|
      && Flatten(vs)[ch] == LaneOf(vs[loc.buffer], loc.lane)
  {
    LocateSound(ViewCounts(vs), ch);
    FlattenAt(vs, Locate(ViewCounts(vs), ch));
  }

  // ---- strided writes as row writes ---------------------------------------

  lemma AtInjective(f: nat, c: nat, g: nat, d: nat, s: nat)
    requires c < s && d < s && f * s + c == g * s + d
    ensures f == g && c == d
  {
    assert (f + 1) * s == f * s + s && (g + 1) * s == g * s + s;
    DivUnique(f * s + c, s, f);
    DivUnique(g * s + d, s, g);
  }

  /** Writing one sample changes one position of one lane. */
  lemma WriteLane(s: seq<real>, stride: nat, lane: nat, f: nat, v: real, other: nat)
    requires lane < stride && other < stride && f < Frames(|s|, stride)
    ensures 0 <= f * stride + lane < |s|
    ensures var row := LaneRow(s, stride, other);
      LaneRow(s[f * stride + lane := v], stride, other) == if other == lane then row[f := v] else row
  {
    StridedInBounds(f, f + 1, ChanLoc(0, stride, lane), |s|);
    var row := LaneRow(s, stride, other);
    var row' := LaneRow(s[f * stride + lane := v], stride, other);
    forall g | 0 <= g < |row| ensures row'[g] == if other == lane && g == f then v else row[g] {
      WriteSample(s, stride, lane, f, v, other, g);
    }
  }

  lemma WriteSample(s: seq<real>, stride: nat, lane: nat, f: nat, v: real, other: nat, g: nat)
    requires lane < stride && other < stride && 0 <= f * stride + lane < |s|
    ensures SampleAt(s[f * stride + lane := v], stride, other, g)
         == if other == lane && g == f then v else SampleAt(s, stride, other, g)
  {
    if g * stride + other == f * stride + lane {
      AtInjective(g, other, f, lane, stride);
    }
  }

  lemma PutLane(vs: seq<View>, loc: ChanLoc, f: nat, v: real, other: ChanLoc)
    requires Holds(vs, loc, f + 1) && InLayout(ViewCounts(vs), loc) && InLayout(ViewCounts(vs), other)
    ensures var before := LaneOf(vs[other.buffer], other.lane);
      var after := LaneOf(Put(vs, loc, f, v)[other.buffer], other.lane);
      if other == loc then before.Some? && f < |before.value| && after == Some(before.value[f := v])
      else after == before
  {
    if other.buffer == loc.buffer {
      WriteLane(vs[loc.buffer].samples.value, loc.stride, loc.lane, f, v, other.lane);
    }
  }

  /** `row` with its first `n` samples replaced by those of `src` times the gain. */
  function Overwritten(row: seq<real>, src: seq<real>, gain: real, n: nat): (r: seq<real>)
    requires n <= |src|
    ensures |r| == |row|
  {
    seq(|row|, f requires 0 <= f < |row| => if f < n then Amplified(src[f], gain) else row[f])
  }

  lemma OverwrittenStep(row: seq<real>, src: seq<real>, gain: real, n: nat)
    requires n <= |src|
    ensures Overwritten(row, src, gain, 0) == row
    ensures n < |src| && n < |row| ==>
      Overwritten(row, src, gain, n + 1) == Overwritten(row, src, gain, n)[n := Amplified(src[n], gain)]
  {
  }

  predicate FitsLayout(c: Cache, ins: seq<nat>, outs: seq<nat>) {
    InLayout(ins, c.src) && InLayout(outs, c.dl) && InLayout(outs, c.dr)
  }

  lemma SampleOfLane(ins: seq<View>, loc: ChanLoc, f: nat)
    requires Holds(ins, loc, f + 1) && InLayout(ViewCounts(ins), loc)
    ensures LaneOf(ins[loc.buffer], loc.lane).Some?
    ensures f < |LaneOf(ins[loc.buffer], loc.lane).value|
    ensures Sample(ins, loc, f) == LaneOf(ins[loc.buffer], loc.lane).value[f]
  {
    StridedInBounds(f, f + 1, loc, |ins[loc.buffer].samples.value|);
  }

  lemma RoundLane(c: Cache, outs: seq<View>, f: nat, v: real, other: ChanLoc)
    requires InLayout(ViewCounts(outs), c.dl) && InLayout(ViewCounts(outs), c.dr) && InLayout(ViewCounts(outs), other)
    requires Holds(outs, c.dl, f + 1) && Holds(outs, c.dr, f + 1)
    ensures var before := LaneOf(outs[other.buffer], other.lane);
      var after := LaneOf(Round(c, outs, f, v)[other.buffer], other.lane);
      if other == c.dl || other == c.dr then before.Some? && f < |before.value| && after == Some(before.value[f := v])
      else after == before
  {
    PutLane(outs, c.dl, f, v, other);
    var mid := Put(outs, c.dl, f, v);
    assert ViewCounts(mid) == ViewCounts(outs);
    PutLane(mid, c.dr, f, v, other);
    if other == c.dl && other == c.dr {
      var before := LaneOf(outs[other.buffer], other.lane).value;
      assert before[f := v][f := v] == before[f := v];
    }
  }

  /** Only the two destination lanes change, and over the first `n` frames they become the source
      lane times the gain. */
  lemma {:induction false} CopiedLane(c: Cache, gain: real, ins: seq<View>, outs: seq<View>, n: nat, other: ChanLoc)
    requires FitsLayout(c, ViewCounts(ins), ViewCounts(outs)) && InLayout(ViewCounts(outs), other)
    requires Holds(ins, c.src, n) && Holds(outs, c.dl, n) && Holds(outs, c.dr, n)
    ensures var src := LaneOf(ins[c.src.buffer], c.src.lane);
      var before := LaneOf(outs[other.buffer], other.lane);
      var after := LaneOf(Copied(c, gain, ins, outs, n)[other.buffer], other.lane);
      && src.Some? && n <= |src.value|
      && after == if other == c.dl || other == c.dr then Some(Overwritten(before.value, src.value, gain, n)) else before
  {
    var src := LaneOf(ins[c.src.buffer], c.src.lane).value;
    var before := LaneOf(outs[other.buffer], other.lane);
    if n == 0 {
      if other == c.dl || other == c.dr { OverwrittenStep(before.value, src, gain, 0); }
    } else {
      CopiedLane(c, gain, ins, outs, n - 1, other);
      SampleOfLane(ins, c.src, n - 1);
      var mid := Copied(c, gain, ins, outs, n - 1);
      assert ViewCounts(mid) == ViewCounts(outs);
      RoundLane(c, mid, n - 1, Amplified(src[n - 1], gain), other);
      if other == c.dl || other == c.dr { OverwrittenStep(before.value, src, gain, n - 1); }
    }
  }

  // ---- the matrix copy ----------------------------------------------------

  function Quiet(m: seq<Row>): seq<Row> {
    seq(|m|, ch requires 0 <= ch < |m| => if m[ch].None? then None else Some(Zeros(|m[ch].value|)))
  }

  function Limit(a: Row, b: Row, c: Row): nat
    requires a.Some? && b.Some? && c.Some?
  {
    Min(Min(|a.value|, |b.value|), |c.value|)
  }

  /** A row of the result: a destination gets the source row times the gain over the frames the
      source and both destinations have; without data in all three, and in every other row, there
      is silence. */
  function RoutedRow(src: Row, left: Row, right: Row, row: Row, isTarget: bool, gain: real): Row {
    if row.None? then None
    else if isTarget && src.Some? && left.Some? && right.Some? then
      Some(Overwritten(Zeros(|row.value|), src.value, gain, Limit(src, left, right)))
    else Some(Zeros(|row.value|))
  }

  /** What that means sample by sample. */
  lemma RoutedSample(src: Row, left: Row, right: Row, row: Row, isTarget: bool, gain: real, f: nat)
    requires row.Some? && f < |row.value|
    ensures var r := RoutedRow(src, left, right, row, isTarget, gain);
      && r.Some? && |r.value| == |row.value|
      && r.value[f] == if isTarget && src.Some? && left.Some? && right.Some?
                          && f < |src.value| && f < |left.value| && f < |right.value|
                       then src.value[f] * gain else 0.0
  {
  }

  /** The rows of both destinations are routed, all others silent; a missing channel silences all. */
  function MatrixCopy(mi: seq<Row>, mo: seq<Row>, r: Route): (m: seq<Row>)
    ensures |m| == |mo|
  {
    if r.src >= |mi| || r.dstL >= |mo| || r.dstR >= |mo| then Quiet(mo)
    else
      seq(|mo|, ch requires 0 <= ch < |mo| =>
        RoutedRow(mi[r.src], mo[r.dstL], mo[r.dstR], mo[ch], ch == r.dstL || ch == r.dstR, r.gain))
  }

  lemma RowOfMatrixCopy(mi: seq<Row>, mo: seq<Row>, r: Route, ch: nat)
    requires r.src < |mi| && r.dstL < |mo| && r.dstR < |mo| && ch < |mo|
    ensures MatrixCopy(mi, mo, r)[ch]
         == RoutedRow(mi[r.src], mo[r.dstL], mo[r.dstR], mo[ch], ch == r.dstL || ch == r.dstR, r.gain)
  {
  }

  /** Without data in one of the three rows the matrix copy is silence. */
  lemma MatrixCopyWithoutData(mi: seq<Row>, mo: seq<Row>, r: Route)
    requires r.src < |mi| && r.dstL < |mo| && r.dstR < |mo|
    requires mi[r.src].None? || mo[r.dstL].None? || mo[r.dstR].None?
    ensures MatrixCopy(mi, mo, r) == Quiet(mo)
  {
    forall ch | 0 <= ch < |mo| ensures MatrixCopy(mi, mo, r)[ch] == Quiet(mo)[ch] {
      RowOfMatrixCopy(mi, mo, r, ch);
    }
  }

  lemma SilenceLane(vs: seq<View>, loc: ChanLoc)
    requires InLayout(ViewCounts(vs), loc)
    ensures var row := LaneOf(vs[loc.buffer], loc.lane);
      LaneOf(Silence(vs)[loc.buffer], loc.lane) == if row.None? then None else Some(Zeros(|row.value|))
  {
    var row := LaneOf(vs[loc.buffer], loc.lane);
    if row.Some? {
      assert LaneOf(Silence(vs)[loc.buffer], loc.lane).value == Zeros(|row.value|);
    }
  }

  lemma SilenceIsQuiet(vs: seq<View>)
    ensures Flatten(Silence(vs)) == Quiet(Flatten(vs))
  {
    var z := Silence(vs);
    assert ViewCounts(z) == ViewCounts(vs);
    FlattenLength(vs);
    FlattenLength(z);
    forall ch | 0 <= ch < |Flatten(vs)| ensures Flatten(z)[ch] == Quiet(Flatten(vs))[ch] {
      FlattenLocated(vs, ch);
      FlattenLocated(z, ch);
      SilenceLane(vs, Locate(ViewCounts(vs), ch));
    }
  }

  lemma LocateDistinct(counts: seq<nat>, a: nat, b: nat)
    requires a < Total(counts) && b < Total(counts)
    ensures Locate(counts, a) == Locate(counts, b) <==> a == b
  {
    if Locate(counts, a) == Locate(counts, b) {
      LocateInjective(counts, a, b);
    }
  }

  lemma MixIsMatrixCopy(r: Route, c: Cache, ins: seq<View>, outs: seq<View>)
    requires r.src < Total(ViewCounts(ins)) && r.dstL < Total(ViewCounts(outs)) && r.dstR < Total(ViewCounts(outs))
    requires c.src == Locate(ViewCounts(ins), r.src)
    requires c.dl == Locate(ViewCounts(outs), r.dstL) && c.dr == Locate(ViewCounts(outs), r.dstR)
    ensures ValidLocs(c)
    ensures Flatten(Mix(c, r.gain, ins, outs)) == MatrixCopy(Flatten(ins), Flatten(outs), r)
  {
    var mi, mo := Flatten(ins), Flatten(outs);
    var counts := ViewCounts(outs);
    FlattenLocated(ins, r.src);
    FlattenLocated(outs, r.dstL);
    FlattenLocated(outs, r.dstR);
    var z := Silence(outs);
    SilenceIsQuiet(outs);
    assert ViewCounts(z) == counts;
    if mi[r.src].Some? && mo[r.dstL].Some? && mo[r.dstR].Some? {
      var n := Limit(mi[r.src], mo[r.dstL], mo[r.dstR]);
      assert Mix(c, r.gain, ins, outs) == Copied(c, r.gain, ins, z, n);
      CopiedRows(r, c, ins, outs, n);
    } else {
      MatrixCopyWithoutData(mi, mo, r);
    }
  }

  /** The same where all three rows have data. */
  lemma CopiedRows(r: Route, c: Cache, ins: seq<View>, outs: seq<View>, n: nat)
    requires r.src < Total(ViewCounts(ins)) && r.dstL < Total(ViewCounts(outs)) && r.dstR < Total(ViewCounts(outs))
    requires c.src == Locate(ViewCounts(ins), r.src)
    requires c.dl == Locate(ViewCounts(outs), r.dstL) && c.dr == Locate(ViewCounts(outs), r.dstR)
    requires Holds(ins, c.src, n) && Holds(Silence(outs), c.dl, n) && Holds(Silence(outs), c.dr, n)
    requires r.src < |Flatten(ins)| && r.dstL < |Flatten(outs)| && r.dstR < |Flatten(outs)|
    requires Flatten(ins)[r.src].Some? && Flatten(outs)[r.dstL].Some? && Flatten(outs)[r.dstR].Some?
    requires n == Limit(Flatten(ins)[r.src], Flatten(outs)[r.dstL], Flatten(outs)[r.dstR])
    ensures Flatten(Copied(c, r.gain, ins, Silence(outs), n)) == MatrixCopy(Flatten(ins), Flatten(outs), r)
  {
    var mi, mo := Flatten(ins), Flatten(outs);
    var m := Copied(c, r.gain, ins, Silence(outs), n);
    assert ViewCounts(m) == ViewCounts(outs);
    FlattenLength(m);
    FlattenLength(outs);
    forall ch | 0 <= ch < |mo| ensures Flatten(m)[ch] == MatrixCopy(mi, mo, r)[ch] {
      CopiedRow(r, c, ins, outs, n, ch);
      RowOfMatrixCopy(mi, mo, r, ch);
    }
  }

  lemma CopiedRow(r: Route, c: Cache, ins: seq<View>, outs: seq<View>, n: nat, ch: nat)
    requires r.src < Total(ViewCounts(ins)) && r.dstL < Total(ViewCounts(outs)) && r.dstR < Total(ViewCounts(outs))
    requires c.src == Locate(ViewCounts(ins), r.src)
    requires c.dl == Locate(ViewCounts(outs), r.dstL) && c.dr == Locate(ViewCounts(outs), r.dstR)
    requires Holds(ins, c.src, n) && Holds(Silence(outs), c.dl, n) && Holds(Silence(outs), c.dr, n)
    requires ch < |Flatten(outs)| && ch < Total(ViewCounts(outs))
    ensures r.src < |Flatten(ins)| && Flatten(ins)[r.src].Some? && n <= |Flatten(ins)[r.src].value|
    ensures var m := Flatten(Copied(c, r.gain, ins, Silence(outs), n));
      var row := Flatten(outs)[ch];
      && ch < |m|
      && m[ch] == if row.None? then None
                  else if ch == r.dstL || ch == r.dstR then
                    Some(Overwritten(Zeros(|row.value|), Flatten(ins)[r.src].value, r.gain, n))
                  else Some(Zeros(|row.value|))
  {
    var z, counts := Silence(outs), ViewCounts(outs);
    var m := Copied(c, r.gain, ins, z, n);
    assert ViewCounts(z) == counts && ViewCounts(m) == counts;
    FlattenLocated(ins, r.src);
    FlattenLocated(outs, ch);
    FlattenLocated(m, ch);
    SilenceLane(outs, Locate(counts, ch));
    LocateDistinct(counts, ch, r.dstL);
    LocateDistinct(counts, ch, r.dstR);
    LocateSound(counts, r.dstL);
    LocateSound(counts, r.dstR);
    CopiedLane(c, r.gain, ins, z, n, Locate(counts, ch));
  }

  /** One callback with a fresh cache, on any buffer layout, is the matrix copy. */
  lemma CallbackIsMatrixCopy(r: Route, ins: seq<View>, outs: seq<View>)
    ensures Flatten(OutputAfter(r, FRESH, Some(ins), outs)) == MatrixCopy(Flatten(ins), Flatten(outs), r)
  {
    var ic, oc := ViewCounts(ins), ViewCounts(outs);
    FlattenLength(ins);
    FlattenLength(outs);
    LocateSound(ic, r.src);
    LocateSound(oc, r.dstL);
    LocateSound(oc, r.dstR);
    ResolveValid(r, FRESH, ic, oc);
    var c := Resolve(r, FRESH, ic, oc);
    if c.failed {
      SilenceIsQuiet(outs);
    } else {
      MixIsMatrixCopy(r, c, ins, outs);
    }
  }

  /** The same sample by sample: over the frames that the source and both destinations have, output
      channels `dstL` and `dstR` hold the source channel's samples times the gain; every other sample of
      every output is 0. A channel that is missing in the lists silences all. */
  lemma CallbackSample(r: Route, ins: seq<View>, outs: seq<View>, ch: nat, f: nat)
    requires ch < |Flatten(outs)| && Flatten(outs)[ch].Some? && f < |Flatten(outs)[ch].value|
    ensures var mi, mo, m := Flatten(ins), Flatten(outs), Flatten(OutputAfter(r, FRESH, Some(ins), outs));
      && |m| == |mo| && m[ch].Some? && |m[ch].value| == |mo[ch].value|
      && m[ch].value[f]
         == if r.src < |mi| && r.dstL < |mo| && r.dstR < |mo| && (ch == r.dstL || ch == r.dstR)
               && mi[r.src].Some? && mo[r.dstL].Some? && mo[r.dstR].Some?
               && f < |mi[r.src].value| && f < |mo[r.dstL].value| && f < |mo[r.dstR].value|
            then mi[r.src].value[f] * r.gain else 0.0
  {
    hide Flatten, OutputAfter, MatrixCopy;
    CallbackIsMatrixCopy(r, ins, outs);
    MatrixSample(Flatten(ins), Flatten(outs), r, ch, f);
  }

  lemma MatrixSample(mi: seq<Row>, mo: seq<Row>, r: Route, ch: nat, f: nat)
    requires ch < |mo| && mo[ch].Some? && f < |mo[ch].value|
    ensures var m := MatrixCopy(mi, mo, r);
      && m[ch].Some? && |m[ch].value| == |mo[ch].value|
      && m[ch].value[f]
         == if r.src < |mi| && r.dstL < |mo| && r.dstR < |mo| && (ch == r.dstL || ch == r.dstR)
               && mi[r.src].Some? && mo[r.dstL].Some? && mo[r.dstR].Some?
               && f < |mi[r.src].value| && f < |mo[r.dstL].value| && f < |mo[r.dstR].value|
            then mi[r.src].value[f] * r.gain else 0.0
  {
    if r.src < |mi| && r.dstL < |mo| && r.dstR < |mo| {
      RowOfMatrixCopy(mi, mo, r, ch);
      RoutedSample(mi[r.src], mo[r.dstL], mo[r.dstR], mo[ch], ch == r.dstL || ch == r.dstR, r.gain, f);
    }
  }

  /** The layout does not matter: lists that flatten to the same matrices, however their channels
      are interleaved or split into buffers, give outputs that flatten to the same matrix. */
  lemma LayoutIndependence(r: Route, ins: seq<View>, outs: seq<View>, ins': seq<View>, outs': seq<View>)
    requires Flatten(ins) == Flatten(ins') && Flatten(outs) == Flatten(outs')
    ensures Flatten(OutputAfter(r, FRESH, Some(ins), outs)) == Flatten(OutputAfter(r, FRESH, Some(ins'), outs'))
  {
    CallbackIsMatrixCopy(r, ins, outs);
    CallbackIsMatrixCopy(r, ins', outs');
  }

  // ---- samples outside the matrix -----------------------------------------

  /** Samples behind the last whole frame of a buffer, which no row contains. */
  ghost predicate TailSilent(vs: seq<View>) {
    forall b, i :: 0 <= b < |vs| && vs[b].samples.Some? && 0 <= i < |vs[b].samples.value|
      && (vs[b].channels > 0 ==> i >= Frames(|vs[b].samples.value|, vs[b].channels) * vs[b].channels)
      ==> vs[b].samples.value[i] == 0.0
  }

  lemma PutKeepsTail(vs: seq<View>, loc: ChanLoc, f: nat, v: real)
    requires Holds(vs, loc, f + 1) && InLayout(ViewCounts(vs), loc) && TailSilent(vs)
    ensures TailSilent(Put(vs, loc, f, v))
  {
    var s := loc.stride;
    MulMonotone(f + 1, Frames(|vs[loc.buffer].samples.value|, s), s);
    assert (f + 1) * s == f * s + s;
    StridedInBounds(f, f + 1, loc, |vs[loc.buffer].samples.value|);
  }

  lemma RoundKeepsTail(c: Cache, outs: seq<View>, f: nat, v: real)
    requires InLayout(ViewCounts(outs), c.dl) && InLayout(ViewCounts(outs), c.dr) && TailSilent(outs)
    requires Holds(outs, c.dl, f + 1) && Holds(outs, c.dr, f + 1)
    ensures TailSilent(Round(c, outs, f, v))
  {
    PutKeepsTail(outs, c.dl, f, v);
    var mid := Put(outs, c.dl, f, v);
    assert ViewCounts(mid) == ViewCounts(outs);
    PutKeepsTail(mid, c.dr, f, v);
  }

  lemma {:induction false} CopiedKeepsTail(c: Cache, gain: real, ins: seq<View>, outs: seq<View>, n: nat)
    requires FitsLayout(c, ViewCounts(ins), ViewCounts(outs)) && TailSilent(outs)
    requires Holds(ins, c.src, n) && Holds(outs, c.dl, n) && Holds(outs, c.dr, n)
    ensures TailSilent(Copied(c, gain, ins, outs, n))
  {
    if n > 0 {
      CopiedKeepsTail(c, gain, ins, outs, n - 1);
      var mid := Copied(c, gain, ins, outs, n - 1);
      assert ViewCounts(mid) == ViewCounts(outs);
      RoundKeepsTail(c, mid, n - 1, Amplified(Sample(ins, c.src, n - 1), gain));
    }
  }

  /** Every output sample that belongs to no frame is zeroed as well. */
  lemma CallbackSilencesTails(r: Route, ins: seq<View>, outs: seq<View>)
    ensures TailSilent(OutputAfter(r, FRESH, Some(ins), outs))
  {
    var ic, oc := ViewCounts(ins), ViewCounts(outs);
    LocateSound(ic, r.src);
    LocateSound(oc, r.dstL);
    LocateSound(oc, r.dstR);
    ResolveValid(r, FRESH, ic, oc);
    var c := Resolve(r, FRESH, ic, oc);
    var z := Silence(outs);
    assert TailSilent(z);
    if !c.failed && HasData(ins, c.src) && HasData(z, c.dl) && HasData(z, c.dr) {
      assert ViewCounts(z) == oc;
      var n := Min(Min(FramesAt(ins, c.src), FramesAt(z, c.dl)), FramesAt(z, c.dr));
      CopiedKeepsTail(c, r.gain, ins, z, n);
    }
  }

  // ---- the cache over whole runs ------------------------------------------

  /** One invocation of the callback; either list pointer may be NULL. */
  datatype Call = Call(ins: Option<seq<View>>, outs: Option<seq<View>>)

  predicate Usable(call: Call) {
    call.ins.Some? && call.outs.Some?
  }

  /** The cache the k-th callback of a run starts from. */
  function CacheAt(r: Route, calls: seq<Call>, k: nat): (c: Cache)
    requires k <= |calls|
    ensures ValidCache(c)
  {
    if k == 0 then FRESH
    else
      var c := CacheAt(r, calls, k - 1);
      var call := calls[k - 1];
      if Usable(call) then
        ResolveValid(r, c, ViewCounts(call.ins.value), ViewCounts(call.outs.value));
        CacheAfter(r, c, call.ins, call.outs)
      else c
  }

  /** The per-buffer channel counts of all usable calls are the same; sizes and contents vary. */
  ghost predicate StableLayout(calls: seq<Call>, ins: seq<nat>, outs: seq<nat>) {
    forall k :: 0 <= k < |calls| && Usable(calls[k]) ==>
      ViewCounts(calls[k].ins.value) == ins && ViewCounts(calls[k].outs.value) == outs
  }

  lemma {:induction false} StableCache(r: Route, calls: seq<Call>, ins: seq<nat>, outs: seq<nat>, k: nat)
    requires k <= |calls| && StableLayout(calls, ins, outs)
    ensures CacheAt(r, calls, k) == FRESH || CacheAt(r, calls, k) == Resolve(r, FRESH, ins, outs)
  {
    if k > 0 {
      StableCache(r, calls, ins, outs, k - 1);
    }
  }

  /** With a stable layout every callback of a run finds its cache usable and does what it would do
      resolving afresh, so every callback is the matrix copy of its own buffers. */
  lemma CachingIsSound(r: Route, calls: seq<Call>, ins: seq<nat>, outs: seq<nat>, k: nat)
    requires k < |calls| && StableLayout(calls, ins, outs) && Usable(calls[k])
    ensures Reachable(CacheAt(r, calls, k), |calls[k].ins.value|, |calls[k].outs.value|)
    ensures var i, o := calls[k].ins, calls[k].outs.value;
      && OutputAfter(r, CacheAt(r, calls, k), i, o) == OutputAfter(r, FRESH, i, o)
      && Flatten(OutputAfter(r, CacheAt(r, calls, k), i, o)) == MatrixCopy(Flatten(i.value), Flatten(o), r)
  {
    StableCache(r, calls, ins, outs, k);
    ResolveValid(r, FRESH, ins, outs);
    assert |ViewCounts(calls[k].ins.value)| == |ins| && |ViewCounts(calls[k].outs.value)| == |outs|;
    CallbackIsMatrixCopy(r, calls[k].ins.value, calls[k].outs.value);
  }

  /** Failing to resolve is for good, whatever layouts follow: the failing callback and every later
      one with lists outputs silence. */
  lemma {:induction false} FailureIsSilence(r: Route, calls: seq<Call>, j: nat, k: nat)
    requires j <= k < |calls| && Usable(calls[k])
    requires CacheAt(r, calls, j + 1).failed
    ensures OutputAfter(r, CacheAt(r, calls, k), calls[k].ins, calls[k].outs.value) == Silence(calls[k].outs.value)
  {
    FailureSticks(r, calls, j + 1, k + 1);
    assert CacheAt(r, calls, k + 1) == CacheAfter(r, CacheAt(r, calls, k), calls[k].ins, calls[k].outs);
  }

  lemma {:induction false} FailureSticks(r: Route, calls: seq<Call>, j: nat, k: nat)
    requires j <= k <= |calls| && CacheAt(r, calls, j).failed
    ensures CacheAt(r, calls, k) == CacheAt(r, calls, j)
  {
    if j < k {
      FailureSticks(r, calls, j, k - 1);
    }
  }
}
