/** End to end: with the offsets computed from the sub-device list, the callback reads the chosen
    channel of the interface and writes channels 0 and 1 of BlackHole, whatever the layout. */
module Routing {
  import opened CStrings
  import opened Numbers
  import opened Buffers
  import opened Callback
  import opened Matrix
  import opened Aggregate
  import opened Engine

  /** The aggregate's combined stream: the sub-devices' channels in list order. */
  function Concat(parts: seq<seq<Row>>): seq<Row> {
    if parts == [] then [] else Concat(parts[..|parts| - 1]) + parts[|parts| - 1]
  }

  /** Each sub-device contributes as many input rows as the HAL reports channels. */
  predicate InputRows(subs: seq<SubDevice>, parts: seq<seq<Row>>) {
    |parts| == |subs| && forall i :: 0 <= i < |subs| ==> |parts[i]| == subs[i].ins
  }

  predicate OutputRows(subs: seq<SubDevice>, parts: seq<seq<Row>>) {
    |parts| == |subs| && forall i :: 0 <= i < |subs| ==> |parts[i]| == subs[i].outs
  }

  /** The sum of the first `n` part lengths. */
  function Start(parts: seq<seq<Row>>, n: nat): nat
    requires n <= |parts|
  {
    if n == 0 then 0 else Start(parts, n - 1) + |parts[n - 1]|
  }

  lemma {:induction false} StartOfPrefix(parts: seq<seq<Row>>, m: nat, n: nat)
    requires n <= m <= |parts|
    ensures Start(parts[..m], n) == Start(parts, n)
  {
    if n > 0 { StartOfPrefix(parts, m, n - 1); }
  }

  lemma {:induction false} ConcatLength(parts: seq<seq<Row>>)
    ensures |Concat(parts)| == Start(parts, |parts|)
  {
    if parts != [] {
      var m := |parts| - 1;
      ConcatLength(parts[..m]);
      StartOfPrefix(parts, m, m);
    }
  }

  /** Row `c` of part `k` stands behind all rows of the earlier parts. */
  lemma {:induction false} ConcatAt(parts: seq<seq<Row>>, k: nat, c: nat)
    requires k < |parts| && c < |parts[k]|
    ensures Start(parts, k) + c < |Concat(parts)| && Concat(parts)[Start(parts, k) + c] == parts[k][c]
  {
    var m := |parts| - 1;
    ConcatLength(parts[..m]);
    StartOfPrefix(parts, m, m);
    if k < m {
      ConcatAt(parts[..m], k, c);
      StartOfPrefix(parts, m, k);
    }
  }

  lemma {:induction false} StartIsSum(subs: seq<SubDevice>, parts: seq<seq<Row>>, n: nat)
    requires n <= |subs|
    ensures InputRows(subs, parts) ==> Start(parts, n) == InSum(subs, n)
    ensures OutputRows(subs, parts) ==> Start(parts, n) == OutSum(subs, n)
  {
    if n > 0 { StartIsSum(subs, parts, n - 1); }
  }

  lemma {:induction false} StartGrows(parts: seq<seq<Row>>, i: nat, j: nat)
    requires i <= j <= |parts|
    ensures Start(parts, i) <= Start(parts, j)
  {
    if i < j { StartGrows(parts, i, j - 1); }
  }

  /** Positions of the combined stream determine part and row. */
  lemma PositionUnique(parts: seq<seq<Row>>, i: nat, c: nat, j: nat, d: nat)
    requires i < |parts| && c < |parts[i]| && j < |parts| && d < |parts[j]|
    requires Start(parts, i) + c == Start(parts, j) + d
    ensures i == j && c == d
  {
    if i < j { StartGrows(parts, i + 1, j); }
    if j < i { StartGrows(parts, j + 1, i); }
  }

  lemma TargetPosition(parts: seq<seq<Row>>, b: nat, i: nat, d: nat)
    requires b < |parts| && |parts[b]| >= 2 && i < |parts| && d < |parts[i]|
    ensures (i == b && d < 2) <==> Start(parts, b) <= Start(parts, i) + d <= Start(parts, b) + 1
  {
    if Start(parts, i) + d == Start(parts, b) { PositionUnique(parts, i, d, b, 0); }
    if Start(parts, i) + d == Start(parts, b) + 1 { PositionUnique(parts, i, d, b, 1); }
  }

  /** The matrix copy into the first two rows of part `b`, seen part by part. */
  lemma MatrixCopyByParts(mi: seq<Row>, mo: seq<Row>, parts: seq<seq<Row>>, b: nat, r: Route, i: nat, d: nat)
    requires b < |parts| && |parts[b]| >= 2 && r.src < |mi| && mo == Concat(parts)
    requires r.dstL == Start(parts, b) && r.dstR == Start(parts, b) + 1
    requires i < |parts| && d < |parts[i]|
    ensures var ch := Start(parts, i) + d;
      && ch < |mo|
      && MatrixCopy(mi, mo, r)[ch]
         == RoutedRow(mi[r.src], parts[b][0], parts[b][1], parts[i][d], i == b && d < 2, r.gain)
  {
    ConcatAt(parts, b, 0);
    ConcatAt(parts, b, 1);
    ConcatAt(parts, i, d);
    TargetPosition(parts, b, i, d);
    RowOfMatrixCopy(mi, mo, r, Start(parts, i) + d);
  }

  /** The sub-device list has the interface at `k` with the channel among its own inputs and BlackHole at
      `b` with two outputs, its UIDs are distinct, its totals fit 32 bits, and the offsets are the ones
      captured from it. */
  predicate Wired(subs: seq<SubDevice>, iface: string, bh: string, k: nat, b: nat, inChannel: uint32, o: Offsets) {
    && Convertible(subs, 0) == |subs| && DistinctUids(subs)
    && k < |subs| && subs[k].uid == Some(iface) && inChannel < subs[k].ins
    && b < |subs| && subs[b].uid == Some(bh) && subs[b].outs >= 2
    && InSum(subs, |subs|) < TWO_32 && OutSum(subs, |subs|) < TWO_32
    && o == Captured(Offsets(0, 0, 0), subs, |subs|, iface, bh)
  }

  /** The buffer lists carry the sub-devices' rows in list order, however they are split. */
  predicate Carries(subs: seq<SubDevice>, ins: seq<View>, outs: seq<View>, subIns: seq<seq<Row>>, subOuts: seq<seq<Row>>) {
    && InputRows(subs, subIns) && OutputRows(subs, subOuts)
    && Flatten(ins) == Concat(subIns) && Flatten(outs) == Concat(subOuts)
  }

  /** The matrix the outputs of a callback flatten to. */
  function Rows(r: Route, c: Cache, ins: seq<View>, outs: seq<View>): seq<Row>
    requires ValidCache(c)
  {
    Flatten(OutputAfter(r, c, Some(ins), outs))
  }

  /** No wrap-around: the route is the interface's channel and BlackHole's first two. */
  lemma RouteIsExact(subs: seq<SubDevice>, iface: string, bh: string, k: nat, b: nat, inChannel: uint32, gain: real, info: Info)
    requires Wired(subs, iface, bh, k, b, inChannel, info.offsets) && info.inChannels == InSum(subs, |subs|)
    ensures PassesChecks(info, inChannel)
    ensures var r := RouteOf(info, inChannel, gain);
      r.src == InSum(subs, k) + inChannel && r.dstL == OutSum(subs, b) && r.dstR == OutSum(subs, b) + 1 && r.gain == gain
  {
    OffsetsArePrefixSums(Offsets(0, 0, 0), subs, iface, bh, k, b);
    SumsGrow(subs, k + 1, |subs|);
    SumsGrow(subs, b + 1, |subs|);
  }

  /** What output channel `d` of sub-device `i` becomes: the chosen interface channel times the gain if it
      is BlackHole's channel 0 or 1, and silence otherwise. */
  function DeviceRow(subIns: seq<seq<Row>>, subOuts: seq<seq<Row>>, k: nat, c: nat, b: nat, gain: real, i: nat, d: nat): Row
    requires k < |subIns| && c < |subIns[k]| && b < |subOuts| && |subOuts[b]| >= 2 && i < |subOuts| && d < |subOuts[i]|
  {
    RoutedRow(subIns[k][c], subOuts[b][0], subOuts[b][1], subOuts[i][d], i == b && d < 2, gain)
  }

  /** The same sample by sample: over the frames the source and BlackHole's two channels have. */
  lemma DeviceSample(subIns: seq<seq<Row>>, subOuts: seq<seq<Row>>, k: nat, c: nat, b: nat, gain: real, i: nat, d: nat, f: nat)
    requires k < |subIns| && c < |subIns[k]| && b < |subOuts| && |subOuts[b]| >= 2 && i < |subOuts| && d < |subOuts[i]|
    requires subOuts[i][d].Some? && f < |subOuts[i][d].value|
    ensures var row := DeviceRow(subIns, subOuts, k, c, b, gain, i, d);
      var src, left, right := subIns[k][c], subOuts[b][0], subOuts[b][1];
      && row.Some? && |row.value| == |subOuts[i][d].value|
      && row.value[f] == if i == b && d < 2 && src.Some? && left.Some? && right.Some?
                            && f < |src.value| && f < |left.value| && f < |right.value|
                         then src.value[f] * gain else 0.0
  {
    RoutedSample(subIns[k][c], subOuts[b][0], subOuts[b][1], subOuts[i][d], i == b && d < 2, gain, f);
  }

  /** Any number and order of sub-devices with distinct UIDs, any split of the combined streams into
      buffers: a channel below the interface's own input count passes the engine's checks, and in
      one callback every output channel of every sub-device becomes its `DeviceRow`. */
  lemma EndToEndRouting(subs: seq<SubDevice>, iface: string, bh: string, k: nat, b: nat, inChannel: uint32, gain: real,
                        info: Info, ins: seq<View>, outs: seq<View>, subIns: seq<seq<Row>>, subOuts: seq<seq<Row>>,
                        i: nat, d: nat)
    requires Wired(subs, iface, bh, k, b, inChannel, info.offsets) && info.inChannels == Total(ViewCounts(ins))
    requires Carries(subs, ins, outs, subIns, subOuts) && i < |subs| && d < subs[i].outs
    ensures PassesChecks(info, inChannel)
    ensures var m, ch := Rows(RouteOf(info, inChannel, gain), FRESH, ins, outs), OutSum(subs, i) + d;
      && |m| == OutSum(subs, |subs|) && ch < |m|
      && m[ch] == DeviceRow(subIns, subOuts, k, inChannel, b, gain, i, d)
  {
    CombinedStream(subs, ins, subIns, k, inChannel);
    RouteIsExact(subs, iface, bh, k, b, inChannel, gain, info);
    RoutedChannel(subs, k, b, inChannel, RouteOf(info, inChannel, gain), ins, outs, subIns, subOuts, i, d);
  }

  /** The same for a route that is already known to be exact. */
  lemma RoutedChannel(subs: seq<SubDevice>, k: nat, b: nat, c: nat, r: Route, ins: seq<View>, outs: seq<View>,
                      subIns: seq<seq<Row>>, subOuts: seq<seq<Row>>, i: nat, d: nat)
    requires k < |subs| && c < subs[k].ins && b < |subs| && subs[b].outs >= 2
    requires r.src == InSum(subs, k) + c && r.dstL == OutSum(subs, b) && r.dstR == OutSum(subs, b) + 1
    requires Carries(subs, ins, outs, subIns, subOuts) && i < |subs| && d < subs[i].outs
    ensures var m, ch := Rows(r, FRESH, ins, outs), OutSum(subs, i) + d;
      && |m| == OutSum(subs, |subs|) && ch < |m|
      && m[ch] == DeviceRow(subIns, subOuts, k, c, b, r.gain, i, d)
  {
    var mi, mo := Flatten(ins), Flatten(outs);
    assert r.src < |mi| && mi[r.src] == subIns[k][c] by { CombinedStream(subs, ins, subIns, k, c); }
    OutputPositions(subs, subOuts, b, i);
    MatrixCopyByParts(mi, mo, subOuts, b, r, i, d);
    assert Rows(r, FRESH, ins, outs) == MatrixCopy(mi, mo, r) by { CallbackIsMatrixCopy(r, ins, outs); }
  }

  /** Where two sub-devices' output rows start, and where the rows end. */
  lemma OutputPositions(subs: seq<SubDevice>, parts: seq<seq<Row>>, b: nat, i: nat)
    requires OutputRows(subs, parts) && b <= |subs| && i <= |subs|
    ensures Start(parts, b) == OutSum(subs, b) && Start(parts, i) == OutSum(subs, i)
    ensures |Concat(parts)| == OutSum(subs, |subs|)
  {
    StartIsSum(subs, parts, b);
    StartIsSum(subs, parts, i);
    StartIsSum(subs, parts, |subs|);
    ConcatLength(parts);
  }

  lemma CombinedStream(subs: seq<SubDevice>, ins: seq<View>, subIns: seq<seq<Row>>, k: nat, c: nat)
    requires InputRows(subs, subIns) && Flatten(ins) == Concat(subIns)
    requires k < |subs| && c < subs[k].ins
    ensures Total(ViewCounts(ins)) == |Flatten(ins)| == InSum(subs, |subs|)
    ensures InSum(subs, k) + c < |Flatten(ins)| && Flatten(ins)[InSum(subs, k) + c] == subIns[k][c]
  {
    StartIsSum(subs, subIns, k);
    StartIsSum(subs, subIns, |subs|);
    FlattenLength(ins);
    ConcatLength(subIns);
    ConcatAt(subIns, k, c);
  }

  /** The same for every callback of a whole run, with the locations cached by the first one: as long
      as the channel counts of the buffers stay the same, each callback with lists routes. */
  lemma EveryCallbackRoutes(subs: seq<SubDevice>, iface: string, bh: string, k: nat, b: nat, inChannel: uint32, gain: real,
                            info: Info, calls: seq<Call>, ic: seq<nat>, oc: seq<nat>, n: nat,
                            subIns: seq<seq<Row>>, subOuts: seq<seq<Row>>, i: nat, d: nat)
    requires Wired(subs, iface, bh, k, b, inChannel, info.offsets) && info.inChannels == Total(ic)
    requires StableLayout(calls, ic, oc) && n < |calls| && Usable(calls[n])
    requires Carries(subs, calls[n].ins.value, calls[n].outs.value, subIns, subOuts) && i < |subs| && d < subs[i].outs
    ensures PassesChecks(info, inChannel)
    ensures var m, ch := RowsOfCall(RouteOf(info, inChannel, gain), calls, n), OutSum(subs, i) + d;
      && |m| == OutSum(subs, |subs|) && ch < |m|
      && m[ch] == DeviceRow(subIns, subOuts, k, inChannel, b, gain, i, d)
  {
    CachingIsSound(RouteOf(info, inChannel, gain), calls, ic, oc, n);
    EndToEndRouting(subs, iface, bh, k, b, inChannel, gain, info, calls[n].ins.value, calls[n].outs.value, subIns, subOuts, i, d);
  }

  /** The matrix the outputs of the n-th callback of a run flatten to. */
  function RowsOfCall(r: Route, calls: seq<Call>, n: nat): seq<Row>
    requires n < |calls| && Usable(calls[n])
  {
    Rows(r, CacheAt(r, calls, n), calls[n].ins.value, calls[n].outs.value)
  }

  /** The same sample by sample, for every callback of a run: over the frames all three have, BlackHole's
      channels 0 and 1 hold the chosen interface channel times the gain; every other sample of every
      device is 0. */
  lemma EveryCallbackSample(subs: seq<SubDevice>, iface: string, bh: string, k: nat, b: nat, inChannel: uint32, gain: real,
                            info: Info, calls: seq<Call>, ic: seq<nat>, oc: seq<nat>, n: nat,
                            subIns: seq<seq<Row>>, subOuts: seq<seq<Row>>, i: nat, d: nat, f: nat)
    requires Wired(subs, iface, bh, k, b, inChannel, info.offsets) && info.inChannels == Total(ic)
    requires StableLayout(calls, ic, oc) && n < |calls| && Usable(calls[n])
    requires Carries(subs, calls[n].ins.value, calls[n].outs.value, subIns, subOuts) && i < |subs| && d < subs[i].outs
    requires subOuts[i][d].Some? && f < |subOuts[i][d].value|
    ensures var m, ch := RowsOfCall(RouteOf(info, inChannel, gain), calls, n), OutSum(subs, i) + d;
      var src, left, right := subIns[k][inChannel], subOuts[b][0], subOuts[b][1];
      && ch < |m| && m[ch].Some? && |m[ch].value| == |subOuts[i][d].value|
      && m[ch].value[f] == if i == b && d < 2 && src.Some? && left.Some? && right.Some?
                              && f < |src.value| && f < |left.value| && f < |right.value|
                           then src.value[f] * gain else 0.0
  {
    EveryCallbackRoutes(subs, iface, bh, k, b, inChannel, gain, info, calls, ic, oc, n, subIns, subOuts, i, d);
    DeviceSample(subIns, subOuts, k, inChannel, b, gain, i, d, f);
  }
}
