/** AudioBufferLists: their channel layout and the location of a global channel inside it. */
module Buffers {
  import opened CStrings
  import opened Numbers

  const BYTES_PER_SAMPLE: int := 4

  /** Strides are multiplied by the sample size in 32-bit `int` arithmetic, so a buffer may carry
      fewer than 2^29 channels. */
  const CHANNEL_LIMIT: int := 0x2000_0000

  /** mNumberChannels, mDataByteSize and mData; the array holds the whole samples of mData. */
  datatype AudioBuffer = AudioBuffer(channels: uint32, byteSize: uint32, data: array?<real>)

  type BufferList = seq<AudioBuffer>

  predicate ValidBuffer(b: AudioBuffer) {
    b.channels < CHANNEL_LIMIT && (b.data != null ==> b.data.Length == b.byteSize / BYTES_PER_SAMPLE)
  }

  /** Buffers have the size they declare, and buffer and channel indices fit an `int`. */
  predicate ValidList(bl: BufferList) {
    && (forall i :: 0 <= i < |bl| ==> ValidBuffer(bl[i]))
    && |bl| < TWO_31 && Total(Counts(bl)) < TWO_31
  }

  /** Where each buffer keeps its samples. */
  type Cells = seq<array?<real>>

  function CellsOf(bl: BufferList): (cells: Cells)
    ensures |cells| == |bl|
  {
    seq(|bl|, i requires 0 <= i < |bl| => bl[i].data)
  }

  /** No two buffers share storage. */
  predicate Separate(bl: BufferList) {
    forall i, j :: 0 <= i < j < |bl| && bl[i].data != null ==> bl[i].data != bl[j].data
  }

  function Storage(bl: BufferList): set<object> {
    set b | b in bl && b.data != null :: b.data
  }

  /** The channel counts of a list, buffer by buffer. */
  function Counts(bl: BufferList): seq<uint32> {
    seq(|bl|, i requires 0 <= i < |bl| => bl[i].channels)
  }

  function Total(counts: seq<nat>): nat {
    if counts == [] then 0 else counts[0] + Total(counts[1..])
  }

  /** xb_chan_loc: `buffer` is -1 if the channel was not found. */
  datatype ChanLoc = ChanLoc(buffer: int, stride: int, lane: int)

  const NOT_FOUND: ChanLoc := ChanLoc(-1, 0, 0)

  /** Where global channel `want` lives among buffers of the given channel counts. */
  function Locate(counts: seq<nat>, want: nat): (loc: ChanLoc)
  {
    if counts == [] then NOT_FOUND
    else if want < counts[0] then ChanLoc(0, counts[0], want)
    else
      var r := Locate(counts[1..], want - counts[0]);
      if r.buffer < 0 then NOT_FOUND else r.(buffer := r.buffer + 1)
  }

  predicate InLayout(counts: seq<nat>, loc: ChanLoc) {
    0 <= loc.buffer < |counts| && loc.stride == counts[loc.buffer] && 0 <= loc.lane < loc.stride
  }

  lemma {:induction false} TotalSplit(counts: seq<nat>, b: nat)
    requires b < |counts|
    ensures Total(counts[..b + 1]) == Total(counts[..b]) + counts[b]
    ensures Total(counts[..b + 1]) <= Total(counts)
  {
    if b == 0 {
      assert counts[..1][1..] == [] && counts[..0] == [];
    } else {
      TotalSplit(counts[1..], b - 1);
      assert counts[..b + 1][1..] == counts[1..][..b] && counts[..b][1..] == counts[1..][..b - 1];
    }
  }

  /** Not found exactly at or above the total; otherwise the channels before the chosen buffer plus
      the lane make up the index. */
  lemma {:induction false} LocateSound(counts: seq<nat>, want: nat)
    ensures Locate(counts, want) == NOT_FOUND <==> want >= Total(counts)
    ensures want < Total(counts) ==>
      var loc := Locate(counts, want);
      InLayout(counts, loc) && Total(counts[..loc.buffer]) + loc.lane == want
  {
    if counts != [] && want >= counts[0] {
      LocateSound(counts[1..], want - counts[0]);
      var r := Locate(counts[1..], want - counts[0]);
      if r.buffer >= 0 {
        assert counts[..r.buffer + 1][1..] == counts[1..][..r.buffer];
      }
    }
  }

  /** Every lane of every buffer is the location of exactly one channel index. */
  lemma {:induction false} LocateComplete(counts: seq<nat>, loc: ChanLoc)
    requires InLayout(counts, loc)
    ensures Total(counts[..loc.buffer]) + loc.lane < Total(counts)
    ensures Locate(counts, Total(counts[..loc.buffer]) + loc.lane) == loc
  {
    if loc.buffer > 0 {
      LocateComplete(counts[1..], loc.(buffer := loc.buffer - 1));
      assert counts[..loc.buffer][1..] == counts[1..][..loc.buffer - 1];
    }
  }

  /** Distinct channels have distinct (buffer, lane) pairs. */
  lemma {:induction false} LocateInjective(counts: seq<nat>, a: nat, b: nat)
    requires a < Total(counts) && b < Total(counts)
    requires Locate(counts, a).buffer == Locate(counts, b).buffer
    requires Locate(counts, a).lane == Locate(counts, b).lane
    ensures a == b
  {
    LocateSound(counts, a);
    LocateSound(counts, b);
  }

  /** locate_channel from buffer `b` on: the running base and the comparison are unsigned 32-bit
      ones and the three results are cast to int. */
  function Walk(counts: seq<uint32>, want: uint32, b: nat, base: uint32): ChanLoc
    requires b <= |counts|
    decreases |counts| - b
  {
    if b == |counts| then NOT_FOUND
    else if want < Add32(base, counts[b]) then
      ChanLoc(ToInt32(b), ToInt32(counts[b]), ToInt32((want - base) % TWO_32))
    else Walk(counts, want, b + 1, Add32(base, counts[b]))
  }

  /** locate_channel */
  method LocateChannel(bl: BufferList, want: uint32) returns (loc: ChanLoc)
    ensures loc == Walk(Counts(bl), want, 0, 0)
  {
    var base: uint32 := 0;
    for b := 0 to |bl|
      invariant Walk(Counts(bl), want, 0, 0) == Walk(Counts(bl), want, b, base)
    {
      var nch := bl[b].channels;
      if want < Add32(base, nch) {
        return ChanLoc(ToInt32(b), ToInt32(nch), ToInt32((want - base) % TWO_32));
      }
      base := Add32(base, nch);
    }
    return NOT_FOUND;
  }

  /** The channel is found before the running base reaches 2^32, and fits the int results. */
  predicate Representable(counts: seq<nat>, loc: ChanLoc)
    requires InLayout(counts, loc)
  {
    Total(counts[..loc.buffer + 1]) < TWO_32 && loc.buffer < TWO_31 && loc.stride < TWO_31
  }

  /** The walk finds the channel's location exactly if that is representable; an index at or above
      the total is never found. */
  lemma WalkExact(counts: seq<uint32>, want: uint32)
    requires |counts| < TWO_32
    ensures want >= Total(counts) ==> Walk(counts, want, 0, 0) == NOT_FOUND
    ensures want < Total(counts) ==>
      && InLayout(counts, Locate(counts, want))
      && (Walk(counts, want, 0, 0) == Locate(counts, want) <==> Representable(counts, Locate(counts, want)))
  {
    LocateSound(counts, want);
    assert counts[..0] == [];
    WalkFrom(counts, want, 0);
  }

  lemma {:induction false} WalkFrom(counts: seq<uint32>, want: uint32, b: nat)
    requires |counts| < TWO_32
    requires b <= |counts| && Total(counts[..b]) <= want
    ensures want >= Total(counts) ==> Walk(counts, want, b, Total(counts[..b])) == NOT_FOUND
    ensures want < Total(counts) ==>
      var loc := Locate(counts, want);
      && InLayout(counts, loc)
      && (Walk(counts, want, b, Total(counts[..b])) == loc <==> Representable(counts, loc))
    decreases |counts| - b
  {
    LocateSound(counts, want);
    if b == |counts| {
      assert counts[..b] == counts;
    } else {
      TotalSplit(counts, b);
      if want >= Total(counts[..b + 1]) {
        WalkFrom(counts, want, b + 1);
      } else {
        WalkHere(counts, want, b);
      }
    }
  }

  /** The channel is in buffer `b`: it is found there, or the sum wraps and it is missed for good. */
  lemma WalkHere(counts: seq<uint32>, want: uint32, b: nat)
    requires b < |counts| < TWO_32 && Total(counts[..b]) <= want < Total(counts[..b + 1])
    ensures var loc := Locate(counts, want);
      && InLayout(counts, loc)
      && (Walk(counts, want, b, Total(counts[..b])) == loc <==> Representable(counts, loc))
  {
    TotalSplit(counts, b);
    LocateComplete(counts, ChanLoc(b, counts[b], want - Total(counts[..b])));
    if Total(counts[..b + 1]) >= TWO_32 {
      WalkBehind(counts, want, b + 1, Add32(Total(counts[..b]), counts[b]));
    }
  }

  /** What the walk finds from buffer `b` on has no smaller buffer index, or a negative one. */
  lemma {:induction false} WalkBehind(counts: seq<uint32>, want: uint32, b: nat, base: uint32)
    requires b <= |counts| < TWO_32
    ensures var w := Walk(counts, want, b, base).buffer; w < 0 || w >= b
    decreases |counts| - b
  {
    if b < |counts| && want >= Add32(base, counts[b]) {
      WalkBehind(counts, want, b + 1, Add32(base, counts[b]));
    }
  }

  /** For a list within the limits the walk is the location. */
  lemma WalkIsLocate(counts: seq<uint32>, want: uint32)
    requires |counts| < TWO_31 && Total(counts) < TWO_31
    ensures Walk(counts, want, 0, 0) == Locate(counts, want)
  {
    WalkExact(counts, want);
    LocateSound(counts, want);
    if want < Total(counts) {
      TotalSplit(counts, Locate(counts, want).buffer);
    }
  }

  // ---- values -------------------------------------------------------------

  /** A buffer as a value: its channel count and its samples, None for a NULL mData. */
  datatype View = View(channels: nat, samples: Option<seq<real>>)

  function ViewOf(b: AudioBuffer): View
    reads if b.data == null then {} else {b.data}
  {
    View(b.channels, if b.data == null then None else Some(b.data[..]))
  }

  function Views(bl: BufferList): (vs: seq<View>)
    reads Storage(bl)
    ensures |vs| == |bl|
  {
    seq(|bl|, i requires 0 <= i < |bl| reads Storage(bl) => ViewOf(bl[i]))
  }

  function ViewCounts(vs: seq<View>): (counts: seq<nat>)
    ensures |counts| == |vs|
  {
    seq(|vs|, i requires 0 <= i < |vs| => vs[i].channels)
  }
}
