/** The aggregate layer: device lookup, channel offsets, create and destroy over an abstract
    device table. */
module Aggregate {
  import opened CStrings
  import opened Numbers
  import opened Buffers

  const DEVICE_UNKNOWN: nat := 0
  const AGGREGATE_UID: string := "dev.xlrbridge.aggregate"
  const NO_ERR: int := 0
  const UNSPECIFIED_ERROR: int := 0x7768_6174  // kAudioHardwareUnspecifiedError, the four characters 'what'

  /** One enumerated device. */
  datatype Device = Device(id: nat, uid: string, name: string, inChannels: uint32, outChannels: uint32, isBlackhole: bool)

  function FirstWithUid(devs: seq<Device>, uid: string): (d: Option<Device>)
    ensures d.Some? ==> d.value in devs && d.value.uid == uid
    ensures d.None? <==> forall i :: 0 <= i < |devs| ==> devs[i].uid != uid
  {
    if devs == [] then None
    else if devs[0].uid == uid then Some(devs[0])
    else
      assert forall i :: 1 <= i < |devs| ==> devs[i] == devs[1..][i - 1];
      FirstWithUid(devs[1..], uid)
  }

  /** The id a UID resolves to; `seen` is None when enumeration fails. */
  function Resolved(seen: Option<seq<Device>>, uid: string): nat {
    if uid == "" || seen.None? then DEVICE_UNKNOWN
    else
      var d := FirstWithUid(seen.value, uid);
      if d.Some? then d.value.id else DEVICE_UNKNOWN
  }

  lemma {:induction false} FirstWithUidAt(devs: seq<Device>, uid: string, i: nat)
    requires i < |devs| && devs[i].uid == uid
    requires forall j :: 0 <= j < i ==> devs[j].uid != uid
    ensures FirstWithUid(devs, uid) == Some(devs[i])
  {
    if i > 0 {
      FirstWithUidAt(devs[1..], uid, i - 1);
    }
  }

  /** xb_resolve_device_by_uid */
  method ResolveDeviceByUid(seen: Option<seq<Device>>, uid: string) returns (found: nat)
    ensures found == Resolved(seen, uid)
  {
    if uid == "" || seen.None? { return DEVICE_UNKNOWN; }
    var devs := seen.value;
    for i := 0 to |devs|
      invariant forall j :: 0 <= j < i ==> devs[j].uid != uid
    {
      if devs[i].uid == uid {
        FirstWithUidAt(devs, uid, i);
        return devs[i].id;
      }
    }
    return DEVICE_UNKNOWN;
  }

  /** The first enumerated device with the UID is found; an empty UID, a UID no device has and a failed
      enumeration give the unknown id 0. */
  lemma ResolvedExact(seen: Option<seq<Device>>, uid: string)
    ensures uid == "" || seen.None? || (forall i :: 0 <= i < |seen.value| ==> seen.value[i].uid != uid) ==> Resolved(seen, uid) == 0
    ensures uid != "" && seen.Some? ==>
      forall i :: 0 <= i < |seen.value| && seen.value[i].uid == uid && (forall j :: 0 <= j < i ==> seen.value[j].uid != uid)
        ==> Resolved(seen, uid) == seen.value[i].id
  {
    if uid != "" && seen.Some? {
      forall i | 0 <= i < |seen.value| && seen.value[i].uid == uid && (forall j :: 0 <= j < i ==> seen.value[j].uid != uid)
        ensures Resolved(seen, uid) == seen.value[i].id
      {
        FirstWithUidAt(seen.value, uid, i);
      }
    }
  }

  // ---- channel counts -----------------------------------------------------

  /** The channels of a stream configuration, given as its buffers' counts; None when the HAL does
      not give it. The sum is a 32-bit one. */
  function CountOf(streams: Option<seq<uint32>>): uint32 {
    if streams.None? then 0 else Total(streams.value) % TWO_32
  }

  /** channel_count */
  method ChannelCount(streams: Option<seq<uint32>>) returns (total: uint32)
    ensures total == CountOf(streams)
  {
    if streams.None? { return 0; }
    ghost var counts: seq<nat> := streams.value;
    total := 0;
    for i := 0 to |streams.value|
      invariant total == Total(counts[..i]) % TWO_32
    {
      TotalSplit(counts, i);
      Add32Mod(Total(counts[..i]), streams.value[i]);
      total := Add32(total, streams.value[i]);
    }
    assert counts[..|counts|] == counts;
  }

  lemma Add32Mod(sum: nat, x: uint32)
    ensures Add32(sum % TWO_32, x) == (sum + x) % TWO_32
  {
  }

  // ---- offsets ------------------------------------------------------------

  /** What the HAL shows compute_offsets: the sub-device list (None if it cannot be read) with its
      UIDs (None if one does not convert to a C string), the devices enumerated when the i-th entry
      is resolved, and the stream configuration of a device's inputs or outputs read then. */
  datatype HalView = HalView(
    uids: Option<seq<Option<string>>>,
    seen: nat -> Option<seq<Device>>,
    streams: (nat, nat, bool) -> Option<seq<uint32>>)

  /** An entry of the list: its UID and its channel counts, 0 when it does not resolve. */
  datatype SubDevice = SubDevice(uid: Option<string>, ins: uint32, outs: uint32)

  function SubDeviceAt(h: HalView, i: nat, uid: Option<string>): SubDevice {
    if uid.None? then SubDevice(None, 0, 0)
    else
      var id := Resolved(h.seen(i), uid.value);
      if id == DEVICE_UNKNOWN then SubDevice(uid, 0, 0)
      else SubDevice(uid, CountOf(h.streams(i, id, true)), CountOf(h.streams(i, id, false)))
  }

  function SubDevices(h: HalView): Option<seq<SubDevice>> {
    if h.uids.None? then None
    else Some(seq(|h.uids.value|, i requires 0 <= i < |h.uids.value| => SubDeviceAt(h, i, h.uids.value[i])))
  }

  /** The stream configuration is one of `n` channels; none at all is one of no channels. */
  predicate HasChannels(streams: Option<seq<uint32>>, n: uint32) {
    if streams.None? then n == 0 else Total(streams.value) % 0x1_0000_0000 == n
  }

  /** The stream configurations the HAL shows are those the enumerated devices were counted by. */
  ghost predicate Consistent(h: HalView) {
    forall i: nat, d :: h.seen(i).Some? && d in h.seen(i).value ==>
      && HasChannels(h.streams(i, d.id, true), d.inChannels)
      && HasChannels(h.streams(i, d.id, false), d.outChannels)
  }

  /** The list entry by entry: the UIDs in their order, each with the input and output channels of the
      device it resolves to, and with none if it resolves to no device. */
  lemma SubDevicesExact(h: HalView, i: nat)
    requires h.uids.Some? && i < |h.uids.value| && Consistent(h)
    ensures var subs, uid := SubDevices(h).value, h.uids.value[i];
      && |subs| == |h.uids.value| && subs[i].uid == uid
      && (uid.Some? && uid.value != "" && h.seen(i).Some? ==>
            var d := FirstWithUid(h.seen(i).value, uid.value);
            && (d.Some? && d.value.id != 0 ==> subs[i].ins == d.value.inChannels && subs[i].outs == d.value.outChannels)
            && (d.None? ==> subs[i].ins == 0 && subs[i].outs == 0))
      && (uid.None? || uid.value == "" || h.seen(i).None? ==> subs[i].ins == 0 && subs[i].outs == 0)
  {
  }

  function InSum(subs: seq<SubDevice>, n: nat): nat
    requires n <= |subs|
  {
    if n == 0 then 0 else InSum(subs, n - 1) + subs[n - 1].ins
  }

  function OutSum(subs: seq<SubDevice>, n: nat): nat
    requires n <= |subs|
  {
    if n == 0 then 0 else OutSum(subs, n - 1) + subs[n - 1].outs
  }

  /** How many leading entries convert. */
  function Convertible(subs: seq<SubDevice>, from: nat): (n: nat)
    requires from <= |subs|
    ensures from <= n <= |subs|
    ensures forall i :: from <= i < n ==> subs[i].uid.Some?
    ensures n < |subs| ==> subs[n].uid.None?
    decreases |subs| - from
  {
    if from == |subs| || subs[from].uid.None? then from else Convertible(subs, from + 1)
  }

  /** The last of the first `n` entries that has the UID. */
  function LastWith(subs: seq<SubDevice>, n: nat, uid: string): (i: Option<nat>)
    requires n <= |subs|
    ensures i.Some? ==> i.value < n && subs[i.value].uid == Some(uid)
    ensures i.Some? ==> forall j :: i.value < j < n ==> subs[j].uid != Some(uid)
    ensures i.None? ==> forall j :: 0 <= j < n ==> subs[j].uid != Some(uid)
  {
    if n == 0 then None
    else if subs[n - 1].uid == Some(uid) then Some(n - 1)
    else LastWith(subs, n - 1, uid)
  }

  /** The offset and channel-count fields of xb_aggregate. */
  datatype Offsets = Offsets(ifaceIn: uint32, bhOut: uint32, bhChannels: uint32)

  /** The fields after the first `n` entries: the 32-bit sums of the counts listed before the last
      entry with the UID, or what they were. */
  function Captured(o: Offsets, subs: seq<SubDevice>, n: nat, iface: string, bh: string): Offsets
    requires n <= |subs|
  {
    var i, b := LastWith(subs, n, iface), LastWith(subs, n, bh);
    Offsets(
      if i.Some? then InSum(subs, i.value) % TWO_32 else o.ifaceIn,
      if b.Some? then OutSum(subs, b.value) % TWO_32 else o.bhOut,
      if b.Some? then subs[b.value].outs else o.bhChannels)
  }

  /** Success: every UID converts and both wanted UIDs occur. */
  predicate OffsetsFound(subs: seq<SubDevice>, iface: string, bh: string) {
    && Convertible(subs, 0) == |subs|
    && LastWith(subs, |subs|, iface).Some? && LastWith(subs, |subs|, bh).Some?
  }

  /** The captured fields for any list, duplicates included: the sums before the last entry with the
      UID modulo 2^32, or the old value where no entry has it. */
  lemma CapturedExact(o: Offsets, subs: seq<SubDevice>, n: nat, iface: string, bh: string)
    requires n <= |subs|
    ensures var c := Captured(o, subs, n, iface, bh);
      && (forall i :: 0 <= i < n && subs[i].uid == Some(iface) && (forall j :: i < j < n ==> subs[j].uid != Some(iface))
            ==> c.ifaceIn == InSum(subs, i) % 0x1_0000_0000)
      && (forall b :: 0 <= b < n && subs[b].uid == Some(bh) && (forall j :: b < j < n ==> subs[j].uid != Some(bh))
            ==> c.bhOut == OutSum(subs, b) % 0x1_0000_0000 && c.bhChannels == subs[b].outs)
      && ((forall i :: 0 <= i < n ==> subs[i].uid != Some(iface)) ==> c.ifaceIn == o.ifaceIn)
      && ((forall b :: 0 <= b < n ==> subs[b].uid != Some(bh)) ==> c.bhOut == o.bhOut && c.bhChannels == o.bhChannels)
  {
  }

  /** compute_offsets succeeds exactly if every UID converts and both wanted UIDs are in the list. */
  lemma OffsetsFoundExact(subs: seq<SubDevice>, iface: string, bh: string)
    ensures OffsetsFound(subs, iface, bh) <==>
      && (forall i :: 0 <= i < |subs| ==> subs[i].uid.Some?)
      && (exists i :: 0 <= i < |subs| && subs[i].uid == Some(iface))
      && (exists b :: 0 <= b < |subs| && subs[b].uid == Some(bh))
  {
    var i, b := LastWith(subs, |subs|, iface), LastWith(subs, |subs|, bh);
    assert Convertible(subs, 0) < |subs| ==> subs[Convertible(subs, 0)].uid.None?;
    if i.Some? { assert subs[i.value].uid == Some(iface); }
    if b.Some? { assert subs[b.value].uid == Some(bh); }
  }

  /** xb_aggregate */
  class AggregateInfo {
    var id: nat
    var inChannels: uint32
    var outChannels: uint32
    var interfaceInputOffset: uint32
    var blackholeOutputOffset: uint32
    var blackholeOutputChannels: uint32

    constructor ()
      ensures id == DEVICE_UNKNOWN && GetOffsets() == Offsets(0, 0, 0) && inChannels == outChannels == 0
    {
      id, inChannels, outChannels := DEVICE_UNKNOWN, 0, 0;
      interfaceInputOffset, blackholeOutputOffset, blackholeOutputChannels := 0, 0, 0;
    }

    function GetOffsets(): Offsets
      reads this
    {
      Offsets(interfaceInputOffset, blackholeOutputOffset, blackholeOutputChannels)
    }

    /** compute_offsets */
    method ComputeOffsets(h: HalView, iface: string, bh: string) returns (rc: int)
      modifies this`interfaceInputOffset, this`blackholeOutputOffset, this`blackholeOutputChannels
      ensures var list := SubDevices(h);
        && rc == (if list.Some? && OffsetsFound(list.value, iface, bh) then 0 else -1)
        && GetOffsets() == if list.None? then old(GetOffsets())
                           else Captured(old(GetOffsets()), list.value, Convertible(list.value, 0), iface, bh)
    {
      if h.uids.None? { return -1; }
      rc := Accumulate(h, iface, bh, SubDevices(h).value);
    }

    /** The loop has visited the first `i` entries. */
    ghost predicate Visited(subs: seq<SubDevice>, i: nat, iface: string, bh: string,
                            inOff: uint32, outOff: uint32, foundIface: bool, foundBh: bool, initial: Offsets)
      reads this
    {
      && i <= |subs| && Convertible(subs, 0) == Convertible(subs, i)
      && inOff == InSum(subs, i) % TWO_32 && outOff == OutSum(subs, i) % TWO_32
      && foundIface == LastWith(subs, i, iface).Some? && foundBh == LastWith(subs, i, bh).Some?
      && GetOffsets() == Captured(initial, subs, i, iface, bh)
    }

    /** The loop over the sub-device list. */
    method Accumulate(h: HalView, iface: string, bh: string, ghost subs: seq<SubDevice>) returns (rc: int)
      requires SubDevices(h) == Some(subs)
      modifies this`interfaceInputOffset, this`blackholeOutputOffset, this`blackholeOutputChannels
      ensures rc == if OffsetsFound(subs, iface, bh) then 0 else -1
      ensures GetOffsets() == Captured(old(GetOffsets()), subs, Convertible(subs, 0), iface, bh)
    {
      var uids := h.uids.value;
      var inOff: uint32, outOff: uint32 := 0, 0;
      var foundIface, foundBh := false, false;
      for i := 0 to |uids|
        invariant Visited(subs, i, iface, bh, inOff, outOff, foundIface, foundBh, old(GetOffsets()))
      {
        SameUid(h, subs, i);
        if uids[i].None? {
          return -1;
        }
        inOff, outOff, foundIface, foundBh :=
          Visit(h, i, uids[i].value, iface, bh, inOff, outOff, foundIface, foundBh, subs, old(GetOffsets()));
      }
      rc := if foundIface && foundBh then 0 else -1;
    }

    /** The loop body for an entry whose UID converts. */
    method Visit(h: HalView, i: nat, uid: string, iface: string, bh: string, inOff: uint32, outOff: uint32,
                 foundIface: bool, foundBh: bool, ghost subs: seq<SubDevice>, ghost initial: Offsets)
      returns (inNext: uint32, outNext: uint32, iFound: bool, bFound: bool)
      requires SubDevices(h) == Some(subs) && i < |subs| && h.uids.value[i] == Some(uid)
      requires Visited(subs, i, iface, bh, inOff, outOff, foundIface, foundBh, initial)
      modifies this`interfaceInputOffset, this`blackholeOutputOffset, this`blackholeOutputChannels
      ensures Visited(subs, i + 1, iface, bh, inNext, outNext, iFound, bFound, initial)
    {
      var sin, sout := SubCounts(h, i, uid, subs);
      iFound, bFound := Capture(uid, iface, bh, inOff, outOff, sout, subs, i, foundIface, foundBh, initial);
      NextSums(subs, i);
      inNext := Add32(inOff, sin);
      outNext := Add32(outOff, sout);
    }

    /** The two comparisons of the loop body. */
    method Capture(uid: string, iface: string, bh: string, inOff: uint32, outOff: uint32, sout: uint32,
                   ghost subs: seq<SubDevice>, ghost i: nat, foundIface: bool, foundBh: bool, ghost initial: Offsets)
      returns (iFound: bool, bFound: bool)
      requires i < |subs| && subs[i].uid == Some(uid) && subs[i].outs == sout
      requires inOff == InSum(subs, i) % TWO_32 && outOff == OutSum(subs, i) % TWO_32
      requires foundIface == LastWith(subs, i, iface).Some? && foundBh == LastWith(subs, i, bh).Some?
      requires GetOffsets() == Captured(initial, subs, i, iface, bh)
      modifies this`interfaceInputOffset, this`blackholeOutputOffset, this`blackholeOutputChannels
      ensures iFound == LastWith(subs, i + 1, iface).Some? && bFound == LastWith(subs, i + 1, bh).Some?
      ensures GetOffsets() == Captured(initial, subs, i + 1, iface, bh)
    {
      iFound, bFound := foundIface, foundBh;
      if uid == iface {
        interfaceInputOffset := inOff;
        iFound := true;
      }
      if uid == bh {
        blackholeOutputOffset := outOff;
        blackholeOutputChannels := sout;
        bFound := true;
      }
    }
  }

  lemma NextSums(subs: seq<SubDevice>, i: nat)
    requires i < |subs|
    ensures Add32(InSum(subs, i) % TWO_32, subs[i].ins) == InSum(subs, i + 1) % TWO_32
    ensures Add32(OutSum(subs, i) % TWO_32, subs[i].outs) == OutSum(subs, i + 1) % TWO_32
  {
    Add32Mod(InSum(subs, i), subs[i].ins);
    Add32Mod(OutSum(subs, i), subs[i].outs);
  }

  lemma SameUid(h: HalView, subs: seq<SubDevice>, i: nat)
    requires SubDevices(h) == Some(subs) && i < |subs|
    ensures |subs| == |h.uids.value| && subs[i].uid == h.uids.value[i]
  {
  }

  /** Resolving a sub-device and reading its channel counts. */
  method SubCounts(h: HalView, i: nat, uid: string, ghost subs: seq<SubDevice>) returns (sin: uint32, sout: uint32)
    requires SubDevices(h) == Some(subs) && i < |subs| && h.uids.value[i] == Some(uid)
    ensures subs[i] == SubDevice(Some(uid), sin, sout)
  {
    sin, sout := 0, 0;
    var sub := ResolveDeviceByUid(h.seen(i), uid);
    if sub != DEVICE_UNKNOWN {
      sin := ChannelCount(h.streams(i, sub, true));
      sout := ChannelCount(h.streams(i, sub, false));
    }
  }

  predicate DistinctUids(subs: seq<SubDevice>) {
    forall i, j :: 0 <= i < j < |subs| ==> subs[i].uid != subs[j].uid
  }

  lemma {:induction false} SumsGrow(subs: seq<SubDevice>, i: nat, j: nat)
    requires i <= j <= |subs|
    ensures InSum(subs, i) <= InSum(subs, j) && OutSum(subs, i) <= OutSum(subs, j)
  {
    if i < j {
      SumsGrow(subs, i, j - 1);
    }
  }

  /** With distinct UIDs and totals that fit 32 bits, the captured fields are exactly the true sums
      of the counts listed before the two sub-devices. */
  lemma OffsetsArePrefixSums(o: Offsets, subs: seq<SubDevice>, iface: string, bh: string, k: nat, b: nat)
    requires Convertible(subs, 0) == |subs| && DistinctUids(subs)
    requires k < |subs| && subs[k].uid == Some(iface)
    requires b < |subs| && subs[b].uid == Some(bh)
    requires InSum(subs, |subs|) < TWO_32 && OutSum(subs, |subs|) < TWO_32
    ensures OffsetsFound(subs, iface, bh)
    ensures var c := Captured(o, subs, |subs|, iface, bh);
      c.ifaceIn == InSum(subs, k) && c.bhOut == OutSum(subs, b) && c.bhChannels == subs[b].outs
  {
    SumsGrow(subs, k, |subs|);
    SumsGrow(subs, b, |subs|);
    var i, j := LastWith(subs, |subs|, iface), LastWith(subs, |subs|, bh);
    assert i == Some(k);
    assert j == Some(b);
  }

  /** Channel `ch` of the combined input stream belongs to the k-th sub-device. */
  predicate OwnsInput(subs: seq<SubDevice>, k: nat, ch: nat)
    requires k < |subs|
  {
    InSum(subs, k) <= ch < InSum(subs, k + 1)
  }

  /** The sub-device ranges cover the running total... */
  lemma {:induction false} RangesCover(subs: seq<SubDevice>, n: nat, ch: nat) returns (k: nat)
    requires n <= |subs| && ch < InSum(subs, n)
    ensures k < n && OwnsInput(subs, k, ch)
  {
    if ch >= InSum(subs, n - 1) {
      k := n - 1;
    } else {
      k := RangesCover(subs, n - 1, ch);
    }
  }

  /** ... and are disjoint. */
  lemma RangesDisjoint(subs: seq<SubDevice>, i: nat, j: nat, ch: nat)
    requires i < |subs| && j < |subs| && OwnsInput(subs, i, ch) && OwnsInput(subs, j, ch)
    ensures i == j
  {
    if i < j { SumsGrow(subs, i + 1, j); }
    if j < i { SumsGrow(subs, j + 1, i); }
  }

  /** Channel `ch` of the combined output stream belongs to the k-th sub-device. */
  predicate OwnsOutput(subs: seq<SubDevice>, k: nat, ch: nat)
    requires k < |subs|
  {
    OutSum(subs, k) <= ch < OutSum(subs, k + 1)
  }

  /** The output ranges cover the running total and are disjoint as well. */
  lemma {:induction false} OutputRangesCover(subs: seq<SubDevice>, n: nat, ch: nat) returns (k: nat)
    requires n <= |subs| && ch < OutSum(subs, n)
    ensures k < n && OwnsOutput(subs, k, ch)
  {
    if ch >= OutSum(subs, n - 1) {
      k := n - 1;
    } else {
      k := OutputRangesCover(subs, n - 1, ch);
    }
  }

  lemma OutputRangesDisjoint(subs: seq<SubDevice>, i: nat, j: nat, ch: nat)
    requires i < |subs| && j < |subs| && OwnsOutput(subs, i, ch) && OwnsOutput(subs, j, ch)
    ensures i == j
  {
    if i < j { SumsGrow(subs, i + 1, j); }
    if j < i { SumsGrow(subs, j + 1, i); }
  }

  // ---- create and destroy -------------------------------------------------

  /** The outcome of each HAL call xb_aggregate_create makes. */
  datatype CreateOutcome = CreateOutcome(
    enumerates: bool, destroysStale: bool, composes: bool, status: int, newId: nat,
    inStreams: Option<seq<uint32>>, outStreams: Option<seq<uint32>>, hal: HalView, destroysHalf: bool)

  function Without(table: seq<Device>, id: nat): (t: seq<Device>)
    ensures forall d :: d in t <==> d in table && d.id != id
  {
    if table == [] then []
    else if table[0].id == id then Without(table[1..], id)
    else [table[0]] + Without(table[1..], id)
  }

  function Destroyed(table: seq<Device>, id: nat, succeeds: bool): seq<Device> {
    if id != DEVICE_UNKNOWN && succeeds then Without(table, id) else table
  }

  /** A status that says so; create ignores which one it is. */
  function DestroyAnswer(succeeds: bool): int {
    if succeeds then NO_ERR else UNSPECIFIED_ERROR
  }

  function NewDevice(o: CreateOutcome): Device {
    Device(o.newId, AGGREGATE_UID, "xlrbridge engine", CountOf(o.inStreams), CountOf(o.outStreams), false)
  }

  predicate Creates(o: CreateOutcome) {
    o.composes && o.status == NO_ERR && o.newId != DEVICE_UNKNOWN
  }

  predicate CreateSucceeds(o: CreateOutcome, iface: string, bh: string) {
    Creates(o) && SubDevices(o.hal).Some? && OffsetsFound(SubDevices(o.hal).value, iface, bh)
  }

  /** The status xb_aggregate_create returns: a failing create call passes its own status on. */
  function CreateStatus(o: CreateOutcome, iface: string, bh: string): int {
    if CreateSucceeds(o, iface, bh) then NO_ERR
    else if o.composes && o.status != NO_ERR then o.status
    else UNSPECIFIED_ERROR
  }

  /** The device table after xb_aggregate_create. */
  function TableAfterCreate(table: seq<Device>, iface: string, bh: string, o: CreateOutcome): seq<Device> {
    var stale := Resolved(if o.enumerates then Some(table) else None, AGGREGATE_UID);
    var cleared := Destroyed(table, stale, o.destroysStale);
    if !Creates(o) then cleared
    else if CreateSucceeds(o, iface, bh) then cleared + [NewDevice(o)]
    else Destroyed(cleared + [NewDevice(o)], o.newId, o.destroysHalf)
  }

  /** xb_aggregate_create by the answers it gets: 0 exactly if the device was created and its
      sub-device list can be read, converts and holds both UIDs; the HAL's own status if creating
      failed with one; 'what' otherwise. */
  lemma CreateStatusExact(o: CreateOutcome, iface: string, bh: string)
    ensures var created := o.composes && o.status == 0 && o.newId != 0;
      var list := o.hal.uids;
      && (CreateStatus(o, iface, bh) == 0 <==>
            created && list.Some? && (forall i :: 0 <= i < |list.value| ==> list.value[i].Some?)
            && Some(iface) in list.value && Some(bh) in list.value)
      && (o.composes && o.status != 0 ==> CreateStatus(o, iface, bh) == o.status)
      && (!o.composes || o.status == 0 ==> CreateStatus(o, iface, bh) == 0 || CreateStatus(o, iface, bh) == 0x7768_6174)
  {
    if o.hal.uids.Some? {
      var uids, subs := o.hal.uids.value, SubDevices(o.hal).value;
      OffsetsFoundExact(subs, iface, bh);
      assert forall i :: 0 <= i < |uids| ==> subs[i].uid == uids[i];
      if Some(iface) in uids { var i :| 0 <= i < |uids| && uids[i] == Some(iface); assert subs[i].uid == Some(iface); }
      if Some(bh) in uids { var i :| 0 <= i < |uids| && uids[i] == Some(bh); assert subs[i].uid == Some(bh); }
    }
  }

  /** Which devices exist after xb_aggregate_create: all but the leftover aggregate it found and could
      destroy, and the new one if it was created and not destroyed again. */
  lemma CreateTableExact(table: seq<Device>, iface: string, bh: string, o: CreateOutcome, d: Device)
    requires forall e :: e in table ==> e.id != 0 && e.id != o.newId
    ensures var stale := if o.enumerates then FirstWithUid(table, "dev.xlrbridge.aggregate") else None;
      var created := o.composes && o.status == 0 && o.newId != 0;
      var dropped := CreateStatus(o, iface, bh) != 0 && o.destroysHalf;
      d in TableAfterCreate(table, iface, bh, o) <==>
        || (d in table && !(stale.Some? && o.destroysStale && d.id == stale.value.id))
        || (created && !dropped && d.id == o.newId && d.uid == "dev.xlrbridge.aggregate"
            && d.inChannels == CountOf(o.inStreams) && d.outChannels == CountOf(o.outStreams) && d == NewDevice(o))
  {
  }

  class Hal {
    var table: seq<Device>

    constructor (devices: seq<Device>)
      ensures table == devices
    {
      table := devices;
    }

    /** xb_aggregate_destroy; `answer` is the HAL's status, which is passed on. */
    method AggregateDestroy(id: nat, answer: int) returns (status: int)
      modifies this
      ensures table == Destroyed(old(table), id, answer == NO_ERR)
      ensures status == if id == DEVICE_UNKNOWN then NO_ERR else answer
    {
      if id == DEVICE_UNKNOWN { return NO_ERR; }
      if answer == NO_ERR {
        table := Without(table, id);
      }
      return answer;
    }

    /** xb_aggregate_create */
    method AggregateCreate(iface: string, bh: string, out: AggregateInfo, o: CreateOutcome) returns (status: int)
      modifies this, out
      ensures table == TableAfterCreate(old(table), iface, bh, o)
      ensures status == CreateStatus(o, iface, bh) && (status == NO_ERR <==> CreateSucceeds(o, iface, bh))
      ensures out.id == if status == NO_ERR then o.newId else DEVICE_UNKNOWN
      ensures status == NO_ERR ==>
        && out.inChannels == CountOf(o.inStreams) && out.outChannels == CountOf(o.outStreams)
        && out.GetOffsets() == Captured(Offsets(0, 0, 0), SubDevices(o.hal).value, |SubDevices(o.hal).value|, iface, bh)
    {
      out.id, out.inChannels, out.outChannels := DEVICE_UNKNOWN, 0, 0;
      out.interfaceInputOffset, out.blackholeOutputOffset, out.blackholeOutputChannels := 0, 0, 0;
      var stale := ResolveDeviceByUid(if o.enumerates then Some(table) else None, AGGREGATE_UID);
      if stale != DEVICE_UNKNOWN {
        var ignored := AggregateDestroy(stale, DestroyAnswer(o.destroysStale));
      }
      if !o.composes { return UNSPECIFIED_ERROR; }
      if o.status != NO_ERR || o.newId == DEVICE_UNKNOWN {
        return if o.status != NO_ERR then o.status else UNSPECIFIED_ERROR;
      }
      table := table + [NewDevice(o)];
      out.id := o.newId;
      out.inChannels := ChannelCount(o.inStreams);
      out.outChannels := ChannelCount(o.outStreams);
      var rc := out.ComputeOffsets(o.hal, iface, bh);
      if rc != 0 {
        var ignored := AggregateDestroy(o.newId, DestroyAnswer(o.destroysHalf));
        out.id := DEVICE_UNKNOWN;
        return UNSPECIFIED_ERROR;
      }
      return NO_ERR;
    }
  }

  /** Device ids are unique, never 0, and at most one device is ours. */
  ghost predicate AtMostOne(table: seq<Device>) {
    && (forall d :: d in table ==> d.id != DEVICE_UNKNOWN)
    && (forall d, e :: d in table && e in table && d.uid == AGGREGATE_UID && e.uid == AGGREGATE_UID ==> d.id == e.id)
  }

  ghost predicate NoneOurs(table: seq<Device>) {
    forall d :: d in table ==> d.uid != AGGREGATE_UID
  }

  /** Create keeps at most one aggregate exactly when a leftover one was both seen and destroyed,
      or there was none, or nothing new stays behind; and a failed create whose destroy calls
      succeed leaves none. */
  lemma CreateKeepsAtMostOne(table: seq<Device>, iface: string, bh: string, o: CreateOutcome)
    requires AtMostOne(table) && (forall d :: d in table ==> d.id != o.newId)
    ensures var after := TableAfterCreate(table, iface, bh, o);
      var stays := Creates(o) && (CreateSucceeds(o, iface, bh) || !o.destroysHalf);
      && (AtMostOne(after) <==> NoneOurs(table) || (o.enumerates && o.destroysStale) || !stays)
      && (o.enumerates && o.destroysStale && o.destroysHalf && !CreateSucceeds(o, iface, bh) ==> NoneOurs(after))
  {
  }

  /** Why the lookup matters: a leftover aggregate the enumeration does not show stays, and a second
      one joins it. */
  lemma MissedLookupDuplicates(hal: HalView, iface: string, bh: string) returns (table: seq<Device>, o: CreateOutcome)
    requires SubDevices(hal).Some? && OffsetsFound(SubDevices(hal).value, iface, bh)
    ensures AtMostOne(table) && CreateStatus(o, iface, bh) == NO_ERR && o.destroysStale
    ensures var after := TableAfterCreate(table, iface, bh, o);
      |after| == 2 && after[0].uid == after[1].uid == AGGREGATE_UID && after[0].id != after[1].id
  {
    table := [Device(5, AGGREGATE_UID, "xlrbridge engine", 4, 4, false)];
    o := CreateOutcome(false, true, true, NO_ERR, 6, None, None, hal, true);
  }
}
