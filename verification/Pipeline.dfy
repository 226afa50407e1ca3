/** From a non-interactive setup to the samples a later run without flags routes. */
module Pipeline {
  import opened CStrings
  import opened Numbers
  import opened Json
  import opened Config
  import opened RoundTrip
  import opened Buffers
  import opened Matrix
  import opened Aggregate
  import Callback
  import Engine
  import Routing
  import opened Commands

  /** What setup accepted and saves: the interface's own channel, and the UID of a device that is named
      or flagged as BlackHole. A named BlackHole that is present is kept. */
  lemma SetupValidated(c0: Settings, devs: seq<Device>)
    requires SetupCode(c0, Some(devs)) == 0
    requires forall d :: d in devs ==> FitsUid(d.uid)
    ensures var c := SetupSettings(c0, devs);
      && c == c0.(blackholeUid := c.blackholeUid)
      && FirstWithUid(devs, c.interfaceUid).Some? && FirstWithUid(devs, c.blackholeUid).Some?
      && 0 <= c.inChannel < FirstWithUid(devs, c.interfaceUid).value.inChannels
      && FitsUid(c.blackholeUid)
      && (exists d :: d in devs && d.uid == c.blackholeUid
            && (d.isBlackhole || (c0.blackholeUid != "" && d.uid == c0.blackholeUid)))
      && (c0.blackholeUid != "" && FirstWithUid(devs, c0.blackholeUid).Some? ==> c == c0)
  {
    var bh := BlackholeOf(devs, c0.blackholeUid).value;
    assert bh in devs;
    var i :| 0 <= i < |devs| && devs[i] == bh;
    assert Truncate(bh.uid, UID_SIZE) == bh.uid;
  }

  /** A run without flags works with exactly what setup saved: the interface and the channel always,
      the BlackHole UID and the gain unless the interface UID redirects their lookup to a channel
      number that differs. */
  lemma RunSeesSetup(c: Settings, ff: FloatFormat)
    requires ValidSettings(c) && ValidFormat(ff)
    ensures var o, e := FromConfig(LoadBytes(Printed(c, ff), ff)), Expected(c, ff);
      && o.iface == (if c.interfaceUid == "" then None else Some(c.interfaceUid))
      && o.inChannel == ToUint32(c.inChannel) && !o.dryRun
      && (o.bh == e.blackholeUid <==> (Forms(c.interfaceUid, KEY_BLACKHOLE) ==> Decimal(c.inChannel) == e.blackholeUid))
      && (o.gainDb == e.gainDb <==> (Forms(c.interfaceUid, KEY_GAIN) ==> ff.strtod(Decimal(c.inChannel)) == e.gainDb))
  {
    LoadAfterSave(c, ff);
  }

  /** The aggregate's sub-device list is made of the devices setup saw, with the counts it saw. */
  predicate SameDevices(devs: seq<Device>, subs: seq<SubDevice>) {
    forall i :: 0 <= i < |subs| && subs[i].uid.Some? ==>
      var d := FirstWithUid(devs, subs[i].uid.value);
      d.Some? ==> subs[i].ins == d.value.inChannels && subs[i].outs == d.value.outChannels
  }

  /** While the aggregate's list is read every device setup saw is still found, and is the first with its
      UID; others, like the aggregate itself, may be there as well. */
  ghost predicate Stays(h: HalView, devs: seq<Device>) {
    forall i: nat, uid :: FirstWithUid(devs, uid).Some? ==>
      h.seen(i).Some? && FirstWithUid(h.seen(i).value, uid) == FirstWithUid(devs, uid)
  }

  /** Then the list has the channel counts setup saw. */
  lemma SameDevicesOfHal(h: HalView, devs: seq<Device>)
    requires h.uids.Some? && Consistent(h) && Stays(h, devs)
    requires forall d :: d in devs ==> d.id != DEVICE_UNKNOWN && d.uid != ""
    ensures SameDevices(devs, SubDevices(h).value)
  {
    var subs := SubDevices(h).value;
    forall i | 0 <= i < |subs| && subs[i].uid.Some? && FirstWithUid(devs, subs[i].uid.value).Some?
      ensures var d := FirstWithUid(devs, subs[i].uid.value).value; subs[i].ins == d.inChannels && subs[i].outs == d.outChannels
    {
      SubDevicesExact(h, i);
    }
  }

  /** The options of a run without flags after an accepted setup was saved. */
  function NextRun(c0: Settings, devs: seq<Device>, ff: FloatFormat): RunOptions
    requires SetupCode(c0, Some(devs)) == 0
  {
    FromConfig(LoadBytes(Printed(SetupSettings(c0, devs), ff), ff))
  }

  /** Setup, save, load, run: if setup accepts, the interface UID does not redirect the BlackHole
      lookup, and the devices stay as they were, a later run without flags passes the engine's
      checks, and in every one of its callbacks that has lists it routes the very interface channel
      setup validated to BlackHole's channels 0 and 1, and nothing anywhere else. The callbacks
      share the locations the first one cached; the buffers keep their channel counts. */
  lemma SetupThenRun(c0: Settings, devs: seq<Device>, ff: FloatFormat, factor: Double -> real,
                     hal: HalView, subs: seq<SubDevice>, k: nat, b: nat, info: Engine.Info,
                     calls: seq<Call>, ic: seq<nat>, oc: seq<nat>, n: nat,
                     subIns: seq<seq<Row>>, subOuts: seq<seq<Row>>, i: nat, d: nat)
    requires ValidSettings(c0) && ValidFormat(ff) && SetupCode(c0, Some(devs)) == 0
    requires forall dev :: dev in devs ==> FitsUid(dev.uid) && dev.uid != "" && dev.id != DEVICE_UNKNOWN
    requires Forms(c0.interfaceUid, KEY_BLACKHOLE) ==> Decimal(c0.inChannel) == SetupSettings(c0, devs).blackholeUid
    requires SubDevices(hal) == Some(subs) && Consistent(hal) && Stays(hal, devs)
    requires Convertible(subs, 0) == |subs| && DistinctUids(subs)
    requires InSum(subs, |subs|) < TWO_32 && OutSum(subs, |subs|) < TWO_32
    requires k < |subs| && subs[k].uid == Some(c0.interfaceUid)
    requires b < |subs| && subs[b].uid == Some(SetupSettings(c0, devs).blackholeUid) && subs[b].outs >= 2
    requires var o := NextRun(c0, devs, ff);
      o.iface.Some? && info.offsets == Captured(Offsets(0, 0, 0), subs, |subs|, o.iface.value, o.bh)
    requires info.inChannels == Total(ic)
    requires StableLayout(calls, ic, oc) && n < |calls| && Usable(calls[n])
    requires Routing.Carries(subs, calls[n].ins.value, calls[n].outs.value, subIns, subOuts)
    requires i < |subs| && d < subs[i].outs
    ensures 0 <= c0.inChannel < |subIns[k]| && Engine.PassesChecks(info, NextRun(c0, devs, ff).inChannel)
    ensures var o := NextRun(c0, devs, ff);
      var gain, ch := factor(o.gainDb), OutSum(subs, i) + d;
      var m := Routing.RowsOfCall(Engine.RouteOf(info, o.inChannel, gain), calls, n);
      && |m| == OutSum(subs, |subs|) && ch < |m|
      && m[ch] == Routing.DeviceRow(subIns, subOuts, k, c0.inChannel, b, gain, i, d)
  {
    SameDevicesOfHal(hal, devs);
    SetupValidated(c0, devs);
    var c := SetupSettings(c0, devs);
    assert FirstWithUid(devs, c.interfaceUid).value in devs && FirstWithUid(devs, c.blackholeUid).value in devs;
    RunSeesSetup(c, ff);
    var o := NextRun(c0, devs, ff);
    Routing.EveryCallbackRoutes(subs, c.interfaceUid, c.blackholeUid, k, b, o.inChannel, factor(o.gainDb),
                                info, calls, ic, oc, n, subIns, subOuts, i, d);
  }
}
