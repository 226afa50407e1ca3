/** The engine's bounded readiness wait and its range checks. */
module Engine {
  import opened Numbers
  import opened Aggregate
  import opened Callback
  import opened CStrings

  const POLL_INTERVAL_MS: int := 500
  const DEFAULT_TIMEOUT_S: int := 8

  function EffectiveTimeout(timeout: int): (t: int)
    ensures t > 0
  {
    if timeout > 0 then timeout else DEFAULT_TIMEOUT_S
  }

  /** What the k-th poll sees: the stop flag and the two device lookups. */
  datatype Poll = Poll(stop: bool, iface: bool, bh: bool)

  predicate Ready(p: Poll) {
    p.iface && p.bh
  }

  /** The poll at which the wait ends: stopped, ready, or the counted time used up. */
  predicate Ends(polls: nat -> Poll, timeout: int, k: nat) {
    polls(k).stop || Ready(polls(k)) || POLL_INTERVAL_MS * k >= timeout * 1000
  }

  /** What one poll looks at: the stop flag and what the two device lookups enumerate. */
  datatype Look = Look(stop: bool, first: Option<seq<Device>>, second: Option<seq<Device>>)

  function PollOf(look: Look, iface: string, bh: string): Poll {
    Poll(look.stop, Resolved(look.first, iface) != DEVICE_UNKNOWN, Resolved(look.second, bh) != DEVICE_UNKNOWN)
  }

  function Polls(looks: nat -> Look, iface: string, bh: string): nat -> Poll {
    (k: nat) => PollOf(looks(k), iface, bh)
  }

  /** A poll is ready exactly if both UIDs are not empty and both enumerations show a device with them,
      the first such one having a known id. */
  lemma ReadyExact(look: Look, iface: string, bh: string)
    ensures Ready(PollOf(look, iface, bh)) <==>
      && iface != "" && look.first.Some? && FirstWithUid(look.first.value, iface).Some?
      && FirstWithUid(look.first.value, iface).value.id != 0
      && bh != "" && look.second.Some? && FirstWithUid(look.second.value, bh).Some?
      && FirstWithUid(look.second.value, bh).value.id != 0
  {
  }

  /** A wait that is neither stopped nor sees both devices gives up at the poll after twice as many
      sleeps as the timeout has seconds, 16 for a timeout that is not positive; one that is stopped or
      sees them at an earlier poll ends there. */
  lemma WaitEndsExactly(polls: nat -> Poll, timeout: int, k: nat)
    requires forall j: nat :: j < k ==> !polls(j).stop && !(polls(j).iface && polls(j).bh)
    requires k <= if timeout > 0 then 2 * timeout else 16
    ensures forall j: nat :: j < k ==> !Ends(polls, EffectiveTimeout(timeout), j)
    ensures Ends(polls, EffectiveTimeout(timeout), k) <==>
      polls(k).stop || (polls(k).iface && polls(k).bh) || k == if timeout > 0 then 2 * timeout else 16
  {
  }

  /** wait_for_devices. It ends at the first poll that ends it, having counted 500 ms for each of
      the sleeps before; 0 means that both lookups of that very poll succeeded, and giving up on
      time means that at least the full timeout was counted. */
  method WaitForDevices(looks: nat -> Look, iface: string, bh: string, timeout: int)
    returns (rc: int, sleeps: nat, waited: int)
    requires timeout * 1000 + POLL_INTERVAL_MS < TWO_31
    ensures waited == POLL_INTERVAL_MS * sleeps
    ensures var polls := Polls(looks, iface, bh);
      && Ends(polls, timeout, sleeps) && (forall j: nat :: j < sleeps ==> !Ends(polls, timeout, j))
      && rc == (if !polls(sleeps).stop && Ready(polls(sleeps)) then 0 else 1)
      && (rc == 1 && !polls(sleeps).stop ==> waited >= timeout * 1000)
    ensures timeout >= 0 ==> sleeps + 1 <= 2 * timeout + 1
    ensures timeout < 0 ==> sleeps == 0
  {
    waited, sleeps := 0, 0;
    ghost var polls := Polls(looks, iface, bh);
    while true
      invariant waited == POLL_INTERVAL_MS * sleeps
      invariant forall j: nat :: j < sleeps ==> !Ends(polls, timeout, j)
      invariant sleeps > 0 ==> waited < timeout * 1000 + POLL_INTERVAL_MS
      decreases timeout * 1000 - waited
    {
      var look := looks(sleeps);
      if look.stop {
        return 1, sleeps, waited;
      }
      var i := ResolveDeviceByUid(look.first, iface);
      var b := ResolveDeviceByUid(look.second, bh);
      if i != DEVICE_UNKNOWN && b != DEVICE_UNKNOWN {
        return 0, sleeps, waited;
      }
      if waited >= timeout * 1000 {
        return 1, sleeps, waited;
      }
      waited := waited + POLL_INTERVAL_MS;
      sleeps := sleeps + 1;
    }
  }

  // ---- range checks -------------------------------------------------------

  /** What xb_aggregate_create reports: the aggregate's input total and the captured offsets. */
  datatype Info = Info(inChannels: uint32, offsets: Offsets)

  /** The global source index: the interface's offset plus the requested channel, in 32 bits. */
  function SourceChannel(info: Info, inChannel: uint32): uint32 {
    Add32(info.offsets.ifaceIn, inChannel)
  }

  predicate PassesChecks(info: Info, inChannel: uint32) {
    SourceChannel(info, inChannel) < info.inChannels && info.offsets.bhChannels >= 2
  }

  function RouteOf(info: Info, inChannel: uint32, gain: real): Route {
    Route(gain, SourceChannel(info, inChannel), info.offsets.bhOut, Add32(info.offsets.bhOut, 1))
  }

  /** With the offsets the sub-device list gives, the two checks accept exactly the requests whose
      source index is below the input total and whose two destinations are both BlackHole's own. */
  lemma ChecksExact(subs: seq<SubDevice>, b: nat, info: Info, inChannel: uint32, gain: real)
    requires b < |subs| && OutSum(subs, |subs|) < TWO_32
    requires info.inChannels == InSum(subs, |subs|)
    requires info.offsets.bhOut == OutSum(subs, b) && info.offsets.bhChannels == subs[b].outs
    ensures var r := RouteOf(info, inChannel, gain);
      PassesChecks(info, inChannel) <==>
        r.src < InSum(subs, |subs|) && OutSum(subs, b) == r.dstL < r.dstR == r.dstL + 1 < OutSum(subs, b + 1)
  {
    SumsGrow(subs, b + 1, |subs|);
  }

  /** The engine checks the source index only against the aggregate's total. A channel that passes
      belongs to the interface exactly when it is below the interface's own input count, even if
      the 32-bit addition wraps. */
  lemma AcceptedSourceIsInterfaces(subs: seq<SubDevice>, k: nat, info: Info, inChannel: uint32)
    requires k < |subs| && InSum(subs, |subs|) < TWO_32
    requires info.inChannels == InSum(subs, |subs|) && info.offsets.ifaceIn == InSum(subs, k)
    requires PassesChecks(info, inChannel)
    ensures OwnsInput(subs, k, SourceChannel(info, inChannel)) <==> inChannel < subs[k].ins
  {
    SumsGrow(subs, k + 1, |subs|);
  }

  /** An accepted channel that is not the interface's: with two inputs on each device, channel 2
      passes the check and is BlackHole's own first input. */
  lemma AcceptsForeignChannel()
    ensures var subs := [SubDevice(Some("mic"), 2, 2), SubDevice(Some("bh"), 2, 2)];
      var info := Info(4, Offsets(0, 2, 2));
      && Captured(Offsets(0, 0, 0), subs, 2, "mic", "bh") == info.offsets
      && InSum(subs, 2) == info.inChannels
      && PassesChecks(info, 2) && OwnsInput(subs, 1, SourceChannel(info, 2))
  {
    var subs := [SubDevice(Some("mic"), 2, 2), SubDevice(Some("bh"), 2, 2)];
    assert InSum(subs, 1) == 2 && InSum(subs, 2) == 4 && OutSum(subs, 1) == 2;
    assert LastWith(subs, 1, "mic") == Some(0);
    assert "mic" != "bh" by { assert |"mic"| != |"bh"|; }
  }
}
