/** xb_engine_run as interleaved steps of the main thread, the IOProc callback, the signal handler
    and the HAL, over any number of runs. */
module Lifecycle {
  import opened CStrings
  import opened Numbers
  import opened Buffers
  import opened Callback
  import opened Aggregate
  import opened Engine

  /** The HAL's devices: id to UID. */
  type Table = map<nat, string>

  predicate Ours(t: Table, id: nat) {
    id in t && t[id] == AGGREGATE_UID
  }

  predicate NoneListed(t: Table) {
    forall id :: id in t ==> t[id] != AGGREGATE_UID
  }

  /** The channel counts of the two lists a callback was given. */
  datatype Layout = Layout(ins: seq<nat>, outs: seq<nat>)

  /** A needed channel is not in the layout. */
  predicate Missing(l: Layout, r: Route) {
    r.src >= Total(l.ins) || r.dstL >= Total(l.outs) || r.dstR >= Total(l.outs)
  }

  /** Where the main thread stands in xb_engine_run. */
  datatype Pc =
    | Waiting(waited: int) | WaitFailed
    | FindStale | DestroyStale(stale: nat) | CreateDevice | ComputeLayout
    | CheckRanges(info: Info) | InstallProc(info: Info) | StartDevice
    | LoopTest | LoopBody
    | StopDevice(rc: int) | RemoveProc(rc: int) | DestroyDevice(rc: int)
    | Exited(rc: int) | Killed

  /** Where the callback stands in xb_ioproc, one shared access a step. */
  datatype CbPc =
    | Idle
    | TestResolved(l: Layout) | LocateSrc(l: Layout) | LocateLeft(l: Layout) | LocateRight(l: Layout)
    | Decide(l: Layout) | StoreResolved(l: Layout)
    | TestFailed(l: Layout) | Silencing(l: Layout) | Copying(l: Layout)

  datatype Params = Params(inChannel: uint32, gain: real, timeout: int)

  /** xb_ioproc_ctx: what is routed, and what the callback caches. */
  datatype Ctx = Ctx(route: Route, cache: Cache)

  /** What happened so far in this run: the layout of the first callback with lists, the description
      of the aggregate that passed the range checks, whether a stale aggregate was looked for and the
      main loop entered, and which of the HAL calls of the teardown failed. */
  datatype History = History(
    first: Option<Layout>, info: Option<Info>, reached: bool, looped: bool, failureExit: bool,
    stopFailed: bool, removeFailed: bool, dropFailed: bool)

  /** `clean`: over all runs, no lookup has missed a stale aggregate and no destroying of one has
      failed. */
  datatype State = State(
    params: Params, pc: Pc, stop: bool, table: Table, agg: nat, proc: bool, started: bool,
    ctx: Ctx, cb: CbPc, history: History, clean: bool)

  const NO_ROUTE: Route := Route(0.0, 0, 0, 0)

  function FreshCtx(r: Route): Ctx {
    Ctx(r, FRESH)
  }

  function Begin(p: Params, t: Table, clean: bool): State {
    State(p, Waiting(0), false, t, DEVICE_UNKNOWN, false, false, FreshCtx(NO_ROUTE), Idle,
          History(None, None, false, false, false, false, false, false), clean)
  }

  // ---- the main thread ----------------------------------------------------

  /** How the HAL answers the call a main step makes. */
  datatype Choice = Choice(ok: bool, id: nat, info: Info)

  /** A successful lookup finds a device of ours if there is one; a created device is new; stopping
      and removing the callback succeed only once no callback is running. */
  ghost predicate MainEnabled(s: State, ch: Choice) {
    match s.pc
    case FindStale => ch.ok && (exists id :: Ours(s.table, id)) ==> Ours(s.table, ch.id)
    case CreateDevice => ch.ok ==> ch.id != DEVICE_UNKNOWN && ch.id !in s.table
    case StopDevice(_) => ch.ok ==> s.cb.Idle?
    case RemoveProc(_) => ch.ok ==> s.cb.Idle?
    case Exited(_) => false
    case Killed => false
    case _ => true
  }

  predicate BeforeCreate(pc: Pc) {
    pc.Waiting? || pc.WaitFailed? || pc.FindStale? || pc.DestroyStale? || pc.CreateDevice?
  }

  predicate SettingUp(pc: Pc) {
    pc.ComputeLayout? || pc.CheckRanges? || pc.InstallProc? || pc.StartDevice?
  }

  /** A step of the readiness wait or of creating the device. */
  function EarlyStep(s: State, ch: Choice): State
    requires BeforeCreate(s.pc)
  {
    match s.pc
    case Waiting(waited) =>
      if s.stop then s.(pc := WaitFailed)
      else if ch.ok then s.(pc := FindStale)
      else if waited >= EffectiveTimeout(s.params.timeout) * 1000 then s.(pc := WaitFailed)
      else s.(pc := Waiting(waited + POLL_INTERVAL_MS))
    case WaitFailed => s.(pc := Exited(if s.stop then 0 else 1))
    case FindStale =>
      s.(history := s.history.(reached := true), clean := s.clean && (ch.ok || NoneListed(s.table)),
         pc := if ch.ok && Ours(s.table, ch.id) then DestroyStale(ch.id) else CreateDevice)
    case DestroyStale(stale) =>
      s.(pc := CreateDevice, table := if ch.ok then s.table - {stale} else s.table, clean := s.clean && ch.ok)
    case CreateDevice =>
      if ch.ok then s.(pc := ComputeLayout, agg := ch.id, table := s.table[ch.id := AGGREGATE_UID])
      else s.(pc := Exited(1))
  }

  /** A step from the new device to its start. */
  function SetupStep(s: State, ch: Choice): State
    requires SettingUp(s.pc)
  {
    match s.pc
    case ComputeLayout => s.(pc := if ch.ok then CheckRanges(ch.info) else DestroyDevice(1))
    case CheckRanges(info) =>
      s.(pc := if PassesChecks(info, s.params.inChannel) then InstallProc(info) else DestroyDevice(1))
    case InstallProc(info) =>
      s.(ctx := FreshCtx(RouteOf(info, s.params.inChannel, s.params.gain)),
         history := s.history.(info := Some(info)),
         proc := ch.ok, pc := if ch.ok then StartDevice else DestroyDevice(1))
    case StartDevice =>
      s.(started := ch.ok, history := s.history.(looped := ch.ok), pc := if ch.ok then LoopTest else RemoveProc(1))
  }

  /** A step of the main loop or of the teardown. */
  function LateStep(s: State, ch: Choice): State
    requires !BeforeCreate(s.pc) && !SettingUp(s.pc)
  {
    match s.pc
    case LoopTest => s.(pc := if s.stop then StopDevice(0) else LoopBody)
    case LoopBody =>
      if s.ctx.cache.failed then s.(pc := StopDevice(1), history := s.history.(failureExit := true)) else s.(pc := LoopTest)
    case StopDevice(rc) =>
      s.(pc := RemoveProc(rc), started := s.started && !ch.ok, history := s.history.(stopFailed := !ch.ok))
    case RemoveProc(rc) =>
      s.(pc := DestroyDevice(rc), proc := s.proc && !ch.ok, started := s.started && !ch.ok,
         history := s.history.(removeFailed := !ch.ok))
    case DestroyDevice(rc) =>
      s.(pc := Exited(rc), table := if ch.ok then s.table - {s.agg} else s.table,
         history := s.history.(dropFailed := !ch.ok))
    case Exited(_) => s
    case Killed => s
  }

  function MainStep(s: State, ch: Choice): State {
    if BeforeCreate(s.pc) then EarlyStep(s, ch)
    else if SettingUp(s.pc) then SetupStep(s, ch)
    else LateStep(s, ch)
  }

  // ---- the callback -------------------------------------------------------

  function CacheStep(r: Route, c: Cache, cb: CbPc): (Cache, CbPc) {
    match cb
    case Idle => (c, cb)
    case TestResolved(l) => (c, if c.resolved then TestFailed(l) else LocateSrc(l))
    case LocateSrc(l) => (c.(src := Locate(l.ins, r.src)), LocateLeft(l))
    case LocateLeft(l) => (c.(dl := Locate(l.outs, r.dstL)), LocateRight(l))
    case LocateRight(l) => (c.(dr := Locate(l.outs, r.dstR)), Decide(l))
    case Decide(l) =>
      if c.src.buffer < 0 || c.dl.buffer < 0 || c.dr.buffer < 0 then (c.(failed := true), StoreResolved(l))
      else (c.(resolved := true), TestFailed(l))
    case StoreResolved(l) => (c.(resolved := true), Silencing(l))
    case TestFailed(l) => (c, if c.failed then Silencing(l) else Copying(l))
    case Silencing(_) => (c, Idle)
    case Copying(_) => (c, Idle)
  }

  function CallbackStep(s: State): State {
    var (c, cb) := CacheStep(s.ctx.route, s.ctx.cache, s.cb);
    s.(ctx := s.ctx.(cache := c), cb := cb)
  }

  // ---- all steps ----------------------------------------------------------

  datatype Action =
    | Main(choice: Choice)
    | Invoke(layout: Layout)
    | Callback
    | Signal
    | Hotplug(table: Table)
    | Kill
    | NewRun(params: Params)

  predicate Running(s: State) {
    !s.pc.Exited? && !s.pc.Killed?
  }

  /** The HAL calls back only a started callback that is installed on an existing device, one call
      at a time; devices other than ours come and go at will. */
  ghost predicate Enabled(s: State, a: Action) {
    match a
    case Main(ch) => MainEnabled(s, ch)
    case Invoke(_) => s.cb.Idle? && s.proc && s.started && Ours(s.table, s.agg)
    case Callback => !s.cb.Idle?
    case Signal => Running(s)
    case Hotplug(t) => forall id :: Ours(s.table, id) <==> Ours(t, id)
    case Kill => Running(s)
    case NewRun(_) => !Running(s)
  }

  function Step(s: State, a: Action): State {
    match a
    case Main(ch) => MainStep(s, ch)
    case Invoke(l) =>
      s.(cb := TestResolved(l), history := s.history.(first := if s.history.first.None? then Some(l) else s.history.first))
    case Callback => CallbackStep(s)
    case Signal => s.(stop := true)
    case Hotplug(t) => s.(table := t)
    case Kill => s.(pc := Killed, cb := Idle, proc := false, started := false)
    case NewRun(p) => Begin(p, s.table, s.clean)
  }

  ghost predicate ValidRun(s: State, acts: seq<Action>)
    decreases |acts|
  {
    acts == [] || (Enabled(s, acts[0]) && ValidRun(Step(s, acts[0]), acts[1..]))
  }

  function After(s: State, acts: seq<Action>): State
    decreases |acts|
  {
    if acts == [] then s else After(Step(s, acts[0]), acts[1..])
  }

  // ---- invariants ---------------------------------------------------------

  predicate SrcDone(r: Route, c: Cache, l: Layout) { c.src == Locate(l.ins, r.src) }
  predicate LeftDone(r: Route, c: Cache, l: Layout) { c.dl == Locate(l.outs, r.dstL) }
  predicate RightDone(r: Route, c: Cache, l: Layout) { c.dr == Locate(l.outs, r.dstR) }
  predicate AllDone(r: Route, c: Cache, l: Layout) { SrcDone(r, c, l) && LeftDone(r, c, l) && RightDone(r, c, l) }

  /** The interleaving invariant of the cached locations and their two flags. */
  predicate CacheInv(r: Route, c: Cache, cb: CbPc, first: Option<Layout>) {
    && (c.resolved ==> first.Some? && AllDone(r, c, first.value) && (c.failed <==> Missing(first.value, r)))
    && (c.failed ==> first.Some? && Missing(first.value, r))
    && (!c.resolved && cb.Idle? ==> first.None? && !c.failed)
    && (!cb.Idle? ==> first.Some?)
    && match cb
       case Idle => true
       case TestResolved(l) => !c.resolved ==> first == Some(l) && !c.failed
       case LocateSrc(l) => !c.resolved && !c.failed && first == Some(l)
       case LocateLeft(l) => !c.resolved && !c.failed && first == Some(l) && SrcDone(r, c, l)
       case LocateRight(l) => !c.resolved && !c.failed && first == Some(l) && SrcDone(r, c, l) && LeftDone(r, c, l)
       case Decide(l) => !c.resolved && !c.failed && first == Some(l) && AllDone(r, c, l)
       case StoreResolved(l) => !c.resolved && c.failed && first == Some(l) && AllDone(r, c, l)
       case TestFailed(_) => c.resolved
       case Silencing(_) => c.resolved && c.failed
       case Copying(_) => c.resolved && !c.failed
  }

  /** Nothing of this run exists yet. */
  predicate Untouched(s: State) {
    && s.agg == DEVICE_UNKNOWN && !s.proc && !s.started && s.cb.Idle?
    && s.ctx == FreshCtx(NO_ROUTE) && s.history.first.None? && !s.history.looped
    && !s.history.failureExit && !s.history.stopFailed && !s.history.removeFailed && !s.history.dropFailed
  }

  predicate Holding(s: State) {
    s.agg != DEVICE_UNKNOWN && Ours(s.table, s.agg) && !s.history.dropFailed && s.history.reached
  }

  predicate NoCallback(s: State) {
    !s.proc && !s.started && s.cb.Idle? && !s.ctx.cache.resolved && !s.ctx.cache.failed && s.history.first.None?
    && !s.history.looped && !s.history.failureExit && !s.history.stopFailed && !s.history.removeFailed
  }

  /** Result codes: out of the main loop 1 exactly by the failure exit, which needs a failed
      resolution, and 0 only by the stop flag; 1 if the setup failed; and out of the readiness wait 0
      exactly by the stop flag. */
  predicate CodeInv(s: State, rc: int) {
    && (rc == 0 || rc == 1) && (rc == 0 ==> s.stop)
    && (s.history.failureExit ==> s.ctx.cache.failed && s.history.looped)
    && (rc == 0 <==> if s.history.looped then !s.history.failureExit else !s.history.reached && s.stop)
  }

  predicate TeardownInv(s: State) {
    && (s.history.removeFailed <==> s.proc) && (s.started ==> s.history.stopFailed && s.history.removeFailed)
    && (!s.cb.Idle? ==> s.started)
  }

  predicate InLoop(s: State) {
    Holding(s) && s.proc && s.started && s.history.looped && !s.history.stopFailed && !s.history.removeFailed
  }

  predicate MainInv(s: State) {
    match s.pc
    case Waiting(_) => Untouched(s) && !s.history.reached
    case WaitFailed => Untouched(s) && !s.history.reached
    case FindStale => Untouched(s)
    case DestroyStale(_) => Untouched(s) && s.history.reached
    case CreateDevice => Untouched(s) && s.history.reached
    case ComputeLayout => Holding(s) && NoCallback(s)
    case CheckRanges(_) => Holding(s) && NoCallback(s)
    case InstallProc(_) => Holding(s) && NoCallback(s)
    case StartDevice => Holding(s) && NoCallback(s.(proc := false)) && s.proc
    case LoopTest => InLoop(s) && !s.history.failureExit
    case LoopBody => InLoop(s) && !s.history.failureExit
    case StopDevice(rc) => InLoop(s) && CodeInv(s, rc)
    case RemoveProc(rc) =>
      && Holding(s) && s.proc && !s.history.removeFailed && CodeInv(s, rc)
      && (s.started ==> s.history.stopFailed) && (!s.cb.Idle? ==> s.started)
    case DestroyDevice(rc) => Holding(s) && TeardownInv(s) && CodeInv(s, rc)
    case Exited(rc) =>
      && CodeInv(s, rc) && TeardownInv(s)
      && (s.agg != DEVICE_UNKNOWN ==> s.history.reached && (Ours(s.table, s.agg) <==> s.history.dropFailed))
      && (s.agg == DEVICE_UNKNOWN ==> !s.history.dropFailed)
    case Killed => !s.proc && !s.started && s.cb.Idle?
  }

  ghost predicate AtMostOneOurs(t: Table) {
    forall i, j :: Ours(t, i) && Ours(t, j) ==> i == j
  }

  ghost predicate NoneOurs(t: Table) {
    forall i :: !Ours(t, i)
  }

  /** Over a clean history at most one device is ours, none when one is created, and after a run
      that came as far as looking for a stale one none is left, unless its own destroy call failed. */
  ghost predicate SingleInv(s: State) {
    && AtMostOneOurs(s.table)
    && (s.pc.DestroyStale? ==> Ours(s.table, s.pc.stale))
    && (s.pc.CreateDevice? ==> NoneOurs(s.table))
    && (s.pc.Exited? && s.history.reached && !s.history.dropFailed ==> NoneOurs(s.table))
  }

  /** The callback's route was derived from a description that passed the range checks. */
  predicate RouteInv(s: State) {
    && (s.pc.InstallProc? ==> PassesChecks(s.pc.info, s.params.inChannel))
    && (s.proc || s.history.first.Some? ==> s.history.info.Some?)
    && (s.history.info.Some? ==>
          && PassesChecks(s.history.info.value, s.params.inChannel)
          && s.ctx.route == RouteOf(s.history.info.value, s.params.inChannel, s.params.gain))
  }

  ghost predicate Inv(s: State) {
    && (!s.pc.Killed? ==> CacheInv(s.ctx.route, s.ctx.cache, s.cb, s.history.first))
    && MainInv(s)
    && RouteInv(s)
    && (s.clean ==> SingleInv(s))
  }

  lemma BeginInv(p: Params, t: Table, clean: bool)
    requires clean ==> AtMostOneOurs(t)
    ensures Inv(Begin(p, t, clean))
  {
  }

  lemma CacheStepKeepsInv(r: Route, c: Cache, cb: CbPc, first: Option<Layout>)
    requires CacheInv(r, c, cb, first) && !cb.Idle?
    ensures var (c', cb') := CacheStep(r, c, cb);
      && CacheInv(r, c', cb', first)
      && (c.failed ==> c'.failed) && (c.resolved ==> c'.resolved)
  {
    var l := first.value;
    LocateSound(l.ins, r.src);
    LocateSound(l.outs, r.dstL);
    LocateSound(l.outs, r.dstR);
  }

  lemma CallbackKeepsInv(s: State)
    requires Inv(s) && !s.cb.Idle?
    ensures Inv(CallbackStep(s))
  {
    CacheStepKeepsInv(s.ctx.route, s.ctx.cache, s.cb, s.history.first);
  }

  lemma InvokeKeepsInv(s: State, l: Layout)
    requires Inv(s) && Enabled(s, Invoke(l))
    ensures Inv(Step(s, Invoke(l)))
  {
  }

  /** Only installing the callback touches what the callback uses. */
  predicate SameCallbackState(s: State, s': State) {
    s'.ctx == s.ctx && s'.cb == s.cb && s'.history.first == s.history.first
  }

  lemma MainKeepsMainEarly(s: State, ch: Choice)
    requires Inv(s) && MainEnabled(s, ch) && BeforeCreate(s.pc)
    ensures MainInv(MainStep(s, ch)) && SameCallbackState(s, MainStep(s, ch))
  {
  }

  lemma MainKeepsMainSetup(s: State, ch: Choice)
    requires Inv(s) && MainEnabled(s, ch) && SettingUp(s.pc)
    ensures MainInv(MainStep(s, ch)) && (s.pc.InstallProc? || SameCallbackState(s, MainStep(s, ch)))
  {
  }

  lemma MainKeepsMainLoop(s: State, ch: Choice)
    requires Inv(s) && (s.pc.LoopTest? || s.pc.LoopBody?)
    ensures MainInv(MainStep(s, ch)) && SameCallbackState(s, MainStep(s, ch))
  {
  }

  lemma MainKeepsMainLate(s: State, ch: Choice)
    requires Inv(s) && MainEnabled(s, ch) && (s.pc.StopDevice? || s.pc.RemoveProc? || s.pc.DestroyDevice?)
    ensures MainInv(MainStep(s, ch)) && SameCallbackState(s, MainStep(s, ch))
  {
    match s.pc
    case StopDevice(_) => StopKeepsMain(s, ch);
    case RemoveProc(_) => RemoveKeepsMain(s, ch);
    case DestroyDevice(_) => DestroyKeepsMain(s, ch);
  }

  lemma StopKeepsMain(s: State, ch: Choice)
    requires MainInv(s) && MainEnabled(s, ch) && s.pc.StopDevice?
    ensures MainInv(LateStep(s, ch)) && SameCallbackState(s, LateStep(s, ch))
  {
  }

  lemma RemoveKeepsMain(s: State, ch: Choice)
    requires MainInv(s) && MainEnabled(s, ch) && s.pc.RemoveProc?
    ensures MainInv(LateStep(s, ch)) && SameCallbackState(s, LateStep(s, ch))
  {
  }

  lemma DestroyKeepsMain(s: State, ch: Choice)
    requires MainInv(s) && MainEnabled(s, ch) && s.pc.DestroyDevice?
    ensures MainInv(LateStep(s, ch)) && SameCallbackState(s, LateStep(s, ch))
  {
  }

  lemma MainKeepsMain(s: State, ch: Choice)
    requires Inv(s) && MainEnabled(s, ch)
    ensures MainInv(MainStep(s, ch)) && (s.pc.InstallProc? || SameCallbackState(s, MainStep(s, ch)))
  {
    if BeforeCreate(s.pc) { MainKeepsMainEarly(s, ch); }
    else if SettingUp(s.pc) { MainKeepsMainSetup(s, ch); }
    else if s.pc.LoopTest? || s.pc.LoopBody? { MainKeepsMainLoop(s, ch); }
    else { MainKeepsMainLate(s, ch); }
  }

  lemma MainKeepsCache(s: State, ch: Choice)
    requires Inv(s) && MainEnabled(s, ch)
    ensures var s' := MainStep(s, ch); s'.pc.Killed? || CacheInv(s'.ctx.route, s'.ctx.cache, s'.cb, s'.history.first)
  {
    MainKeepsMain(s, ch);
    if s.pc.InstallProc? {
      assert s.cb.Idle? && s.history.first.None?;
    }
  }

  /** Nothing that `RouteInv` speaks of changes, but the callback may go. */
  predicate KeepsRoute(s: State, s': State) {
    && s'.ctx == s.ctx && s'.params == s.params && (s'.proc ==> s.proc)
    && s'.history.info == s.history.info && s'.history.first == s.history.first && !s'.pc.InstallProc?
  }

  lemma EarlyKeepsRoute(s: State, ch: Choice)
    requires BeforeCreate(s.pc)
    ensures KeepsRoute(s, EarlyStep(s, ch))
  {
  }

  lemma SetupKeepsRoute(s: State, ch: Choice)
    requires RouteInv(s) && SettingUp(s.pc)
    ensures RouteInv(SetupStep(s, ch))
  {
  }

  lemma LateKeepsRoute(s: State, ch: Choice)
    requires !BeforeCreate(s.pc) && !SettingUp(s.pc)
    ensures KeepsRoute(s, LateStep(s, ch))
  {
    match s.pc
    case LoopTest =>
    case LoopBody =>
    case StopDevice(_) =>
    case RemoveProc(_) =>
    case DestroyDevice(_) =>
    case Exited(_) =>
    case Killed =>
  }

  lemma MainKeepsRoute(s: State, ch: Choice)
    requires RouteInv(s)
    ensures RouteInv(MainStep(s, ch))
  {
    if BeforeCreate(s.pc) { EarlyKeepsRoute(s, ch); }
    else if SettingUp(s.pc) { SetupKeepsRoute(s, ch); }
    else { LateKeepsRoute(s, ch); }
  }

  /** Which of our devices are left when one is removed or a new one joins. */
  lemma OursRemoved(t: Table, t': Table, id: nat)
    requires t' == t - {id}
    ensures forall i :: Ours(t', i) <==> Ours(t, i) && i != id
  {
  }

  lemma OursAdded(t: Table, t': Table, id: nat)
    requires t' == t[id := AGGREGATE_UID]
    ensures forall i :: Ours(t', i) <==> i == id || Ours(t, i)
  {
  }

  lemma RemovedTheOne(t: Table, t': Table, id: nat)
    requires AtMostOneOurs(t) && Ours(t, id) && t' == t - {id}
    ensures NoneOurs(t')
  {
    OursRemoved(t, t', id);
  }

  lemma AddedToNone(t: Table, t': Table, id: nat)
    requires NoneOurs(t) && t' == t[id := AGGREGATE_UID]
    ensures AtMostOneOurs(t')
  {
    OursAdded(t, t', id);
  }

  lemma MainKeepsSingle(s: State, ch: Choice)
    requires Inv(s) && MainEnabled(s, ch) && MainStep(s, ch).clean
    ensures SingleInv(MainStep(s, ch))
  {
    var s' := MainStep(s, ch);
    if s.pc.FindStale? {
      FindStaleKeepsSingle(s, ch);
    } else if s.pc.DestroyStale? {
      RemovedTheOne(s.table, s'.table, s.pc.stale);
    } else if s.pc.CreateDevice? {
      if ch.ok { AddedToNone(s.table, s'.table, ch.id); }
    } else if s.pc.DestroyDevice? {
      if ch.ok { RemovedTheOne(s.table, s'.table, s.agg); }
    } else {
      OtherStepsKeepTable(s, ch);
    }
  }

  predicate TouchesTable(pc: Pc) {
    pc.FindStale? || pc.DestroyStale? || pc.CreateDevice? || pc.DestroyDevice?
  }

  /** The step changes neither the table nor what is known of it, and does not return after a lookup. */
  predicate KeepsTable(s: State, s': State) {
    && s'.table == s.table && s'.clean == s.clean && s'.history.reached == s.history.reached
    && !s'.pc.DestroyStale? && !s'.pc.CreateDevice? && (s'.pc.Exited? ==> s.pc.WaitFailed?)
  }

  lemma WaitKeepsTable(s: State, ch: Choice)
    requires s.pc.Waiting? || s.pc.WaitFailed?
    ensures KeepsTable(s, EarlyStep(s, ch))
  {
  }

  lemma SetupKeepsTable(s: State, ch: Choice)
    requires SettingUp(s.pc)
    ensures KeepsTable(s, SetupStep(s, ch))
  {
  }

  lemma LateKeepsTable(s: State, ch: Choice)
    requires s.pc.LoopTest? || s.pc.LoopBody? || s.pc.StopDevice? || s.pc.RemoveProc?
    ensures KeepsTable(s, LateStep(s, ch))
  {
  }

  lemma OtherStepsKeepTable(s: State, ch: Choice)
    requires !TouchesTable(s.pc) && MainEnabled(s, ch)
    ensures KeepsTable(s, MainStep(s, ch))
  {
    if BeforeCreate(s.pc) { WaitKeepsTable(s, ch); }
    else if SettingUp(s.pc) { SetupKeepsTable(s, ch); }
    else { LateKeepsTable(s, ch); }
  }

  lemma FindStaleKeepsSingle(s: State, ch: Choice)
    requires s.pc.FindStale? && MainEnabled(s, ch) && s.clean && SingleInv(s) && MainStep(s, ch).clean
    ensures SingleInv(MainStep(s, ch))
  {
    if ch.ok {
      assert (exists id :: Ours(s.table, id)) ==> Ours(s.table, ch.id);
    }
  }

  /** What the invariant says of the table depends on our devices alone. */
  lemma HotplugKeepsInv(s: State, t: Table)
    requires Inv(s) && Enabled(s, Hotplug(t))
    ensures Inv(Step(s, Hotplug(t)))
  {
    HotplugKeepsMain(s, t);
    if s.clean { HotplugKeepsSingle(s, t); }
  }

  lemma HotplugKeepsMain(s: State, t: Table)
    requires MainInv(s) && Ours(s.table, s.agg) == Ours(t, s.agg)
    ensures MainInv(s.(table := t))
  {
  }

  lemma HotplugKeepsSingle(s: State, t: Table)
    requires SingleInv(s) && forall id :: Ours(s.table, id) <==> Ours(t, id)
    ensures SingleInv(s.(table := t))
  {
  }

  lemma SignalKeepsInv(s: State)
    requires Inv(s) && Running(s)
    ensures Inv(s.(stop := true))
  {
  }

  lemma KillKeepsInv(s: State)
    requires Inv(s)
    ensures Inv(s.(pc := Killed, cb := Idle, proc := false, started := false))
  {
  }

  lemma MainKeepsInv(s: State, ch: Choice)
    requires Inv(s) && MainEnabled(s, ch)
    ensures Inv(MainStep(s, ch))
  {
    MainKeepsCache(s, ch);
    MainKeepsMain(s, ch);
    MainKeepsRoute(s, ch);
    if MainStep(s, ch).clean { MainKeepsSingle(s, ch); }
  }

  lemma StepKeepsInv(s: State, a: Action)
    requires Inv(s) && Enabled(s, a)
    ensures Inv(Step(s, a))
  {
    match a
    case Main(ch) => MainKeepsInv(s, ch);
    case Invoke(l) => InvokeKeepsInv(s, l);
    case Callback => CallbackKeepsInv(s);
    case Signal => SignalKeepsInv(s);
    case Hotplug(t) => HotplugKeepsInv(s, t);
    case Kill => KillKeepsInv(s);
    case NewRun(p) => BeginInv(p, s.table, s.clean);
  }

  lemma {:induction false} RunKeepsInv(s: State, acts: seq<Action>)
    requires Inv(s) && ValidRun(s, acts)
    ensures Inv(After(s, acts))
    decreases |acts|
  {
    if acts != [] {
      StepKeepsInv(s, acts[0]);
      RunKeepsInv(Step(s, acts[0]), acts[1..]);
    }
  }

  // ---- what holds of every run --------------------------------------------

  /** The states reachable by any interleaving of any number of runs, from a table with at most one
      aggregate of ours. */
  ghost predicate Occurs(s: State) {
    exists p: Params, t: Table, acts: seq<Action> ::
      AtMostOneOurs(t) && ValidRun(Begin(p, t, true), acts) && s == After(Begin(p, t, true), acts)
  }

  lemma OccursInv(s: State)
    requires Occurs(s)
    ensures Inv(s)
  {
    var p: Params, t: Table, acts: seq<Action> :|
      AtMostOneOurs(t) && ValidRun(Begin(p, t, true), acts) && s == After(Begin(p, t, true), acts);
    BeginInv(p, t, true);
    RunKeepsInv(Begin(p, t, true), acts);
  }

  /** Teardown and exit code. On every return the aggregate this run created is gone exactly if its
      destroy call did not fail, the callback is removed exactly if that call did not fail, and the
      code is 0 only after a signal. */
  lemma TeardownIsComplete(s: State)
    requires Occurs(s) && s.pc.Exited?
    ensures s.agg != DEVICE_UNKNOWN ==> (Ours(s.table, s.agg) <==> s.history.dropFailed)
    ensures s.proc <==> s.history.removeFailed
    ensures s.pc.rc == 0 || s.pc.rc == 1
    ensures s.pc.rc == 0 ==> s.stop
    ensures !(s.history.stopFailed && s.history.removeFailed) ==> s.cb.Idle?
  {
    OccursInv(s);
  }

  /** No callback ever runs on a destroyed aggregate, unless stopping the device and removing the
      callback both failed. */
  lemma CallbackHasDevice(s: State)
    requires Occurs(s) && !s.cb.Idle? && !(s.history.stopFailed && s.history.removeFailed)
    ensures s.proc && s.started && Ours(s.table, s.agg)
  {
    OccursInv(s);
  }

  /** Resolved without failed means three valid locations, those of the first layout; whenever the
      callback copies it relies on them; and the main loop's failure exit was taken only because
      the first layout lacked a needed channel. */
  lemma InterleavingIsSafe(s: State)
    requires Occurs(s) && !s.pc.Killed?
    ensures s.cb.Copying? ==> s.ctx.cache.resolved && !s.ctx.cache.failed
    ensures s.ctx.cache.resolved && !s.ctx.cache.failed ==>
      && ValidLoc(s.ctx.cache.src) && ValidLoc(s.ctx.cache.dl) && ValidLoc(s.ctx.cache.dr)
      && s.history.first.Some? && AllDone(s.ctx.route, s.ctx.cache, s.history.first.value)
    ensures s.pc.Exited? && s.history.failureExit ==> s.history.first.Some? && Missing(s.history.first.value, s.ctx.route)
  {
    OccursInv(s);
    if s.ctx.cache.resolved && !s.ctx.cache.failed {
      var l := s.history.first.value;
      LocateSound(l.ins, s.ctx.route.src);
      LocateSound(l.outs, s.ctx.route.dstL);
      LocateSound(l.outs, s.ctx.route.dstR);
    }
  }

  /** Both flags and the stop flag are up in `s'` if they are in `s`. */
  predicate FlagsKept(s: State, s': State) {
    && (s.stop ==> s'.stop)
    && (s.ctx.cache.resolved ==> s'.ctx.cache.resolved)
    && (s.ctx.cache.failed ==> s'.ctx.cache.failed)
  }

  lemma EarlyKeepsStop(s: State, ch: Choice)
    requires BeforeCreate(s.pc)
    ensures EarlyStep(s, ch).stop == s.stop
  {
  }

  lemma SetupKeepsStop(s: State, ch: Choice)
    requires SettingUp(s.pc)
    ensures SetupStep(s, ch).stop == s.stop
  {
  }

  lemma LateKeepsStop(s: State, ch: Choice)
    requires !BeforeCreate(s.pc) && !SettingUp(s.pc)
    ensures LateStep(s, ch).stop == s.stop
  {
  }

  lemma MainKeepsStop(s: State, ch: Choice)
    ensures MainStep(s, ch).stop == s.stop
  {
    if BeforeCreate(s.pc) { EarlyKeepsStop(s, ch); }
    else if SettingUp(s.pc) { SetupKeepsStop(s, ch); }
    else { LateKeepsStop(s, ch); }
  }

  lemma MainKeepsFlags(s: State, ch: Choice)
    requires Inv(s) && MainEnabled(s, ch)
    ensures FlagsKept(s, MainStep(s, ch))
  {
    MainKeepsStop(s, ch);
    MainKeepsMain(s, ch);
  }

  /** Within a run both flags and the stop flag only ever go up. */
  lemma FlagsOnlyRise(s: State, a: Action)
    requires Occurs(s) && Enabled(s, a) && !a.NewRun?
    ensures FlagsKept(s, Step(s, a))
  {
    OccursInv(s);
    StepKeepsFlags(s, a);
  }

  lemma StepKeepsFlags(s: State, a: Action)
    requires Inv(s) && Enabled(s, a) && !a.NewRun?
    ensures FlagsKept(s, Step(s, a))
  {
    match a
    case Main(ch) => MainKeepsFlags(s, ch);
    case Callback => CallbackKeepsFlags(s);
    case _ =>
  }

  lemma CallbackKeepsFlags(s: State)
    requires Inv(s) && !s.cb.Idle?
    ensures FlagsKept(s, CallbackStep(s))
  {
    CacheStepKeepsInv(s.ctx.route, s.ctx.cache, s.cb, s.history.first);
  }

  /** As long as no lookup has missed a stale aggregate and no destroying of one has failed, at most
      one device of ours exists at any moment of any number of runs, killed ones and ones that failed
      to destroy their own included, and a run that returns after having looked for a stale one leaves
      none unless destroying its own failed. */
  lemma SingleAggregate(s: State)
    requires Occurs(s) && s.clean
    ensures AtMostOneOurs(s.table)
    ensures s.pc.Exited? && s.history.reached && !s.history.dropFailed ==> NoneOurs(s.table)
  {
    OccursInv(s);
  }

  /** The converse, step by step: clearing keeps the history clean exactly if none of ours is left
      when the new one is created ... */
  lemma ClearingIsExact(s: State, ch: Choice)
    requires s.clean && SingleInv(s) && (s.pc.FindStale? || s.pc.DestroyStale?) && MainEnabled(s, ch)
    ensures var s' := MainStep(s, ch); s'.pc.CreateDevice? ==> (s'.clean <==> NoneOurs(s'.table))
  {
    if s.pc.DestroyStale? {
      if ch.ok {
        RemovedTheOne(s.table, MainStep(s, ch).table, s.pc.stale);
      } else {
        assert Ours(MainStep(s, ch).table, s.pc.stale);
      }
    } else if ch.ok {
      assert (exists id :: Ours(s.table, id)) ==> Ours(s.table, ch.id);
    } else {
      NoneListedIsNoneOurs(s.table);
    }
  }

  lemma NoneListedIsNoneOurs(t: Table)
    ensures NoneListed(t) <==> NoneOurs(t)
  {
    if id :| id in t && t[id] == AGGREGATE_UID { assert Ours(t, id); }
  }

  /** ... and a device that is created while one of ours exists is a second one. */
  lemma CreatingIsExact(s: State, ch: Choice)
    requires s.pc.CreateDevice? && MainEnabled(s, ch) && ch.ok
    ensures AtMostOneOurs(MainStep(s, ch).table) <==> NoneOurs(s.table)
  {
    var t' := MainStep(s, ch).table;
    OursAdded(s.table, t', ch.id);
    assert !Ours(s.table, ch.id) && Ours(t', ch.id);
  }

  /** The result code of xb_engine_run, exactly. */
  lemma ResultIsExact(s: State)
    requires Occurs(s) && s.pc.Exited?
    ensures s.pc.rc == 0 || s.pc.rc == 1
    ensures s.history.looped ==> (s.pc.rc == 1 <==> s.history.failureExit) && (s.pc.rc == 0 ==> s.stop)
    ensures !s.history.looped && s.history.reached ==> s.pc.rc == 1
    ensures !s.history.looped && !s.history.reached ==> (s.pc.rc == 0 <==> s.stop)
  {
    OccursInv(s);
  }

  // ---- accepted requests --------------------------------------------------

  /** The callback is given the combined streams of the sub-devices. */
  predicate Matches(l: Layout, subs: seq<SubDevice>) {
    Total(l.ins) == InSum(subs, |subs|) && Total(l.outs) == OutSum(subs, |subs|)
  }

  /** The description is that of the sub-device list, the b-th being BlackHole. */
  predicate Describes(info: Info, subs: seq<SubDevice>, b: nat) {
    && b < |subs| && info.inChannels == InSum(subs, |subs|)
    && info.offsets.bhOut == OutSum(subs, b) && info.offsets.bhChannels == subs[b].outs
  }

  /** A request that passes the range checks misses no channel in a layout that matches. */
  lemma AcceptedMissesNothing(subs: seq<SubDevice>, b: nat, info: Info, inChannel: uint32, gain: real, l: Layout)
    requires Describes(info, subs, b) && OutSum(subs, |subs|) < TWO_32
    requires PassesChecks(info, inChannel) && Matches(l, subs)
    ensures !Missing(l, RouteOf(info, inChannel, gain))
  {
    ChecksExact(subs, b, info, inChannel, gain);
    SumsGrow(subs, b + 1, |subs|);
  }

  /** In no interleaving does the callback of a run fail to resolve, or the main loop take its failure
      exit, if the first layout matches the sub-device list the range checks were made with. */
  lemma MatchingLayoutNeverFails(s: State, subs: seq<SubDevice>, b: nat)
    requires Occurs(s) && !s.pc.Killed? && OutSum(subs, |subs|) < TWO_32
    requires s.history.first.Some? ==> Matches(s.history.first.value, subs)
    requires s.history.info.Some? ==> Describes(s.history.info.value, subs, b)
    ensures !s.ctx.cache.failed && !s.history.failureExit
    ensures s.pc.Exited? && s.history.looped ==> s.pc.rc == 0
  {
    OccursInv(s);
    FailureNeedsMissing(s);
    if s.history.first.Some? {
      RouteOfRun(s);
      AcceptedMissesNothing(subs, b, s.history.info.value, s.params.inChannel, s.params.gain, s.history.first.value);
    }
  }

  lemma RouteOfRun(s: State)
    requires Inv(s) && s.history.first.Some?
    ensures s.history.info.Some? && PassesChecks(s.history.info.value, s.params.inChannel)
    ensures s.ctx.route == RouteOf(s.history.info.value, s.params.inChannel, s.params.gain)
  {
  }

  lemma FailureNeedsMissing(s: State)
    requires Inv(s) && !s.pc.Killed?
    ensures s.ctx.cache.failed ==> s.history.first.Some? && Missing(s.history.first.value, s.ctx.route)
    ensures s.history.failureExit ==> s.ctx.cache.failed
    ensures s.pc.Exited? && s.history.looped ==> (s.pc.rc == 0 <==> !s.history.failureExit)
  {
  }

  // ---- runs in which a HAL call fails -------------------------------------

  lemma {:induction false} RunSnoc(s: State, acts: seq<Action>, a: Action)
    requires ValidRun(s, acts) && Enabled(After(s, acts), a)
    ensures ValidRun(s, acts + [a]) && After(s, acts + [a]) == Step(After(s, acts), a)
    decreases |acts|
  {
    if acts == [] {
      assert [] + [a] == [a] && [a][1..] == [];
    } else {
      assert (acts + [a])[1..] == acts[1..] + [a];
      RunSnoc(Step(s, acts[0]), acts[1..], a);
    }
  }

  lemma OccursFirst(p: Params, t: Table)
    requires AtMostOneOurs(t)
    ensures Occurs(Begin(p, t, true))
  {
    assert ValidRun(Begin(p, t, true), []) && After(Begin(p, t, true), []) == Begin(p, t, true);
  }

  lemma OccursNext(s: State, a: Action) returns (s': State)
    requires Occurs(s) && Enabled(s, a)
    ensures s' == Step(s, a) && Occurs(s')
  {
    s' := Step(s, a);
    var p: Params, t: Table, acts: seq<Action> :|
      AtMostOneOurs(t) && ValidRun(Begin(p, t, true), acts) && s == After(Begin(p, t, true), acts);
    RunSnoc(Begin(p, t, true), acts, a);
  }

  /** What may happen at any moment of any run: every HAL call the main thread is about to make can fail, a
      signal can come, the process can be killed, a new run can follow one that ended, and devices
      other than ours can come and go. */
  lemma AnythingMayHappen(s: State, t: Table, p: Params, info: Info)
    requires Occurs(s)
    ensures !s.pc.Exited? && !s.pc.Killed? ==> Occurs(MainStep(s, Choice(false, 0, info)))
    ensures !s.pc.Exited? && !s.pc.Killed? ==> Occurs(s.(stop := true))
    ensures !s.pc.Exited? && !s.pc.Killed? ==> Occurs(s.(pc := Killed, cb := Idle, proc := false, started := false))
    ensures s.pc.Exited? || s.pc.Killed? ==> Occurs(Begin(p, s.table, s.clean))
    ensures (forall id :: Ours(s.table, id) <==> Ours(t, id)) ==> Occurs(s.(table := t))
  {
    hide MainStep, Begin, Occurs;
    if Running(s) {
      var s1 := OccursNext(s, Main(Choice(false, 0, info)));
      var s2 := OccursNext(s, Signal);
      var s3 := OccursNext(s, Kill);
    } else {
      var s4 := OccursNext(s, NewRun(p));
    }
    if forall id :: Ours(s.table, id) <==> Ours(t, id) {
      var s5 := OccursNext(s, Hotplug(t));
    }
  }

  /** The steps of the callback alone, until it returns. */
  function RunCallback(s: State): State
    decreases StepsLeft(s.cb)
  {
    if s.cb.Idle? then s else RunCallback(CallbackStep(s))
  }

  lemma {:induction false} RunCallbackFinishes(s: State)
    ensures RunCallback(s) == s.(ctx := s.ctx.(cache := Finish(s.ctx.route, s.ctx.cache, s.cb)), cb := Idle)
    decreases StepsLeft(s.cb)
  {
    if !s.cb.Idle? {
      RunCallbackFinishes(CallbackStep(s));
    }
  }

  /** Whenever a callback that is installed and started on our device is not running the HAL may invoke it
      with any lists, and run alone it returns, leaving the cache that one call of xb_ioproc leaves
      and everything else as it was. */
  lemma InvokedCallbackReturns(s: State, l: Layout)
    requires Occurs(s) && s.cb.Idle? && s.proc && s.started && Ours(s.table, s.agg)
    ensures var s' := Step(s, Invoke(l));
      && Occurs(s') && s'.history.first.Some? && s'.pc == s.pc && s'.table == s.table
      && RunCallback(s')
         == s'.(ctx := Ctx(s.ctx.route, Resolve(s.ctx.route, s.ctx.cache, l.ins, l.outs)), cb := Idle)
  {
    var s' := OccursNext(s, Invoke(l));
    OccursInv(s);
    RunCallbackFinishes(s');
    FinishIsResolve(s.ctx.route, s.ctx.cache, l);
  }

  /** A run on an empty table that has just created its aggregate. */
  lemma FirstAggregate(p: Params) returns (s: State)
    ensures Occurs(s) && s.pc == ComputeLayout && s.table == map[5 := AGGREGATE_UID] && s.agg == 5
    ensures s.params == p && s.cb.Idle? && !s.stop
  {
    var yes := Main(Choice(true, 5, Info(0, Offsets(0, 0, 0))));
    OccursFirst(p, map[]);
    s := OccursNext(Begin(p, map[], true), yes);
    assert s.pc == FindStale && s.table == map[];
    s := OccursNext(s, yes);
    assert s.pc == CreateDevice && s.table == map[];
    s := OccursNext(s, yes);
  }

  /** The aggregate is not gone before every return: when the sub-device list cannot be read and
      destroying the half-known aggregate fails, it stays behind. */
  lemma FailedDestroyLeaks() returns (s: State)
    ensures Occurs(s) && s.pc == Exited(1) && s.agg == 5 && Ours(s.table, 5)
  {
    var no := Main(Choice(false, 5, Info(0, Offsets(0, 0, 0))));
    s := FirstAggregate(Params(0, 1.0, 8));
    s := OccursNext(s, no);
    s := OccursNext(s, no);
  }

  /** Runs do accumulate aggregates when the lookup of the stale one fails: the first run is killed,
      the second does not see what it left and creates another. */
  lemma MissedLookupAccumulates() returns (s: State)
    ensures Occurs(s) && Ours(s.table, 5) && Ours(s.table, 6) && !s.history.dropFailed
  {
    var info := Info(0, Offsets(0, 0, 0));
    s := FirstAggregate(Params(0, 1.0, 8));
    s := OccursNext(s, Kill);
    s := OccursNext(s, NewRun(Params(0, 1.0, 8)));
    s := OccursNext(s, Main(Choice(true, 0, info)));
    s := OccursNext(s, Main(Choice(false, 0, info)));
    s := OccursNext(s, Main(Choice(true, 6, info)));
  }

  /** A run that has entered its main loop. */
  lemma LoopingRun() returns (s: State)
    ensures Occurs(s) && s.pc == LoopTest && s.agg == 5 && s.proc && s.started && s.cb == Idle && !s.stop
    ensures s.table == map[5 := AGGREGATE_UID]
  {
    s := GoodRun(Params(0, 1.0, 8), map[], 0, 5, Info(2, Offsets(0, 0, 2)));
  }

  /** A run whose teardown can neither stop the device nor remove the callback: it returns while the
      callback is still running, without its device. */
  lemma CallbackOutlivesDevice() returns (s: State)
    ensures Occurs(s) && s.pc == Exited(0) && !s.cb.Idle? && !Ours(s.table, s.agg)
    ensures s.history.stopFailed && s.history.removeFailed
  {
    var no, yes := Choice(false, 0, Info(0, Offsets(0, 0, 0))), Choice(true, 0, Info(0, Offsets(0, 0, 0)));
    s := StoppedRun();
    s := OccursNext(s, Main(no));
    s := OccursNext(s, Main(no));
    assert s.pc == DestroyDevice(0) && s.history.stopFailed && s.history.removeFailed;
    s := OccursNext(s, Main(yes));
  }

  /** A run about to be torn down while its callback is running. */
  lemma StoppedRun() returns (s: State)
    ensures Occurs(s) && s.pc == StopDevice(0) && s.agg == 5 && !s.cb.Idle? && s.table == map[5 := AGGREGATE_UID]
  {
    s := LoopingRun();
    s := OccursNext(s, Invoke(Layout([2], [2])));
    s := OccursNext(s, Signal);
    s := OccursNext(s, Main(Choice(false, 0, Info(0, Offsets(0, 0, 0)))));
  }

  // ---- a run that is set up -----------------------------------------------

  /** From the range checks on: a description that passes them, whatever the channel, and two HAL calls
      that succeed lead to the main loop, with the callback installed and started on its route. */
  lemma AcceptedStarts(s: State, check: Choice, install: Choice, start: Choice)
    requires s.pc.CheckRanges? && PassesChecks(s.pc.info, s.params.inChannel) && install.ok && start.ok
    ensures var s' := MainStep(MainStep(MainStep(s, check), install), start);
      && s'.pc == LoopTest && s'.proc && s'.started && s'.history.looped
      && s'.ctx == FreshCtx(RouteOf(s.pc.info, s.params.inChannel, s.params.gain))
      && s'.table == s.table && s'.agg == s.agg && s'.stop == s.stop && s'.cb == s.cb
  {
    var s1 := MainStep(s, check);
    assert s1.pc == InstallProc(s.pc.info) && s1.params == s.params && s1.table == s.table;
    var s2 := MainStep(s1, install);
    assert s2.pc == StartDevice && s2.proc && s2.table == s.table;
  }

  /** The steps of a run whose HAL calls succeed, up to the range checks. */
  function StepsToChecks(s: State, stale: nat, id: nat, info: Info): State {
    var ready := MainStep(s, Choice(true, 0, info));
    var cleared := ClearSteps(ready, true, true, stale, info);
    var created := MainStep(cleared, Choice(true, id, info));
    MainStep(created, Choice(true, 0, info))
  }

  lemma ReadyReachesChecks(p: Params, t: Table, clean: bool, stale: nat, id: nat, info: Info)
    ensures var s := StepsToChecks(Begin(p, t, clean), stale, id, info);
      && s.pc == CheckRanges(info) && s.params == p && s.agg == id && !s.stop && s.cb.Idle?
      && s.table == (if Ours(t, stale) then t - {stale} else t)[id := AGGREGATE_UID]
  {
    var ready := MainStep(Begin(p, t, clean), Choice(true, 0, info));
    assert ready.pc == FindStale && ready.table == t && ready.params == p && !ready.stop && ready.cb.Idle?;
    ClearStepsTable(ready, true, true, stale, info);
    var cleared := ClearSteps(ready, true, true, stale, info);
    var created := MainStep(cleared, Choice(true, id, info));
    assert created.pc == ComputeLayout && created.agg == id;
  }

  /** A run in which the first poll is ready and every HAL call succeeds enters its main loop, for
      every channel that passes the range checks, whatever devices there are: the leftover aggregate
      is gone, the new one is there, and the callback runs on it with the route derived from its
      description. */
  lemma ReadyRunLoops(p: Params, t: Table, clean: bool, stale: nat, id: nat, info: Info, ch: Choice)
    requires PassesChecks(info, p.inChannel) && ch.ok
    ensures var s := MainStep(MainStep(MainStep(StepsToChecks(Begin(p, t, clean), stale, id, info), ch), ch), ch);
      && s.pc == LoopTest && s.proc && s.started && s.agg == id && !s.stop && s.cb.Idle?
      && s.ctx == FreshCtx(RouteOf(info, p.inChannel, p.gain))
      && s.table == (if Ours(t, stale) then t - {stale} else t)[id := AGGREGATE_UID]
  {
    hide MainStep, StepsToChecks, FreshCtx, RouteOf, PassesChecks;
    ReadyReachesChecks(p, t, clean, stale, id, info);
    AcceptedStarts(StepsToChecks(Begin(p, t, clean), stale, id, info), ch, ch, ch);
  }

  /** Such a run occurs. */
  lemma GoodRun(p: Params, t: Table, stale: nat, id: nat, info: Info) returns (s: State)
    requires AtMostOneOurs(t) && ((exists i :: Ours(t, i)) ==> Ours(t, stale))
    requires id != DEVICE_UNKNOWN && id !in t && PassesChecks(info, p.inChannel)
    ensures Occurs(s) && s.pc == LoopTest && s.agg == id && s.proc && s.started && s.cb.Idle? && !s.stop
    ensures s.table == (if Ours(t, stale) then t - {stale} else t)[id := AGGREGATE_UID]
  {
    var yes := Choice(true, 0, info);
    OccursFirst(p, t);
    s := OccursNext(Begin(p, t, true), Main(yes));
    s := OccursClear(s, stale, info);
    s := OccursNext(s, Main(Choice(true, id, info)));
    s := OccursNext(s, Main(yes));
    ReadyReachesChecks(p, t, true, stale, id, info);
    assert s == StepsToChecks(Begin(p, t, true), stale, id, info);
    s := OccursStart(s);
  }

  lemma OccursClear(s: State, stale: nat, info: Info) returns (s': State)
    requires Occurs(s) && s.pc.FindStale? && ((exists i :: Ours(s.table, i)) ==> Ours(s.table, stale))
    ensures Occurs(s') && s' == ClearSteps(s, true, true, stale, info)
    ensures s'.pc == CreateDevice && s'.table == if Ours(s.table, stale) then s.table - {stale} else s.table
  {
    ClearStepsTable(s, true, true, stale, info);
    s' := OccursNext(s, Main(Choice(true, stale, info)));
    if s'.pc.DestroyStale? {
      s' := OccursNext(s', Main(Choice(true, stale, info)));
    }
  }

  lemma OccursStart(s: State) returns (s': State)
    requires Occurs(s) && s.pc.CheckRanges? && PassesChecks(s.pc.info, s.params.inChannel)
    ensures Occurs(s') && s'.pc == LoopTest && s'.proc && s'.started
    ensures s'.table == s.table && s'.agg == s.agg && s'.stop == s.stop && s'.cb == s.cb
  {
    var yes := Choice(true, 0, s.pc.info);
    AcceptedStarts(s, yes, yes, yes);
    var s1 := OccursNext(s, Main(yes));
    assert s1.pc == InstallProc(s.pc.info);
    var s2 := OccursNext(s1, Main(yes));
    assert s2.pc == StartDevice;
    s' := OccursNext(s2, Main(yes));
  }

  // ---- why a set-up fails -------------------------------------------------

  /** Between the readiness wait and the main loop. */
  predicate InSetup(pc: Pc) {
    pc.FindStale? || pc.DestroyStale? || pc.CreateDevice? || SettingUp(pc)
  }

  /** The step fails: a HAL call, or a range check that finds the source index at or above the input
      total or fewer than two BlackHole channels. */
  predicate Refused(s: State, ch: Choice) {
    match s.pc
    case CreateDevice => !ch.ok
    case ComputeLayout => !ch.ok
    case CheckRanges(info) =>
      Add32(info.offsets.ifaceIn, s.params.inChannel) >= info.inChannels || info.offsets.bhChannels < 2
    case InstallProc(_) => !ch.ok
    case StartDevice => !ch.ok
    case _ => false
  }

  /** A step of the set-up leads on exactly if it is not refused: to the next stage or into the main
      loop; refused, it leads to the teardown or the return with result 1. */
  lemma SetupGoesOn(s: State, ch: Choice)
    requires InSetup(s.pc)
    ensures var s' := MainStep(s, ch);
      && (Refused(s, ch) ==> s'.pc == Exited(1) || s'.pc == DestroyDevice(1) || s'.pc == RemoveProc(1))
      && (!Refused(s, ch) ==> InSetup(s'.pc) || (s'.pc == LoopTest && s'.history.looped))
  {
    if BeforeCreate(s.pc) { EarlyGoesOn(s, ch); } else { LaterGoesOn(s, ch); }
  }

  lemma EarlyGoesOn(s: State, ch: Choice)
    requires InSetup(s.pc) && BeforeCreate(s.pc)
    ensures var s' := EarlyStep(s, ch);
      && (Refused(s, ch) ==> s'.pc == Exited(1))
      && (!Refused(s, ch) ==> InSetup(s'.pc))
  {
  }

  lemma LaterGoesOn(s: State, ch: Choice)
    requires SettingUp(s.pc)
    ensures var s' := SetupStep(s, ch);
      && (Refused(s, ch) ==> s'.pc == DestroyDevice(1) || s'.pc == RemoveProc(1))
      && (!Refused(s, ch) ==> InSetup(s'.pc) || (s'.pc == LoopTest && s'.history.looped))
  {
    match s.pc
    case ComputeLayout =>
    case CheckRanges(_) =>
    case InstallProc(_) =>
    case StartDevice =>
  }

  /** Some main step of the run is refused. */
  predicate SomeRefused(s: State, acts: seq<Action>)
    decreases |acts|
  {
    acts != [] && ((acts[0].Main? && Refused(s, acts[0].choice)) || SomeRefused(Step(s, acts[0]), acts[1..]))
  }

  predicate OnItsWay(s: State) {
    InSetup(s.pc) || s.history.looped || s.pc.Killed?
  }

  lemma LoopedStays(s: State, ch: Choice)
    requires s.history.looped && !InSetup(s.pc)
    ensures MainStep(s, ch).history.looped
  {
    if !BeforeCreate(s.pc) { LateKeepsLooped(s, ch); }
  }

  lemma LateKeepsLooped(s: State, ch: Choice)
    requires !BeforeCreate(s.pc) && !SettingUp(s.pc)
    ensures LateStep(s, ch).history.looped == s.history.looped
  {
    match s.pc
    case LoopTest =>
    case LoopBody =>
    case StopDevice(_) =>
    case RemoveProc(_) =>
    case DestroyDevice(_) =>
    case Exited(_) =>
    case Killed =>
  }

  lemma StepStaysOnItsWay(s: State, a: Action)
    requires OnItsWay(s) && Enabled(s, a) && !a.NewRun? && !(a.Main? && Refused(s, a.choice))
    ensures OnItsWay(Step(s, a))
  {
    if a.Main? {
      if InSetup(s.pc) { SetupGoesOn(s, a.choice); } else { LoopedStays(s, a.choice); }
    }
  }

  /** After the readiness wait nothing but a refused step keeps a run from its main loop: one that
      returns without having looped had a HAL call or a range check fail, whatever else happened. */
  lemma {:induction false} SetupFailureHasCause(s: State, acts: seq<Action>)
    requires OnItsWay(s) && ValidRun(s, acts) && forall i :: 0 <= i < |acts| ==> !acts[i].NewRun?
    ensures OnItsWay(After(s, acts)) || SomeRefused(s, acts)
    ensures After(s, acts).pc.Exited? && !After(s, acts).history.looped ==> SomeRefused(s, acts)
    decreases |acts|
  {
    if acts != [] && !(acts[0].Main? && Refused(s, acts[0].choice)) {
      StepStaysOnItsWay(s, acts[0]);
      SetupFailureHasCause(Step(s, acts[0]), acts[1..]);
    }
  }

  // ---- a signal ends the run ----------------------------------------------

  /** How many main steps are left at most once the stop flag is set. */
  function StepsToReturn(pc: Pc): nat {
    match pc
    case Exited(_) => 0
    case Killed => 0
    case WaitFailed => 1
    case DestroyDevice(_) => 1
    case RemoveProc(_) => 2
    case StopDevice(_) => 3
    case LoopTest => 4
    case LoopBody => 5
    case StartDevice => 5
    case InstallProc(_) => 6
    case CheckRanges(_) => 7
    case ComputeLayout => 8
    case CreateDevice => 9
    case DestroyStale(_) => 10
    case FindStale => 11
    case Waiting(_) => 12
  }

  function MainSteps(acts: seq<Action>): nat {
    if acts == [] then 0 else (if acts[0].Main? then 1 else 0) + MainSteps(acts[1..])
  }

  lemma EarlyStepAfterSignal(s: State, ch: Choice)
    requires s.stop && BeforeCreate(s.pc)
    ensures StepsToReturn(EarlyStep(s, ch).pc) < StepsToReturn(s.pc)
  {
  }

  lemma SetupStepAfterSignal(s: State, ch: Choice)
    requires SettingUp(s.pc)
    ensures StepsToReturn(SetupStep(s, ch).pc) < StepsToReturn(s.pc)
  {
    match s.pc
    case ComputeLayout =>
    case CheckRanges(_) =>
    case InstallProc(_) =>
    case StartDevice =>
  }

  lemma LateStepAfterSignal(s: State, ch: Choice)
    requires s.stop && Running(s) && !BeforeCreate(s.pc) && !SettingUp(s.pc)
    ensures StepsToReturn(LateStep(s, ch).pc) < StepsToReturn(s.pc)
  {
    match s.pc
    case LoopTest =>
    case LoopBody =>
    case StopDevice(_) =>
    case RemoveProc(_) =>
    case DestroyDevice(_) =>
  }

  lemma StepAfterSignal(s: State, a: Action)
    requires s.stop && Enabled(s, a) && !a.NewRun?
    ensures Step(s, a).stop
    ensures StepsToReturn(Step(s, a).pc) + (if a.Main? then 1 else 0) <= StepsToReturn(s.pc)
  {
    if a.Main? {
      MainKeepsStop(s, a.choice);
      if BeforeCreate(s.pc) { EarlyStepAfterSignal(s, a.choice); }
      else if SettingUp(s.pc) { SetupStepAfterSignal(s, a.choice); }
      else { LateStepAfterSignal(s, a.choice); }
    } else {
      OtherStepAfterSignal(s, a);
    }
  }

  lemma OtherStepAfterSignal(s: State, a: Action)
    requires s.stop && Enabled(s, a) && !a.NewRun? && !a.Main?
    ensures Step(s, a).stop && StepsToReturn(Step(s, a).pc) <= StepsToReturn(s.pc)
  {
  }

  /** After a signal the run returns within twelve steps of the main thread, whatever the HAL
      answers and whatever happens in between ... */
  lemma {:induction false} ReturnsAfterSignal(s: State, acts: seq<Action>)
    requires s.stop && ValidRun(s, acts) && forall i :: 0 <= i < |acts| ==> !acts[i].NewRun?
    ensures MainSteps(acts) + StepsToReturn(After(s, acts).pc) <= StepsToReturn(s.pc) <= 12
    ensures StepsToReturn(After(s, acts).pc) == 0 <==> !Running(After(s, acts))
    decreases |acts|
  {
    if acts != [] {
      StepAfterSignal(s, acts[0]);
      ReturnsAfterSignal(Step(s, acts[0]), acts[1..]);
    }
  }

  /** How many main steps are left at most once the callback has failed to resolve. */
  function StepsAfterFailure(pc: Pc): nat {
    match pc
    case LoopTest => 5
    case LoopBody => 4
    case StopDevice(_) => 3
    case RemoveProc(_) => 2
    case DestroyDevice(_) => 1
    case _ => 0
  }

  lemma LateStepAfterFailure(s: State, ch: Choice)
    requires s.ctx.cache.failed && StepsAfterFailure(s.pc) > 0
    ensures StepsAfterFailure(LateStep(s, ch).pc) < StepsAfterFailure(s.pc)
  {
    match s.pc
    case LoopTest =>
    case LoopBody =>
    case StopDevice(_) =>
    case RemoveProc(_) =>
    case DestroyDevice(_) =>
  }

  lemma MainStepAfterFailure(s: State, ch: Choice)
    requires Inv(s) && s.ctx.cache.failed && MainEnabled(s, ch)
    ensures StepsAfterFailure(MainStep(s, ch).pc) < StepsAfterFailure(s.pc)
  {
    FailureIsInLoop(s);
    LateStepAfterFailure(s, ch);
  }

  lemma FailureIsInLoop(s: State)
    requires Inv(s) && s.ctx.cache.failed
    ensures StepsAfterFailure(s.pc) == 0 <==> !Running(s)
  {
  }

  lemma StepAfterFailure(s: State, a: Action)
    requires Inv(s) && s.ctx.cache.failed && Enabled(s, a) && !a.NewRun?
    ensures Step(s, a).ctx.cache.failed
    ensures StepsAfterFailure(Step(s, a).pc) + (if a.Main? then 1 else 0) <= StepsAfterFailure(s.pc)
  {
    StepKeepsFlags(s, a);
    if a.Main? { MainStepAfterFailure(s, a.choice); }
  }

  /** A failed resolution ends the run as well, within five steps of the main thread and whatever
      else happens. */
  lemma {:induction false} ReturnsAfterFailure(s: State, acts: seq<Action>)
    requires Inv(s) && s.ctx.cache.failed && ValidRun(s, acts)
    requires forall i :: 0 <= i < |acts| ==> !acts[i].NewRun?
    ensures MainSteps(acts) + StepsAfterFailure(After(s, acts).pc) <= StepsAfterFailure(s.pc) <= 5
    ensures StepsAfterFailure(After(s, acts).pc) == 0 <==> !Running(After(s, acts))
    decreases |acts|
  {
    if acts == [] {
      FailureIsInLoop(s);
    } else {
      StepKeepsInv(s, acts[0]);
      StepAfterFailure(s, acts[0]);
      ReturnsAfterFailure(Step(s, acts[0]), acts[1..]);
    }
  }

  /** ... and until then the main thread always has a step to take. */
  lemma MainIsNeverStuck(s: State) returns (ch: Choice)
    requires Running(s)
    ensures MainEnabled(s, ch)
  {
    ch := Choice(false, 0, Info(0, Offsets(0, 0, 0)));
  }

  // ---- the steps refine the code they stand for ---------------------------

  function StepsLeft(cb: CbPc): nat {
    match cb
    case Idle => 0
    case TestResolved(_) => 9
    case LocateSrc(_) => 8
    case LocateLeft(_) => 7
    case LocateRight(_) => 6
    case Decide(_) => 5
    case StoreResolved(_) => 4
    case TestFailed(_) => 4
    case Silencing(_) => 1
    case Copying(_) => 1
  }

  /** The cache when the callback returns; at most nine steps lead there. */
  function Finish(r: Route, c: Cache, cb: CbPc): Cache
    decreases StepsLeft(cb)
  {
    if cb.Idle? then c
    else
      var (c', cb') := CacheStep(r, c, cb);
      Finish(r, c', cb')
  }

  /** Run to its end without interference, the stepwise callback leaves the cache that one call of
      xb_ioproc leaves. */
  lemma FinishIsResolve(r: Route, c: Cache, l: Layout)
    requires c.failed ==> c.resolved
    ensures Finish(r, c, TestResolved(l)) == Resolve(r, c, l.ins, l.outs)
  {
    if !c.resolved {
      var c1 := c.(src := Locate(l.ins, r.src));
      var c2 := c1.(dl := Locate(l.outs, r.dstL));
      var c3 := c2.(dr := Locate(l.outs, r.dstR));
      assert Finish(r, c, TestResolved(l)) == Finish(r, c1, LocateLeft(l));
      assert Finish(r, c1, LocateLeft(l)) == Finish(r, c3, Decide(l));
      FinishDecided(r, c3, l);
    } else {
      FinishTested(r, c, l);
    }
  }

  lemma FinishTested(r: Route, c: Cache, l: Layout)
    ensures Finish(r, c, TestFailed(l)) == c
    ensures c.resolved ==> Finish(r, c, TestResolved(l)) == c
  {
    assert Finish(r, c, Silencing(l)) == c && Finish(r, c, Copying(l)) == c;
  }

  lemma FinishDecided(r: Route, c: Cache, l: Layout)
    requires !c.resolved && !c.failed
    ensures Finish(r, c, Decide(l))
         == c.(resolved := true, failed := c.src.buffer < 0 || c.dl.buffer < 0 || c.dr.buffer < 0)
  {
    FinishTested(r, c.(resolved := true), l);
    var f := c.(failed := true, resolved := true);
    assert Finish(r, f, Silencing(l)) == f;
    assert Finish(r, c.(failed := true), StoreResolved(l)) == f;
  }

  /** What the main thread sees of the devices at a poll. */
  function PollChoice(p: Poll): Choice {
    Choice(Ready(p), DEVICE_UNKNOWN, Info(0, Offsets(0, 0, 0)))
  }

  /** The main thread's first `k` steps of the readiness wait. */
  function WaitSteps(s: State, polls: nat -> Poll, k: nat): State {
    if k == 0 then s else MainStep(WaitSteps(s, polls, k - 1), PollChoice(polls(k - 1)))
  }

  /** As long as no poll ends the wait, a run's k-th step stands at the k-th poll of wait_for_devices
      with its counted time ... */
  lemma {:induction false} WaitStepsRefine(p: Params, t: Table, clean: bool, polls: nat -> Poll, k: nat)
    requires forall j: nat :: j < k ==> !Ends(polls, EffectiveTimeout(p.timeout), j)
    ensures WaitSteps(Begin(p, t, clean), polls, k) == Begin(p, t, clean).(pc := Waiting(500 * k))
  {
    hide MainStep;
    if k > 0 {
      WaitStepsRefine(p, t, clean, polls, k - 1);
      WaitStep(WaitSteps(Begin(p, t, clean), polls, k - 1), polls, k - 1);
    }
  }

  lemma WaitStep(s: State, polls: nat -> Poll, k: nat)
    requires s.pc == Waiting(POLL_INTERVAL_MS * k) && !s.stop && !Ends(polls, EffectiveTimeout(s.params.timeout), k)
    ensures MainStep(s, PollChoice(polls(k))) == s.(pc := Waiting(POLL_INTERVAL_MS * (k + 1)))
  {
  }

  /** ... and the step at the poll that ends the wait goes on to the stale aggregate exactly if
      wait_for_devices returns 0. */
  lemma WaitEndRefines(p: Params, t: Table, clean: bool, polls: nat -> Poll, k: nat)
    requires forall j: nat :: j < k ==> !Ends(polls, EffectiveTimeout(p.timeout), j)
    requires Ends(polls, EffectiveTimeout(p.timeout), k)
    ensures MainStep(WaitSteps(Begin(p, t, clean), polls, k).(stop := polls(k).stop), PollChoice(polls(k))).pc
         == if !polls(k).stop && Ready(polls(k)) then FindStale else WaitFailed
  {
    hide MainStep;
    WaitStepsRefine(p, t, clean, polls, k);
    LastWaitStep(WaitSteps(Begin(p, t, clean), polls, k), polls, k);
  }

  lemma LastWaitStep(s: State, polls: nat -> Poll, k: nat)
    requires s.pc == Waiting(POLL_INTERVAL_MS * k) && Ends(polls, EffectiveTimeout(s.params.timeout), k)
    ensures MainStep(s.(stop := polls(k).stop), PollChoice(polls(k))).pc
         == if !polls(k).stop && Ready(polls(k)) then FindStale else WaitFailed
  {
  }

  /** A device list as an id-to-UID table. */
  function AsTable(devs: seq<Device>): Table {
    if devs == [] then map[] else AsTable(devs[1..])[devs[0].id := devs[0].uid]
  }

  ghost predicate UniqueIds(devs: seq<Device>) {
    forall i, j :: 0 <= i < j < |devs| ==> devs[i].id != devs[j].id
  }

  lemma {:induction false} AsTableAt(devs: seq<Device>, id: nat)
    requires UniqueIds(devs)
    ensures id in AsTable(devs) <==> exists d :: d in devs && d.id == id
    ensures forall d :: d in devs && d.id == id ==> id in AsTable(devs) && AsTable(devs)[id] == d.uid
  {
    if devs != [] {
      AsTableAt(devs[1..], id);
      assert devs == [devs[0]] + devs[1..];
      assert forall d :: d in devs <==> d == devs[0] || d in devs[1..];
    }
  }

  lemma AsTableCons(d: Device, devs: seq<Device>)
    ensures AsTable([d] + devs) == AsTable(devs)[d.id := d.uid]
  {
    assert ([d] + devs)[1..] == devs;
  }

  lemma {:induction false} AsTableWithout(devs: seq<Device>, id: nat)
    ensures AsTable(Without(devs, id)) == AsTable(devs) - {id}
  {
    if devs != [] {
      AsTableWithout(devs[1..], id);
      if devs[0].id != id {
        AsTableCons(devs[0], Without(devs[1..], id));
      }
    }
  }

  lemma {:induction false} AsTableAppend(devs: seq<Device>, d: Device)
    requires forall e :: e in devs ==> e.id != d.id
    ensures AsTable(devs + [d]) == AsTable(devs)[d.id := d.uid]
  {
    if devs == [] {
      assert [d][1..] == [];
    } else {
      assert (devs + [d])[1..] == devs[1..] + [d];
      AsTableAppend(devs[1..], d);
      assert devs[0] in devs;
    }
  }

  /** The main thread's steps that look for a stale aggregate and destroy it. */
  function ClearSteps(s: State, enumerates: bool, destroys: bool, stale: nat, info: Info): State {
    var s1 := MainStep(s, Choice(enumerates, stale, info));
    if s1.pc.DestroyStale? then MainStep(s1, Choice(destroys, stale, info)) else s1
  }

  /** The steps that read the layout and destroy the new device if that fails. */
  function LayoutSteps(s: State, found: bool, destroys: bool, info: Info): State {
    var s1 := MainStep(s, Choice(found, 0, info));
    if s1.pc.DestroyDevice? then MainStep(s1, Choice(destroys, 0, info)) else s1
  }

  /** The steps from creating the device on. */
  function BuildSteps(s: State, o: CreateOutcome, found: bool, info: Info): State {
    var s1 := MainStep(s, Choice(Creates(o), o.newId, info));
    if s1.pc.ComputeLayout? then LayoutSteps(s1, found, o.destroysHalf, info) else s1
  }

  lemma ClearStepsTable(s: State, enumerates: bool, destroys: bool, stale: nat, info: Info)
    requires s.pc.FindStale?
    ensures var s' := ClearSteps(s, enumerates, destroys, stale, info);
      && s'.pc == CreateDevice
      && s'.table == if enumerates && Ours(s.table, stale) && destroys then s.table - {stale} else s.table
  {
  }

  lemma ClearStepsRefine(s: State, devs: seq<Device>, o: CreateOutcome, info: Info)
    requires s.pc.FindStale? && UniqueIds(devs) && s.table == AsTable(devs)
    requires forall d :: d in devs ==> d.id != DEVICE_UNKNOWN
    ensures var stale := Resolved(if o.enumerates then Some(devs) else None, AGGREGATE_UID);
      var s' := ClearSteps(s, o.enumerates, o.destroysStale, stale, info);
      && MainEnabled(s, Choice(o.enumerates, stale, info))
      && s'.pc == CreateDevice && s'.table == AsTable(Destroyed(devs, stale, o.destroysStale))
  {
    var stale := Resolved(if o.enumerates then Some(devs) else None, AGGREGATE_UID);
    StaleIsOurs(devs);
    AsTableAt(devs, DEVICE_UNKNOWN);
    AsTableWithout(devs, stale);
    ClearStepsTable(s, o.enumerates, o.destroysStale, stale, info);
  }

  lemma LayoutStepsRefine(s: State, found: bool, destroys: bool, info: Info)
    requires s.pc.ComputeLayout?
    ensures var s' := LayoutSteps(s, found, destroys, info);
      && s'.pc == (if found then CheckRanges(info) else Exited(1))
      && s'.table == if found || !destroys then s.table else s.table - {s.agg}
  {
  }

  lemma BuildStepsRefine(s: State, devs: seq<Device>, iface: string, bh: string, o: CreateOutcome, info: Info)
    requires s.pc.CreateDevice? && s.table == AsTable(devs)
    requires forall d :: d in devs ==> d.id != o.newId
    ensures var s' := BuildSteps(s, o, CreateSucceeds(o, iface, bh), info);
      && s'.pc == (if CreateSucceeds(o, iface, bh) then CheckRanges(info) else Exited(1))
      && s'.table == AsTable(if !Creates(o) then devs
                             else if CreateSucceeds(o, iface, bh) then devs + [NewDevice(o)]
                             else Destroyed(devs + [NewDevice(o)], o.newId, o.destroysHalf))
  {
    var s1 := MainStep(s, Choice(Creates(o), o.newId, info));
    if Creates(o) {
      AsTableAppend(devs, NewDevice(o));
      AsTableWithout(devs + [NewDevice(o)], o.newId);
      LayoutStepsRefine(s1, CreateSucceeds(o, iface, bh), o.destroysHalf, info);
    }
  }

  /** Those steps do to the device table what xb_aggregate_create does. */
  lemma CreateStepsRefine(s: State, devs: seq<Device>, iface: string, bh: string, o: CreateOutcome, info: Info)
    requires s.pc.FindStale? && UniqueIds(devs) && s.table == AsTable(devs)
    requires forall d :: d in devs ==> d.id != DEVICE_UNKNOWN && d.id != o.newId
    ensures var stale := Resolved(if o.enumerates then Some(devs) else None, AGGREGATE_UID);
      var s' := BuildSteps(ClearSteps(s, o.enumerates, o.destroysStale, stale, info), o, CreateSucceeds(o, iface, bh), info);
      && s'.table == AsTable(TableAfterCreate(devs, iface, bh, o))
      && s'.pc == if CreateSucceeds(o, iface, bh) then CheckRanges(info) else Exited(1)
  {
    var stale := Resolved(if o.enumerates then Some(devs) else None, AGGREGATE_UID);
    var cleared := Destroyed(devs, stale, o.destroysStale);
    ClearStepsRefine(s, devs, o, info);
    assert forall d :: d in cleared ==> d in devs;
    BuildStepsRefine(ClearSteps(s, o.enumerates, o.destroysStale, stale, info), cleared, iface, bh, o, info);
  }

  /** The lookup by UID finds one of ours exactly when the table has one. */
  lemma StaleIsOurs(devs: seq<Device>)
    requires UniqueIds(devs) && forall d :: d in devs ==> d.id != DEVICE_UNKNOWN
    ensures var stale := Resolved(Some(devs), AGGREGATE_UID);
      && (stale != DEVICE_UNKNOWN ==> Ours(AsTable(devs), stale))
      && ((exists id :: Ours(AsTable(devs), id)) ==> stale != DEVICE_UNKNOWN)
  {
    var d := FirstWithUid(devs, AGGREGATE_UID);
    if d.Some? {
      AsTableAt(devs, d.value.id);
    }
    if id :| Ours(AsTable(devs), id) {
      AsTableAt(devs, id);
      var e :| e in devs && e.id == id;
      var i :| 0 <= i < |devs| && devs[i] == e;
    }
  }
}
