/** The control plane of the ZeroTier outbound as a machine over its atomic
    steps.  operationMu is held by at most one writer, whose progress is `op`;
    everything done under stateMu alone (enqueued configurations, network and
    device invalidation) and every background Close interleaves freely. */
module ZeroTier {
  import opened Options

  datatype NetworkConfig = NetworkConfig(networkID: nat, addresses: seq<string>, mtu: nat, rest: string)

  const NoConfig := NetworkConfig(0, [], 0, "")

  /** Fixed options of one outbound and the limits of the ZeroTier library. */
  datatype Params = Params(networkID: nat, optionMTU: nat, defaultMTU: nat, minMTU: nat, maxMTU: nat)

  /** One call of applyNetworkConfig: its arguments, then what it read when it
      found them current. */
  datatype Job = Job(config: NetworkConfig, generation: nat)

  datatype Snapshot = Snapshot(runtime: nat, device: Option<nat>, config: NetworkConfig)

  /** How far an attempt that has its device is: created, started, found still
      current, link reconfigured, found stale after that. */
  datatype Stage = Building | Built | Checked | Linked | Stale

  /** Progress of the goroutine that write-holds operationMu. */
  datatype Op =
    | Free
    | ApplyLocked(job: Job)
    | ApplyEntered(job: Job)
    | ApplySnapped(job: Job, snap: Snapshot)
    | Attempt(stage: Stage, job: Job, snap: Snapshot, device: nat)
    | Discarding(device: nat)
    | Replacing(device: nat)
    | StartLocked
    | StartPublished(runtime: nat)
    | RecoverLocked(source: nat)
    | RecoverDetached(runtime: nat, detached: Option<nat>)
    | CloseLocked

  /** What a stack device was created with. */
  datatype Blueprint = Blueprint(addresses: seq<string>, mtu: nat)

  /** built records, for every device ever created, its blueprint. */
  datatype State = State(
    ctxDone: bool, closed: bool, op: Op, readers: nat,
    runtime: Option<nat>, config: NetworkConfig, tunDevice: Option<nat>,
    latestConfig: NetworkConfig, haveLatest: bool, generation: nat,
    links: map<nat, Option<NetworkConfig>>, unrestored: set<nat>,
    nextRuntime: nat, nextDevice: nat,
    closing: multiset<nat>, closes: multiset<nat>, built: map<nat, Blueprint>)

  datatype Step =
    | Cancel
    | ReadLock | ReadUnlock
    | ApplyLock(job: Job) | ApplyEnter | ApplySnap(resolverOk: bool)
    | ApplyDevice(ok: bool) | ApplyStart(ok: bool)
    | ApplyRecheck | ApplyLink(ok: bool) | ApplyDecide | ApplyRestore(ok: bool) | CloseOwn
    | StartLock | StartPublish(ok: bool) | StartFinish(ok: bool)
    | RecoverLock(source: nat) | RecoverDetach(addressMatches: bool) | RecoverClose(restart: bool)
    | CloseLock | CloseDetach
    | Enqueue(source: nat, config: NetworkConfig)
    | InvalidateNetwork(only: Option<nat>, retryConfig: bool)
    | InvalidateDevice(device: nat)
    | CloserRuns(device: nat)

  const Initial := State(false, false, Free, 0, None, NoConfig, None, NoConfig, false, 0, map[], {}, 0, 0, multiset{}, multiset{}, map[])

  function EffectiveMTU(p: Params, c: NetworkConfig): (mtu: nat) {
    var m := if c.mtu == 0 then p.defaultMTU else if c.mtu < p.minMTU then p.minMTU else if c.mtu > p.maxMTU then p.maxMTU else c.mtu;
    if p.optionMTU != 0 && p.optionMTU < m then p.optionMTU else m
  }

  /** What the IP link is told for a network configuration. */
  function LinkConfig(p: Params, c: NetworkConfig): NetworkConfig {
    c.(mtu := EffectiveMTU(p, c))
  }

  predicate ConfigCurrent(s: State, runtime: Option<nat>, config: NetworkConfig, generation: nat) {
    s.generation == generation && s.runtime == runtime && s.haveLatest && s.latestConfig == config
  }

  predicate JobCurrent(s: State, job: Job, snap: Snapshot) {
    s.tunDevice == snap.device && ConfigCurrent(s, Some(snap.runtime), job.config, job.generation)
  }

  predicate ReplaceDevice(p: Params, job: Job, snap: Snapshot) {
    snap.device.None? || snap.config.addresses != job.config.addresses || EffectiveMTU(p, snap.config) != EffectiveMTU(p, job.config)
  }

  predicate Restorable(p: Params, c: NetworkConfig) {
    c.networkID == p.networkID && c.addresses != []
  }

  // ----- the pieces every step is made of -----

  function ToCloser(s: State, device: Option<nat>): (t: State)
    ensures t == s.(closing := t.closing)
  {
    if device.None? then s else s.(closing := s.closing + multiset{device.value})
  }

  function CloseNow(s: State, device: Option<nat>): (t: State)
    ensures t == s.(closes := t.closes)
  {
    if device.None? then s else s.(closes := s.closes + multiset{device.value})
  }

  function ResetNetworkState(s: State): State {
    s.(config := NoConfig, latestConfig := NoConfig, haveLatest := false, generation := s.generation + 1)
  }

  /** Leaving applyNetworkConfig early: a device built for it is closed first. */
  function Abandon(p: Params, s: State): (t: State)
    requires s.op.Attempt?
    ensures t == s.(op := t.op) && !t.op.Attempt?
  {
    s.(op := if ReplaceDevice(p, s.op.job, s.op.snap) then Discarding(s.op.device) else Free)
  }

  // ----- one step; a step that does not apply leaves the state alone -----

  /** Nothing that other goroutines can see has moved, and no device has been
      closed. */
  predicate SameView(s: State, t: State) {
    && t.runtime == s.runtime && t.config == s.config && t.tunDevice == s.tunDevice
    && t.latestConfig == s.latestConfig && t.haveLatest == s.haveLatest && t.generation == s.generation
    && t.closing == s.closing && t.closes == s.closes && t.ctxDone == s.ctxDone && t.closed == s.closed
  }

  predicate At(s: State, stage: Stage) {
    s.op.Attempt? && s.op.stage == stage
  }

  function SnapStep(s: State, resolverOk: bool): (t: State)
    requires s.op.ApplyEntered?
    ensures SameView(s, t) && t.unrestored == s.unrestored
  {
    var job := s.op.job;
    if !ConfigCurrent(s, s.runtime, job.config, job.generation) || s.runtime.None? || job.config.addresses == [] || !resolverOk
    then s.(op := Free)
    else s.(op := ApplySnapped(job, Snapshot(s.runtime.value, s.tunDevice, s.config)))
  }

  /** Creates and later starts a new device, or goes on with the old one. */
  function DeviceStep(p: Params, s: State, ok: bool): (t: State)
    requires s.op.ApplySnapped?
    ensures SameView(s, t) && t.unrestored == s.unrestored
  {
    var job, snap := s.op.job, s.op.snap;
    if !ReplaceDevice(p, job, snap) then s.(op := Attempt(Built, job, snap, snap.device.value))
    else if !ok then s.(op := Free)
    else s.(op := Attempt(Building, job, snap, s.nextDevice), nextDevice := s.nextDevice + 1,
            built := s.built[s.nextDevice := Blueprint(job.config.addresses, EffectiveMTU(p, job.config))])
  }

  function StartStep(s: State, ok: bool): (t: State)
    requires At(s, Building)
    ensures SameView(s, t) && t.unrestored == s.unrestored
  {
    s.(op := if !ok || s.ctxDone then Discarding(s.op.device) else s.op.(stage := Built))
  }

  function RecheckStep(p: Params, s: State): (t: State)
    requires At(s, Built)
    ensures SameView(s, t) && t.unrestored == s.unrestored
  {
    if JobCurrent(s, s.op.job, s.op.snap) then s.(op := s.op.(stage := Checked)) else Abandon(p, s)
  }

  function LinkStep(p: Params, s: State, ok: bool): (t: State)
    requires At(s, Checked)
    ensures SameView(s, t) && t.unrestored == s.unrestored
  {
    if !ok then Abandon(p, s)
    else s.(op := s.op.(stage := Linked), links := s.links[s.op.snap.runtime := Some(LinkConfig(p, s.op.job.config))])
  }

  /** Commits when nothing moved since the snapshot. */
  function DecideStep(p: Params, s: State): State
    requires At(s, Linked)
  {
    var job, snap := s.op.job, s.op.snap;
    if !JobCurrent(s, job, snap) then s.(op := s.op.(stage := Stale))
    else s.(config := job.config, tunDevice := Some(s.op.device), generation := s.generation + 1,
            unrestored := s.unrestored - {snap.runtime},
            op := if ReplaceDevice(p, job, snap) && s.tunDevice.Some? then Replacing(s.tunDevice.value) else Free)
  }

  function RestoreStep(p: Params, s: State, ok: bool): (t: State)
    requires At(s, Stale)
    ensures SameView(s, t)
  {
    var snap := s.op.snap;
    if !Restorable(p, snap.config) then Abandon(p, s)
    else if ok
    then Abandon(p, s.(unrestored := s.unrestored - {snap.runtime}, links := s.links[snap.runtime := Some(LinkConfig(p, snap.config))]))
    else if LinkConfig(p, s.op.job.config) == LinkConfig(p, snap.config)
    then Abandon(p, s.(unrestored := s.unrestored - {snap.runtime}))
    else Abandon(p, s.(unrestored := s.unrestored + {snap.runtime}))
  }

  function CloseOwnStep(s: State): State
    requires s.op.Discarding? || s.op.Replacing?
  {
    CloseNow(s, Some(s.op.device)).(op := Free)
  }

  function ApplyNext(p: Params, s: State, step: Step): (t: State)
    ensures !step.ApplyDecide? && !step.CloseOwn? ==> SameView(s, t)
  {
    match step
    case ApplyLock(job) => if s.op.Free? && s.readers == 0 then s.(op := ApplyLocked(job)) else s
    case ApplyEnter => if s.op.ApplyLocked? then s.(op := if s.ctxDone then Free else ApplyEntered(s.op.job)) else s
    case ApplySnap(ok) => if s.op.ApplyEntered? then SnapStep(s, ok) else s
    case ApplyDevice(ok) => if s.op.ApplySnapped? then DeviceStep(p, s, ok) else s
    case ApplyStart(ok) => if At(s, Building) then StartStep(s, ok) else s
    case ApplyRecheck => if At(s, Built) then RecheckStep(p, s) else s
    case ApplyLink(ok) => if At(s, Checked) then LinkStep(p, s, ok) else s
    case ApplyDecide => if At(s, Linked) then DecideStep(p, s) else s
    case ApplyRestore(ok) => if At(s, Stale) then RestoreStep(p, s, ok) else s
    case CloseOwn => if s.op.Discarding? || s.op.Replacing? then CloseOwnStep(s) else s
    case _ => s
  }

  function StartNext(s: State, step: Step): State {
    match step
    case StartLock => if s.op.Free? && s.readers == 0 then s.(op := StartLocked) else s
    case StartPublish(ok) =>
      if !s.op.StartLocked? then s
      else if s.closed || s.ctxDone || s.runtime.Some? || !ok then s.(op := Free)
      else ResetNetworkState(s).(runtime := Some(s.nextRuntime), op := StartPublished(s.nextRuntime),
                                 links := s.links[s.nextRuntime := None], nextRuntime := s.nextRuntime + 1)
    case StartFinish(ok) =>
      if !s.op.StartPublished? then s
      else if ok || s.runtime != Some(s.op.runtime) then s.(op := Free) else s.(op := Free, runtime := None)
    case _ => s
  }

  function RecoverNext(s: State, step: Step): State {
    match step
    case RecoverLock(source) => if s.op.Free? && s.readers == 0 then s.(op := RecoverLocked(source)) else s
    case RecoverDetach(addressMatches) =>
      if !s.op.RecoverLocked? then s
      else if s.closed || s.ctxDone || s.runtime != Some(s.op.source) || !addressMatches then s.(op := Free)
      else ResetNetworkState(s).(runtime := None, tunDevice := None, op := RecoverDetached(s.op.source, s.tunDevice))
    case RecoverClose(restart) =>
      if !s.op.RecoverDetached? then s
      else CloseNow(s, s.op.detached).(op := if restart then StartLocked else Free)
    case _ => s
  }

  function CloseNext(s: State, step: Step): State {
    match step
    case CloseLock => if s.op.Free? && s.readers == 0 && s.ctxDone then s.(op := CloseLocked) else s
    case CloseDetach =>
      if !s.op.CloseLocked? then s
      else if s.closed then s.(op := Free)
      else ToCloser(ResetNetworkState(s).(closed := true, runtime := None, tunDevice := None, op := Free), s.tunDevice)
    case _ => s
  }

  function FreeNext(p: Params, s: State, step: Step): State {
    match step
    case Cancel => s.(ctxDone := true)
    case ReadLock => if s.op.Free? then s.(readers := s.readers + 1) else s
    case ReadUnlock => if s.readers > 0 then s.(readers := s.readers - 1) else s
    case Enqueue(source, config) =>
      // the node reports configurations of the joined network only
      if s.ctxDone || s.runtime != Some(source) || config.networkID != p.networkID then s
      else s.(latestConfig := config, haveLatest := true)
    case CloserRuns(device) =>
      if device !in s.closing then s
      else CloseNow(s.(closing := s.closing - multiset{device}), Some(device))
    case _ => s
  }

  function InvalidateNext(s: State, step: Step): State {
    match step
    case InvalidateNetwork(source, retryConfig) =>
      if s.ctxDone || (source.Some? && s.runtime != source) then s
      else
        var t := if retryConfig then s else s.(latestConfig := NoConfig, haveLatest := false);
        ToCloser(t.(tunDevice := None, generation := s.generation + 1), s.tunDevice)
    case InvalidateDevice(device) =>
      if s.ctxDone || s.tunDevice != Some(device) then s
      else ToCloser(s.(tunDevice := None), Some(device))
    case _ => s
  }

  function Next(p: Params, s: State, step: Step): State {
    match step
    case Cancel | ReadLock | ReadUnlock | Enqueue(_, _) | CloserRuns(_) => FreeNext(p, s, step)
    case InvalidateNetwork(_, _) | InvalidateDevice(_) => InvalidateNext(s, step)
    case StartLock | StartPublish(_) | StartFinish(_) => StartNext(s, step)
    case RecoverLock(_) | RecoverDetach(_) | RecoverClose(_) => RecoverNext(s, step)
    case CloseLock | CloseDetach => CloseNext(s, step)
    case _ => ApplyNext(p, s, step)
  }

  // ----- invariants -----

  /** What an attempt may rely on from its snapshot until it releases the lock:
      only the device can have gone in the meantime. */
  predicate SnapOk(p: Params, s: State, job: Job, snap: Snapshot) {
    && s.runtime == Some(snap.runtime) && s.config == snap.config
    && (s.tunDevice == snap.device || s.tunDevice.None?) && job.generation <= s.generation
    && job.config.networkID == p.networkID && job.config.addresses != []
    && (snap.device.Some? ==> Restorable(p, snap.config))
  }

  predicate OwnOrReused(p: Params, job: Job, snap: Snapshot, d: nat) {
    ReplaceDevice(p, job, snap) || snap.device == Some(d)
  }

  predicate LinkIs(s: State, runtime: nat, c: NetworkConfig) {
    runtime in s.links && s.links[runtime] == Some(c)
  }

  predicate OpOk(p: Params, s: State) {
    match s.op
    case ApplySnapped(job, snap) => SnapOk(p, s, job, snap)
    case Attempt(stage, job, snap, d) =>
      && SnapOk(p, s, job, snap) && OwnOrReused(p, job, snap, d)
      && (stage == Building ==> ReplaceDevice(p, job, snap))
      && (InFlux(s.op) ==> LinkIs(s, snap.runtime, LinkConfig(p, job.config)))
    case StartPublished(rt) => s.runtime == Some(rt) && s.tunDevice.None?
    case RecoverDetached(rt, device) => s.runtime.None?
    case _ => true
  }

  /** Between reconfiguring the link and settling the attempt. */
  predicate InFlux(op: Op) {
    op.Attempt? && (op.stage == Linked || op.stage == Stale)
  }

  /** The link of the current runtime carries the published configuration with
      its effective MTU exactly when it is not on record as unrestored. */
  predicate LinkMatches(p: Params, s: State) {
    s.tunDevice.Some? && s.runtime.Some? ==>
      (s.runtime.value !in s.unrestored <==> LinkIs(s, s.runtime.value, LinkConfig(p, s.config)))
  }

  predicate ControlOk(p: Params, s: State) {
    && (s.haveLatest ==> s.latestConfig.networkID == p.networkID)
    && (s.tunDevice.Some? ==> s.runtime.Some? && Restorable(p, s.config))
    && (!InFlux(s.op) ==> LinkMatches(p, s))
    && OpOk(p, s)
    && (s.closed ==> s.ctxDone && s.runtime.None?)
    && (s.op.CloseLocked? ==> s.ctxDone)
    && (s.readers > 0 ==> s.op.Free?)
  }

  /** 1 when the lock holder still has to dispose of, or publish, device d. */
  function Held(p: Params, op: Op, d: nat): nat {
    match op
    case Attempt(_, job, snap, e) => if d == e && ReplaceDevice(p, job, snap) then 1 else 0
    case Discarding(e) => if d == e then 1 else 0
    case Replacing(e) => if d == e then 1 else 0
    case RecoverDetached(_, e) => if e == Some(d) then 1 else 0
    case _ => 0
  }

  function Published(s: State, d: nat): nat {
    if s.tunDevice == Some(d) then 1 else 0
  }

  /** The places device d is in, counted. */
  function Places(p: Params, s: State, d: nat): nat {
    Held(p, s.op, d) + Published(s, d) + s.closing[d] + s.closes[d]
  }

  ghost predicate DevicesOk(p: Params, s: State) {
    forall d: nat :: Places(p, s, d) == if d < s.nextDevice then 1 else 0
  }

  ghost predicate Inv(p: Params, s: State) {
    ControlOk(p, s) && DevicesOk(p, s)
  }

  lemma InitialInv(p: Params)
    ensures Inv(p, Initial)
  {
  }

  lemma PlacesOf(p: Params, s: State, d: nat)
    requires DevicesOk(p, s)
    ensures Places(p, s, d) == if d < s.nextDevice then 1 else 0
  {
  }

  lemma SnapStepKeeps(p: Params, s: State, ok: bool)
    requires s.op.ApplyEntered? && Inv(p, s)
    ensures Inv(p, SnapStep(s, ok))
  {
    hide EffectiveMTU, LinkConfig;
    var t := SnapStep(s, ok);
    assert ControlOk(p, t);
    forall d: nat ensures Places(p, t, d) == if d < t.nextDevice then 1 else 0 {
      hide OpOk, LinkMatches;
      PlacesOf(p, s, d);
    }
  }

  lemma DeviceStepKeeps(p: Params, s: State, ok: bool)
    requires s.op.ApplySnapped? && Inv(p, s)
    ensures Inv(p, DeviceStep(p, s, ok))
  {
    hide EffectiveMTU, LinkConfig;
    var t := DeviceStep(p, s, ok);
    assert ControlOk(p, t);
    forall d: nat ensures Places(p, t, d) == if d < t.nextDevice then 1 else 0 {
      hide OpOk, LinkMatches;
      PlacesOf(p, s, d);
    }
  }

  lemma StartStepKeeps(p: Params, s: State, ok: bool)
    requires At(s, Building) && Inv(p, s)
    ensures Inv(p, StartStep(s, ok))
  {
    hide EffectiveMTU, LinkConfig;
    var t := StartStep(s, ok);
    assert ControlOk(p, t);
    forall d: nat ensures Places(p, t, d) == if d < t.nextDevice then 1 else 0 {
      hide OpOk, LinkMatches;
      PlacesOf(p, s, d);
    }
  }

  lemma RecheckStepKeeps(p: Params, s: State)
    requires At(s, Built) && Inv(p, s)
    ensures Inv(p, RecheckStep(p, s))
  {
    hide EffectiveMTU, LinkConfig;
    var t := RecheckStep(p, s);
    assert ControlOk(p, t);
    forall d: nat ensures Places(p, t, d) == if d < t.nextDevice then 1 else 0 {
      hide OpOk, LinkMatches;
      PlacesOf(p, s, d);
    }
  }

  lemma LinkStepKeeps(p: Params, s: State, ok: bool)
    requires At(s, Checked) && Inv(p, s)
    ensures Inv(p, LinkStep(p, s, ok))
  {
    hide EffectiveMTU, LinkConfig;
    var t := LinkStep(p, s, ok);
    assert ControlOk(p, t);
    forall d: nat ensures Places(p, t, d) == if d < t.nextDevice then 1 else 0 {
      hide OpOk, LinkMatches;
      PlacesOf(p, s, d);
    }
  }

  lemma DecideStepKeeps(p: Params, s: State)
    requires At(s, Linked) && Inv(p, s)
    ensures Inv(p, DecideStep(p, s))
  {
    hide EffectiveMTU, LinkConfig;
    var t := DecideStep(p, s);
    assert ControlOk(p, t);
    forall d: nat ensures Places(p, t, d) == if d < t.nextDevice then 1 else 0 {
      hide OpOk, LinkMatches;
      PlacesOf(p, s, d);
    }
  }

  lemma RestoreStepKeeps(p: Params, s: State, ok: bool)
    requires At(s, Stale) && Inv(p, s)
    ensures Inv(p, RestoreStep(p, s, ok))
  {
    hide EffectiveMTU, LinkConfig;
    var t := RestoreStep(p, s, ok);
    assert ControlOk(p, t);
    forall d: nat ensures Places(p, t, d) == if d < t.nextDevice then 1 else 0 {
      hide OpOk, LinkMatches;
      PlacesOf(p, s, d);
    }
  }

  lemma CloseOwnStepKeeps(p: Params, s: State)
    requires (s.op.Discarding? || s.op.Replacing?) && Inv(p, s)
    ensures Inv(p, CloseOwnStep(s))
  {
    hide EffectiveMTU, LinkConfig;
    var t := CloseOwnStep(s);
    assert ControlOk(p, t);
    forall d: nat ensures Places(p, t, d) == if d < t.nextDevice then 1 else 0 {
      hide OpOk, LinkMatches;
      PlacesOf(p, s, d);
    }
  }

  lemma StartKeepsControl(p: Params, s: State, step: Step)
    requires ControlOk(p, s)
    ensures ControlOk(p, StartNext(s, step))
  {
    hide EffectiveMTU, LinkConfig;
  }

  /** A step that touches no device and holds none before or after. */
  lemma SameDevices(p: Params, s: State, t: State)
    requires DevicesOk(p, s) && t.tunDevice == s.tunDevice && t.closing == s.closing && t.closes == s.closes && t.nextDevice == s.nextDevice
    requires forall d: nat :: Held(p, t.op, d) == Held(p, s.op, d)
    ensures DevicesOk(p, t)
  {
    forall d: nat ensures Places(p, t, d) == if d < t.nextDevice then 1 else 0 { PlacesOf(p, s, d); }
  }

  lemma StartTouchesNoDevice(s: State, step: Step)
    ensures var t := StartNext(s, step);
            t.tunDevice == s.tunDevice && t.closing == s.closing && t.closes == s.closes && t.nextDevice == s.nextDevice
  {
    match step
    case StartLock =>
    case StartPublish(ok) =>
    case StartFinish(ok) =>
    case _ =>
  }

  lemma StartHoldsNoDevice(p: Params, s: State, step: Step, d: nat)
    ensures Held(p, StartNext(s, step).op, d) == Held(p, s.op, d)
  {
    hide ReplaceDevice;
    match step
    case StartLock =>
    case StartPublish(ok) =>
    case StartFinish(ok) =>
    case _ =>
  }

  lemma StartKeeps(p: Params, s: State, step: Step)
    requires Inv(p, s)
    ensures Inv(p, StartNext(s, step))
  {
    hide StartNext, ControlOk, DevicesOk, Held;
    StartKeepsControl(p, s, step);
    StartTouchesNoDevice(s, step);
    forall d: nat ensures Held(p, StartNext(s, step).op, d) == Held(p, s.op, d) { StartHoldsNoDevice(p, s, step, d); }
    SameDevices(p, s, StartNext(s, step));
  }

  lemma RecoverKeepsControl(p: Params, s: State, step: Step)
    requires ControlOk(p, s)
    ensures ControlOk(p, RecoverNext(s, step))
  {
    hide EffectiveMTU, LinkConfig;
  }

  lemma RecoverKeepsPlaces(p: Params, s: State, step: Step, d: nat)
    requires DevicesOk(p, s)
    ensures RecoverNext(s, step).nextDevice == s.nextDevice && Places(p, RecoverNext(s, step), d) == Places(p, s, d)
  {
    hide ReplaceDevice, DevicesOk;
    match step
    case RecoverLock(_) =>
    case RecoverDetach(_) =>
    case RecoverClose(_) =>
    case _ =>
  }

  lemma RecoverKeeps(p: Params, s: State, step: Step)
    requires Inv(p, s)
    ensures Inv(p, RecoverNext(s, step))
  {
    hide RecoverNext, ControlOk, Places;
    RecoverKeepsControl(p, s, step);
    forall d: nat ensures Places(p, RecoverNext(s, step), d) == if d < RecoverNext(s, step).nextDevice then 1 else 0 {
      PlacesOf(p, s, d);
      RecoverKeepsPlaces(p, s, step, d);
    }
  }

  lemma CloseKeeps(p: Params, s: State, step: Step)
    requires Inv(p, s)
    ensures Inv(p, CloseNext(s, step))
  {
    hide EffectiveMTU, LinkConfig;
    var t := CloseNext(s, step);
    assert ControlOk(p, t);
    forall d: nat ensures Places(p, t, d) == if d < t.nextDevice then 1 else 0 {
      hide OpOk, LinkMatches;
      PlacesOf(p, s, d);
    }
  }

  lemma FreeKeepsControl(p: Params, s: State, step: Step)
    requires ControlOk(p, s)
    ensures ControlOk(p, FreeNext(p, s, step))
  {
    hide EffectiveMTU, LinkConfig;
    match step
    case Cancel =>
    case ReadLock =>
    case ReadUnlock =>
    case Enqueue(_, _) =>
    case CloserRuns(_) =>
    case _ =>
  }

  lemma FreeKeepsPlaces(p: Params, s: State, step: Step, d: nat)
    requires DevicesOk(p, s)
    ensures FreeNext(p, s, step).nextDevice == s.nextDevice && Places(p, FreeNext(p, s, step), d) == Places(p, s, d)
  {
    hide Held, DevicesOk;
    match step
    case Cancel =>
    case ReadLock =>
    case ReadUnlock =>
    case Enqueue(_, _) =>
    case CloserRuns(_) =>
    case _ =>
  }

  lemma FreeKeeps(p: Params, s: State, step: Step)
    requires Inv(p, s)
    ensures Inv(p, FreeNext(p, s, step))
  {
    hide FreeNext, ControlOk, Places;
    FreeKeepsControl(p, s, step);
    forall d: nat ensures Places(p, FreeNext(p, s, step), d) == if d < FreeNext(p, s, step).nextDevice then 1 else 0 {
      PlacesOf(p, s, d);
      FreeKeepsPlaces(p, s, step, d);
    }
  }

  lemma InvalidateKeepsControl(p: Params, s: State, step: Step)
    requires ControlOk(p, s)
    ensures ControlOk(p, InvalidateNext(s, step))
  {
    hide EffectiveMTU, LinkConfig;
  }

  lemma InvalidateKeeps(p: Params, s: State, step: Step)
    requires Inv(p, s)
    ensures Inv(p, InvalidateNext(s, step))
  {
    hide EffectiveMTU, LinkConfig, OpOk, LinkMatches;
    var t := InvalidateNext(s, step);
    InvalidateKeepsControl(p, s, step);
    forall d: nat ensures Places(p, t, d) == if d < t.nextDevice then 1 else 0 {
      hide OpOk, LinkMatches;
      PlacesOf(p, s, d);
    }
  }

  lemma ApplyKeeps(p: Params, s: State, step: Step)
    requires Inv(p, s)
    ensures Inv(p, ApplyNext(p, s, step))
  {
    hide SnapStep, DeviceStep, StartStep, RecheckStep, LinkStep, DecideStep, RestoreStep, CloseOwnStep, DevicesOk, OpOk, LinkMatches;
    match step
    case ApplySnap(ok) => if s.op.ApplyEntered? { SnapStepKeeps(p, s, ok); }
    case ApplyDevice(ok) => if s.op.ApplySnapped? { DeviceStepKeeps(p, s, ok); }
    case ApplyStart(ok) => if At(s, Building) { StartStepKeeps(p, s, ok); }
    case ApplyRecheck => if At(s, Built) { RecheckStepKeeps(p, s); }
    case ApplyLink(ok) => if At(s, Checked) { LinkStepKeeps(p, s, ok); }
    case ApplyDecide => if At(s, Linked) { DecideStepKeeps(p, s); }
    case ApplyRestore(ok) => if At(s, Stale) { RestoreStepKeeps(p, s, ok); }
    case CloseOwn => if s.op.Discarding? || s.op.Replacing? { CloseOwnStepKeeps(p, s); }
    case ApplyLock(_) => EntryKeeps(p, s, step);
    case ApplyEnter => EntryKeeps(p, s, step);
    case _ =>
  }

  lemma EntryKeeps(p: Params, s: State, step: Step)
    requires Inv(p, s) && (step.ApplyLock? || step.ApplyEnter?)
    ensures Inv(p, ApplyNext(p, s, step))
  {
    var t := ApplyNext(p, s, step);
    assert ControlOk(p, t);
    forall d: nat ensures Places(p, t, d) == if d < t.nextDevice then 1 else 0 {
      PlacesOf(p, s, d);
    }
  }

  /** Every atomic step keeps the invariant. */
  lemma NextKeepsInv(p: Params, s: State, step: Step)
    requires Inv(p, s)
    ensures Inv(p, Next(p, s, step))
  {
    hide Inv, ApplyNext, StartNext, RecoverNext, CloseNext, FreeNext, InvalidateNext;
    ApplyKeeps(p, s, step);
    StartKeeps(p, s, step);
    RecoverKeeps(p, s, step);
    CloseKeeps(p, s, step);
    FreeKeeps(p, s, step);
    InvalidateKeeps(p, s, step);
  }
}
