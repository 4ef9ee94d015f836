/** What the ZeroTier control plane guarantees over every run, in every
    interleaving of its steps. */
module ZeroTierRuns {
  import opened Options
  import opened ZeroTier

  ghost predicate IsRun(p: Params, states: seq<State>, steps: seq<Step>) {
    && |states| == |steps| + 1 && states[0] == Initial
    && forall i, j :: 0 <= i < |steps| && j == i + 1 ==> states[j] == Next(p, states[i], steps[i])
  }

  lemma {:induction false} RunKeepsInv(p: Params, states: seq<State>, steps: seq<Step>, i: nat)
    requires IsRun(p, states, steps) && i < |states|
    ensures Inv(p, states[i])
  {
    hide Inv, Next;
    if i == 0 {
      InitialInv(p);
    } else {
      RunKeepsInv(p, states, steps, i - 1);
      NextKeepsInv(p, states[i - 1], steps[i - 1]);
    }
  }

  // ----- the link and the published configuration -----

  /** Whenever no writer holds operationMu and a device is published, the link
      of the current runtime holds the published configuration with its
      effective MTU if and only if the runtime is not unrestored. */
  lemma PublishedLinkExact(p: Params, states: seq<State>, steps: seq<Step>, i: nat)
    requires IsRun(p, states, steps) && i < |states|
    requires states[i].op.Free? && states[i].tunDevice.Some?
    ensures states[i].runtime.Some? && Restorable(p, states[i].config)
    ensures var rt := states[i].runtime.value;
            LinkIs(states[i], rt, LinkConfig(p, states[i].config)) <==> !Unrestored(p, states, steps, i, rt)
  {
    RunKeepsInv(p, states, steps, i);
    RecordIsHistory(p, states, steps, i, states[i].runtime.value);
  }

  /** A restore of runtime rt that fails and leaves another configuration. */
  predicate FailsRestore(p: Params, s: State, step: Step, rt: nat) {
    && step == ApplyRestore(false) && At(s, Stale) && s.op.snap.runtime == rt && Restorable(p, s.op.snap.config)
    && LinkConfig(p, s.op.job.config) != LinkConfig(p, s.op.snap.config)
  }

  /** A commit on runtime rt, or a restore after which the link is right. */
  predicate Settles(p: Params, s: State, step: Step, rt: nat) {
    || (step == ApplyDecide && At(s, Linked) && s.op.snap.runtime == rt && JobCurrent(s, s.op.job, s.op.snap))
    || (step.ApplyRestore? && At(s, Stale) && s.op.snap.runtime == rt && Restorable(p, s.op.snap.config) &&
        !FailsRestore(p, s, step, rt))
  }

  /** Since the last commit or sound restore on rt, a restore has failed. */
  ghost predicate Unrestored(p: Params, states: seq<State>, steps: seq<Step>, i: nat, rt: nat)
    requires |states| == |steps| + 1 && i < |states|
  {
    exists k :: 0 <= k < i && FailsRestore(p, states[k], steps[k], rt) &&
                forall m :: k < m < i ==> !Settles(p, states[m], steps[m], rt)
  }

  lemma RecordStep(p: Params, s: State, step: Step, rt: nat)
    ensures rt in Next(p, s, step).unrestored <==>
            FailsRestore(p, s, step, rt) || (rt in s.unrestored && !Settles(p, s, step, rt))
  {
    hide ApplyNext, StartNext, RecoverNext, CloseNext, FreeNext, InvalidateNext, JobCurrent, Restorable, LinkConfig;
    ApplyRecordStep(p, s, step, rt);
    EntriesRecordNothing(p, s, step);
  }

  lemma EntriesRecordNothing(p: Params, s: State, step: Step)
    ensures StartNext(s, step).unrestored == RecoverNext(s, step).unrestored == CloseNext(s, step).unrestored == s.unrestored
    ensures FreeNext(p, s, step).unrestored == InvalidateNext(s, step).unrestored == s.unrestored
  {
    hide StartNext, RecoverNext, CloseNext, FreeNext, InvalidateNext;
    StartRecordsNothing(s, step);
    RecoverRecordsNothing(s, step);
    CloseRecordsNothing(s, step);
    FreeRecordsNothing(p, s, step);
  }

  lemma StartRecordsNothing(s: State, step: Step)
    ensures StartNext(s, step).unrestored == s.unrestored
  {
    match step
    case StartLock =>
    case StartPublish(_) =>
    case StartFinish(_) =>
    case _ =>
  }

  lemma RecoverRecordsNothing(s: State, step: Step)
    ensures RecoverNext(s, step).unrestored == s.unrestored
  {
  }

  lemma CloseRecordsNothing(s: State, step: Step)
    ensures CloseNext(s, step).unrestored == s.unrestored
  {
  }

  lemma FreeRecordsNothing(p: Params, s: State, step: Step)
    ensures FreeNext(p, s, step).unrestored == InvalidateNext(s, step).unrestored == s.unrestored
  {
  }

  lemma ApplyRecordStep(p: Params, s: State, step: Step, rt: nat)
    ensures rt in ApplyNext(p, s, step).unrestored <==>
            FailsRestore(p, s, step, rt) || (rt in s.unrestored && !Settles(p, s, step, rt))
  {
    hide EffectiveMTU, LinkConfig, ReplaceDevice, JobCurrent, Restorable, SnapStep, DeviceStep, StartStep, RecheckStep, LinkStep,
         DecideStep, RestoreStep, CloseOwnStep;
    if step == ApplyDecide && At(s, Linked) {
      DecideRecords(p, s, rt);
    } else if step.ApplyRestore? && At(s, Stale) {
      RestoreRecords(p, s, step.ok);
    } else {
      OthersRecordNothing(p, s, step);
    }
  }

  lemma DecideRecords(p: Params, s: State, rt: nat)
    requires At(s, Linked)
    ensures rt in DecideStep(p, s).unrestored <==> rt in s.unrestored && !(s.op.snap.runtime == rt && JobCurrent(s, s.op.job, s.op.snap))
  {
    hide ReplaceDevice, JobCurrent;
  }

  lemma RestoreRecords(p: Params, s: State, ok: bool)
    requires At(s, Stale)
    ensures RestoreStep(p, s, ok).unrestored ==
            var snap := s.op.snap;
            if !Restorable(p, snap.config) then s.unrestored
            else if ok || LinkConfig(p, s.op.job.config) == LinkConfig(p, snap.config) then s.unrestored - {snap.runtime}
            else s.unrestored + {snap.runtime}
  {
    hide Abandon, LinkConfig, Restorable, SameView;
  }

  lemma OthersRecordNothing(p: Params, s: State, step: Step)
    requires !(step == ApplyDecide && At(s, Linked)) && !(step.ApplyRestore? && At(s, Stale))
    ensures ApplyNext(p, s, step).unrestored == s.unrestored
  {
    hide SnapStep, DeviceStep, StartStep, RecheckStep, LinkStep, DecideStep, RestoreStep;
  }

  lemma {:induction false} RecordIsHistory(p: Params, states: seq<State>, steps: seq<Step>, i: nat, rt: nat)
    requires IsRun(p, states, steps) && i < |states|
    ensures rt in states[i].unrestored <==> Unrestored(p, states, steps, i, rt)
  {
    hide Next, FailsRestore, Settles;
    if i > 0 {
      RecordIsHistory(p, states, steps, i - 1, rt);
      RecordStep(p, states[i - 1], steps[i - 1], rt);
    }
  }

  /** With every restore succeeding the match is exact in every interleaving,
      which is what a data-plane reader of operationMu relies on. */
  lemma ReadersSeePublishedLink(p: Params, states: seq<State>, steps: seq<Step>, i: nat)
    requires IsRun(p, states, steps) && i < |states|
    requires forall k :: 0 <= k < i ==> steps[k] != ApplyRestore(false)
    requires states[i].readers > 0 && states[i].tunDevice.Some?
    ensures states[i].op.Free? && states[i].runtime.Some?
    ensures LinkIs(states[i], states[i].runtime.value, LinkConfig(p, states[i].config))
  {
    RunKeepsInv(p, states, steps, i);
    PublishedLinkExact(p, states, steps, i);
  }

  /** The restore is not decoration: when it fails under a device that is still
      published, the lock is released (once an own device is closed) with a
      link that carries the stale configuration instead. */
  lemma FailedRestoreLeavesStaleLink(p: Params, s: State)
    requires Inv(p, s) && At(s, Stale) && s.tunDevice.Some?
    requires LinkConfig(p, s.op.job.config) != LinkConfig(p, s.config)
    ensures var t := Next(p, s, ApplyRestore(false));
            var u := if t.op.Free? then t else Next(p, t, CloseOwn);
            u.op.Free? && u.tunDevice == s.tunDevice && u.runtime == s.runtime &&
            !LinkIs(u, u.runtime.value, LinkConfig(p, u.config))
  {
    assert OpOk(p, s);
  }

  // A run that gets there: configuration "1" is published, the attempt for
  // "2" keeps the device and is overtaken by "3".

  ghost predicate Reachable(p: Params, s: State) {
    exists states, steps :: IsRun(p, states, steps) && states[|steps|] == s
  }

  lemma ReachNext(p: Params, s: State, step: Step, t: State)
    requires Reachable(p, s) && Next(p, s, step) == t
    ensures Reachable(p, t)
  {
    hide Next;
    var states, steps :| IsRun(p, states, steps) && states[|steps|] == s;
    assert IsRun(p, states + [t], steps + [step]);
    assert (states + [t])[|steps + [step]|] == t;
  }

  function Numbered(p: Params, rest: string): NetworkConfig {
    NetworkConfig(p.networkID, ["10.0.0.2/24"], 0, rest)
  }

  function OneDevice(p: Params): map<nat, Blueprint> {
    map[0 := Blueprint(Numbered(p, "1").addresses, EffectiveMTU(p, Numbered(p, "1")))]
  }

  /** The first runtime, which created its one device if `devices` is 1. */
  function Running(p: Params, op: Op, config: NetworkConfig, device: Option<nat>, latest: NetworkConfig, generation: nat,
                   link: Option<NetworkConfig>, devices: nat): State {
    State(false, false, op, 0, Some(0), config, device, latest, latest.rest != "", generation,
          map[0 := link], {}, 1, devices, multiset{}, multiset{}, if devices == 0 then map[] else OneDevice(p))
  }

  lemma RuntimeStarts(p: Params)
    ensures Reachable(p, Running(p, Free, NoConfig, None, NoConfig, 1, None, 0))
  {
    assert IsRun(p, [Initial], []);
    ReachNext(p, Initial, StartLock, Initial.(op := StartLocked));
    var s := Running(p, StartPublished(0), NoConfig, None, NoConfig, 1, None, 0);
    ReachNext(p, Initial.(op := StartLocked), StartPublish(true), s);
    ReachNext(p, s, StartFinish(true), s.(op := Free));
  }

  /** The state in which an attempt for `next` is, over a published device or none. */
  function Attempting(p: Params, stage: Stage, before: State, job: Job): State {
    var snap := Snapshot(0, before.tunDevice, before.config);
    before.(op := Attempt(stage, job, snap, 0), nextDevice := 1, built := OneDevice(p),
            links := if stage == Linked || stage == Stale then map[0 := Some(LinkConfig(p, job.config))] else before.links)
  }

  lemma AttemptSnaps(p: Params, config: NetworkConfig, device: Option<nat>, next: NetworkConfig, generation: nat,
                     link: Option<NetworkConfig>, devices: nat)
    requires next.rest != "" && next.addresses != [] && next.networkID == p.networkID
    requires Reachable(p, Running(p, Free, config, device, next, generation, link, devices))
    ensures Reachable(p, Running(p, ApplySnapped(Job(next, generation), Snapshot(0, device, config)), config, device, next, generation, link, devices))
  {
    var s := Running(p, Free, config, device, next, generation, link, devices);
    var job := Job(next, generation);
    ReachNext(p, s, ApplyLock(job), s.(op := ApplyLocked(job)));
    ReachNext(p, s.(op := ApplyLocked(job)), ApplyEnter, s.(op := ApplyEntered(job)));
    ReachNext(p, s.(op := ApplyEntered(job)), ApplySnap(true), s.(op := ApplySnapped(job, Snapshot(0, device, config))));
  }

  lemma AttemptLinks(p: Params, before: State, job: Job)
    requires before.op.Free? && before.links.Keys == {0} && before.runtime == Some(0)
    requires before.generation == job.generation && before.haveLatest && before.latestConfig == job.config
    requires Reachable(p, Attempting(p, Built, before, job))
    ensures Reachable(p, Attempting(p, Linked, before, job))
  {
    hide ReplaceDevice, EffectiveMTU, LinkConfig;
    ReachNext(p, Attempting(p, Built, before, job), ApplyRecheck, Attempting(p, Checked, before, job));
    assert before.links[0 := Some(LinkConfig(p, job.config))] == map[0 := Some(LinkConfig(p, job.config))];
    ReachNext(p, Attempting(p, Checked, before, job), ApplyLink(true), Attempting(p, Linked, before, job));
  }

  lemma FirstIsPublished(p: Params)
    ensures Reachable(p, Running(p, Free, Numbered(p, "1"), Some(0), Numbered(p, "1"), 2, Some(LinkConfig(p, Numbered(p, "1"))), 1))
  {
    hide EffectiveMTU, LinkConfig;
    var one := Numbered(p, "1");
    RuntimeStarts(p);
    var s := Running(p, Free, NoConfig, None, one, 1, None, 0);
    ReachNext(p, Running(p, Free, NoConfig, None, NoConfig, 1, None, 0), Enqueue(0, one), s);
    AttemptSnaps(p, NoConfig, None, one, 1, None, 0);
    var job := Job(one, 1);
    ReachNext(p, s.(op := ApplySnapped(job, Snapshot(0, None, NoConfig))), ApplyDevice(true), Attempting(p, Building, s, job));
    ReachNext(p, Attempting(p, Building, s, job), ApplyStart(true), Attempting(p, Built, s, job));
    AttemptLinks(p, s, job);
    ReachNext(p, Attempting(p, Linked, s, job), ApplyDecide, Running(p, Free, one, Some(0), one, 2, Some(LinkConfig(p, one)), 1));
  }

  lemma SecondIsLinked(p: Params)
    ensures var s := Running(p, Free, Numbered(p, "1"), Some(0), Numbered(p, "2"), 2, Some(LinkConfig(p, Numbered(p, "1"))), 1);
            Reachable(p, Attempting(p, Linked, s, Job(Numbered(p, "2"), 2)))
  {
    var one, two := Numbered(p, "1"), Numbered(p, "2");
    FirstIsPublished(p);
    var link := Some(LinkConfig(p, one));
    assert EffectiveMTU(p, one) == EffectiveMTU(p, two);
    hide EffectiveMTU, LinkConfig;
    var s := Running(p, Free, one, Some(0), two, 2, link, 1);
    var job := Job(two, 2);
    ReachNext(p, Running(p, Free, one, Some(0), one, 2, link, 1), Enqueue(0, two), s);
    AttemptSnaps(p, one, Some(0), two, 2, link, 1);
    ReachNext(p, s.(op := ApplySnapped(job, Snapshot(0, Some(0), one))), ApplyDevice(true), Attempting(p, Built, s, job));
    AttemptLinks(p, s, job);
  }

  lemma SecondIsOvertaken(p: Params)
    ensures var s := Running(p, Free, Numbered(p, "1"), Some(0), Numbered(p, "3"), 2, Some(LinkConfig(p, Numbered(p, "1"))), 1);
            Reachable(p, Attempting(p, Stale, s, Job(Numbered(p, "2"), 2)))
  {
    SecondIsLinked(p);
    hide EffectiveMTU, LinkConfig, ReplaceDevice;
    var s := Running(p, Free, Numbered(p, "1"), Some(0), Numbered(p, "2"), 2, Some(LinkConfig(p, Numbered(p, "1"))), 1);
    var t := s.(latestConfig := Numbered(p, "3"));
    var job := Job(Numbered(p, "2"), 2);
    ReachNext(p, Attempting(p, Linked, s, job), Enqueue(0, Numbered(p, "3")), Attempting(p, Linked, t, job));
    ReachNext(p, Attempting(p, Linked, t, job), ApplyDecide, Attempting(p, Stale, t, job));
  }

  /** Whatever the options, some run ends with the lock free over a published
      device whose link does not hold the published configuration. */
  lemma SomeRunLeavesStaleLink(p: Params)
    ensures exists s :: Reachable(p, s) && s.op.Free? && s.tunDevice.Some? && s.runtime.Some? &&
                        !LinkIs(s, s.runtime.value, LinkConfig(p, s.config))
  {
    SecondIsOvertaken(p);
    var one, two := Numbered(p, "1"), Numbered(p, "2");
    var s := Running(p, Free, one, Some(0), Numbered(p, "3"), 2, Some(LinkConfig(p, one)), 1);
    assert LinkConfig(p, one).rest != LinkConfig(p, two).rest;
    assert EffectiveMTU(p, one) == EffectiveMTU(p, two);
    hide EffectiveMTU, LinkConfig;
    var t := s.(unrestored := {0}, links := map[0 := Some(LinkConfig(p, two))]);
    ReachNext(p, Attempting(p, Stale, s, Job(two, 2)), ApplyRestore(false), t);
    assert !LinkIs(t, 0, LinkConfig(p, t.config));
  }

  /** A stale attempt under a device that is still published puts the old
      configuration back. */
  lemma StaleAttemptRestores(p: Params, s: State)
    requires Inv(p, s) && At(s, Stale) && s.tunDevice.Some?
    ensures var t := Next(p, s, ApplyRestore(true));
            t.config == s.op.snap.config == s.config && t.tunDevice == s.tunDevice &&
            LinkIs(t, s.op.snap.runtime, LinkConfig(p, s.op.snap.config))
  {
    assert OpOk(p, s);
  }

  // ----- commits -----

  predicate InAttempt(op: Op, job: Job, snap: Snapshot) {
    (op.ApplySnapped? || op.Attempt?) && op.job == job && op.snap == snap
  }

  /** What can happen between two steps of one attempt. */
  predicate Frozen(s: State, t: State) {
    && t.runtime == s.runtime && t.config == s.config && s.generation <= t.generation
    && (t.tunDevice == s.tunDevice || t.tunDevice.None?)
  }

  lemma ApplyFreezes(p: Params, s: State, step: Step, job: Job, snap: Snapshot)
    requires InAttempt(s.op, job, snap) && InAttempt(ApplyNext(p, s, step).op, job, snap)
    ensures Frozen(s, ApplyNext(p, s, step))
  {
    hide SnapStep, DeviceStep, StartStep, RecheckStep, LinkStep, RestoreStep, EffectiveMTU, ReplaceDevice;
  }

  lemma OthersFreeze(p: Params, s: State, step: Step, job: Job, snap: Snapshot)
    requires InAttempt(s.op, job, snap)
    ensures Frozen(s, StartNext(s, step)) && Frozen(s, RecoverNext(s, step)) && Frozen(s, CloseNext(s, step))
    ensures Frozen(s, FreeNext(p, s, step)) && Frozen(s, InvalidateNext(s, step))
  {
    hide ToCloser, CloseNow;
  }

  /** While one attempt is under way nobody publishes anything. */
  lemma AttemptFreezes(p: Params, s: State, step: Step, job: Job, snap: Snapshot)
    requires InAttempt(s.op, job, snap) && InAttempt(Next(p, s, step).op, job, snap)
    ensures Frozen(s, Next(p, s, step))
  {
    hide ApplyNext, StartNext, RecoverNext, CloseNext, FreeNext, InvalidateNext, Frozen;
    OthersFreeze(p, s, step, job, snap);
    if InAttempt(ApplyNext(p, s, step).op, job, snap) {
      ApplyFreezes(p, s, step, job, snap);
    }
  }

  lemma AttemptBounds(p: Params, s: State, job: Job, snap: Snapshot)
    requires Inv(p, s) && InAttempt(s.op, job, snap)
    ensures s.runtime == Some(snap.runtime) && s.config == snap.config && job.generation <= s.generation
    ensures s.tunDevice == snap.device || s.tunDevice.None?
  {
    assert OpOk(p, s);
  }

  ghost predicate Committed(s: State, t: State) {
    At(s, Linked) && t.tunDevice == Some(s.op.device) && t.config == s.op.job.config && t.generation == s.generation + 1
  }

  /** A commit publishes exactly when the snapshot is still current. */
  lemma CommitIffCurrent(p: Params, s: State)
    requires Inv(p, s) && At(s, Linked)
    ensures JobCurrent(s, s.op.job, s.op.snap) <==> Committed(s, Next(p, s, ApplyDecide))
    ensures !JobCurrent(s, s.op.job, s.op.snap) ==> Next(p, s, ApplyDecide) == s.(op := s.op.(stage := Stale))
  {
  }

  /** Between its snapshot and its commit an attempt saw one runtime, one
      generation, one published device and one published configuration, and at
      the commit its configuration was still the latest one. */
  lemma CommitFromUnchangedSnapshot(p: Params, states: seq<State>, steps: seq<Step>, i: nat, j: nat, job: Job, snap: Snapshot)
    requires IsRun(p, states, steps) && i <= j < |steps|
    requires forall k :: i <= k <= j ==> InAttempt(states[k].op, job, snap)
    requires At(states[j], Linked) && steps[j] == ApplyDecide && Committed(states[j], states[j + 1])
    ensures forall k :: i <= k <= j ==>
              states[k].runtime == Some(snap.runtime) && states[k].generation == job.generation &&
              states[k].tunDevice == snap.device && states[k].config == snap.config
    ensures states[j].haveLatest && states[j].latestConfig == job.config
    ensures LinkIs(states[j + 1], snap.runtime, LinkConfig(p, job.config))
  {
    RunKeepsInv(p, states, steps, j);
    RunKeepsInv(p, states, steps, j + 1);
    CommitIffCurrent(p, states[j]);
    assert OpOk(p, states[j]);
    forall k | i <= k <= j
      ensures states[k].runtime == Some(snap.runtime) && states[k].generation == job.generation &&
              states[k].tunDevice == snap.device && states[k].config == snap.config
    {
      UnchangedBefore(p, states, steps, k, j, job, snap);
    }
  }

  /** The step found a current runtime and went ahead. */
  predicate Invalidates(s: State, step: Step) {
    step.InvalidateNetwork? && !s.ctxDone && (step.only.None? || s.runtime == step.only)
  }

  /** An attempt during which the network was invalidated, the device was
      taken away or another configuration came in last never commits. */
  lemma InterferenceDefeatsAttempt(p: Params, states: seq<State>, steps: seq<Step>, i: nat, k: nat, j: nat, job: Job, snap: Snapshot)
    requires IsRun(p, states, steps) && i <= k < j < |steps|
    requires forall m :: i <= m <= j ==> InAttempt(states[m].op, job, snap)
    requires At(states[j], Linked) && steps[j] == ApplyDecide
    requires Invalidates(states[k], steps[k]) || states[k].tunDevice != snap.device || states[j].latestConfig != job.config
    ensures !Committed(states[j], states[j + 1]) && states[j + 1].op.Attempt? && states[j + 1].op.stage == Stale
  {
    hide Inv, Next;
    assert states[j + 1] == Next(p, states[j], steps[j]) && states[k + 1] == Next(p, states[k], steps[k]);
    RunKeepsInv(p, states, steps, j);
    CommitIffCurrent(p, states[j]);
    InvalidationBumps(p, states[k], steps[k]);
    if Committed(states[j], states[j + 1]) {
      CommitFromUnchangedSnapshot(p, states, steps, i, j, job, snap);
    }
  }

  lemma InvalidationBumps(p: Params, s: State, step: Step)
    ensures Invalidates(s, step) ==> Next(p, s, step).generation == s.generation + 1
  {
  }

  lemma {:induction false} UnchangedBefore(p: Params, states: seq<State>, steps: seq<Step>, k: nat, j: nat, job: Job, snap: Snapshot)
    requires IsRun(p, states, steps) && k <= j < |steps|
    requires forall m :: k <= m <= j ==> InAttempt(states[m].op, job, snap)
    requires JobCurrent(states[j], job, snap)
    ensures states[k].runtime == Some(snap.runtime) && states[k].config == snap.config
    ensures states[k].generation == job.generation && states[k].tunDevice == snap.device
    decreases j - k
  {
    hide Inv, Next;
    RunKeepsInv(p, states, steps, k);
    AttemptBounds(p, states[k], job, snap);
    if k < j {
      UnchangedBefore(p, states, steps, k + 1, j, job, snap);
      AttemptFreezes(p, states[k], steps[k], job, snap);
    }
  }

  // ----- device ownership -----

  /** Every device ever created is in exactly one place: with the attempt that
      builds it, published, with one closer, or closed.  In particular none is
      closed twice and none is lost. */
  lemma EveryDeviceInOnePlace(p: Params, states: seq<State>, steps: seq<Step>, i: nat, d: nat)
    requires IsRun(p, states, steps) && i < |states|
    ensures Held(p, states[i].op, d) + Published(states[i], d) + states[i].closing[d] + states[i].closes[d]
            == if d < states[i].nextDevice then 1 else 0
    ensures states[i].closes[d] <= 1
  {
    RunKeepsInv(p, states, steps, i);
    PlacesOf(p, states[i], d);
  }

  /** Once Close has gone through and the background closers have run, every
      device that was ever created has been closed exactly once. */
  lemma ShutdownClosesEverything(p: Params, states: seq<State>, steps: seq<Step>, i: nat, d: nat)
    requires IsRun(p, states, steps) && i < |states|
    requires states[i].closed && states[i].op.Free? && states[i].closing == multiset{}
    ensures states[i].runtime.None? && states[i].tunDevice.None?
    ensures d < states[i].nextDevice ==> states[i].closes[d] == 1
  {
    RunKeepsInv(p, states, steps, i);
    PlacesOf(p, states[i], d);
  }

  lemma ClosedStays(p: Params, s: State, step: Step, d: nat)
    requires d in s.closes
    ensures d in Next(p, s, step).closes
  {
    hide ApplyNext, StartNext, RecoverNext, CloseNext, FreeNext, InvalidateNext;
    ApplyKeepsClosed(p, s, step, d);
    EntriesKeepClosed(s, step, d);
    OthersKeepClosed(p, s, step, d);
  }

  lemma ApplyKeepsClosed(p: Params, s: State, step: Step, d: nat)
    requires d in s.closes
    ensures d in ApplyNext(p, s, step).closes
  {
    hide SnapStep, DeviceStep, StartStep, RecheckStep, LinkStep, RestoreStep, EffectiveMTU, ReplaceDevice, JobCurrent;
    match step
    case ApplyDecide =>
    case CloseOwn =>
    case _ =>
  }

  lemma EntriesKeepClosed(s: State, step: Step, d: nat)
    requires d in s.closes
    ensures d in StartNext(s, step).closes && d in RecoverNext(s, step).closes && d in CloseNext(s, step).closes
  {
    match step
    case StartLock =>
    case StartPublish(_) =>
    case StartFinish(_) =>
    case RecoverLock(_) =>
    case RecoverDetach(_) =>
    case RecoverClose(_) =>
    case CloseLock =>
    case CloseDetach =>
    case _ =>
  }

  lemma OthersKeepClosed(p: Params, s: State, step: Step, d: nat)
    requires d in s.closes
    ensures d in FreeNext(p, s, step).closes && d in InvalidateNext(s, step).closes
  {
  }

  /** A closed device is never handed out again. */
  lemma {:induction false} ClosedForGood(p: Params, states: seq<State>, steps: seq<Step>, i: nat, j: nat, d: nat)
    requires IsRun(p, states, steps) && i <= j < |states| && d in states[i].closes
    ensures d in states[j].closes && states[j].tunDevice != Some(d) && d !in states[j].closing
  {
    hide Inv, Next;
    EveryDeviceInOnePlace(p, states, steps, j, d);
    if i < j {
      ClosedForGood(p, states, steps, i, j - 1, d);
      ClosedStays(p, states[j - 1], steps[j - 1], d);
    }
  }

  // ----- the effective MTU -----

  /** With the limits the constructor enforces, the effective MTU lies between
      them and never exceeds the configured one, and telling the link about it
      changes nothing when it is computed again. */
  lemma EffectiveMTUInRange(p: Params, c: NetworkConfig)
    requires 0 < p.minMTU <= p.defaultMTU <= p.maxMTU
    requires p.optionMTU != 0 ==> p.minMTU <= p.optionMTU <= p.maxMTU
    ensures p.minMTU <= EffectiveMTU(p, c) <= p.maxMTU
    ensures p.optionMTU != 0 ==> EffectiveMTU(p, c) <= p.optionMTU
    ensures EffectiveMTU(p, LinkConfig(p, c)) == EffectiveMTU(p, c)
  {
  }

  /** It is the network's own MTU (the default if it has none) whenever that is
      allowed, and otherwise the nearest value that is. */
  lemma EffectiveMTUIsNearest(p: Params, c: NetworkConfig, allowed: nat)
    requires 0 < p.minMTU <= p.defaultMTU <= p.maxMTU
    requires p.optionMTU != 0 ==> p.minMTU <= p.optionMTU <= p.maxMTU
    requires p.minMTU <= allowed <= p.maxMTU && (p.optionMTU != 0 ==> allowed <= p.optionMTU)
    ensures var wanted := if c.mtu == 0 then p.defaultMTU else c.mtu;
            var e := EffectiveMTU(p, c);
            (allowed <= wanted ==> allowed <= e <= wanted) && (wanted <= allowed ==> wanted <= e <= allowed)
  {
  }
}
