/** What an operation of the ZeroTier control plane achieves when nothing
    interferes and no call fails: an attempt publishes the latest
    configuration, a start yields a fresh runtime, a recovery replaces it, and
    Close ends everything. */
module ZeroTierProgress {
  import opened Options
  import opened ZeroTier
  import opened ZeroTierRuns
  import opened ZeroTierDevices

  /** The state after a list of steps. */
  function After(p: Params, s: State, steps: seq<Step>): State
    decreases |steps|
  {
    if steps == [] then s else After(p, Next(p, s, steps[0]), steps[1..])
  }

  lemma AfterThree(p: Params, s: State, a: Step, b: Step, c: Step)
    ensures After(p, s, [a, b, c]) == Next(p, Next(p, Next(p, s, a), b), c)
  {
    hide Next;
    assert [a, b, c][1..] == [b, c] && [b, c][1..] == [c] && [c][1..] == [];
    var t := Next(p, s, a);
    assert After(p, Next(p, t, b), [c]) == After(p, Next(p, Next(p, t, b), c), []);
    assert After(p, t, [b, c]) == After(p, Next(p, t, b), [c]);
  }

  lemma {:induction false} AfterConcat(p: Params, s: State, a: seq<Step>, b: seq<Step>)
    ensures After(p, s, a + b) == After(p, After(p, s, a), b)
    decreases |a|
  {
    hide Next;
    if a == [] {
      assert a + b == b;
    } else {
      assert (a + b)[0] == a[0] && (a + b)[1..] == a[1..] + b;
      AfterConcat(p, Next(p, s, a[0]), a[1..], b);
    }
  }

  lemma AfterOne(p: Params, s: State, a: Step)
    ensures After(p, s, [a]) == Next(p, s, a)
  {
    hide Next;
    assert [a][1..] == [];
    assert After(p, Next(p, s, a), []) == Next(p, s, a);
  }

  // ----- an undisturbed attempt -----

  /** Nobody holds operationMu and the outbound is in use. */
  predicate Idle(s: State) {
    s.op.Free? && s.readers == 0 && !s.ctxDone && !s.closed
  }

  /** The device in use, if any, does not serve the new configuration. */
  predicate NeedsDevice(p: Params, s: State, c: NetworkConfig) {
    s.tunDevice.None? || s.config.addresses != c.addresses || EffectiveMTU(p, s.config) != EffectiveMTU(p, c)
  }

  function LatestJob(s: State): Job {
    Job(s.latestConfig, s.generation)
  }

  function SnapshotOf(s: State): Snapshot
    requires s.runtime.Some?
  {
    Snapshot(s.runtime.value, s.tunDevice, s.config)
  }

  predicate HasConfig(s: State) {
    s.runtime.Some? && s.haveLatest && s.latestConfig.addresses != []
  }

  lemma AttemptBegins(p: Params, s: State)
    requires Idle(s) && HasConfig(s)
    ensures After(p, s, [ApplyLock(LatestJob(s)), ApplyEnter, ApplySnap(true)]) == s.(op := ApplySnapped(LatestJob(s), SnapshotOf(s)))
  {
    var job := LatestJob(s);
    assert Next(p, s, ApplyLock(job)) == s.(op := ApplyLocked(job));
    assert Next(p, s.(op := ApplyLocked(job)), ApplyEnter) == s.(op := ApplyEntered(job));
    assert Next(p, s.(op := ApplyEntered(job)), ApplySnap(true)) == s.(op := ApplySnapped(job, SnapshotOf(s)));
    AfterThree(p, s, ApplyLock(job), ApplyEnter, ApplySnap(true));
  }

  /** s with an attempt for its latest configuration in a stage, on device d. */
  function Trying(s: State, stage: Stage, d: nat): State
    requires s.runtime.Some?
  {
    s.(op := Attempt(stage, LatestJob(s), SnapshotOf(s), d))
  }

  /** s after a device has been created for its latest configuration. */
  function WithDevice(p: Params, s: State): State {
    s.(nextDevice := s.nextDevice + 1,
       built := s.built[s.nextDevice := Blueprint(s.latestConfig.addresses, EffectiveMTU(p, s.latestConfig))])
  }

  lemma AttemptBuilds(p: Params, s: State)
    requires Idle(s) && HasConfig(s) && NeedsDevice(p, s, s.latestConfig)
    ensures After(p, s.(op := ApplySnapped(LatestJob(s), SnapshotOf(s))), [ApplyDevice(true), ApplyStart(true), ApplyRecheck]) ==
            Trying(WithDevice(p, s), Checked, s.nextDevice)
  {
    hide EffectiveMTU;
    var a := s.(op := ApplySnapped(LatestJob(s), SnapshotOf(s)));
    var t := WithDevice(p, s);
    assert Next(p, a, ApplyDevice(true)) == Trying(t, Building, s.nextDevice);
    assert Next(p, Trying(t, Building, s.nextDevice), ApplyStart(true)) == Trying(t, Built, s.nextDevice);
    assert Next(p, Trying(t, Built, s.nextDevice), ApplyRecheck) == Trying(t, Checked, s.nextDevice);
    AfterThree(p, a, ApplyDevice(true), ApplyStart(true), ApplyRecheck);
  }

  lemma AttemptReuses(p: Params, s: State)
    requires Idle(s) && HasConfig(s) && !NeedsDevice(p, s, s.latestConfig)
    ensures After(p, s.(op := ApplySnapped(LatestJob(s), SnapshotOf(s))), [ApplyDevice(true), ApplyStart(true), ApplyRecheck]) ==
            Trying(s, Checked, s.tunDevice.value)
  {
    hide EffectiveMTU;
    var a := s.(op := ApplySnapped(LatestJob(s), SnapshotOf(s)));
    var d := s.tunDevice.value;
    assert Next(p, a, ApplyDevice(true)) == Trying(s, Built, d);
    assert Next(p, Trying(s, Built, d), ApplyStart(true)) == Trying(s, Built, d);
    assert Next(p, Trying(s, Built, d), ApplyRecheck) == Trying(s, Checked, d);
    AfterThree(p, a, ApplyDevice(true), ApplyStart(true), ApplyRecheck);
  }

  /** What a commit of the latest configuration on device d leaves behind. */
  predicate Publishes(p: Params, s: State, t: State, d: nat)
    requires s.runtime.Some?
  {
    && t.op.Free? && t.runtime == s.runtime && t.config == s.latestConfig && t.tunDevice == Some(d)
    && t.generation == s.generation + 1 && t.latestConfig == s.latestConfig && t.haveLatest && t.built == s.built
    && LinkIs(t, s.runtime.value, LinkConfig(p, s.latestConfig)) && t.closing == s.closing
  }

  lemma AttemptEnds(p: Params, s: State, d: nat)
    requires Idle(s) && HasConfig(s)
    ensures var t := After(p, Trying(s, Checked, d), [ApplyLink(true), ApplyDecide, CloseOwn]);
            && Publishes(p, s, t, d)
            && t.closes == s.closes + if NeedsDevice(p, s, s.latestConfig) && s.tunDevice.Some? then multiset{s.tunDevice.value} else multiset{}
  {
    hide EffectiveMTU, LinkConfig;
    var a := Trying(s, Checked, d);
    var b := Trying(s, Linked, d).(links := s.links[s.runtime.value := Some(LinkConfig(p, s.latestConfig))]);
    assert Next(p, a, ApplyLink(true)) == b;
    var c := Next(p, b, ApplyDecide);
    assert c.config == s.latestConfig && c.tunDevice == Some(d);
    AfterThree(p, a, ApplyLink(true), ApplyDecide, CloseOwn);
  }

  /** The steps of one undisturbed attempt; those that do not apply do nothing. */
  function AttemptSteps(s: State): seq<Step> {
    [ApplyLock(LatestJob(s)), ApplyEnter, ApplySnap(true)] + [ApplyDevice(true), ApplyStart(true), ApplyRecheck] +
    [ApplyLink(true), ApplyDecide, CloseOwn]
  }

  /** An undisturbed attempt publishes the latest configuration: on the old
      device exactly when addresses and effective MTU are unchanged, else on a
      new one built for it, with the old one closed. */
  lemma UndisturbedAttemptCommits(p: Params, s: State)
    requires Idle(s) && HasConfig(s)
    ensures var t := After(p, s, AttemptSteps(s));
            && t.op.Free? && t.runtime == s.runtime && t.config == s.latestConfig && t.generation == s.generation + 1
            && LinkIs(t, s.runtime.value, LinkConfig(p, s.latestConfig))
            && (if NeedsDevice(p, s, s.latestConfig)
                then t.tunDevice == Some(s.nextDevice) && BuiltFor(p, t, s.nextDevice, s.latestConfig)
                else t.tunDevice == s.tunDevice && t.built == s.built)
            && (NeedsDevice(p, s, s.latestConfig) && s.tunDevice.Some? ==> t.closes == s.closes + multiset{s.tunDevice.value})
  {
    hide EffectiveMTU, LinkConfig, Next, After;
    var a, b := [ApplyLock(LatestJob(s)), ApplyEnter, ApplySnap(true)], [ApplyDevice(true), ApplyStart(true), ApplyRecheck];
    var c := [ApplyLink(true), ApplyDecide, CloseOwn];
    AfterConcat(p, s, a + b, c);
    AfterConcat(p, s, a, b);
    AttemptBegins(p, s);
    if NeedsDevice(p, s, s.latestConfig) {
      AttemptBuilds(p, s);
      AttemptEnds(p, WithDevice(p, s), s.nextDevice);
    } else {
      AttemptReuses(p, s);
      AttemptEnds(p, s, s.tunDevice.value);
    }
  }

  // ----- starting, recovering, closing -----

  /** A start without a runtime yields one that never existed before, with no
      configuration and an unconfigured link. */
  lemma StartYieldsRuntime(p: Params, s: State)
    requires Idle(s) && s.runtime.None?
    ensures var t := After(p, s, [StartLock, StartPublish(true), StartFinish(true)]);
            && t.op.Free? && t.runtime == Some(s.nextRuntime) && t.nextRuntime == s.nextRuntime + 1 && !t.haveLatest
            && t.generation == s.generation + 1 && t.links == s.links[s.nextRuntime := None] && t.tunDevice == s.tunDevice
  {
    AfterThree(p, s, StartLock, StartPublish(true), StartFinish(true));
  }

  /** A start that fails after publishing its runtime withdraws it. */
  lemma FailedStartWithdraws(p: Params, s: State)
    requires Idle(s) && s.runtime.None?
    ensures var t := After(p, s, [StartLock, StartPublish(true), StartFinish(false)]);
            t.op.Free? && t.runtime.None? && t.nextRuntime == s.nextRuntime + 1
  {
    AfterThree(p, s, StartLock, StartPublish(true), StartFinish(false));
  }

  /** Recovery from an identity collision of the current runtime closes its
      device and restarts with a fresh runtime. */
  lemma RecoveryReplacesRuntime(p: Params, s: State, rt: nat)
    requires Idle(s) && s.runtime == Some(rt)
    ensures var t := After(p, s, [RecoverLock(rt), RecoverDetach(true), RecoverClose(true)] + [StartPublish(true), StartFinish(true)]);
            && t.op.Free? && t.runtime == Some(s.nextRuntime) && t.tunDevice.None? && !t.haveLatest && t.config == NoConfig
            && t.closes == s.closes + (if s.tunDevice.Some? then multiset{s.tunDevice.value} else multiset{})
  {
    hide Next, After;
    var a, b := [RecoverLock(rt), RecoverDetach(true), RecoverClose(true)], [StartPublish(true), StartFinish(true)];
    AfterConcat(p, s, a, b);
    RecoveryDetaches(p, s, rt);
    RestartPublishes(p, After(p, s, a));
  }

  lemma RecoveryDetaches(p: Params, s: State, rt: nat)
    requires Idle(s) && s.runtime == Some(rt)
    ensures var t := After(p, s, [RecoverLock(rt), RecoverDetach(true), RecoverClose(true)]);
            && t.op == StartLocked && !t.closed && !t.ctxDone && t.runtime.None? && t.tunDevice.None? && t.nextRuntime == s.nextRuntime
            && t.closes == s.closes + (if s.tunDevice.Some? then multiset{s.tunDevice.value} else multiset{})
  {
    AfterThree(p, s, RecoverLock(rt), RecoverDetach(true), RecoverClose(true));
  }

  lemma RestartPublishes(p: Params, s: State)
    requires s.op == StartLocked && !s.closed && !s.ctxDone && s.runtime.None?
    ensures var t := After(p, s, [StartPublish(true), StartFinish(true)]);
            && t.op.Free? && t.runtime == Some(s.nextRuntime) && t.tunDevice == s.tunDevice && !t.haveLatest
            && t.config == NoConfig && t.closes == s.closes
  {
    hide After;
    var t := Next(p, s, StartPublish(true));
    assert t.op == StartPublished(s.nextRuntime) && t.runtime == Some(s.nextRuntime);
    assert [StartPublish(true)] + [StartFinish(true)] == [StartPublish(true), StartFinish(true)];
    AfterConcat(p, s, [StartPublish(true)], [StartFinish(true)]);
    AfterOne(p, s, StartPublish(true));
    AfterOne(p, t, StartFinish(true));
  }

  /** Without a restart, as for a configured identity, nothing is left of the
      old runtime. */
  lemma RecoveryLeavesNothing(p: Params, s: State, rt: nat)
    requires Idle(s) && s.runtime == Some(rt)
    ensures var t := After(p, s, [RecoverLock(rt), RecoverDetach(true), RecoverClose(false)]);
            && t.op.Free? && t.runtime.None? && t.tunDevice.None? && !t.haveLatest && t.config == NoConfig && t.generation == s.generation + 1
            && t.closes == s.closes + (if s.tunDevice.Some? then multiset{s.tunDevice.value} else multiset{})
  {
    AfterThree(p, s, RecoverLock(rt), RecoverDetach(true), RecoverClose(false));
  }

  /** A collision report of any other runtime or address changes nothing. */
  lemma RetiredCollisionIsIgnored(p: Params, s: State, rt: nat, matches: bool, restart: bool)
    requires Idle(s) && (s.runtime != Some(rt) || !matches)
    ensures After(p, s, [RecoverLock(rt), RecoverDetach(matches), RecoverClose(restart)]) == s
  {
    AfterThree(p, s, RecoverLock(rt), RecoverDetach(matches), RecoverClose(restart));
  }

  /** Neither does an invalidation by a runtime or of a device not in use. */
  lemma RetiredInvalidationIsIgnored(p: Params, s: State, rt: nat, retryConfig: bool, d: nat)
    ensures s.runtime != Some(rt) ==> Next(p, s, InvalidateNetwork(Some(rt), retryConfig)) == s
    ensures s.tunDevice != Some(d) ==> Next(p, s, InvalidateDevice(d)) == s
  {
  }

  /** A start while a runtime is there keeps it. */
  lemma StartKeepsRuntime(p: Params, s: State, ok: bool, fine: bool)
    requires Idle(s) && s.runtime.Some?
    ensures After(p, s, [StartLock, StartPublish(ok), StartFinish(fine)]) == s
  {
    AfterThree(p, s, StartLock, StartPublish(ok), StartFinish(fine));
  }

  /** Close cancels, detaches the runtime and hands the device to a closer. */
  lemma CloseEndsEverything(p: Params, s: State)
    requires Idle(s)
    ensures var t := After(p, s, [Cancel, CloseLock, CloseDetach]);
            && t.op.Free? && t.closed && t.ctxDone && t.runtime.None? && t.tunDevice.None? && !t.haveLatest
            && t.closing == s.closing + (if s.tunDevice.Some? then multiset{s.tunDevice.value} else multiset{})
  {
    AfterThree(p, s, Cancel, CloseLock, CloseDetach);
  }

  lemma CloserCloses(p: Params, s: State, d: nat)
    requires d in s.closing
    ensures Next(p, s, CloserRuns(d)) == s.(closing := s.closing - multiset{d}, closes := s.closes + multiset{d})
  {
  }

  /** The background closers can always finish, and close what they were given. */
  lemma {:induction false} ClosersFinish(p: Params, s: State) returns (steps: seq<Step>)
    ensures After(p, s, steps) == s.(closing := multiset{}, closes := s.closes + s.closing)
    decreases |s.closing|
  {
    hide Next;
    if s.closing == multiset{} {
      steps := [];
      assert s.closes + s.closing == s.closes;
    } else {
      var d :| d in s.closing;
      CloserCloses(p, s, d);
      var t := Next(p, s, CloserRuns(d));
      var rest := ClosersFinish(p, t);
      steps := [CloserRuns(d)] + rest;
      assert steps[1..] == rest;
      assert t.closes + t.closing == s.closes + s.closing;
    }
  }

  /** From any closed state of a run with the lock free, every device that was
      ever created ends up closed exactly once. */
  lemma ShutdownCompletes(p: Params, states: seq<State>, steps: seq<Step>, i: nat) returns (more: seq<Step>)
    requires IsRun(p, states, steps) && i < |states| && states[i].closed && states[i].op.Free?
    ensures forall d: nat :: After(p, states[i], more).closes[d] == if d < states[i].nextDevice then 1 else 0
  {
    hide Next, After, IsRun, Inv;
    var s := states[i];
    more := ClosersFinish(p, s);
    RunKeepsInv(p, states, steps, i);
    forall d: nat ensures s.closes[d] + s.closing[d] == if d < s.nextDevice then 1 else 0 {
      ClosedPlaces(p, s, d);
    }
  }

  lemma ClosedPlaces(p: Params, s: State, d: nat)
    requires Inv(p, s) && s.closed && s.op.Free?
    ensures s.closes[d] + s.closing[d] == if d < s.nextDevice then 1 else 0
  {
    PlacesOf(p, s, d);
  }

  /** After the cancel no attempt gets going: one that has just taken the lock
      gives it back, and one that is starting its device closes it. */
  lemma CancelStopsAttempts(p: Params, s: State, ok: bool)
    requires s.ctxDone
    ensures s.op.ApplyLocked? ==> Next(p, s, ApplyEnter) == s.(op := Free)
    ensures At(s, Building) ==> Next(p, s, ApplyStart(ok)) == s.(op := Discarding(s.op.device))
    ensures s.op.Discarding? ==> Next(p, s, CloseOwn) == s.(op := Free, closes := s.closes + multiset{s.op.device})
  {
  }

  /** After the cancel no report and no invalidation has any effect. */
  lemma CancelSilencesReports(p: Params, s: State, step: Step)
    requires s.ctxDone && (step.Enqueue? || step.InvalidateNetwork? || step.InvalidateDevice?)
    ensures Next(p, s, step) == s
  {
  }

  lemma ShutStep(p: Params, s: State, step: Step)
    requires s.closed && s.ctxDone && s.runtime.None?
    ensures var t := Next(p, s, step); t.closed && t.ctxDone && t.runtime.None?
  {
    hide ApplyNext, RecoverNext, CloseNext, FreeNext, InvalidateNext, StartNext;
    ApplyStaysShut(p, s, step);
    EntriesStayShut(s, step);
    OthersStayShut(p, s, step);
  }

  lemma ApplyStaysShut(p: Params, s: State, step: Step)
    ensures var t := ApplyNext(p, s, step); t.closed == s.closed && t.ctxDone == s.ctxDone && t.runtime == s.runtime
  {
    hide SnapStep, DeviceStep, StartStep, RecheckStep, LinkStep, RestoreStep, JobCurrent, ReplaceDevice, ToCloser, CloseNow;
    match step
    case ApplyDecide =>
    case CloseOwn =>
    case _ =>
  }

  lemma EntriesStayShut(s: State, step: Step)
    requires s.closed && s.ctxDone && s.runtime.None?
    ensures forall t :: t in [StartNext(s, step), RecoverNext(s, step), CloseNext(s, step)] ==> t.closed && t.ctxDone && t.runtime.None?
  {
    hide ToCloser, CloseNow;
    match step
    case StartLock =>
    case StartPublish(_) =>
    case StartFinish(_) =>
    case RecoverLock(_) =>
    case RecoverDetach(_) =>
    case RecoverClose(_) =>
    case CloseLock =>
    case CloseDetach =>
    case _ =>
  }

  lemma OthersStayShut(p: Params, s: State, step: Step)
    ensures var t := FreeNext(p, s, step); t.closed == s.closed && (s.ctxDone ==> t.ctxDone) && t.runtime == s.runtime
    ensures var t := InvalidateNext(s, step); t.closed == s.closed && t.ctxDone == s.ctxDone && t.runtime == s.runtime
  {
    hide ToCloser, CloseNow;
  }

  /** A closed outbound stays closed: no runtime and no device ever again. */
  lemma {:induction false} ClosedStaysClosed(p: Params, states: seq<State>, steps: seq<Step>, i: nat, j: nat)
    requires IsRun(p, states, steps) && i <= j < |states| && states[i].closed
    ensures states[j].closed && states[j].runtime.None? && states[j].tunDevice.None?
  {
    hide Next;
    RunKeepsInv(p, states, steps, j);
    if i < j {
      ClosedStaysClosed(p, states, steps, i, j - 1);
      RunKeepsInv(p, states, steps, j - 1);
      ShutStep(p, states[j - 1], steps[j - 1]);
    }
  }
}
