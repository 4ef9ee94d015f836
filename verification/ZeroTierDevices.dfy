/** What a published ZeroTier device was built for, when it is kept, and how an
    invalidated one disappears. */
module ZeroTierDevices {
  import opened Options
  import opened ZeroTier
  import opened ZeroTierRuns

  // ----- a published device fits the published configuration -----

  predicate BuiltFor(p: Params, s: State, d: nat, c: NetworkConfig) {
    d in s.built && s.built[d].addresses == c.addresses && s.built[d].mtu == EffectiveMTU(p, c)
  }

  predicate FitOk(p: Params, s: State) {
    && (s.tunDevice.Some? ==> BuiltFor(p, s, s.tunDevice.value, s.config))
    && (s.op.Attempt? && ReplaceDevice(p, s.op.job, s.op.snap) ==> BuiltFor(p, s, s.op.device, s.op.job.config))
    && (forall d :: d in s.built ==> d < s.nextDevice)
  }

  /** A step that creates no device and publishes nothing new. */
  predicate Detaches(s: State, t: State) {
    && t.built == s.built && t.nextDevice == s.nextDevice && (t.op.Attempt? ==> t.op == s.op)
    && (t.tunDevice.None? || (t.tunDevice == s.tunDevice && t.config == s.config))
  }

  lemma StartDetaches(p: Params, s: State, step: Step)
    requires ControlOk(p, s)
    ensures Detaches(s, StartNext(s, step))
  {
    hide OpOk, LinkMatches;
    match step
    case StartLock =>
    case StartPublish(_) =>
    case StartFinish(_) =>
    case _ =>
  }

  lemma RecoverDetaches(s: State, step: Step)
    ensures Detaches(s, RecoverNext(s, step))
  {
    hide ToCloser, CloseNow;
    match step
    case RecoverLock(_) =>
    case RecoverDetach(_) =>
    case RecoverClose(_) =>
    case _ =>
  }

  lemma CloseDetaches(s: State, step: Step)
    ensures Detaches(s, CloseNext(s, step))
  {
    hide ToCloser, CloseNow;
    match step
    case CloseLock =>
    case CloseDetach =>
    case _ =>
  }

  lemma FreeDetaches(p: Params, s: State, step: Step)
    ensures Detaches(s, FreeNext(p, s, step))
  {
    hide ToCloser, CloseNow;
    match step
    case Cancel =>
    case ReadLock =>
    case ReadUnlock =>
    case Enqueue(_, _) =>
    case CloserRuns(_) =>
    case _ =>
  }

  lemma InvalidateDetaches(s: State, step: Step)
    ensures Detaches(s, InvalidateNext(s, step))
  {
  }

  lemma DetachingKeepsFit(p: Params, s: State, t: State)
    requires FitOk(p, s) && Detaches(s, t)
    ensures FitOk(p, t)
  {
    hide EffectiveMTU, ReplaceDevice;
  }

  lemma DeviceKeepsFit(p: Params, s: State, ok: bool)
    requires FitOk(p, s) && s.op.ApplySnapped?
    ensures FitOk(p, DeviceStep(p, s, ok))
  {
    hide EffectiveMTU, SameView;
  }

  lemma DecideKeepsFit(p: Params, s: State)
    requires FitOk(p, s) && ControlOk(p, s) && At(s, Linked)
    ensures FitOk(p, DecideStep(p, s))
  {
    hide EffectiveMTU, LinkMatches, LinkIs, LinkConfig;
    assert OpOk(p, s);
  }

  /** A step that creates and publishes nothing and at most moves an attempt on. */
  predicate Carries(s: State, t: State) {
    && t.built == s.built && t.nextDevice == s.nextDevice && t.tunDevice == s.tunDevice && t.config == s.config
    && (t.op.Attempt? ==> s.op.Attempt? && t.op.job == s.op.job && t.op.snap == s.op.snap && t.op.device == s.op.device)
  }

  lemma CarryingKeepsFit(p: Params, s: State, t: State)
    requires FitOk(p, s) && Carries(s, t)
    ensures FitOk(p, t)
  {
    hide EffectiveMTU, ReplaceDevice;
  }

  lemma RestoreCarries(p: Params, s: State, ok: bool)
    requires At(s, Stale)
    ensures Carries(s, RestoreStep(p, s, ok))
  {
    hide Abandon, LinkConfig, Restorable, SameView;
    if ok {
    } else {
    }
  }

  lemma AttemptCarries(p: Params, s: State, ok: bool)
    ensures At(s, Building) ==> Carries(s, StartStep(s, ok))
    ensures At(s, Built) ==> Carries(s, RecheckStep(p, s))
    ensures At(s, Checked) ==> Carries(s, LinkStep(p, s, ok))
    ensures s.op.ApplyEntered? ==> Carries(s, SnapStep(s, ok))
  {
    hide Abandon, EffectiveMTU, ReplaceDevice, LinkConfig, JobCurrent, ConfigCurrent, SameView;
  }

  lemma OtherApplyKeepsFit(p: Params, s: State, step: Step)
    requires FitOk(p, s) && !(step.ApplyDevice? && s.op.ApplySnapped?) && !(step == ApplyDecide && At(s, Linked))
    ensures FitOk(p, ApplyNext(p, s, step))
  {
    hide FitOk, SnapStep, StartStep, RecheckStep, LinkStep, RestoreStep, DeviceStep, DecideStep, ToCloser, CloseNow, SameView;
    if At(s, Stale) { RestoreCarries(p, s, if step.ApplyRestore? then step.ok else true); }
    AttemptCarries(p, s, if step.ApplySnap? then step.resolverOk else if step.ApplyStart? || step.ApplyLink? then step.ok else true);
    if step.ApplyLock? || step.ApplyEnter? || step.CloseOwn? { EntryCarries(p, s, step); }
    hide Carries;
    assert Carries(s, s) by { CarriesSelf(s); }
    assert Carries(s, ApplyNext(p, s, step));
    CarryingKeepsFit(p, s, ApplyNext(p, s, step));
  }

  lemma CarriesSelf(s: State)
    ensures Carries(s, s)
  {
  }

  lemma EntryCarries(p: Params, s: State, step: Step)
    requires step.ApplyLock? || step.ApplyEnter? || step.CloseOwn?
    ensures Carries(s, ApplyNext(p, s, step))
  {
    hide ToCloser, CloseNow;
  }

  lemma NextKeepsFit(p: Params, s: State, step: Step)
    requires FitOk(p, s) && Inv(p, s)
    ensures FitOk(p, Next(p, s, step))
  {
    hide FitOk, Detaches, StartNext, RecoverNext, CloseNext, FreeNext, InvalidateNext, DeviceStep, DecideStep, ControlOk, DevicesOk;
    match step
    case Cancel | ReadLock | ReadUnlock | Enqueue(_, _) | CloserRuns(_) =>
      FreeDetaches(p, s, step);
      DetachingKeepsFit(p, s, FreeNext(p, s, step));
    case InvalidateNetwork(_, _) | InvalidateDevice(_) =>
      InvalidateDetaches(s, step);
      DetachingKeepsFit(p, s, InvalidateNext(s, step));
    case StartLock | StartPublish(_) | StartFinish(_) =>
      StartDetaches(p, s, step);
      DetachingKeepsFit(p, s, StartNext(s, step));
    case RecoverLock(_) | RecoverDetach(_) | RecoverClose(_) =>
      RecoverDetaches(s, step);
      DetachingKeepsFit(p, s, RecoverNext(s, step));
    case CloseLock | CloseDetach =>
      CloseDetaches(s, step);
      DetachingKeepsFit(p, s, CloseNext(s, step));
    case _ => ApplyKeepsFit(p, s, step);
  }

  lemma ApplyKeepsFit(p: Params, s: State, step: Step)
    requires FitOk(p, s) && ControlOk(p, s)
    ensures FitOk(p, ApplyNext(p, s, step))
  {
    if step.ApplyDevice? && s.op.ApplySnapped? {
      hide *;
      DeviceKeepsFit(p, s, step.ok);
      DeviceIsApplied(p, s, step);
    } else if step == ApplyDecide && At(s, Linked) {
      hide *;
      DecideKeepsFit(p, s);
      DecideIsApplied(p, s);
    } else {
      hide FitOk, ControlOk, ApplyNext;
      OtherApplyKeepsFit(p, s, step);
    }
  }

  lemma DeviceIsApplied(p: Params, s: State, step: Step)
    requires step.ApplyDevice? && s.op.ApplySnapped?
    ensures ApplyNext(p, s, step) == DeviceStep(p, s, step.ok)
  {
    hide DeviceStep;
  }

  lemma DecideIsApplied(p: Params, s: State)
    requires At(s, Linked)
    ensures ApplyNext(p, s, ApplyDecide) == DecideStep(p, s)
  {
    hide DecideStep;
  }

  lemma {:induction false} RunKeepsFit(p: Params, states: seq<State>, steps: seq<Step>, i: nat)
    requires IsRun(p, states, steps) && i < |states|
    ensures FitOk(p, states[i])
  {
    if i > 0 {
      hide Inv, Next, FitOk;
      RunKeepsFit(p, states, steps, i - 1);
      RunKeepsInv(p, states, steps, i - 1);
      NextKeepsFit(p, states[i - 1], steps[i - 1]);
    }
  }

  /** In every run a published device was created with the addresses and the
      effective MTU of the published configuration. */
  lemma PublishedDeviceFits(p: Params, states: seq<State>, steps: seq<Step>, i: nat, d: nat)
    requires IsRun(p, states, steps) && i < |states| && states[i].tunDevice == Some(d)
    ensures BuiltFor(p, states[i], d, states[i].config)
  {
    RunKeepsFit(p, states, steps, i);
  }

  /** A commit over a published device keeps it if and only if it was created
      with the addresses and the MTU that the new configuration asks for;
      otherwise it is left to be closed by the lock holder. */
  lemma CommitKeepsFittingDevice(p: Params, states: seq<State>, steps: seq<Step>, i: nat, d: nat)
    requires IsRun(p, states, steps) && i < |steps| && steps[i] == ApplyDecide && At(states[i], Linked)
    requires JobCurrent(states[i], states[i].op.job, states[i].op.snap) && states[i].tunDevice == Some(d)
    ensures states[i + 1].tunDevice == Some(d) <==> BuiltFor(p, states[i], d, states[i].op.job.config)
    ensures states[i + 1].tunDevice != Some(d) ==> states[i + 1].op == Replacing(d) && states[i + 1].tunDevice == Some(states[i].op.device)
  {
    var s := states[i];
    RunKeepsFit(p, states, steps, i);
    RunKeepsInv(p, states, steps, i);
    PlacesOf(p, s, s.op.device);
    CommitChooses(p, s, d);
    assert states[i + 1] == Next(p, s, ApplyDecide);
  }

  lemma CommitChooses(p: Params, s: State, d: nat)
    requires FitOk(p, s) && ControlOk(p, s) && At(s, Linked) && JobCurrent(s, s.op.job, s.op.snap) && s.tunDevice == Some(d)
    requires Places(p, s, s.op.device) <= 1
    ensures var t := Next(p, s, ApplyDecide);
            && (t.tunDevice == Some(d) <==> BuiltFor(p, s, d, s.op.job.config))
            && (t.tunDevice != Some(d) ==> t.op == Replacing(d) && t.tunDevice == Some(s.op.device))
  {
    hide EffectiveMTU, LinkMatches, LinkIs, LinkConfig;
    assert OpOk(p, s);
  }

  // ----- invalidated devices and retired runtimes -----

  predicate Doomed(s: State, d: nat) {
    d in s.closing || d in s.closes
  }

  lemma ClosingStays(p: Params, s: State, step: Step, d: nat)
    requires d in s.closing
    ensures Doomed(Next(p, s, step), d)
  {
    hide ApplyNext, StartNext, RecoverNext, CloseNext, FreeNext, InvalidateNext;
    ApplyKeepsClosing(p, s, step, d);
    EntriesKeepClosing(s, step, d);
    OthersKeepClosing(p, s, step, d);
  }

  lemma ApplyKeepsClosing(p: Params, s: State, step: Step, d: nat)
    requires d in s.closing
    ensures d in ApplyNext(p, s, step).closing
  {
    hide SnapStep, DeviceStep, StartStep, RecheckStep, LinkStep, RestoreStep, EffectiveMTU, ReplaceDevice, JobCurrent;
    match step
    case ApplyDecide =>
    case CloseOwn =>
    case _ =>
  }

  lemma EntriesKeepClosing(s: State, step: Step, d: nat)
    requires d in s.closing
    ensures d in StartNext(s, step).closing && d in RecoverNext(s, step).closing && d in CloseNext(s, step).closing
  {
    match step
    case StartLock =>
    case StartPublish(_) =>
    case StartFinish(_) =>
    case RecoverLock(_) =>
    case RecoverDetach(_) =>
    case RecoverClose(_) =>
    case CloseLock =>
    case CloseDetach =>
    case _ =>
  }

  lemma OthersKeepClosing(p: Params, s: State, step: Step, d: nat)
    requires d in s.closing
    ensures Doomed(FreeNext(p, s, step), d) && d in InvalidateNext(s, step).closing
  {
  }

  lemma {:induction false} DoomedForGood(p: Params, states: seq<State>, steps: seq<Step>, i: nat, j: nat, d: nat)
    requires IsRun(p, states, steps) && i <= j < |states| && Doomed(states[i], d)
    ensures Doomed(states[j], d) && states[j].tunDevice != Some(d)
  {
    hide Inv, Next;
    EveryDeviceInOnePlace(p, states, steps, j, d);
    if i < j {
      DoomedForGood(p, states, steps, i, j - 1, d);
      if d in states[j - 1].closes {
        ClosedStays(p, states[j - 1], steps[j - 1], d);
      } else {
        ClosingStays(p, states[j - 1], steps[j - 1], d);
      }
    }
  }

  /** The step takes the published device away, however it comes about. */
  predicate TakesDown(s: State, step: Step, d: nat) {
    s.tunDevice == Some(d) &&
    match step
    case InvalidateDevice(e) => e == d && !s.ctxDone
    case InvalidateNetwork(only, _) => !s.ctxDone && (only.None? || only == s.runtime)
    case CloseDetach => s.op.CloseLocked? && !s.closed
    case _ => false
  }

  lemma TakenDown(p: Params, s: State, step: Step, d: nat)
    requires TakesDown(s, step, d)
    ensures Next(p, s, step).tunDevice.None? && d in Next(p, s, step).closing
  {
  }

  /** Once the network or the device has been invalidated, or the outbound
      closed, the device is out of use from then on and left to one closer. */
  lemma InvalidatedForGood(p: Params, states: seq<State>, steps: seq<Step>, i: nat, j: nat, d: nat)
    requires IsRun(p, states, steps) && i < j < |states| && TakesDown(states[i], steps[i], d)
    ensures states[j].tunDevice != Some(d) && states[j].closing[d] + states[j].closes[d] == 1
  {
    hide Inv, Next;
    assert states[i + 1] == Next(p, states[i], steps[i]);
    TakenDown(p, states[i], steps[i], d);
    DoomedForGood(p, states, steps, i + 1, j, d);
    EveryDeviceInOnePlace(p, states, steps, j, d);
  }

  /** The step forgets the latest configuration. */
  predicate Forgets(s: State, step: Step) {
    step.InvalidateNetwork? && !s.ctxDone && (step.only.None? || step.only == s.runtime) && !step.retryConfig
  }

  /** A report of the current runtime about the joined network. */
  predicate Reports(p: Params, s: State, step: Step) {
    step.Enqueue? && !s.ctxDone && s.runtime == Some(step.source) && step.config.networkID == p.networkID
  }

  lemma LatestStep(p: Params, s: State, step: Step)
    ensures Forgets(s, step) ==> !Next(p, s, step).haveLatest
    ensures Reports(p, s, step) ==> Next(p, s, step).haveLatest && Next(p, s, step).latestConfig == step.config
    ensures !Reports(p, s, step) && !s.haveLatest ==> !Next(p, s, step).haveLatest
    ensures !Reports(p, s, step) && Next(p, s, step).haveLatest ==> Next(p, s, step).latestConfig == s.latestConfig
  {
    hide ApplyNext, StartNext, RecoverNext, CloseNext;
    ApplyKeepsLatest(p, s, step);
    EntriesLoseLatest(s, step);
  }

  lemma ApplyKeepsLatest(p: Params, s: State, step: Step)
    ensures ApplyNext(p, s, step).haveLatest == s.haveLatest && ApplyNext(p, s, step).latestConfig == s.latestConfig
  {
    hide SnapStep, DeviceStep, StartStep, RecheckStep, LinkStep, RestoreStep, EffectiveMTU, ReplaceDevice, JobCurrent;
    match step
    case ApplyDecide =>
    case CloseOwn =>
    case _ =>
  }

  lemma EntriesLoseLatest(s: State, step: Step)
    ensures forall t :: t in [StartNext(s, step), RecoverNext(s, step), CloseNext(s, step)] ==>
              t.haveLatest ==> s.haveLatest && t.latestConfig == s.latestConfig
  {
    match step
    case StartLock =>
    case StartPublish(_) =>
    case StartFinish(_) =>
    case RecoverLock(_) =>
    case RecoverDetach(_) =>
    case RecoverClose(_) =>
    case CloseLock =>
    case CloseDetach =>
    case _ =>
  }

  /** After the network was invalidated for good, nothing is committed until
      the current runtime reports a configuration again. */
  lemma {:induction false} NoCommitWithoutReport(p: Params, states: seq<State>, steps: seq<Step>, i: nat, j: nat)
    requires IsRun(p, states, steps) && i < j < |states| && Forgets(states[i], steps[i])
    requires forall k :: i < k < j ==> !Reports(p, states[k], steps[k])
    ensures !states[j].haveLatest && !(At(states[j], Linked) && JobCurrent(states[j], states[j].op.job, states[j].op.snap))
  {
    hide Inv, Next;
    LatestStep(p, states[j - 1], steps[j - 1]);
    assert states[j] == Next(p, states[j - 1], steps[j - 1]);
    if i < j - 1 {
      NoCommitWithoutReport(p, states, steps, i, j - 1);
    }
  }

  /** Whenever there is a latest configuration, the runtime that was current at
      the time reported it, and nothing newer has come in since. */
  lemma {:induction false} LatestWasReported(p: Params, states: seq<State>, steps: seq<Step>, i: nat)
    requires IsRun(p, states, steps) && i < |states| && states[i].haveLatest
    ensures exists k :: 0 <= k < i && Reports(p, states[k], steps[k]) && steps[k].config == states[i].latestConfig &&
                        forall m :: k < m < i ==> !Reports(p, states[m], steps[m])
  {
    hide Inv, Next;
    if i > 0 {
      LatestStep(p, states[i - 1], steps[i - 1]);
      assert states[i] == Next(p, states[i - 1], steps[i - 1]);
      if Reports(p, states[i - 1], steps[i - 1]) {
        assert steps[i - 1].config == states[i].latestConfig;
      } else {
        LatestWasReported(p, states, steps, i - 1);
      }
    }
  }
}
