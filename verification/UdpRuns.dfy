/** What UDP sessions guarantee over every run. */
module UdpRuns {
  import opened UdpSession

  ghost predicate IsRun(states: seq<State>, steps: seq<Step>) {
    && |states| == |steps| + 1 && states[0] == Initial
    && forall i, j :: 0 <= i < |steps| && j == i + 1 ==> states[j] == Next(states[i], steps[i])
  }

  lemma {:induction false} RunKeepsInv(states: seq<State>, steps: seq<Step>, i: nat)
    requires IsRun(states, steps) && i < |states|
    ensures Inv(states[i])
  {
    hide Inv, Next;
    if i == 0 {
      InitialInv();
    } else {
      RunKeepsInv(states, steps, i - 1);
      NextKeepsInv(states[i - 1], steps[i - 1]);
    }
  }

  // ----- the NAT table -----

  /** A Delete removes exactly the deleting sender's own entry. */
  lemma DeleteRemovesOwnEntry(s: State, i: nat)
    requires Inv(s) && i < |s.senders| && s.senders[i].life == Drained
    ensures s.senders[i].key in s.table && s.table[s.senders[i].key] == i && s.deletes[i] == 0
    ensures Next(s, Delete(i)).table == s.table - {s.senders[i].key} && Next(s, Delete(i)).deletes[i] == 1
  {
    hide Inv;
    ControlPart(s, i, s.senders[i].key);
  }

  /** A sender is in the table from its creation until its one Delete. */
  lemma OneDeletePerSender(states: seq<State>, steps: seq<Step>, j: nat, i: nat)
    requires IsRun(states, steps) && j < |states| && i < |states[j].senders|
    ensures states[j].deletes[i] <= 1
    ensures states[j].deletes[i] == 1 <==> states[j].senders[i].life == Deleted
    ensures states[j].deletes[i] == 0 ==>
              states[j].senders[i].key in states[j].table && states[j].table[states[j].senders[i].key] == i
    ensures |states[j].senders[i].queue| <= CAPACITY
  {
    hide Inv, Next, IsRun;
    RunKeepsInv(states, steps, j);
    ControlPart(states[j], i, states[j].senders[i].key);
  }

  // ----- packets -----

  /** Every packet handed to a sender is in exactly one place: its own Send,
      the queue or the processing loop of its sender, or dropped once. */
  lemma EveryPacketInOnePlace(states: seq<State>, steps: seq<Step>, j: nat, p: nat, i: nat)
    requires IsRun(states, steps) && j < |states| && p in states[j].packets
    ensures Places(states[j], p) == 1 && states[j].drops[p] <= 1
    ensures i != states[j].packets[p].sender ==> HeldBy(states[j], i, p) == 0
  {
    hide Inv, Next, IsRun;
    RunKeepsInv(states, steps, j);
    PacketPart(states[j], p, i);
  }

  /** Not yet sent, or sent to a closed sender and dropped. */
  predicate Doomed(s: State, p: nat) {
    && p in s.packets && s.packets[p].sender < |s.senders| && s.senders[s.packets[p].sender].cancelled
    && s.packets[p].phase != Checked && (s.packets[p].phase == Over ==> s.drops[p] >= 1)
  }

  lemma SendStepDooms(s: State, p: nat, q: nat, enqueue: bool, key: string)
    requires Doomed(s, p)
    ensures Doomed(HandleNext(s, q, key), p) && Doomed(SendCheckNext(s, q), p) && Doomed(SendPutNext(s, q, enqueue), p)
  {
  }

  lemma OtherStepDooms(s: State, p: nat, i: nat, step: Step)
    requires Doomed(s, p) && i < |s.senders|
    ensures Doomed(OwnerNext(s, i, step), p) && Doomed(ProcNext(s, i, step), p)
  {
  }

  lemma DoomedStays(s: State, step: Step, p: nat)
    requires Doomed(s, p)
    ensures Doomed(Next(s, step), p)
  {
    hide HandleNext, SendCheckNext, SendPutNext, OwnerNext, ProcNext;
    match step
    case Handle(q, key) => SendStepDooms(s, p, q, true, key);
    case SendCheck(q) => SendStepDooms(s, p, q, true, "");
    case SendPut(q, enqueue) => SendStepDooms(s, p, q, enqueue, "");
    case AddMapping(_, _, _, _) =>
    case _ => if step.sender < |s.senders| { OtherStepDooms(s, p, step.sender, step); }
  }

  /** A Send that starts after its sender was closed never queues its packet:
      at every later moment it has either not finished or has dropped it. */
  lemma {:induction false} SendAfterCloseDrops(states: seq<State>, steps: seq<Step>, i: nat, j: nat, p: nat)
    requires IsRun(states, steps) && i <= j < |states| && Doomed(states[i], p)
    ensures Doomed(states[j], p) && HeldBy(states[j], states[j].packets[p].sender, p) == 0
  {
    hide Inv, Next, Doomed;
    if i < j {
      SendAfterCloseDrops(states, steps, i, j - 1, p);
      DoomedStays(states[j - 1], steps[j - 1], p);
    }
    RunKeepsInv(states, steps, j);
    DoomedIsNotHeld(states[j], p);
  }

  lemma DoomedIsNotHeld(s: State, p: nat)
    requires Inv(s) && Doomed(s, p)
    ensures p in s.packets && HeldBy(s, s.packets[p].sender, p) == 0
  {
    PacketPart(s, p, 0);
  }

  // ----- a Send that straddles Close -----

  /** No Send to sender i is between its two selects. */
  predicate NoStraddler(s: State, i: nat) {
    forall p :: p in s.packets && s.packets[p].sender == i ==> s.packets[p].phase != Checked
  }

  predicate ClosedWithoutStraddler(s: State, i: nat) {
    && i < |s.senders| && s.senders[i].cancelled && NoStraddler(s, i)
    && (s.senders[i].life == Drained || s.senders[i].life == Deleted ==> s.senders[i].queue == [])
  }

  lemma SendStepStaysClosed(s: State, i: nat, q: nat, enqueue: bool, key: string)
    requires ClosedWithoutStraddler(s, i)
    ensures q !in s.packets && KeyOk(s, key) ==> ClosedWithoutStraddler(HandleNext(s, q, key), i)
    ensures ClosedWithoutStraddler(SendCheckNext(s, q), i) && ClosedWithoutStraddler(SendPutNext(s, q, enqueue), i)
  {
  }

  lemma OtherStepStaysClosed(s: State, i: nat, j: nat, step: Step)
    requires ClosedWithoutStraddler(s, i) && j < |s.senders|
    requires s.senders[i].life != Dialing && s.senders[i].life != Serving
    ensures ClosedWithoutStraddler(OwnerNext(s, j, step), i) && ClosedWithoutStraddler(ProcNext(s, j, step), i)
  {
  }

  lemma ClosedStaysEmpty(s: State, step: Step, i: nat)
    requires Inv(s) && ClosedWithoutStraddler(s, i)
    ensures ClosedWithoutStraddler(Next(s, step), i)
  {
    hide Inv, ClosedWithoutStraddler, HandleNext, SendCheckNext, SendPutNext, OwnerNext, ProcNext;
    ClosedBounds(s, i);
    match step
    case Handle(q, key) =>
      ControlPart(s, i, key);
      if q in s.packets { AlreadyHandled(s, q, key); } else { SendStepStaysClosed(s, i, q, true, key); }
    case SendCheck(q) => SendStepStaysClosed(s, i, q, true, "");
    case SendPut(q, enqueue) => SendStepStaysClosed(s, i, q, enqueue, "");
    case AddMapping(j, k, a, b) => MappingStaysClosed(s, i, step);
    case _ => if step.sender < |s.senders| { OtherStepStaysClosed(s, i, step.sender, step); }
  }

  lemma ClosedBounds(s: State, i: nat)
    requires Inv(s) && ClosedWithoutStraddler(s, i)
    ensures i < |s.senders| && s.senders[i].life != Dialing && s.senders[i].life != Serving
  {
    ControlPart(s, i, "");
  }

  lemma AlreadyHandled(s: State, q: nat, key: string)
    requires q in s.packets
    ensures HandleNext(s, q, key) == s
  {
  }

  lemma MappingStaysClosed(s: State, i: nat, step: Step)
    requires ClosedWithoutStraddler(s, i) && step.AddMapping?
    ensures ClosedWithoutStraddler(Next(s, step), i)
  {
  }

  /** When no Send is between its two selects as the sender is cancelled, the
      queue is empty for good once it has been drained. */
  lemma {:induction false} CleanCloseStaysEmpty(states: seq<State>, steps: seq<Step>, k: nat, j: nat, i: nat)
    requires IsRun(states, steps) && k <= j < |states| && ClosedWithoutStraddler(states[k], i)
    ensures ClosedWithoutStraddler(states[j], i)
  {
    hide Inv, Next, ClosedWithoutStraddler;
    if k < j {
      CleanCloseStaysEmpty(states, steps, k, j - 1, i);
      RunKeepsInv(states, steps, j - 1);
      ClosedStaysEmpty(states[j - 1], steps[j - 1], i);
    }
  }

  predicate Stranded(s: State, i: nat, p: nat) {
    && i < |s.senders| && p in s.senders[i].queue && s.senders[i].life == Deleted
    && (s.senders[i].proc == NotStarted || s.senders[i].proc == Exited)
  }

  /** The state after a list of steps. */
  function After(s: State, steps: seq<Step>): State
    decreases |steps|
  {
    if steps == [] then s else After(Next(s, steps[0]), steps[1..])
  }

  /** Some continuation strands packet p at sender i. */
  ghost predicate MayStrand(s: State, i: nat, p: nat) {
    exists more :: Stranded(After(s, more), i, p)
  }

  lemma MayStrandBefore(s: State, step: Step, i: nat, p: nat)
    requires MayStrand(Next(s, step), i, p)
    ensures MayStrand(s, i, p)
  {
    hide Next, Stranded;
    var more :| Stranded(After(Next(s, step), more), i, p);
    assert ([step] + more)[1..] == more;
    assert Stranded(After(s, [step] + more), i, p);
  }

  /** Sender i is closed with this life, its loop is gone if `quiet`, and the
      Send of packet p is between its selects. */
  predicate Straddled(s: State, i: nat, p: nat, life: Life, quiet: bool) {
    && i < |s.senders| && s.senders[i].life == life && s.senders[i].cancelled
    && p in s.packets && s.packets[p] == Packet(i, Checked)
    && (quiet ==> s.senders[i].proc == NotStarted || s.senders[i].proc == Exited)
  }

  lemma DeletedMayStrand(s: State, i: nat, p: nat)
    requires Straddled(s, i, p, Deleted, true) && s.senders[i].queue == []
    ensures MayStrand(s, i, p)
  {
    var t := Next(s, SendPut(p, true));
    assert t.senders[i].queue == [p];
    assert After(t, []) == t && Stranded(t, i, p);
    MayStrandBefore(s, SendPut(p, true), i, p);
  }

  lemma DrainedMayStrand(s: State, i: nat, p: nat)
    requires Straddled(s, i, p, Draining, true) && s.senders[i].queue == []
    ensures MayStrand(s, i, p)
  {
    hide MayStrand;
    var t := Next(s, DrainDone(i));
    DeletedMayStrand(Next(t, Delete(i)), i, p);
    MayStrandBefore(t, Delete(i), i, p);
    MayStrandBefore(s, DrainDone(i), i, p);
  }

  lemma {:induction false} DrainingMayStrand(s: State, i: nat, p: nat)
    requires Straddled(s, i, p, Draining, true)
    ensures MayStrand(s, i, p)
    decreases if i < |s.senders| then |s.senders[i].queue| else 0
  {
    hide MayStrand;
    if s.senders[i].queue == [] {
      DrainedMayStrand(s, i, p);
    } else {
      DrainingMayStrand(Next(s, DropOne(i)), i, p);
      MayStrandBefore(s, DropOne(i), i, p);
    }
  }

  /** A closing sender with a Send between its selects: its loop may leave, its
      queue be drained and its entry deleted before that Send goes on. */
  lemma StraddlerMayStrand(s: State, i: nat, p: nat)
    requires Straddled(s, i, p, Draining, false)
    ensures MayStrand(s, i, p)
  {
    hide MayStrand;
    var proc := s.senders[i].proc;
    if proc.Busy? {
      var t := Next(s, ProcDone(i));
      DrainingMayStrand(Next(t, ProcExit(i)), i, p);
      MayStrandBefore(t, ProcExit(i), i, p);
      MayStrandBefore(s, ProcDone(i), i, p);
    } else if proc == Idle {
      DrainingMayStrand(Next(s, ProcExit(i)), i, p);
      MayStrandBefore(s, ProcExit(i), i, p);
    } else {
      DrainingMayStrand(s, i, p);
    }
  }

  lemma {:induction false} AfterStaysClosed(s: State, steps: seq<Step>, i: nat)
    requires Inv(s) && ClosedWithoutStraddler(s, i)
    ensures ClosedWithoutStraddler(After(s, steps), i)
    decreases |steps|
  {
    hide Inv, Next, ClosedWithoutStraddler;
    if steps != [] {
      ClosedStaysEmpty(s, steps[0], i);
      NextKeepsInv(s, steps[0]);
      AfterStaysClosed(Next(s, steps[0]), steps[1..], i);
    }
  }

  /** While a sender is being closed, some continuation strands a packet in its
      queue if and only if a Send is between its two selects. */
  lemma StrandsIffStraddled(states: seq<State>, steps: seq<Step>, k: nat, i: nat)
    requires IsRun(states, steps) && k < |states| && i < |states[k].senders| && states[k].senders[i].life == Draining
    ensures (exists p :: MayStrand(states[k], i, p)) <==> !NoStraddler(states[k], i)
  {
    hide Inv, IsRun, Next, MayStrand;
    var s := states[k];
    RunKeepsInv(states, steps, k);
    ControlPart(s, i, "");
    if NoStraddler(s, i) {
      forall p ensures !MayStrand(s, i, p) { CleanCannotStrand(s, i, p); }
    } else {
      var p :| p in s.packets && s.packets[p].sender == i && s.packets[p].phase == Checked;
      StraddlerMayStrand(s, i, p);
    }
  }

  lemma CleanCannotStrand(s: State, i: nat, p: nat)
    requires Inv(s) && ClosedWithoutStraddler(s, i)
    ensures !MayStrand(s, i, p)
  {
    hide Inv, Next;
    forall more ensures !Stranded(After(s, more), i, p) { AfterStaysClosed(s, more, i); }
  }

  /** The states of a run that strands packet 0: one session, one packet. */
  function OneSession(key: string, life: Life, phase: Phase, queue: seq<nat>): State {
    var sender := NewSender(key).(life := life, cancelled := life != Dialing, queue := queue);
    State(if life == Deleted then map[] else map[key := 0], [sender], map[0 := Packet(0, phase)],
          multiset{}, if life == Deleted then multiset{0} else multiset{})
  }

  lemma StrandingOpens(key: string)
    ensures Next(Initial, Handle(0, key)) == OneSession(key, Dialing, Starting, [])
    ensures Next(OneSession(key, Dialing, Starting, []), SendCheck(0)) == OneSession(key, Dialing, Checked, [])
  {
  }

  lemma StrandingCloses(key: string)
    ensures Next(OneSession(key, Dialing, Checked, []), BeginClose(0)) == OneSession(key, Draining, Checked, [])
    ensures Next(OneSession(key, Draining, Checked, []), DrainDone(0)) == OneSession(key, Drained, Checked, [])
  {
  }

  lemma StrandingDeletes(key: string)
    ensures Next(OneSession(key, Drained, Checked, []), Delete(0)) == OneSession(key, Deleted, Checked, [])
  {
  }

  lemma StrandingPuts(key: string)
    ensures Next(OneSession(key, Deleted, Checked, []), SendPut(0, true)) == OneSession(key, Deleted, Over, [0])
    ensures Stranded(OneSession(key, Deleted, Over, [0]), 0, 0)
  {
    assert [] + [0] == [0];
  }

  /** There is a run that strands a packet: its Send passes the first check,
      the dial fails and the session is closed, drained and deleted, then the
      Send takes the writable channel. */
  lemma CloseMayStrand(key: string)
    ensures exists states, steps :: IsRun(states, steps) && |steps| == 6 && Stranded(states[6], 0, 0)
  {
    hide Next, OneSession, Stranded;
    StrandingOpens(key);
    StrandingCloses(key);
    StrandingDeletes(key);
    StrandingPuts(key);
    var steps := [Handle(0, key), SendCheck(0), BeginClose(0), DrainDone(0), Delete(0), SendPut(0, true)];
    var states := [Initial, OneSession(key, Dialing, Starting, []), OneSession(key, Dialing, Checked, []),
                   OneSession(key, Draining, Checked, []), OneSession(key, Drained, Checked, []),
                   OneSession(key, Deleted, Checked, []), OneSession(key, Deleted, Over, [0])];
    assert IsRun(states, steps);
  }

  lemma SendLeavesStranded(s: State, i: nat, p: nat, q: nat, enqueue: bool, key: string)
    requires Stranded(s, i, p)
    ensures Stranded(HandleNext(s, q, key), i, p) && Stranded(SendCheckNext(s, q), i, p) && Stranded(SendPutNext(s, q, enqueue), i, p)
  {
  }

  lemma LoopsLeaveStranded(s: State, step: Step, i: nat, p: nat, j: nat)
    requires Stranded(s, i, p) && j < |s.senders|
    ensures Stranded(OwnerNext(s, j, step), i, p) && Stranded(ProcNext(s, j, step), i, p)
  {
  }

  lemma StrandedStep(s: State, step: Step, i: nat, p: nat)
    requires Stranded(s, i, p)
    ensures Stranded(Next(s, step), i, p)
  {
    hide HandleNext, SendCheckNext, SendPutNext, OwnerNext, ProcNext;
    match step
    case Handle(q, key) => SendLeavesStranded(s, i, p, q, true, key);
    case SendCheck(q) => SendLeavesStranded(s, i, p, q, true, "");
    case SendPut(q, enqueue) => SendLeavesStranded(s, i, p, q, enqueue, "");
    case AddMapping(_, _, _, _) =>
    case _ => if step.sender < |s.senders| { LoopsLeaveStranded(s, step, i, p, step.sender); }
  }

  /** ... and with its processing loop gone nobody ever drops it. */
  lemma {:induction false} StrandedForGood(states: seq<State>, steps: seq<Step>, k: nat, j: nat, i: nat, p: nat)
    requires IsRun(states, steps) && k <= j < |states| && Stranded(states[k], i, p)
    ensures Stranded(states[j], i, p)
  {
    hide Next, Stranded;
    if k < j {
      StrandedForGood(states, steps, k, j - 1, i, p);
      StrandedStep(states[j - 1], steps[j - 1], i, p);
    }
  }

  // ----- address mappings -----

  predicate MappingsKept(a: Sender, b: Sender) {
    && (forall k :: k in a.originToTarget && a.originToTarget[k] != 0 ==> Get(b.originToTarget, k) == a.originToTarget[k])
    && (forall k :: k in a.targetToOrigin && a.targetToOrigin[k] != 0 ==> Get(b.targetToOrigin, k) == a.targetToOrigin[k])
  }

  predicate SameMaps(s: State, t: State, i: nat)
    requires i < |s.senders|
  {
    && i < |t.senders| && t.senders[i].originToTarget == s.senders[i].originToTarget
    && t.senders[i].targetToOrigin == s.senders[i].targetToOrigin
  }

  lemma SendLeavesMappings(s: State, i: nat, q: nat, enqueue: bool, key: string)
    requires i < |s.senders|
    ensures SameMaps(s, HandleNext(s, q, key), i) && SameMaps(s, SendCheckNext(s, q), i) && SameMaps(s, SendPutNext(s, q, enqueue), i)
  {
  }

  lemma OwnerLeavesMappings(s: State, step: Step, i: nat, j: nat)
    requires i < |s.senders| && j < |s.senders|
    ensures SameMaps(s, OwnerNext(s, j, step), i)
  {
  }

  lemma LoopLeavesMappings(s: State, step: Step, i: nat, j: nat)
    requires i < |s.senders| && j < |s.senders|
    ensures SameMaps(s, ProcNext(s, j, step), i)
  {
  }

  lemma SameMapsKept(s: State, t: State, i: nat)
    requires i < |s.senders| && SameMaps(s, t, i)
    ensures MappingsKept(s.senders[i], t.senders[i])
  {
  }

  lemma MappedKeeps(sender: Sender, originKey: string, originAddr: nat, targetAddr: nat)
    ensures MappingsKept(sender, Mapped(sender, originKey, originAddr, targetAddr)) && MappingsKept(sender, sender)
  {
  }

  lemma StepKeepsMappings(s: State, step: Step, i: nat)
    requires i < |s.senders|
    ensures i < |Next(s, step).senders| && MappingsKept(s.senders[i], Next(s, step).senders[i])
  {
    hide HandleNext, SendCheckNext, SendPutNext, OwnerNext, ProcNext, MappingsKept, Mapped;
    var t := Next(s, step);
    match step
    case Handle(q, key) => SendLeavesMappings(s, i, q, true, key); SameMapsKept(s, t, i);
    case SendCheck(q) => SendLeavesMappings(s, i, q, true, ""); SameMapsKept(s, t, i);
    case SendPut(q, enqueue) => SendLeavesMappings(s, i, q, enqueue, ""); SameMapsKept(s, t, i);
    case AddMapping(_, k, a, b) => MappedKeeps(s.senders[i], k, a, b);
    case _ =>
      if step.sender < |s.senders| {
        OwnerLeavesMappings(s, step, i, step.sender);
        LoopLeavesMappings(s, step, i, step.sender);
      }
      SameMapsKept(s, t, i);
  }

  lemma KeptIsTransitive(a: Sender, b: Sender, c: Sender)
    requires MappingsKept(a, b) && MappingsKept(b, c)
    ensures MappingsKept(a, c)
  {
  }

  /** A valid mapping never changes, so replies keep coming back from the
      address first recorded for them. */
  lemma {:induction false} MappingNeverChanges(states: seq<State>, steps: seq<Step>, k: nat, j: nat, i: nat)
    requires IsRun(states, steps) && k <= j < |states| && i < |states[k].senders|
    ensures i < |states[j].senders| && MappingsKept(states[k].senders[i], states[j].senders[i])
    ensures forall addr :: addr in states[k].senders[i].targetToOrigin && states[k].senders[i].targetToOrigin[addr] != 0 ==>
              Restore(states[j].senders[i], addr) == states[k].senders[i].targetToOrigin[addr]
  {
    hide Next;
    if k < j {
      MappingNeverChanges(states, steps, k, j - 1, i);
      StepKeepsMappings(states[j - 1], steps[j - 1], i);
      KeptIsTransitive(states[k].senders[i], states[j - 1].senders[i], states[j].senders[i]);
    }
  }

  /** A mapping that is recorded is the one a reply is restored to. */
  lemma RestoreUndoesMapping(sender: Sender, originKey: string, originAddr: nat, targetAddr: nat)
    requires originAddr != 0 && Get(sender.targetToOrigin, targetAddr) == 0
    ensures Restore(Mapped(sender, originKey, originAddr, targetAddr), targetAddr) == originAddr
    ensures forall addr :: addr != targetAddr ==>
              Restore(Mapped(sender, originKey, originAddr, targetAddr), addr) == Restore(sender, addr)
  {
  }
}
