/** What happens to the packets of a live UDP session: they are routed by key,
    queued while there is room, processed in order, and sent to one target per
    destination; and what a close leaves behind. */
module UdpDelivery {
  import opened UdpSession
  import opened UdpRuns

  lemma RunStep(states: seq<State>, steps: seq<Step>, k: nat)
    requires IsRun(states, steps) && k < |steps|
    ensures states[k + 1] == Next(states[k], steps[k])
  {
  }

  // ----- routing -----

  /** A packet goes to the session of its key; only a key without one gets a
      new session, live and empty. */
  lemma PacketIsRouted(s: State, p: nat, key: string)
    requires Inv(s) && p !in s.packets
    ensures var t := Next(s, Handle(p, key));
            && p in t.packets && t.packets[p].phase == Starting && key in t.table && t.packets[p].sender == t.table[key]
            && t.table[key] < |t.senders| && t.senders[t.table[key]].key == key
            && (key in s.table ==> t.table == s.table && t.senders == s.senders)
            && (key !in s.table ==> t.table == s.table[key := |s.senders|] && t.senders == s.senders + [NewSender(key)])
            && NewSender(key).queue == [] && !NewSender(key).cancelled
  {
    hide Inv, PacketOk;
    if key in s.table { ControlPart(s, s.table[key], key); }
  }

  /** A Send goes on to its second select exactly when its session is not
      closed; otherwise it drops its packet. */
  lemma SendStarts(s: State, p: nat)
    requires Inv(s) && p in s.packets && s.packets[p].phase == Starting
    ensures var t, i := Next(s, SendCheck(p)), s.packets[p].sender;
            && i < |s.senders| && p in t.packets
            && (t.packets[p].phase == Checked <==> !s.senders[i].cancelled)
            && (s.senders[i].cancelled ==> t.packets[p].phase == Over && t.drops[p] == 1)
  {
    hide Inv;
    PacketPart(s, p, 0);
  }

  // ----- a live session -----

  /** In every run a Send to a session that is not closed drops its packet if
      and only if 128 packets are queued, and otherwise puts it at the end. */
  lemma LiveSendQueues(states: seq<State>, steps: seq<Step>, k: nat, p: nat, enqueue: bool)
    requires IsRun(states, steps) && k < |steps| && steps[k] == SendPut(p, enqueue)
    requires p in states[k].packets && states[k].packets[p].phase == Checked && states[k].packets[p].sender < |states[k].senders|
    requires !states[k].senders[states[k].packets[p].sender].cancelled
    ensures var i := states[k].packets[p].sender;
            var before, after := states[k].senders[i].queue, (if i < |states[k + 1].senders| then states[k + 1].senders[i].queue else []);
            && (states[k + 1].drops[p] == 1 <==> |before| == 128)
            && after == (if |before| == 128 then before else before + [p])
            && states[k + 1].packets[p].phase == Over
  {
    hide Inv;
    RunStep(states, steps, k);
    RunKeepsInv(states, steps, k);
    PacketPart(states[k], p, 0);
    ControlPart(states[k], states[k].packets[p].sender, "");
  }

  /** An idle loop takes the packet at the head of the queue and releases it
      when it is done. */
  lemma LoopTakesHead(s: State, i: nat)
    requires Inv(s) && i < |s.senders|
    ensures var t := Next(s, ProcTake(i));
            i < |t.senders| &&
            (s.senders[i].proc == Idle && s.senders[i].queue != [] ==>
               t.senders[i].proc == Busy(s.senders[i].queue[0]) && s.senders[i].queue == [s.senders[i].queue[0]] + t.senders[i].queue)
    ensures forall p :: s.senders[i].proc == Busy(p) ==>
              var t := Next(s, ProcDone(i));
              i < |t.senders| && t.senders[i].proc == Idle && t.drops == s.drops + multiset{p} && t.senders[i].queue == s.senders[i].queue
  {
  }

  /** b is what is left of a after d removals from its head, plus additions at
      its end. */
  predicate Shifted(a: seq<nat>, b: seq<nat>, d: nat) {
    d <= |a| && |a| - d <= |b| && a[d..] == b[..|a| - d]
  }

  lemma ShiftedTwice(a: seq<nat>, b: seq<nat>, c: seq<nat>, d: nat, e: nat)
    requires Shifted(a, b, d) && Shifted(b, c, e)
    ensures Shifted(a, c, if d + e <= |a| then d + e else |a|)
  {
    var n := if d + e <= |a| then d + e else |a|;
    forall k | 0 <= k < |a| - n ensures a[n..][k] == c[k] {
      assert a[d..][e + k] == b[..|a| - d][e + k];
      assert b[e..][k] == c[..|b| - e][k];
    }
  }

  lemma SendShifts(s: State, i: nat, q: nat, enqueue: bool, key: string)
    requires i < |s.senders|
    ensures i < |HandleNext(s, q, key).senders| && HandleNext(s, q, key).senders[i].queue == s.senders[i].queue
    ensures i < |SendCheckNext(s, q).senders| && SendCheckNext(s, q).senders[i].queue == s.senders[i].queue
    ensures i < |SendPutNext(s, q, enqueue).senders| && Shifted(s.senders[i].queue, SendPutNext(s, q, enqueue).senders[i].queue, 0)
  {
  }

  lemma LoopsShift(s: State, step: Step, i: nat, j: nat)
    requires i < |s.senders| && j < |s.senders|
    ensures i < |OwnerNext(s, j, step).senders| && HeadGone(s.senders[i].queue, OwnerNext(s, j, step).senders[i].queue)
    ensures i < |ProcNext(s, j, step).senders| && HeadGone(s.senders[i].queue, ProcNext(s, j, step).senders[i].queue)
  {
  }

  predicate HeadGone(a: seq<nat>, b: seq<nat>) {
    b == a || (a != [] && b == a[1..])
  }

  lemma HeadGoneShifts(a: seq<nat>, b: seq<nat>)
    requires HeadGone(a, b)
    ensures exists d: nat :: Shifted(a, b, d)
  {
    assert Shifted(a, b, if b == a then 0 else 1);
  }

  lemma QueueStep(s: State, step: Step, i: nat)
    requires i < |s.senders|
    ensures i < |Next(s, step).senders| && exists d: nat :: Shifted(s.senders[i].queue, Next(s, step).senders[i].queue, d)
  {
    hide HandleNext, SendCheckNext, SendPutNext, OwnerNext, ProcNext;
    hide Shifted;
    var q := s.senders[i].queue;
    SameIsShifted(q);
    match step
    case Handle(p, key) =>
      SendShifts(s, i, p, true, key);
      assert Shifted(q, Next(s, step).senders[i].queue, 0);
    case SendCheck(p) =>
      SendShifts(s, i, p, true, "");
      assert Shifted(q, Next(s, step).senders[i].queue, 0);
    case SendPut(p, enqueue) =>
      SendShifts(s, i, p, enqueue, "");
      assert Shifted(q, Next(s, step).senders[i].queue, 0);
    case AddMapping(_, _, _, _) => assert Shifted(q, Next(s, step).senders[i].queue, 0);
    case _ =>
      if step.sender < |s.senders| {
        LoopsShift(s, step, i, step.sender);
        HeadGoneShifts(q, Next(s, step).senders[i].queue);
      } else {
        assert Shifted(q, Next(s, step).senders[i].queue, 0);
      }
  }

  /** First in, first out: between any two moments of a run a queue only loses
      packets at its head and gains them at its end, so none overtakes another. */
  lemma {:induction false} QueueIsFifo(states: seq<State>, steps: seq<Step>, k: nat, j: nat, i: nat)
    requires IsRun(states, steps) && k <= j < |states| && i < |states[k].senders|
    ensures i < |states[j].senders| && exists d: nat :: Shifted(states[k].senders[i].queue, states[j].senders[i].queue, d)
  {
    hide Next, Shifted;
    var a := states[k].senders[i].queue;
    if k == j {
      SameIsShifted(a);
    } else {
      QueueIsFifo(states, steps, k, j - 1, i);
      QueueStep(states[j - 1], steps[j - 1], i);
      RunStep(states, steps, j - 1);
      var b, c := states[j - 1].senders[i].queue, states[j].senders[i].queue;
      var d: nat :| Shifted(a, b, d);
      var e: nat :| Shifted(b, c, e);
      ShiftedTwice(a, b, c, d, e);
    }
  }

  lemma SameIsShifted(a: seq<nat>)
    ensures Shifted(a, a, 0)
  {
  }

  // ----- a whole session -----

  lemma {:induction false} AfterConcat(s: State, a: seq<Step>, b: seq<Step>)
    ensures After(s, a + b) == After(After(s, a), b)
    decreases |a|
  {
    hide Next;
    if a == [] {
      assert a + b == b;
    } else {
      assert (a + b)[0] == a[0] && (a + b)[1..] == a[1..] + b;
      AfterConcat(Next(s, a[0]), a[1..], b);
    }
  }

  lemma AfterThree(s: State, a: Step, b: Step, c: Step)
    ensures After(s, [a, b, c]) == Next(Next(Next(s, a), b), c)
  {
    hide Next;
    assert [a, b, c][1..] == [b, c] && [b, c][1..] == [c] && [c][1..] == [];
    var t := Next(s, a);
    assert After(Next(Next(t, b), c), []) == Next(Next(t, b), c);
    assert After(Next(t, b), [c]) == After(Next(Next(t, b), c), []);
    assert After(t, [b, c]) == After(Next(t, b), [c]);
  }

  lemma SessionOpens(s: State, p: nat, key: string)
    requires Inv(s) && p !in s.packets && key !in s.table
    ensures var i, t := |s.senders|, After(s, [Handle(p, key), DialOk(|s.senders|), SendCheck(p)]);
            && |t.senders| == i + 1 && t.senders[i] == NewSender(key).(life := Serving, proc := Idle)
            && p in t.packets && t.packets[p] == Packet(i, Checked) && t.drops == s.drops
  {
    hide Inv;
    var i := |s.senders|;
    AfterThree(s, Handle(p, key), DialOk(i), SendCheck(p));
    var a := Next(s, Handle(p, key));
    assert a.senders[i] == NewSender(key);
    var b := Next(a, DialOk(i));
    assert b.senders[i] == NewSender(key).(life := Serving, proc := Idle) && b.packets == a.packets;
  }

  lemma PacketPasses(s: State, i: nat, p: nat, enqueue: bool)
    requires i < |s.senders| && s.senders[i].proc == Idle && s.senders[i].queue == [] && !s.senders[i].cancelled
    requires p in s.packets && s.packets[p] == Packet(i, Checked)
    ensures var t := After(s, [SendPut(p, enqueue), ProcTake(i), ProcDone(i)]);
            i < |t.senders| && t.senders[i] == s.senders[i] && t.drops == s.drops + multiset{p}
  {
    AfterThree(s, SendPut(p, enqueue), ProcTake(i), ProcDone(i));
    var a := Next(s, SendPut(p, enqueue));
    assert a.senders[i].queue == [p] && a.senders[i].proc == Idle;
    var b := Next(a, ProcTake(i));
    assert b.senders[i] == s.senders[i].(proc := Busy(p));
  }

  /** The first packet of an unknown key opens a session, is queued, processed
      and released, whatever else is going on. */
  lemma FirstPacketIsProcessed(s: State, p: nat, key: string, enqueue: bool)
    requires Inv(s) && p !in s.packets && key !in s.table
    ensures var i := |s.senders|;
            var t := After(s, [Handle(p, key), DialOk(i), SendCheck(p)] + [SendPut(p, enqueue), ProcTake(i), ProcDone(i)]);
            && i < |t.senders| && t.senders[i].queue == [] && t.senders[i].proc == Idle && !t.senders[i].cancelled
            && t.drops == s.drops + multiset{p}
  {
    hide Inv, Next, After;
    var i := |s.senders|;
    AfterConcat(s, [Handle(p, key), DialOk(i), SendCheck(p)], [SendPut(p, enqueue), ProcTake(i), ProcDone(i)]);
    SessionOpens(s, p, key);
    PacketPasses(After(s, [Handle(p, key), DialOk(i), SendCheck(p)]), i, p, enqueue);
  }

  /** The steps by which the owner of sender i finishes a close. */
  function CloseSteps(i: nat, queued: nat): seq<Step> {
    if queued == 0 then [DrainDone(i), Delete(i)] else [DropOne(i)] + CloseSteps(i, queued - 1)
  }

  predicate Closing(s: State, i: nat) {
    i < |s.senders| && s.senders[i].life == Draining
  }

  lemma DropsHead(s: State, i: nat)
    requires Closing(s, i) && s.senders[i].queue != []
    ensures var t, q := Next(s, DropOne(i)), s.senders[i].queue;
            && Closing(t, i) && t.senders[i].queue == q[1..] && t.senders[i].key == s.senders[i].key
            && t.drops == s.drops + multiset{q[0]} && t.deletes == s.deletes
  {
  }

  lemma EndsClose(s: State, i: nat)
    requires Closing(s, i) && s.senders[i].queue == []
    ensures var t := Next(Next(s, DrainDone(i)), Delete(i));
            && i < |t.senders| && t.senders[i].queue == [] && t.senders[i].life == Deleted && s.senders[i].key !in t.table
            && t.deletes == s.deletes + multiset{i} && t.drops == s.drops
  {
    var a := Next(s, DrainDone(i));
    assert a.senders[i] == s.senders[i].(life := Drained);
  }

  /** What is queued when a close has begun is dropped, and the key is free. */
  lemma {:induction false} CloseDrains(s: State, i: nat)
    requires Closing(s, i)
    ensures var t := After(s, CloseSteps(i, |s.senders[i].queue|));
            && i < |t.senders| && t.senders[i].queue == [] && t.senders[i].life == Deleted && s.senders[i].key !in t.table
            && t.deletes == s.deletes + multiset{i} && t.drops == s.drops + multiset(s.senders[i].queue)
    decreases if i < |s.senders| then |s.senders[i].queue| else 0
  {
    hide Next;
    var q := s.senders[i].queue;
    if q == [] {
      hide After;
      AfterTwo(s, DrainDone(i), Delete(i));
      EndsClose(s, i);
    } else {
      var a := Next(s, DropOne(i));
      DropsHead(s, i);
      CloseDrains(a, i);
      assert CloseSteps(i, |q|)[0] == DropOne(i) && CloseSteps(i, |q|)[1..] == CloseSteps(i, |q| - 1);
      assert q == [q[0]] + q[1..];
    }
  }

  lemma AfterTwo(s: State, a: Step, b: Step)
    ensures After(s, [a, b]) == Next(Next(s, a), b)
  {
    hide Next;
    assert [a, b][1..] == [b] && [b][1..] == [];
    assert After(Next(Next(s, a), b), []) == Next(Next(s, a), b);
    assert After(Next(s, a), [b]) == After(Next(Next(s, a), b), []);
  }

  /** A live session can be closed at any time, dialled or not. */
  lemma CloseBegins(s: State, i: nat)
    requires Inv(s) && i < |s.senders| && !s.senders[i].cancelled
    ensures var t := Next(s, BeginClose(i));
            i < |t.senders| && t.senders[i] == s.senders[i].(life := Draining, cancelled := true) && t.table == s.table
  {
    ControlPart(s, i, "");
  }

  // ----- destinations -----

  /** Where a packet goes: the target recorded for its destination, else the
      one resolved for it, if any. */
  function Target(sender: Sender, originKey: string, resolved: nat): nat {
    if Get(sender.originToTarget, originKey) != 0 then Get(sender.originToTarget, originKey) else resolved
  }

  /** Once a destination has been resolved, every later packet to it in any run
      goes to the same target, whatever resolving it again would give. */
  lemma TargetIsSticky(states: seq<State>, steps: seq<Step>, k: nat, j: nat, i: nat, key: string, origin: nat, target: nat, resolved: nat)
    requires IsRun(states, steps) && k < j < |states| && steps[k] == AddMapping(i, key, origin, target)
    requires i < |states[k].senders| && target != 0
    ensures i < |states[j].senders| && Target(states[j].senders[i], key, resolved) == Target(states[k].senders[i], key, target)
  {
    hide Next;
    RunStep(states, steps, k);
    MappingRecords(states[k], i, key, origin, target);
    MappingNeverChanges(states, steps, k + 1, j, i);
  }

  lemma MappingRecords(s: State, i: nat, key: string, origin: nat, target: nat)
    requires i < |s.senders| && target != 0
    ensures var t := Next(s, AddMapping(i, key, origin, target));
            && i < |t.senders| && key in t.senders[i].originToTarget && t.senders[i].originToTarget[key] == Target(s.senders[i], key, target)
            && t.senders[i].originToTarget[key] != 0
            && (origin != 0 ==> Restore(t.senders[i], target) ==
                                if Get(s.senders[i].targetToOrigin, target) != 0 then Get(s.senders[i].targetToOrigin, target) else origin)
  {
  }
}
