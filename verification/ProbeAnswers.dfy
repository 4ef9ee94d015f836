/** What the callers of a shared URL test return: the outcome of a probe, or
    the end of their own context. */
module ProbeAnswers {
  import opened Options
  import opened Graphs
  import opened ProbeFlights

  // ----- from the probe to the callers -----

  lemma ProbeStores(s: State, leader: nat, answer: Answer)
    requires Inv(s) && leader in s.callers && s.callers[leader].pc.Leading?
    ensures var f, t := s.callers[leader].pc.flight, Next(s, ProbeReturns(leader, answer));
            f < |t.flights| && t.flights[f].answer == answer && t.flights[f].leader == leader && Settled(t, f)
  {
    hide Inv, FlightKey;
    InvPart(s, "", 0, leader);
  }

  /** What a probe returned stays in its flight, so the leader and every caller
      that shares the flight return exactly that. */
  lemma AnswerIsDelivered(states: seq<State>, steps: seq<Step>, k: nat, i: nat, leader: nat, answer: Answer)
    requires IsRun(states, steps) && k < i < |states| && steps[k] == ProbeReturns(leader, answer)
    requires leader in states[k].callers && states[k].callers[leader].pc.Leading?
    ensures var f := states[k].callers[leader].pc.flight;
            f < |states[i].flights| && states[i].flights[f].answer == answer
    ensures var f := states[k].callers[leader].pc.flight;
            forall c :: c in states[i].callers && (states[i].callers[c].pc == ReturnedOwn(f) ||
                                                  exists live :: states[i].callers[c].pc == ReturnedShared(f, live)) ==>
              Returned(states[i], c) == Some(answer)
  {
    hide Inv, Next, Settled;
    var f := states[k].callers[leader].pc.flight;
    RunKeepsInv(states, steps, k);
    RunStep(states, steps, k);
    ProbeStores(states[k], leader, answer);
    VerdictLasts(states, steps, k + 1, i, f);
    SettledExists(states[i], f);
  }

  lemma SettledExists(s: State, f: nat)
    requires Settled(s, f)
    ensures f < |s.flights|
  {
  }

  /** The result of a caller that has returned. */
  function Returned(s: State, c: nat): Option<Answer>
    requires c in s.callers
  {
    match s.callers[c].pc
    case ReturnedOwn(f) => if f < |s.flights| then Some(s.flights[f].answer) else None
    case ReturnedShared(f, _) => if f < |s.flights| then Some(s.flights[f].answer) else None
    case ReturnedContext => Some(NoAnswer)
    case _ => None
  }

  // ----- and back: every answer comes from a probe -----

  /** While its leader probes, a flight carries the outcome of a lost leader. */
  predicate Untouched(s: State, c: nat) {
    c in s.callers && s.callers[c].pc.Leading? ==>
      var f := s.callers[c].pc.flight;
      f < |s.flights| && s.flights[f].answer == NoAnswer && s.flights[f].abandoned && !s.flights[f].timedOut
  }

  lemma UntouchedStep(s: State, step: Step, c: nat)
    requires Inv(s) && Untouched(s, c)
    ensures Untouched(Next(s, step), c)
  {
    hide Inv, FlightKey, Distinct, WaiterOk, SharedOk, EntryOk;
    InvPart(s, "", 0, c);
    InvPart(s, "", 0, step.caller);
  }

  lemma {:induction false} RunKeepsUntouched(states: seq<State>, steps: seq<Step>, i: nat, c: nat)
    requires IsRun(states, steps) && i < |states|
    ensures Untouched(states[i], c)
  {
    hide Inv, Next;
    if i > 0 {
      RunKeepsUntouched(states, steps, i - 1, c);
      RunKeepsInv(states, steps, i - 1);
      RunStep(states, steps, i - 1);
      UntouchedStep(states[i - 1], steps[i - 1], c);
    }
  }

  /** The step ends the probe of flight f with this answer, or without any. */
  predicate EndsProbe(s: State, step: Step, f: nat, answer: Answer) {
    exists leader :: leader in s.callers && s.callers[leader].pc == Leading(f) &&
      (step == ProbeReturns(leader, answer) || (step == ProbePanics(leader) && answer == NoAnswer))
  }

  lemma SettlingStep(s: State, step: Step, f: nat)
    requires Inv(s) && !Settled(s, f) && Settled(Next(s, step), f)
    requires f < |s.flights| ==> Untouched(s, s.flights[f].leader)
    ensures EndsProbe(s, step, f, Next(s, step).flights[f].answer)
  {
    hide Inv, FlightKey, Distinct, WaiterOk, SharedOk, EntryOk;
    InvPart(s, "", f, step.caller);
    if f < |s.flights| {
      var leader := s.flights[f].leader;
      InvPart(s, "", f, leader);
      assert s.callers[leader].pc == Leading(f);
      match step
      case ProbeReturns(c, answer) => assert c == leader;
      case ProbePanics(c) => assert c == leader;
      case _ =>
    }
  }

  /** Every answer in a flight whose probe is over was returned by a probe of
      that flight, or stands for a probe that never returned. */
  lemma {:induction false} AnswerOrigin(states: seq<State>, steps: seq<Step>, i: nat, f: nat)
    requires IsRun(states, steps) && i < |states| && Settled(states[i], f)
    ensures exists k :: 0 <= k < i && EndsProbe(states[k], steps[k], f, states[i].flights[f].answer)
  {
    hide Inv, Next, Settled, EndsProbe;
    SettledExists(states[i], f);
    if i == 0 {
      NothingSettled(f);
    } else {
      RunKeepsInv(states, steps, i - 1);
      RunStep(states, steps, i - 1);
      if Settled(states[i - 1], f) {
        SettledExists(states[i - 1], f);
        AnswerOrigin(states, steps, i - 1, f);
        VerdictLasts(states, steps, i - 1, i, f);
      } else {
        if f < |states[i - 1].flights| { RunKeepsUntouched(states, steps, i - 1, states[i - 1].flights[f].leader); }
        SettlingStep(states[i - 1], steps[i - 1], f);
      }
    }
  }

  lemma NothingSettled(f: nat)
    ensures !Settled(Initial, f)
  {
  }

  // ----- who leads and who waits -----

  /** Some caller is probing, or about to clean up after, the same question. */
  predicate Leads(s: State, d: nat, r: Request, f: nat) {
    d in s.callers && s.callers[d].request == r && (s.callers[d].pc == Leading(f) || s.callers[d].pc == Finishing(f))
  }

  /** A caller waits on the flight of whoever leads its question, and leads a
      new flight if and only if nobody does. */
  lemma JoinOrLead(s: State, c: nat)
    requires Inv(s) && At(s, c, Looking)
    ensures forall d, f :: Leads(s, d, s.callers[c].request, f) ==> At(Next(s, Look(c)), c, Waiting(f))
    ensures (forall d, f :: !Leads(s, d, s.callers[c].request, f)) ==>
              var t := Next(s, Look(c)); var f := |s.flights|;
              At(t, c, Leading(f)) && |t.flights| == f + 1 && t.flights[..f] == s.flights && t.flights[f].leader == c &&
              t.flights[f].patience == s.callers[c].patience && !t.flights[f].done && Leads(t, c, s.callers[c].request, f)
  {
    hide Inv, Distinct;
    var r := s.callers[c].request;
    InvPart(s, FlightKey(r), 0, c);
    forall d, f | Leads(s, d, r, f) ensures FlightKey(r) in s.table && s.table[FlightKey(r)] == f { InvPart(s, "", 0, d); }
    if FlightKey(r) in s.table {
      var f := s.table[FlightKey(r)];
      var d := s.flights[f].leader;
      InvPart(s, "", f, d);
      FlightKeyInjective(s.callers[d].request, r);
      assert Leads(s, d, r, f);
    }
  }

  // ----- an undisturbed probe -----

  function After(s: State, steps: seq<Step>): State
    decreases |steps|
  {
    if steps == [] then s else After(Next(s, steps[0]), steps[1..])
  }

  lemma AfterFour(s: State, a: Step, b: Step, c: Step, d: Step)
    ensures After(s, [a, b, c, d]) == Next(Next(Next(Next(s, a), b), c), d)
  {
    hide Next;
    assert [a, b, c, d][1..] == [b, c, d] && [b, c, d][1..] == [c, d] && [c, d][1..] == [d] && [d][1..] == [];
    var t := Next(Next(s, a), b);
    assert After(Next(Next(t, c), d), []) == Next(Next(t, c), d);
    assert After(Next(t, c), [d]) == After(Next(Next(t, c), d), []);
    assert After(t, [c, d]) == After(Next(t, c), [d]);
    assert After(Next(s, a), [b, c, d]) == After(t, [c, d]);
  }

  /** Leader and waiter of flight f. */
  predicate Pair(s: State, leader: nat, c: nat, f: nat) {
    && leader in s.callers && c in s.callers && leader != c && s.callers[c].pc == Waiting(f)
    && f < |s.flights| && s.flights[f].patience == s.callers[leader].patience
  }

  lemma LeaderFinishes(s: State, leader: nat, c: nat, f: nat, answer: Answer)
    requires Inv(s) && Pair(s, leader, c, f) && s.callers[leader].pc == Leading(f)
    ensures var t := Next(Next(Next(s, ProbeReturns(leader, answer)), Unregister(leader)), Announce(leader));
            && Pair(t, leader, c, f) && t.callers[leader].pc == ReturnedOwn(f) && t.callers[c] == s.callers[c]
            && t.table == s.table - {FlightKey(s.callers[leader].request)}
            && t.flights[f] == s.flights[f].(answer := answer, done := true,
                                             abandoned := answer.failed && s.callers[leader].context == Cancelled,
                                             timedOut := answer.failed && s.callers[leader].context == DeadlineExceeded)
  {
    hide Inv, FlightKey;
    InvPart(s, "", f, leader);
    var a := Next(s, ProbeReturns(leader, answer));
    assert a.callers[leader].pc == Finishing(f);
    var b := Next(a, Unregister(leader));
    assert b.callers[leader].pc == Announcing(f) && b.flights == a.flights;
  }

  /** The probe of an undisturbed leader reaches a waiter: it returns the
      answer, except that a live waiter starts over when the probe failed
      because the leader was cancelled, or failed at the leader's deadline and
      the waiter has no deadline or more than the slack of extra patience. */
  lemma ProbeReachesWaiter(s: State, leader: nat, c: nat, f: nat, answer: Answer)
    requires Inv(s) && Pair(s, leader, c, f) && s.callers[leader].pc == Leading(f)
    ensures var t := After(s, [ProbeReturns(leader, answer), Unregister(leader), Announce(leader), Wake(c)]);
            var mine, theirs := s.callers[c].patience, s.callers[leader].patience;
            var startsOver := s.callers[c].context == Live && answer.failed &&
              (s.callers[leader].context == Cancelled ||
               (s.callers[leader].context == DeadlineExceeded && (mine == 0 || (theirs != 0 && mine > theirs + SLACK))));
            && leader in t.callers && Returned(t, leader) == Some(answer)
            && c in t.callers && (if startsOver then t.callers[c].pc == Looking else Returned(t, c) == Some(answer))
            && FlightKey(s.callers[leader].request) !in t.table
  {
    hide Inv, FlightKey, Next, After, Returned;
    AfterFour(s, ProbeReturns(leader, answer), Unregister(leader), Announce(leader), Wake(c));
    LeaderFinishes(s, leader, c, f, answer);
    WakeDecides(Next(Next(Next(s, ProbeReturns(leader, answer)), Unregister(leader)), Announce(leader)), leader, c, f);
  }

  /** What a waiter does once its flight is done. */
  lemma WakeDecides(s: State, leader: nat, c: nat, f: nat)
    requires Pair(s, leader, c, f) && s.flights[f].done && s.callers[leader].pc == ReturnedOwn(f)
    ensures var t, flight, mine := Next(s, Wake(c)), s.flights[f], s.callers[c].patience;
            var startsOver := s.callers[c].context == Live &&
              (flight.abandoned || (flight.timedOut && (mine == 0 || (flight.patience != 0 && mine > flight.patience + SLACK))));
            && leader in t.callers && c in t.callers && Returned(t, leader) == Some(flight.answer) && t.table == s.table
            && (if startsOver then t.callers[c].pc == Looking else Returned(t, c) == Some(flight.answer))
  {
  }

  /** From the start: two callers with the same question share one probe. */
  lemma TwoCallersShareOneProbe(r: Request, patience: int, answer: Answer)
    requires WellFormedRequest(r)
    ensures var s := After(Initial, [Arrive(0, r, patience), Look(0), Arrive(1, r, patience), Look(1)]);
            var t := After(s, [ProbeReturns(0, answer), Unregister(0), Announce(0), Wake(1)]);
            |t.flights| == 1 && 0 in t.callers && 1 in t.callers && Returned(t, 0) == Some(answer) && Returned(t, 1) == Some(answer)
  {
    hide FlightKey, Inv, After;
    var s1 := Next(Initial, Arrive(0, r, patience));
    var s2 := Next(s1, Look(0));
    var s3 := Next(s2, Arrive(1, r, patience));
    var s := Next(s3, Look(1));
    AfterFour(Initial, Arrive(0, r, patience), Look(0), Arrive(1, r, patience), Look(1));
    InitialInv();
    NextKeepsInv(Initial, Arrive(0, r, patience));
    NextKeepsInv(s1, Look(0));
    NextKeepsInv(s2, Arrive(1, r, patience));
    NextKeepsInv(s3, Look(1));
    assert s2.callers[0].pc == Leading(0) && |s2.flights| == 1;
    assert s.callers[1].pc == Waiting(0) && s.callers[0].pc == Leading(0) && s.callers[1].context == Live == s.callers[0].context;
    ProbeReachesWaiter(s, 0, 1, 0, answer);
    AfterFour(s, ProbeReturns(0, answer), Unregister(0), Announce(0), Wake(1));
    LeaderFinishes(s, 0, 1, 0, answer);
    OneFlightLeft(s, answer);
  }

  lemma OneFlightLeft(s: State, answer: Answer)
    ensures var t := Next(Next(Next(Next(s, ProbeReturns(0, answer)), Unregister(0)), Announce(0)), Wake(1));
            |t.flights| == |s.flights|
  {
    hide FlightKey;
    var a := Next(s, ProbeReturns(0, answer));
    assert |a.flights| == |s.flights|;
    var b := Next(a, Unregister(0));
    assert |b.flights| == |s.flights|;
    var c := Next(b, Announce(0));
    assert |c.flights| == |s.flights|;
  }

  // ----- contexts -----

  /** A context ends once, in the way it ends, and only an ended one lets a
      waiter leave without an answer. */
  lemma ContextsEnd(s: State, step: Step, c: nat)
    requires c in s.callers
    ensures c in Next(s, step).callers
    ensures s.callers[c].context != Live ==> Next(s, step).callers[c].context == s.callers[c].context
    ensures s.callers[c].context == Live && step == ContextEnds(c, true) ==> Next(s, step).callers[c].context == DeadlineExceeded
    ensures s.callers[c].context == Live && step == ContextEnds(c, false) ==> Next(s, step).callers[c].context == Cancelled
    ensures s.callers[c].pc.Waiting? && step == GiveUp(c) ==>
              (Next(s, step).callers[c].pc == ReturnedContext <==> s.callers[c].context != Live)
  {
    hide FlightKey;
  }
}
