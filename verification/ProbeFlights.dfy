/** Shared URL tests: concurrent probes of one node that ask the same question
    ride on one flight.  The machine interleaves any number of callers; its
    atomic steps are the critical sections of the flight table, the writes of
    a leader, the closing of a flight and the ends of contexts. */
module ProbeFlights {
  import opened Options
  import opened Graphs

  const SLACK := 100  // milliseconds

  datatype Request = Request(background: bool, url: string, expected: string)

  datatype Context = Live | Cancelled | DeadlineExceeded

  datatype Answer = Answer(delay: nat, satisfied: bool, status: nat, failed: bool)

  const NoAnswer := Answer(0, false, 0, true)

  datatype Flight = Flight(key: string, leader: nat, patience: int, answer: Answer, abandoned: bool, timedOut: bool, done: bool)

  datatype Pc =
    | Looking                       // at the top of the loop
    | Leading(flight: nat)          // probing for everybody
    | Finishing(flight: nat)        // probe over, deferred clean-up not begun
    | Announcing(flight: nat)       // entry deleted, channel not closed yet
    | Waiting(flight: nat)
    | ReturnedOwn(flight: nat)
    | ReturnedShared(flight: nat, live: bool)
    | ReturnedContext

  /** waited lists, in order, the flights this caller has waited on. */
  datatype Caller = Caller(request: Request, patience: int, context: Context, pc: Pc, waited: seq<nat>)

  /** closes counts how often each flight's channel has been closed. */
  datatype State = State(table: map<string, nat>, flights: seq<Flight>, callers: map<nat, Caller>, closes: multiset<nat>)

  datatype Step =
    | Arrive(caller: nat, request: Request, patience: int)
    | ContextEnds(caller: nat, deadline: bool)
    | Look(caller: nat)
    | ProbeReturns(caller: nat, answer: Answer)
    | ProbePanics(caller: nat)
    | Unregister(caller: nat)
    | Announce(caller: nat)
    | Wake(caller: nat)
    | GiveUp(caller: nat)

  const Initial := State(map[], [], map[], multiset{})

  /** urlTestFlightKey. */
  function FlightKey(r: Request): string {
    (if r.background then "bg" else "fg") + "\0" + r.url + "\0" + r.expected
  }

  /** A status pattern never contains the separator. */
  predicate WellFormedRequest(r: Request) {
    '\0' !in r.expected
  }

  predicate MorePatient(patience: int, flight: Flight) {
    patience == 0 || (flight.patience != 0 && patience > flight.patience + SLACK)
  }

  function SetPc(s: State, c: nat, pc: Pc): State
    requires c in s.callers
  {
    s.(callers := s.callers[c := s.callers[c].(pc := pc)])
  }

  predicate At(s: State, c: nat, pc: Pc) {
    c in s.callers && s.callers[c].pc == pc
  }

  function FlightOf(pc: Pc): Option<nat> {
    match pc
    case Leading(f) => Some(f)
    case Finishing(f) => Some(f)
    case Announcing(f) => Some(f)
    case _ => None
  }

  // ----- steps -----

  function LookNext(s: State, c: nat): State
    requires c in s.callers
  {
    var caller := s.callers[c];
    var key := FlightKey(caller.request);
    if key in s.table then
      var f := s.table[key];
      s.(callers := s.callers[c := caller.(pc := Waiting(f), waited := caller.waited + [f])])
    else
      var f := |s.flights|;
      s.(table := s.table[key := f],
         flights := s.flights + [Flight(key, c, caller.patience, NoAnswer, true, false, false)],
         callers := s.callers[c := caller.(pc := Leading(f))])
  }

  function ProbeNext(s: State, c: nat, answer: Answer): State
    requires c in s.callers && s.callers[c].pc.Leading?
  {
    var f := s.callers[c].pc.flight;
    if f >= |s.flights| then s
    else
      var flight := s.flights[f].(answer := answer,
                                  abandoned := answer.failed && s.callers[c].context == Cancelled,
                                  timedOut := answer.failed && s.callers[c].context == DeadlineExceeded);
      SetPc(s.(flights := s.flights[f := flight]), c, Finishing(f))
  }

  function UnregisterNext(s: State, c: nat): State
    requires c in s.callers && s.callers[c].pc.Finishing?
  {
    var f := s.callers[c].pc.flight;
    SetPc(s.(table := s.table - {FlightKey(s.callers[c].request)}), c, Announcing(f))
  }

  function AnnounceNext(s: State, c: nat): State
    requires c in s.callers && s.callers[c].pc.Announcing?
  {
    var f := s.callers[c].pc.flight;
    if f >= |s.flights| then s
    else SetPc(s.(flights := s.flights[f := s.flights[f].(done := true)], closes := s.closes + multiset{f}), c, ReturnedOwn(f))
  }

  /** The body of the select once the flight is done. */
  function WakeNext(s: State, c: nat): State
    requires c in s.callers && s.callers[c].pc.Waiting?
  {
    var f := s.callers[c].pc.flight;
    if f >= |s.flights| || !s.flights[f].done then s
    else
      var flight, live := s.flights[f], s.callers[c].context == Live;
      if live && flight.abandoned then SetPc(s, c, Looking)
      else if live && flight.timedOut && MorePatient(s.callers[c].patience, flight) then SetPc(s, c, Looking)
      else SetPc(s, c, ReturnedShared(f, live))
  }

  function Next(s: State, step: Step): State {
    match step
    case Arrive(c, r, patience) =>
      if c in s.callers || !WellFormedRequest(r) then s
      else s.(callers := s.callers[c := Caller(r, patience, Live, Looking, [])])
    case ContextEnds(c, deadline) =>
      if c !in s.callers || s.callers[c].context != Live then s
      else s.(callers := s.callers[c := s.callers[c].(context := if deadline then DeadlineExceeded else Cancelled)])
    case Look(c) => if At(s, c, Looking) then LookNext(s, c) else s
    case ProbeReturns(c, answer) => if c in s.callers && s.callers[c].pc.Leading? then ProbeNext(s, c, answer) else s
    case ProbePanics(c) =>
      if c in s.callers && s.callers[c].pc.Leading? then SetPc(s, c, Finishing(s.callers[c].pc.flight)) else s
    case Unregister(c) => if c in s.callers && s.callers[c].pc.Finishing? then UnregisterNext(s, c) else s
    case Announce(c) => if c in s.callers && s.callers[c].pc.Announcing? then AnnounceNext(s, c) else s
    case Wake(c) => if c in s.callers && s.callers[c].pc.Waiting? then WakeNext(s, c) else s
    case GiveUp(c) =>
      if c in s.callers && s.callers[c].pc.Waiting? && s.callers[c].context != Live then SetPc(s, c, ReturnedContext) else s
  }

  // ----- invariant -----

  /** A table entry is an unfinished flight with a leader at work on it. */
  predicate EntryOk(s: State, key: string)
    requires key in s.table
  {
    var f := s.table[key];
    && f < |s.flights| && s.flights[f].key == key && !s.flights[f].done
    && var c := s.flights[f].leader;
       c in s.callers && (s.callers[c].pc == Leading(f) || s.callers[c].pc == Finishing(f))
  }

  predicate FlightOk(s: State, f: nat)
    requires f < |s.flights|
  {
    var flight := s.flights[f];
    && flight.leader in s.callers && FlightKey(s.callers[flight.leader].request) == flight.key
    && (flight.done ==> s.closes[f] == 1)
    && (!flight.done ==> s.closes[f] == 0 && FlightOf(s.callers[flight.leader].pc) == Some(f))
  }

  predicate Finished(s: State, f: nat) {
    f < |s.flights| && s.flights[f].done
  }

  predicate LeaderOk(s: State, c: nat)
    requires c in s.callers
  {
    var caller := s.callers[c];
    FlightOf(caller.pc).Some? ==>
      var f := FlightOf(caller.pc).value;
      && f < |s.flights| && s.flights[f].leader == c && !s.flights[f].done
      && (!caller.pc.Announcing? ==> FlightKey(caller.request) in s.table && s.table[FlightKey(caller.request)] == f)
      && (caller.pc.Announcing? ==> FlightKey(caller.request) in s.table ==> s.table[FlightKey(caller.request)] != f)
  }

  predicate SharedOk(s: State, c: nat)
    requires c in s.callers
  {
    var caller := s.callers[c];
    caller.pc.ReturnedShared? ==>
      && Finished(s, caller.pc.flight) && s.flights[caller.pc.flight].key == FlightKey(caller.request)
      && (caller.pc.live ==> !s.flights[caller.pc.flight].abandoned &&
                             !(s.flights[caller.pc.flight].timedOut && MorePatient(caller.patience, s.flights[caller.pc.flight])))
  }

  ghost predicate WaiterOk(s: State, c: nat)
    requires c in s.callers
  {
    var caller := s.callers[c];
    && WellFormedRequest(caller.request) && Distinct(caller.waited)
    && (forall f :: f in caller.waited ==> f < |s.flights|)
    && (caller.pc.Looking? ==> forall f :: f in caller.waited ==> Finished(s, f))
    && (caller.pc.Waiting? ==> caller.pc.flight in caller.waited && s.flights[caller.pc.flight].key == FlightKey(caller.request) &&
                               forall f :: f in caller.waited && f != caller.pc.flight ==> Finished(s, f))
  }

  ghost predicate Inv(s: State) {
    && (forall key :: key in s.table ==> EntryOk(s, key))
    && (forall f :: 0 <= f < |s.flights| ==> FlightOk(s, f))
    && (forall c :: c in s.callers ==> LeaderOk(s, c))
    && (forall c :: c in s.callers ==> SharedOk(s, c))
    && (forall c :: c in s.callers ==> WaiterOk(s, c))
    && (forall f :: f in s.closes ==> f < |s.flights|)
  }

  lemma InitialInv()
    ensures Inv(Initial)
  {
  }

  /** All parts of the invariant that mention one key, flight or caller. */
  ghost predicate PartsOf(s: State, key: string, f: nat, c: nat) {
    && (key in s.table ==> EntryOk(s, key))
    && (f < |s.flights| ==> FlightOk(s, f))
    && (c in s.callers ==> LeaderOk(s, c) && SharedOk(s, c) && WaiterOk(s, c))
    && (f in s.closes ==> f < |s.flights|)
  }

  lemma InvPart(s: State, key: string, f: nat, c: nat)
    requires Inv(s)
    ensures PartsOf(s, key, f, c)
  {
  }

  lemma InvFromParts(s: State)
    requires forall key, f: nat, c: nat :: PartsOf(s, key, f, c)
    ensures Inv(s)
  {
    forall key | key in s.table ensures EntryOk(s, key) { assert PartsOf(s, key, 0, 0); }
    forall f: nat | f < |s.flights| ensures FlightOk(s, f) { assert PartsOf(s, "", f, 0); }
    forall f: nat | f in s.closes ensures f < |s.flights| { assert PartsOf(s, "", f, 0); }
    forall c: nat | c in s.callers ensures LeaderOk(s, c) && SharedOk(s, c) && WaiterOk(s, c) { assert PartsOf(s, "", 0, c); }
  }

  lemma JoinKeepsPart(s: State, c: nat, key: string, f: nat, d: nat)
    requires Inv(s) && At(s, c, Looking) && FlightKey(s.callers[c].request) in s.table
    ensures PartsOf(LookNext(s, c), key, f, d)
  {
    hide Inv, FlightKey, Distinct;
    var own := FlightKey(s.callers[c].request);
    InvPart(s, own, f, c);
    InvPart(s, key, f, d);
    if key in s.table { InvPart(s, key, s.table[key], s.flights[s.table[key]].leader); }
    DistinctConcat(s.callers[c].waited, [s.table[own]]);
    assert Distinct([s.table[own]]) by { DistinctSingle(s.table[own]); }
  }

  lemma DistinctSingle(x: nat)
    ensures Distinct([x]) && Distinct<nat>([])
  {
  }

  lemma LeadKeepsPart(s: State, c: nat, key: string, f: nat, d: nat)
    requires Inv(s) && At(s, c, Looking) && FlightKey(s.callers[c].request) !in s.table
    ensures PartsOf(LookNext(s, c), key, f, d)
  {
    hide Inv, FlightKey, Distinct;
    InvPart(s, key, |s.flights|, c);
    InvPart(s, key, f, d);
    if key in s.table { InvPart(s, key, s.table[key], s.flights[s.table[key]].leader); }
  }

  lemma LookKeepsInv(s: State, c: nat)
    requires Inv(s) && At(s, c, Looking)
    ensures Inv(LookNext(s, c))
  {
    hide PartsOf, Inv, FlightKey;
    var t := LookNext(s, c);
    forall key, f: nat, d: nat ensures PartsOf(t, key, f, d) {
      if FlightKey(s.callers[c].request) in s.table { JoinKeepsPart(s, c, key, f, d); } else { LeadKeepsPart(s, c, key, f, d); }
    }
    InvFromParts(t);
  }

  lemma ProbeKeepsPart(s: State, c: nat, answer: Answer, key: string, f: nat, d: nat)
    requires Inv(s) && c in s.callers && s.callers[c].pc.Leading?
    ensures PartsOf(ProbeNext(s, c, answer), key, f, d)
  {
    hide Inv, FlightKey, Distinct;
    InvPart(s, key, f, c);
    InvPart(s, key, f, d);
    if key in s.table { InvPart(s, key, s.table[key], s.flights[s.table[key]].leader); }
  }

  lemma ProbeKeepsInv(s: State, c: nat, answer: Answer)
    requires Inv(s) && c in s.callers && s.callers[c].pc.Leading?
    ensures Inv(ProbeNext(s, c, answer))
  {
    hide PartsOf, Inv;
    var t := ProbeNext(s, c, answer);
    forall key, f: nat, d: nat ensures PartsOf(t, key, f, d) {
      ProbeKeepsPart(s, c, answer, key, f, d);
    }
    InvFromParts(t);
  }

  lemma PanicKeepsPart(s: State, c: nat, key: string, f: nat, d: nat)
    requires Inv(s) && c in s.callers && s.callers[c].pc.Leading?
    ensures PartsOf(SetPc(s, c, Finishing(s.callers[c].pc.flight)), key, f, d)
  {
    hide Inv, FlightKey, Distinct;
    InvPart(s, key, f, c);
    InvPart(s, key, f, d);
    if key in s.table { InvPart(s, key, s.table[key], s.flights[s.table[key]].leader); }
  }

  lemma PanicKeepsInv(s: State, c: nat)
    requires Inv(s) && c in s.callers && s.callers[c].pc.Leading?
    ensures Inv(SetPc(s, c, Finishing(s.callers[c].pc.flight)))
  {
    hide PartsOf, Inv;
    var t := SetPc(s, c, Finishing(s.callers[c].pc.flight));
    forall key, f: nat, d: nat ensures PartsOf(t, key, f, d) {
      PanicKeepsPart(s, c, key, f, d);
    }
    InvFromParts(t);
  }

  lemma UnregisterKeepsPart(s: State, c: nat, key: string, f: nat, d: nat)
    requires Inv(s) && c in s.callers && s.callers[c].pc.Finishing?
    ensures PartsOf(UnregisterNext(s, c), key, f, d)
  {
    hide Inv, FlightKey, Distinct;
    InvPart(s, key, f, c);
    InvPart(s, key, f, d);
    if key in s.table { InvPart(s, key, s.table[key], s.flights[s.table[key]].leader); }
  }

  lemma UnregisterKeepsInv(s: State, c: nat)
    requires Inv(s) && c in s.callers && s.callers[c].pc.Finishing?
    ensures Inv(UnregisterNext(s, c))
  {
    hide PartsOf, Inv;
    var t := UnregisterNext(s, c);
    forall key, f: nat, d: nat ensures PartsOf(t, key, f, d) {
      UnregisterKeepsPart(s, c, key, f, d);
    }
    InvFromParts(t);
  }

  lemma AnnounceKeepsPart(s: State, c: nat, key: string, f: nat, d: nat)
    requires Inv(s) && c in s.callers && s.callers[c].pc.Announcing?
    ensures PartsOf(AnnounceNext(s, c), key, f, d)
  {
    hide Inv, FlightKey, Distinct;
    InvPart(s, key, f, c);
    InvPart(s, key, f, d);
    if key in s.table { InvPart(s, key, s.table[key], s.flights[s.table[key]].leader); }
    InvPart(s, key, s.callers[c].pc.flight, c);
  }

  lemma AnnounceKeepsInv(s: State, c: nat)
    requires Inv(s) && c in s.callers && s.callers[c].pc.Announcing?
    ensures Inv(AnnounceNext(s, c))
  {
    hide PartsOf, Inv;
    var t := AnnounceNext(s, c);
    forall key, f: nat, d: nat ensures PartsOf(t, key, f, d) {
      AnnounceKeepsPart(s, c, key, f, d);
    }
    InvFromParts(t);
  }

  lemma WakeKeepsPart(s: State, c: nat, key: string, f: nat, d: nat)
    requires Inv(s) && c in s.callers && s.callers[c].pc.Waiting?
    ensures PartsOf(WakeNext(s, c), key, f, d)
  {
    hide Inv, FlightKey, Distinct;
    InvPart(s, key, f, c);
    InvPart(s, key, f, d);
    if key in s.table { InvPart(s, key, s.table[key], s.flights[s.table[key]].leader); }
  }

  lemma WakeKeepsInv(s: State, c: nat)
    requires Inv(s) && c in s.callers && s.callers[c].pc.Waiting?
    ensures Inv(WakeNext(s, c))
  {
    hide PartsOf, Inv;
    var t := WakeNext(s, c);
    forall key, f: nat, d: nat ensures PartsOf(t, key, f, d) {
      WakeKeepsPart(s, c, key, f, d);
    }
    InvFromParts(t);
  }

  lemma GiveUpKeepsPart(s: State, c: nat, key: string, f: nat, d: nat)
    requires Inv(s) && c in s.callers && s.callers[c].pc.Waiting?
    ensures PartsOf(SetPc(s, c, ReturnedContext), key, f, d)
  {
    hide Inv, FlightKey, Distinct;
    InvPart(s, key, f, c);
    InvPart(s, key, f, d);
    if key in s.table { InvPart(s, key, s.table[key], s.flights[s.table[key]].leader); }
  }

  lemma GiveUpKeepsInv(s: State, c: nat)
    requires Inv(s) && c in s.callers && s.callers[c].pc.Waiting?
    ensures Inv(SetPc(s, c, ReturnedContext))
  {
    hide PartsOf, Inv;
    var t := SetPc(s, c, ReturnedContext);
    forall key, f: nat, d: nat ensures PartsOf(t, key, f, d) {
      GiveUpKeepsPart(s, c, key, f, d);
    }
    InvFromParts(t);
  }

  lemma ContextEndsKeepsPart(s: State, c: nat, context: Context, key: string, f: nat, d: nat)
    requires Inv(s) && c in s.callers
    ensures PartsOf(s.(callers := s.callers[c := s.callers[c].(context := context)]), key, f, d)
  {
    hide Inv, FlightKey, Distinct;
    InvPart(s, key, f, c);
    InvPart(s, key, f, d);
    if key in s.table { InvPart(s, key, s.table[key], s.flights[s.table[key]].leader); }
  }

  lemma ContextEndsKeepsInv(s: State, c: nat, context: Context)
    requires Inv(s) && c in s.callers
    ensures Inv(s.(callers := s.callers[c := s.callers[c].(context := context)]))
  {
    hide PartsOf, Inv;
    var t := s.(callers := s.callers[c := s.callers[c].(context := context)]);
    forall key, f: nat, d: nat ensures PartsOf(t, key, f, d) {
      ContextEndsKeepsPart(s, c, context, key, f, d);
    }
    InvFromParts(t);
  }

  lemma ArriveKeepsPart(s: State, c: nat, r: Request, patience: int, key: string, f: nat, d: nat)
    requires Inv(s) && c !in s.callers && WellFormedRequest(r)
    ensures PartsOf(s.(callers := s.callers[c := Caller(r, patience, Live, Looking, [])]), key, f, d)
  {
    hide Inv, FlightKey, Distinct;
    InvPart(s, key, f, c);
    DistinctSingle(c);
    InvPart(s, key, f, d);
    if key in s.table { InvPart(s, key, s.table[key], s.flights[s.table[key]].leader); }
  }

  lemma ArriveKeepsInv(s: State, c: nat, r: Request, patience: int)
    requires Inv(s) && c !in s.callers && WellFormedRequest(r)
    ensures Inv(s.(callers := s.callers[c := Caller(r, patience, Live, Looking, [])]))
  {
    hide PartsOf, Inv;
    var t := s.(callers := s.callers[c := Caller(r, patience, Live, Looking, [])]);
    forall key, f: nat, d: nat ensures PartsOf(t, key, f, d) {
      ArriveKeepsPart(s, c, r, patience, key, f, d);
    }
    InvFromParts(t);
  }

  /** Every atomic step keeps the invariant. */
  lemma NextKeepsInv(s: State, step: Step)
    requires Inv(s)
    ensures Inv(Next(s, step))
  {
    hide Inv, LookNext, ProbeNext, UnregisterNext, AnnounceNext, WakeNext;
    match step
    case Arrive(c, r, patience) => if c !in s.callers && WellFormedRequest(r) { ArriveKeepsInv(s, c, r, patience); }
    case ContextEnds(c, deadline) => if c in s.callers { ContextEndsKeepsInv(s, c, if deadline then DeadlineExceeded else Cancelled); }
    case Look(c) => if At(s, c, Looking) { LookKeepsInv(s, c); }
    case ProbeReturns(c, answer) => if c in s.callers && s.callers[c].pc.Leading? { ProbeKeepsInv(s, c, answer); }
    case ProbePanics(c) => if c in s.callers && s.callers[c].pc.Leading? { PanicKeepsInv(s, c); }
    case Unregister(c) => if c in s.callers && s.callers[c].pc.Finishing? { UnregisterKeepsInv(s, c); }
    case Announce(c) => if c in s.callers && s.callers[c].pc.Announcing? { AnnounceKeepsInv(s, c); }
    case Wake(c) => if c in s.callers && s.callers[c].pc.Waiting? { WakeKeepsInv(s, c); }
    case GiveUp(c) => if c in s.callers && s.callers[c].pc.Waiting? { GiveUpKeepsInv(s, c); }
  }

  // ----- guarantees over every run -----

  ghost predicate IsRun(states: seq<State>, steps: seq<Step>) {
    && |states| == |steps| + 1 && states[0] == Initial
    && forall i, j :: 0 <= i < |steps| && j == i + 1 ==> states[j] == Next(states[i], steps[i])
  }

  lemma {:induction false} RunKeepsInv(states: seq<State>, steps: seq<Step>, i: nat)
    requires IsRun(states, steps) && i < |states|
    ensures Inv(states[i])
  {
    hide Inv, Next;
    if i == 0 {
      InitialInv();
    } else {
      RunKeepsInv(states, steps, i - 1);
      NextKeepsInv(states[i - 1], steps[i - 1]);
    }
  }

  predicate Probing(s: State, c: nat) {
    c in s.callers && s.callers[c].pc.Leading?
  }

  /** The table holds only unfinished flights, each with its leader at work,
      and two callers never probe the same question at the same time. */
  lemma OneFlightPerKey(states: seq<State>, steps: seq<Step>, i: nat, c: nat, d: nat)
    requires IsRun(states, steps) && i < |states|
    ensures forall key :: key in states[i].table ==> EntryOk(states[i], key)
    ensures Probing(states[i], c) && Probing(states[i], d) && states[i].callers[c].request == states[i].callers[d].request ==> c == d
  {
    hide FlightKey, Next, IsRun;
    RunKeepsInv(states, steps, i);
    InvPart(states[i], "", 0, c);
    InvPart(states[i], "", 0, d);
  }

  /** A flight is finished at most once, by its leader, after its entry is
      gone. */
  lemma FinishedOnce(states: seq<State>, steps: seq<Step>, i: nat, f: nat)
    requires IsRun(states, steps) && i < |states|
    ensures states[i].closes[f] <= 1
    ensures states[i].closes[f] == 1 <==> Finished(states[i], f)
    ensures Finished(states[i], f) ==> forall key :: key in states[i].table ==> states[i].table[key] != f
  {
    hide FlightKey, Next, IsRun;
    var s := states[i];
    RunKeepsInv(states, steps, i);
    InvPart(s, "", f, 0);
    forall key | key in s.table ensures Finished(s, f) ==> s.table[key] != f {
      InvPart(s, key, f, 0);
    }
  }

  /** A leader deletes exactly its own entry. */
  lemma LeaderDeletesOwnEntry(s: State, c: nat)
    requires Inv(s) && c in s.callers && s.callers[c].pc.Finishing?
    ensures var key := FlightKey(s.callers[c].request);
            && key in s.table && s.table[key] == s.callers[c].pc.flight
            && s.flights[s.table[key]].leader == c
            && Next(s, Unregister(c)).table == s.table - {key}
  {
    hide FlightKey;
    InvPart(s, "", 0, c);
  }

  /** However often a waiter goes round, it never waits on a flight again. */
  lemma NeverWaitsTwice(states: seq<State>, steps: seq<Step>, i: nat, c: nat)
    requires IsRun(states, steps) && i < |states| && c in states[i].callers
    ensures Distinct(states[i].callers[c].waited)
  {
    hide Next, IsRun;
    RunKeepsInv(states, steps, i);
    InvPart(states[i], "", 0, c);
  }

  lemma SeparatorSplits(u: string, v: string, x: string, y: string)
    requires u + "\0" + x == v + "\0" + y && '\0' !in x && '\0' !in y
    ensures u == v && x == y
  {
    var k, l := u + "\0" + x, v + "\0" + y;
    assert k[|u|] == '\0' && l[|v|] == '\0';
    assert k[..|u|] == u && l[..|v|] == v && k[|u| + 1..] == x && l[|v| + 1..] == y;
  }

  /** The key tells class, URL and expected status apart. */
  lemma FlightKeyInjective(a: Request, b: Request)
    requires WellFormedRequest(a) && WellFormedRequest(b) && FlightKey(a) == FlightKey(b)
    ensures a == b
  {
    var k, l := FlightKey(a), FlightKey(b);
    assert k[0] == (if a.background then 'b' else 'f') && l[0] == (if b.background then 'b' else 'f');
    assert k[3..] == a.url + "\0" + a.expected && l[3..] == b.url + "\0" + b.expected;
    SeparatorSplits(a.url, b.url, a.expected, b.expected);
  }

  /** A shared answer comes from a finished flight whose leader asked the same
      question.  A waiter that was still live when it took the answer did not
      take it from a leader that gave up, nor a timeout when it had no deadline
      or more than the slack of extra patience. */
  lemma SharedAnswerFits(states: seq<State>, steps: seq<Step>, i: nat, c: nat)
    requires IsRun(states, steps) && i < |states| && c in states[i].callers && states[i].callers[c].pc.ReturnedShared?
    ensures Finished(states[i], states[i].callers[c].pc.flight)
    ensures var flight := states[i].flights[states[i].callers[c].pc.flight];
            flight.leader in states[i].callers && states[i].callers[flight.leader].request == states[i].callers[c].request
    ensures var flight := states[i].flights[states[i].callers[c].pc.flight];
            states[i].callers[c].pc.live ==> !flight.abandoned
    ensures var caller := states[i].callers[c];
            var flight := states[i].flights[caller.pc.flight];
            caller.pc.live && flight.timedOut ==>
              caller.patience != 0 && (flight.patience == 0 || caller.patience <= flight.patience + SLACK)
  {
    hide Next, IsRun, Distinct;
    var s := states[i];
    RunKeepsInv(states, steps, i);
    InvPart(s, "", s.callers[c].pc.flight, c);
    var leader := s.flights[s.callers[c].pc.flight].leader;
    InvPart(s, "", 0, leader);
    FlightKeyInjective(s.callers[leader].request, s.callers[c].request);
  }

  lemma FinishedIsFrozen(s: State, step: Step, f: nat)
    requires Inv(s) && Finished(s, f)
    ensures Finished(Next(s, step), f) && Next(s, step).flights[f] == s.flights[f]
  {
    hide Distinct, FlightKey, EntryOk, WaiterOk, SharedOk;
    match step
    case ProbeReturns(c, answer) => InvPart(s, "", f, c);
    case Announce(c) => InvPart(s, "", f, c);
    case _ =>
  }

  /** What a finished flight reports never changes, so every waiter that shares
      it returns the same answer. */
  lemma {:induction false} AnswersAgree(states: seq<State>, steps: seq<Step>, i: nat, j: nat, f: nat)
    requires IsRun(states, steps) && i <= j < |states| && Finished(states[i], f)
    ensures Finished(states[j], f) && states[j].flights[f] == states[i].flights[f]
  {
    hide Inv, Next;
    if i < j {
      AnswersAgree(states, steps, i, j - 1, f);
      RunKeepsInv(states, steps, j - 1);
      FinishedIsFrozen(states[j - 1], steps[j - 1], f);
    }
  }

  predicate Settled(s: State, f: nat) {
    f < |s.flights| && s.flights[f].leader in s.callers && s.callers[s.flights[f].leader].pc != Leading(f)
  }

  /** Flight f keeps its verdict and its leader does not start over. */
  predicate VerdictKept(s: State, t: State, f: nat)
    requires f < |s.flights|
  {
    Settled(t, f) && t.flights[f].(done := true) == s.flights[f].(done := true)
  }

  lemma LookKeepsVerdict(s: State, c: nat, f: nat)
    requires Settled(s, f) && c in s.callers
    ensures VerdictKept(s, LookNext(s, c), f)
  {
    hide FlightKey;
  }

  lemma ProbeKeepsVerdict(s: State, c: nat, answer: Answer, f: nat)
    requires Settled(s, f) && c in s.callers && s.callers[c].pc.Leading? && LeaderOk(s, c)
    ensures VerdictKept(s, ProbeNext(s, c, answer), f)
  {
    hide FlightKey;
  }

  lemma EndKeepsVerdict(s: State, c: nat, f: nat)
    requires Settled(s, f) && c in s.callers
    ensures s.callers[c].pc.Finishing? ==> VerdictKept(s, UnregisterNext(s, c), f)
    ensures s.callers[c].pc.Announcing? ==> VerdictKept(s, AnnounceNext(s, c), f)
    ensures s.callers[c].pc.Waiting? ==> VerdictKept(s, WakeNext(s, c), f)
  {
    hide FlightKey;
  }

  /** Once a leader's probe is over, nobody rewrites its verdict. */
  lemma VerdictIsFrozen(s: State, step: Step, f: nat)
    requires Inv(s) && Settled(s, f)
    ensures VerdictKept(s, Next(s, step), f)
  {
    hide Inv, LookNext, ProbeNext, UnregisterNext, AnnounceNext, WakeNext;
    if step.caller in s.callers {
      EndKeepsVerdict(s, step.caller, f);
      match step
      case Look(c) => LookKeepsVerdict(s, c, f);
      case ProbeReturns(c, answer) =>
        InvPart(s, "", f, c);
        if s.callers[c].pc.Leading? { ProbeKeepsVerdict(s, c, answer, f); }
      case _ =>
    }
  }

  lemma {:induction false} VerdictLasts(states: seq<State>, steps: seq<Step>, k: nat, i: nat, f: nat)
    requires IsRun(states, steps) && k <= i < |states| && Settled(states[k], f)
    ensures Settled(states[i], f) && states[i].flights[f].(done := true) == states[k].flights[f].(done := true)
  {
    hide Inv, Next, Settled;
    if k < i {
      VerdictLasts(states, steps, k, i - 1, f);
      RunKeepsInv(states, steps, i - 1);
      VerdictIsFrozen(states[i - 1], steps[i - 1], f);
    }
  }

  /** From the end of a probe to the waiters: when the probe failed under a
      cancelled leader, no live waiter ever returns its answer; when it failed
      at the leader's deadline, no live waiter does that has no deadline or
      has more than the slack of extra patience. */
  lemma LeaderFailureIsNotInherited(states: seq<State>, steps: seq<Step>, k: nat, i: nat, leader: nat, answer: Answer, c: nat)
    requires IsRun(states, steps) && k < i < |states| && steps[k] == ProbeReturns(leader, answer) && answer.failed
    requires leader in states[k].callers && states[k].callers[leader].pc.Leading?
    requires c in states[i].callers && states[i].callers[c].pc == ReturnedShared(states[k].callers[leader].pc.flight, true)
    ensures states[k].callers[leader].context != Cancelled
    ensures states[k].callers[leader].context == DeadlineExceeded ==>
              var theirs, mine := states[k].callers[leader].patience, states[i].callers[c].patience;
              mine != 0 && (theirs == 0 || mine <= theirs + SLACK)
  {
    hide IsRun, FlightKey, Distinct;
    var f := states[k].callers[leader].pc.flight;
    RunStep(states, steps, k);
    RunKeepsInv(states, steps, k);
    InvPart(states[k], "", f, leader);
    LeaderPatience(states, steps, k);
    VerdictLasts(states, steps, k + 1, i, f);
    SharedAnswerFits(states, steps, i, c);
  }

  lemma RunStep(states: seq<State>, steps: seq<Step>, k: nat)
    requires IsRun(states, steps) && k + 1 < |states|
    ensures k < |steps| && states[k + 1] == Next(states[k], steps[k])
  {
  }

  predicate PatienceRecorded(s: State) {
    forall f :: 0 <= f < |s.flights| ==>
      s.flights[f].leader in s.callers && s.flights[f].patience == s.callers[s.flights[f].leader].patience
  }

  lemma NextKeepsPatience(s: State, step: Step)
    requires PatienceRecorded(s)
    ensures PatienceRecorded(Next(s, step))
  {
    hide FlightKey;
  }

  /** A flight carries its leader's patience. */
  lemma {:induction false} LeaderPatience(states: seq<State>, steps: seq<Step>, k: nat)
    requires IsRun(states, steps) && k < |states|
    ensures PatienceRecorded(states[k])
  {
    hide Next, PatienceRecorded;
    if k > 0 {
      LeaderPatience(states, steps, k - 1);
      NextKeepsPatience(states[k - 1], steps[k - 1]);
    } else {
      NoFlights();
    }
  }

  lemma NoFlights()
    ensures PatienceRecorded(Initial)
  {
  }
}
