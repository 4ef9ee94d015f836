/** UDP sessions: the NAT table, one packet sender per table key, the goroutine
    that dials and later closes it, its processing loop, and any number of
    concurrent Sends.  Steps are single channel operations, table operations
    and context checks, interleaved freely. */
module UdpSession {
  const CAPACITY := 128

  /** Who will still close the sender: the dialer, the read loop, nobody. */
  datatype Life = Dialing | Serving | Draining | Drained | Deleted

  datatype Proc = NotStarted | Idle | Busy(packet: nat) | Exited

  /** Addresses are numbers; 0 is the invalid address. */
  datatype Sender = Sender(
    key: string, cancelled: bool, queue: seq<nat>, life: Life, proc: Proc,
    originToTarget: map<string, nat>, targetToOrigin: map<nat, nat>)

  /** Where a packet's own Send is: before its first check, between its two
      selects, or over. */
  datatype Phase = Starting | Checked | Over

  datatype Packet = Packet(sender: nat, phase: Phase)

  datatype State = State(
    table: map<string, nat>, senders: seq<Sender>, packets: map<nat, Packet>,
    drops: multiset<nat>, deletes: multiset<nat>)

  datatype Step =
    | Handle(packet: nat, key: string)
    | SendCheck(packet: nat)
    | SendPut(packet: nat, enqueue: bool)
    | DialOk(sender: nat)
    | BeginClose(sender: nat)
    | DropOne(sender: nat)
    | DrainDone(sender: nat)
    | Delete(sender: nat)
    | ProcTake(sender: nat)
    | ProcDone(sender: nat)
    | ProcExit(sender: nat)
    | AddMapping(sender: nat, originKey: string, originAddr: nat, targetAddr: nat)

  const Initial := State(map[], [], map[], multiset{}, multiset{})

  function NewSender(key: string): Sender {
    Sender(key, false, [], Dialing, NotStarted, map[], map[])
  }

  function SetSender(s: State, i: nat, sender: Sender): State
    requires i < |s.senders|
  {
    s.(senders := s.senders[i := sender])
  }

  function DropPacket(s: State, p: nat): State {
    s.(drops := s.drops + multiset{p})
  }

  function EndSend(s: State, p: nat): State
    requires p in s.packets
  {
    s.(packets := s.packets[p := s.packets[p].(phase := Over)])
  }

  // ----- handleUDPConn and Send -----

  function HandleNext(s: State, p: nat, key: string): State {
    if p in s.packets then s
    else if key in s.table then s.(packets := s.packets[p := Packet(s.table[key], Starting)])
    else s.(senders := s.senders + [NewSender(key)], table := s.table[key := |s.senders|],
            packets := s.packets[p := Packet(|s.senders|, Starting)])
  }

  function SendCheckNext(s: State, p: nat): State {
    if p !in s.packets || s.packets[p].phase != Starting || s.packets[p].sender >= |s.senders| then s
    else if s.senders[s.packets[p].sender].cancelled then DropPacket(EndSend(s, p), p)
    else s.(packets := s.packets[p := s.packets[p].(phase := Checked)])
  }

  /** The second select: with the channel writable and the context done either
      case may be taken; with neither ready the default drops. */
  function SendPutNext(s: State, p: nat, enqueue: bool): State {
    if p !in s.packets || s.packets[p].phase != Checked || s.packets[p].sender >= |s.senders| then s
    else
      var i := s.packets[p].sender;
      var sender := s.senders[i];
      if |sender.queue| < CAPACITY && (enqueue || !sender.cancelled)
      then SetSender(EndSend(s, p), i, sender.(queue := sender.queue + [p]))
      else DropPacket(EndSend(s, p), p)
  }

  // ----- the owner of the sender -----

  function OwnerNext(s: State, i: nat, step: Step): State
    requires i < |s.senders|
  {
    var sender := s.senders[i];
    match step
    case DialOk(_) => if sender.life == Dialing then SetSender(s, i, sender.(life := Serving, proc := Idle)) else s
    case BeginClose(_) =>
      if sender.life == Dialing || sender.life == Serving then SetSender(s, i, sender.(life := Draining, cancelled := true)) else s
    case DropOne(_) =>
      if sender.life == Draining && sender.queue != []
      then DropPacket(SetSender(s, i, sender.(queue := sender.queue[1..])), sender.queue[0]) else s
    case DrainDone(_) => if sender.life == Draining && sender.queue == [] then SetSender(s, i, sender.(life := Drained)) else s
    case Delete(_) =>
      if sender.life == Drained
      then SetSender(s, i, sender.(life := Deleted)).(table := s.table - {sender.key}, deletes := s.deletes + multiset{i}) else s
    case _ => s
  }

  // ----- the processing loop -----

  function ProcNext(s: State, i: nat, step: Step): State
    requires i < |s.senders|
  {
    var sender := s.senders[i];
    match step
    case ProcTake(_) =>
      if sender.proc == Idle && sender.queue != []
      then SetSender(s, i, sender.(proc := Busy(sender.queue[0]), queue := sender.queue[1..])) else s
    case ProcDone(_) =>
      if sender.proc.Busy? then DropPacket(SetSender(s, i, sender.(proc := Idle)), sender.proc.packet) else s
    case ProcExit(_) => if sender.proc == Idle && sender.cancelled then SetSender(s, i, sender.(proc := Exited)) else s
    case _ => s
  }

  // ----- address mappings -----

  function Get<K>(m: map<K, nat>, k: K): nat {
    if k in m then m[k] else 0
  }

  /** A record is overwritten only while it is invalid. */
  function Keep<K>(m: map<K, nat>, k: K, v: nat): map<K, nat> {
    if Get(m, k) == 0 then m[k := v] else m
  }

  function Mapped(sender: Sender, originKey: string, originAddr: nat, targetAddr: nat): Sender {
    sender.(originToTarget := Keep(sender.originToTarget, originKey, targetAddr),
            targetToOrigin := Keep(sender.targetToOrigin, targetAddr, originAddr))
  }

  /** RestoreReadFrom. */
  function Restore(sender: Sender, addr: nat): nat {
    if Get(sender.targetToOrigin, addr) != 0 then Get(sender.targetToOrigin, addr) else addr
  }

  function Next(s: State, step: Step): State {
    match step
    case Handle(p, key) => HandleNext(s, p, key)
    case SendCheck(p) => SendCheckNext(s, p)
    case SendPut(p, enqueue) => SendPutNext(s, p, enqueue)
    case AddMapping(i, originKey, originAddr, targetAddr) =>
      if i < |s.senders| then SetSender(s, i, Mapped(s.senders[i], originKey, originAddr, targetAddr)) else s
    case ProcTake(i) => if i < |s.senders| then ProcNext(s, i, step) else s
    case ProcDone(i) => if i < |s.senders| then ProcNext(s, i, step) else s
    case ProcExit(i) => if i < |s.senders| then ProcNext(s, i, step) else s
    case _ => if step.sender < |s.senders| then OwnerNext(s, step.sender, step) else s
  }

  // ----- invariant, one sender, key or packet at a time -----

  predicate SenderOk(s: State, i: nat) {
    i < |s.senders| ==>
      var sender := s.senders[i];
      && |sender.queue| <= CAPACITY
      && (sender.cancelled <==> sender.life != Dialing && sender.life != Serving)
      && (sender.life == Dialing ==> sender.proc == NotStarted)
      && (sender.proc == Exited ==> sender.cancelled)
      && (sender.life != Deleted ==> sender.key in s.table && s.table[sender.key] == i)
      && s.deletes[i] == if sender.life == Deleted then 1 else 0
  }

  predicate KeyOk(s: State, key: string) {
    key in s.table ==>
      s.table[key] < |s.senders| && s.senders[s.table[key]].key == key && s.senders[s.table[key]].life != Deleted
  }

  ghost function Occurrences(queue: seq<nat>, p: nat): nat {
    if queue == [] then 0 else Occurrences(queue[..|queue| - 1], p) + if queue[|queue| - 1] == p then 1 else 0
  }

  /** How often sender i currently holds packet p. */
  ghost function HeldBy(s: State, i: nat, p: nat): nat {
    if i >= |s.senders| then 0
    else Occurrences(s.senders[i].queue, p) + if s.senders[i].proc == Busy(p) then 1 else 0
  }

  /** The places packet p is in, counted: its own Send, its sender, the drops. */
  ghost function Places(s: State, p: nat): nat
    requires p in s.packets
  {
    (if s.packets[p].phase == Over then 0 else 1) + HeldBy(s, s.packets[p].sender, p) + s.drops[p]
  }

  ghost predicate PacketOk(s: State, p: nat, i: nat) {
    if p in s.packets then
      && s.packets[p].sender < |s.senders| && Places(s, p) == 1
      && (i != s.packets[p].sender ==> HeldBy(s, i, p) == 0)
    else s.drops[p] == 0 && HeldBy(s, i, p) == 0
  }

  predicate ControlOk(s: State, i: nat, key: string) {
    SenderOk(s, i) && KeyOk(s, key) && (i >= |s.senders| ==> s.deletes[i] == 0)
  }

  ghost predicate Inv(s: State) {
    && (forall i: nat, key :: ControlOk(s, i, key))
    && (forall p: nat, i: nat :: PacketOk(s, p, i))
  }

  lemma ControlPart(s: State, i: nat, key: string)
    requires Inv(s)
    ensures ControlOk(s, i, key)
  {
  }

  lemma PacketPart(s: State, p: nat, i: nat)
    requires Inv(s)
    ensures PacketOk(s, p, i)
  {
  }

  lemma {:induction false} QueueHead(queue: seq<nat>, p: nat)
    requires queue != []
    ensures Occurrences(queue, p) == Occurrences(queue[1..], p) + if queue[0] == p then 1 else 0
  {
    var n := |queue| - 1;
    if n > 0 {
      QueueHead(queue[..n], p);
      assert queue[1..][..n - 1] == queue[..n][1..];
    }
  }

  lemma QueueAppend(queue: seq<nat>, q: nat, p: nat)
    ensures Occurrences(queue + [q], p) == Occurrences(queue, p) + if q == p then 1 else 0
  {
    assert (queue + [q])[..|queue|] == queue;
  }

  lemma ControlInBounds(s: State, key: string)
    requires Inv(s) && key in s.table
    ensures s.table[key] < |s.senders|
  {
    assert ControlOk(s, 0, key);
  }

  lemma DialingHoldsNothing(s: State, j: nat)
    requires Inv(s) && j < |s.senders|
    ensures s.senders[j].life == Dialing ==> s.senders[j].proc == NotStarted
  {
    assert ControlOk(s, j, "");
  }

  lemma HandleKeepsControl(s: State, q: nat, key: string, i: nat, k: string)
    requires Inv(s)
    ensures ControlOk(HandleNext(s, q, key), i, k)
  {
    hide Inv, PacketOk;
    ControlPart(s, i, k);
    ControlPart(s, i, key);
    ControlPart(s, |s.senders|, key);
    if key in s.table { ControlPart(s, s.table[key], key); }
  }

  lemma HandleKeepsPacket(s: State, q: nat, key: string, p: nat, i: nat)
    requires Inv(s)
    ensures PacketOk(HandleNext(s, q, key), p, i)
  {
    hide Inv, SenderOk, KeyOk;
    PacketPart(s, p, i);
    if key in s.table {
      ControlInBounds(s, key);
      PacketPart(s, q, s.table[key]);
    }
    if p in s.packets { PacketPart(s, p, s.packets[p].sender); }
  }

  lemma HandleKeepsInv(s: State, q: nat, key: string)
    requires Inv(s)
    ensures Inv(HandleNext(s, q, key))
  {
    var t := HandleNext(s, q, key);
    forall i: nat, k ensures ControlOk(t, i, k) { HandleKeepsControl(s, q, key, i, k); }
    forall p: nat, i: nat ensures PacketOk(t, p, i) { HandleKeepsPacket(s, q, key, p, i); }
  }

  lemma SendCheckKeepsControl(s: State, q: nat, i: nat, k: string)
    requires Inv(s)
    ensures ControlOk(SendCheckNext(s, q), i, k)
  {
    hide Inv, PacketOk;
    ControlPart(s, i, k);
  }

  lemma SendCheckKeepsPacket(s: State, q: nat, p: nat, i: nat)
    requires Inv(s)
    ensures PacketOk(SendCheckNext(s, q), p, i)
  {
    hide Inv, SenderOk, KeyOk;
    PacketPart(s, p, i);
  }

  lemma SendCheckKeepsInv(s: State, q: nat)
    requires Inv(s)
    ensures Inv(SendCheckNext(s, q))
  {
    var t := SendCheckNext(s, q);
    forall i: nat, k ensures ControlOk(t, i, k) { SendCheckKeepsControl(s, q, i, k); }
    forall p: nat, i: nat ensures PacketOk(t, p, i) { SendCheckKeepsPacket(s, q, p, i); }
  }

  lemma SendPutKeepsControl(s: State, q: nat, enqueue: bool, i: nat, k: string)
    requires Inv(s)
    ensures ControlOk(SendPutNext(s, q, enqueue), i, k)
  {
    hide Inv, PacketOk;
    ControlPart(s, i, k);
    if q in s.packets { ControlPart(s, s.packets[q].sender, k); }
  }

  lemma SendPutKeepsPacket(s: State, q: nat, enqueue: bool, p: nat, i: nat)
    requires Inv(s)
    ensures PacketOk(SendPutNext(s, q, enqueue), p, i)
  {
    hide Inv, SenderOk, KeyOk, Occurrences;
    PacketPart(s, p, i);
    PacketPart(s, q, i);
    if q in s.packets && s.packets[q].sender < |s.senders| { QueueAppend(s.senders[s.packets[q].sender].queue, q, p); }
  }

  lemma SendPutKeepsInv(s: State, q: nat, enqueue: bool)
    requires Inv(s)
    ensures Inv(SendPutNext(s, q, enqueue))
  {
    var t := SendPutNext(s, q, enqueue);
    forall i: nat, k ensures ControlOk(t, i, k) { SendPutKeepsControl(s, q, enqueue, i, k); }
    forall p: nat, i: nat ensures PacketOk(t, p, i) { SendPutKeepsPacket(s, q, enqueue, p, i); }
  }

  lemma OwnerKeepsControl(s: State, j: nat, step: Step, i: nat, k: string)
    requires Inv(s) && j < |s.senders|
    ensures ControlOk(OwnerNext(s, j, step), i, k)
  {
    hide Inv, PacketOk;
    ControlPart(s, i, k);
    ControlPart(s, j, k);
  }

  lemma OwnerKeepsPacket(s: State, j: nat, step: Step, p: nat, i: nat)
    requires Inv(s) && j < |s.senders|
    ensures PacketOk(OwnerNext(s, j, step), p, i)
  {
    hide Inv, SenderOk, KeyOk, Occurrences;
    PacketPart(s, p, i);
    DialingHoldsNothing(s, j);
    PacketPart(s, p, j);
    if s.senders[j].queue != [] { QueueHead(s.senders[j].queue, p); }
  }

  lemma OwnerKeepsInv(s: State, j: nat, step: Step)
    requires Inv(s) && j < |s.senders|
    ensures Inv(OwnerNext(s, j, step))
  {
    var t := OwnerNext(s, j, step);
    forall i: nat, k ensures ControlOk(t, i, k) { OwnerKeepsControl(s, j, step, i, k); }
    forall p: nat, i: nat ensures PacketOk(t, p, i) { OwnerKeepsPacket(s, j, step, p, i); }
  }

  lemma ProcKeepsControl(s: State, j: nat, step: Step, i: nat, k: string)
    requires Inv(s) && j < |s.senders|
    ensures ControlOk(ProcNext(s, j, step), i, k)
  {
    hide Inv, PacketOk;
    ControlPart(s, i, k);
    ControlPart(s, j, k);
  }

  lemma ProcKeepsPacket(s: State, j: nat, step: Step, p: nat, i: nat)
    requires Inv(s) && j < |s.senders|
    ensures PacketOk(ProcNext(s, j, step), p, i)
  {
    hide Inv, SenderOk, KeyOk, Occurrences;
    PacketPart(s, p, i);
    PacketPart(s, p, j);
    if s.senders[j].queue != [] { QueueHead(s.senders[j].queue, p); }
  }

  lemma ProcKeepsInv(s: State, j: nat, step: Step)
    requires Inv(s) && j < |s.senders|
    ensures Inv(ProcNext(s, j, step))
  {
    var t := ProcNext(s, j, step);
    forall i: nat, k ensures ControlOk(t, i, k) { ProcKeepsControl(s, j, step, i, k); }
    forall p: nat, i: nat ensures PacketOk(t, p, i) { ProcKeepsPacket(s, j, step, p, i); }
  }

  lemma MappingKeepsControl(s: State, j: nat, originKey: string, originAddr: nat, targetAddr: nat, i: nat, k: string)
    requires Inv(s) && j < |s.senders|
    ensures ControlOk(SetSender(s, j, Mapped(s.senders[j], originKey, originAddr, targetAddr)), i, k)
  {
    hide Inv, PacketOk;
    ControlPart(s, i, k);
  }

  lemma MappingKeepsPacket(s: State, j: nat, originKey: string, originAddr: nat, targetAddr: nat, p: nat, i: nat)
    requires Inv(s) && j < |s.senders|
    ensures PacketOk(SetSender(s, j, Mapped(s.senders[j], originKey, originAddr, targetAddr)), p, i)
  {
    hide Inv, SenderOk, KeyOk;
    PacketPart(s, p, i);
  }

  lemma MappingKeepsInv(s: State, j: nat, originKey: string, originAddr: nat, targetAddr: nat)
    requires Inv(s) && j < |s.senders|
    ensures Inv(SetSender(s, j, Mapped(s.senders[j], originKey, originAddr, targetAddr)))
  {
    var t := SetSender(s, j, Mapped(s.senders[j], originKey, originAddr, targetAddr));
    forall i: nat, k ensures ControlOk(t, i, k) { MappingKeepsControl(s, j, originKey, originAddr, targetAddr, i, k); }
    forall p: nat, i: nat ensures PacketOk(t, p, i) { MappingKeepsPacket(s, j, originKey, originAddr, targetAddr, p, i); }
  }

  lemma InitialInv()
    ensures Inv(Initial)
  {
  }

  /** Every atomic step keeps the invariant. */
  lemma NextKeepsInv(s: State, step: Step)
    requires Inv(s)
    ensures Inv(Next(s, step))
  {
    hide Inv, HandleNext, SendCheckNext, SendPutNext, OwnerNext, ProcNext, Mapped;
    match step
    case Handle(p, key) => HandleKeepsInv(s, p, key);
    case SendCheck(p) => SendCheckKeepsInv(s, p);
    case SendPut(p, enqueue) => SendPutKeepsInv(s, p, enqueue);
    case AddMapping(i, k, a, b) => if i < |s.senders| { MappingKeepsInv(s, i, k, a, b); }
    case _ =>
      if step.sender < |s.senders| {
        OwnerKeepsInv(s, step.sender, step);
        ProcKeepsInv(s, step.sender, step);
      }
  }
}
