/** The DNS answer cache: what lifetime a reply is stored with and what TTLs it
    is served with.  TTLs are 32-bit and subtraction wraps; times are
    nanoseconds. */
module DnsTtl {
  import opened Options

  const WRAP := 0x1_0000_0000
  const SECOND := 1_000_000_000
  const SERVER_FAILURE_TTL := 5
  const RCODE_SERVER_FAILURE := 2
  const TYPE_TXT := 16
  const TYPE_OPT := 41
  const ACME_PREFIX := "_acme-challenge."

  type uint32 = x: int | 0 <= x < WRAP

  datatype RR = RR(rrtype: nat, ttl: uint32, data: string)

  datatype Msg = Msg(rcode: nat, answer: seq<RR>, ns: seq<RR>, extra: seq<RR>)

  datatype Question = Question(name: string, qtype: nat)

  datatype Entry = Entry(msg: Msg, expire: int)

  function Sub32(a: uint32, b: uint32): uint32 {
    (a - b) % WRAP
  }

  /** lo.Clamp: the lower bound is tried first. */
  function Clamp(x: uint32, low: uint32, high: uint32): uint32 {
    if x < low then low else if x > high then high else x
  }

  /** The least TTL of a section, 0 for an empty one. */
  ghost predicate IsMinTtl(records: seq<RR>, m: uint32) {
    if records == [] then m == 0
    else (forall i :: 0 <= i < |records| ==> m <= records[i].ttl) && exists i :: 0 <= i < |records| && records[i].ttl == m
  }

  ghost function MinTtl(records: seq<RR>): (m: uint32)
    ensures IsMinTtl(records, m)
  {
    if records == [] then 0
    else if |records| == 1 then records[0].ttl
    else
      var rest := MinTtl(records[..|records| - 1]);
      var last := records[|records| - 1].ttl;
      assert records[..|records| - 1][0] == records[0];
      if last < rest then last else
        var i :| 0 <= i < |records| - 1 && records[..|records| - 1][i].ttl == rest;
        assert records[i].ttl == rest;
        rest
  }

  lemma MinTtlUnique(records: seq<RR>, a: uint32, b: uint32)
    requires IsMinTtl(records, a) && IsMinTtl(records, b)
    ensures a == b
  {
  }

  /** minimalTTL. */
  method MinimalTtl(records: seq<RR>) returns (m: uint32)
    ensures m == MinTtl(records)
  {
    if |records| == 0 {
      return 0;
    }
    m := records[0].ttl;
    for i := 1 to |records|
      invariant IsMinTtl(records[..i], m)
    {
      ghost var before := records[..i];
      assert records[..i + 1] == before + [records[i]];
      if records[i].ttl < m {
        m := records[i].ttl;
      }
      assert IsMinTtl(before + [records[i]], m) by {
        assert (before + [records[i]])[i] == records[i];
        forall k | 0 <= k < i ensures (before + [records[i]])[k] == before[k] {}
      }
    }
    assert records[..|records|] == records;
    MinTtlUnique(records, m, MinTtl(records));
  }

  /** One record of a section whose least TTL is `least` served with ttl. */
  function ServedTtl(least: uint32, ttl: uint32, own: uint32): uint32 {
    Clamp(Sub32(own, Sub32(least, ttl)), 1, own)
  }

  /** updateTTL, in place. */
  method UpdateTtl(records: array<RR>, ttl: uint32)
    modifies records
    ensures forall i :: 0 <= i < records.Length ==>
              records[i] == old(records[i]).(ttl := ServedTtl(MinTtl(old(records[..])), ttl, old(records[i]).ttl))
  {
    if records.Length == 0 {
      return;
    }
    var least := MinimalTtl(records[..]);
    var delta := Sub32(least, ttl);
    for i := 0 to records.Length
      invariant forall k :: 0 <= k < i ==> records[k] == old(records[k]).(ttl := ServedTtl(least, ttl, old(records[k]).ttl))
      invariant forall k :: i <= k < records.Length ==> records[k] == old(records[k])
    {
      var t := records[i].ttl;
      records[i] := records[i].(ttl := Clamp(Sub32(t, delta), 1, t));
    }
  }

  ghost predicate SectionServed(before: seq<RR>, ttl: uint32, after: seq<RR>) {
    && |after| == |before|
    && forall i :: 0 <= i < |before| ==> after[i] == before[i].(ttl := ServedTtl(MinTtl(before), ttl, before[i].ttl))
  }

  method UpdateSection(section: seq<RR>, ttl: uint32) returns (after: seq<RR>)
    ensures SectionServed(section, ttl, after)
  {
    var records := new RR[|section|](i requires 0 <= i < |section| => section[i]);
    assert records[..] == section;
    UpdateTtl(records, ttl);
    after := records[..];
  }

  // ----- what one section looks like when it is served in time -----

  function Max(a: int, b: int): int {
    if a < b then b else a
  }

  lemma SubExact(a: uint32, b: uint32)
    requires b <= a
    ensures Sub32(a, b) == a - b
  {
  }

  /** Served before expiry, no subtraction wraps. */
  lemma NoWrapInTime(section: seq<RR>, ttl: uint32, i: nat)
    requires i < |section| && ttl <= MinTtl(section)
    ensures Sub32(MinTtl(section), ttl) == MinTtl(section) - ttl
    ensures Sub32(section[i].ttl, Sub32(MinTtl(section), ttl)) == section[i].ttl - (MinTtl(section) - ttl)
  {
    var least := MinTtl(section);
    assert least <= section[i].ttl;
    hide MinTtl, Sub32;
    SubExact(least, ttl);
    SubExact(section[i].ttl, least - ttl);
  }

  /** The subtraction stays exact for every remaining time up to the stored
      lifetime if and only if the lifetime does not exceed the section. */
  lemma NoWrapIffLifetimeFits(section: seq<RR>, lifetime: uint32)
    requires section != []
    ensures (forall ttl: uint32 :: ttl <= lifetime ==> Sub32(MinTtl(section), ttl) == MinTtl(section) - ttl)
            <==> lifetime <= MinTtl(section)
  {
    if forall ttl: uint32 :: ttl <= lifetime ==> Sub32(MinTtl(section), ttl) == MinTtl(section) - ttl {
      assert Sub32(MinTtl(section), lifetime) == MinTtl(section) - lifetime;
    }
  }

  lemma ServedInTime(section: seq<RR>, ttl: uint32, after: seq<RR>, i: nat)
    requires SectionServed(section, ttl, after) && i < |section|
    requires ttl <= MinTtl(section) && 1 <= MinTtl(section)
    ensures after[i].ttl == Max(1, section[i].ttl - MinTtl(section) + ttl)
  {
    NoWrapInTime(section, ttl, i);
  }

  /** The least TTL of a served section is the time left, but at least 1, and
      the gaps inside the section are kept while a second is left. */
  lemma LeastTtlIsTimeLeft(section: seq<RR>, ttl: uint32, after: seq<RR>)
    requires SectionServed(section, ttl, after) && section != []
    requires ttl <= MinTtl(section) && 1 <= MinTtl(section)
    ensures MinTtl(after) == Max(1, ttl)
    ensures ttl >= 1 ==> forall i, j :: 0 <= i < |section| && 0 <= j < |section| ==>
              after[i].ttl - after[j].ttl == section[i].ttl - section[j].ttl
  {
    forall i | 0 <= i < |section| ensures after[i].ttl == Max(1, section[i].ttl - MinTtl(section) + ttl) {
      ServedInTime(section, ttl, after, i);
    }
    var k :| 0 <= k < |section| && section[k].ttl == MinTtl(section);
    assert after[k].ttl == Max(1, ttl);
    MinTtlUnique(after, MinTtl(after), Max(1, ttl));
  }

  /** Even when the subtraction wraps, a record with a positive TTL is served
      with a TTL between 1 and its own. */
  lemma ServedWithinBounds(section: seq<RR>, ttl: uint32, after: seq<RR>, i: nat)
    requires SectionServed(section, ttl, after) && i < |section| && section[i].ttl >= 1
    ensures 1 <= after[i].ttl <= section[i].ttl
  {
  }

  // ----- storing -----

  /** The records that are not OPT, in their order. */
  function WithoutOpt(records: seq<RR>): (r: seq<RR>)
    ensures forall x :: multiset(r)[x] == if x.rrtype == TYPE_OPT then 0 else multiset(records)[x]
    ensures |r| <= |records| && (|r| == |records| ==> r == records)
  {
    if records == [] then []
    else
      assert records == [records[0]] + records[1..];
      if records[0].rrtype == TYPE_OPT then WithoutOpt(records[1..])
      else [records[0]] + WithoutOpt(records[1..])
  }

  /** Order is kept: whatever comes first stays first. */
  lemma {:induction false} WithoutOptKeepsOrder(a: seq<RR>, b: seq<RR>)
    ensures WithoutOpt(a + b) == WithoutOpt(a) + WithoutOpt(b)
  {
    if a == [] {
      assert a + b == b;
    } else {
      assert (a + b)[1..] == a[1..] + b;
      WithoutOptKeepsOrder(a[1..], b);
    }
  }

  predicate IsAcme(q: Question) {
    q.qtype == TYPE_TXT && ACME_PREFIX <= q.name
  }

  ghost function Lifetime(msg: Msg): uint32 {
    if msg.rcode == RCODE_SERVER_FAILURE then SERVER_FAILURE_TTL else MinTtl(msg.answer + msg.ns + msg.extra)
  }

  /** What putMsgToCache adds for a reply received at `now`, if anything. */
  ghost function Stored(q: Question, msg: Msg, now: int): Option<Entry> {
    var m := msg.(extra := WithoutOpt(msg.extra));
    if IsAcme(q) || Lifetime(m) == 0 then None else Some(Entry(m, now + Lifetime(m) * SECOND))
  }

  /** A duration in whole seconds, cut toward zero. */
  function WholeSeconds(d: int): (n: int)
    ensures -SECOND < d ==> 0 <= n
    ensures d >= 0 ==> n * SECOND <= d < (n + 1) * SECOND
    ensures d < 0 ==> (n - 1) * SECOND < d <= n * SECOND
  {
    if d < 0 then -(-d / SECOND) else d / SECOND
  }

  /** The conversion to uint32.  Go leaves open what becomes of a number out of
      range, so that is a parameter. */
  function Converted(n: int, outside: int -> uint32): uint32 {
    if 0 <= n < WRAP then n else outside(n)
  }

  ghost predicate MsgServed(msg: Msg, ttl: uint32, m: Msg) {
    && m.rcode == msg.rcode && SectionServed(msg.answer, ttl, m.answer)
    && SectionServed(msg.ns, ttl, m.ns) && SectionServed(msg.extra, ttl, m.extra)
  }

  function SetTtl(records: seq<RR>, ttl: uint32, skipOpt: bool): seq<RR> {
    seq(|records|, i requires 0 <= i < |records| =>
      if skipOpt && records[i].rrtype == TYPE_OPT then records[i] else records[i].(ttl := ttl))
  }

  /** The same records, each with a TTL of one second. */
  ghost predicate AllOne(before: seq<RR>, after: seq<RR>) {
    |after| == |before| && forall i :: 0 <= i < |before| ==> after[i] == before[i].(ttl := 1)
  }

  /** The records a cached reply is made of. */
  ghost predicate InReply(msg: Msg, r: RR) {
    r in msg.answer || r in msg.ns || (r in msg.extra && r.rrtype != 41)
  }

  /** A reply that is no server failure is cached until exactly its first record
      expires; it is not cached at all when it has no record, one with TTL 0, or
      answers an ACME challenge query. */
  lemma OrdinaryReplyExpires(q: Question, msg: Msg, received: int)
    requires msg.rcode != 2
    ensures Stored(q, msg, received).Some? <==>
              && !(q.qtype == 16 && "_acme-challenge." <= q.name)
              && (exists r :: InReply(msg, r)) && forall r :: InReply(msg, r) ==> r.ttl > 0
    ensures Stored(q, msg, received).Some? ==>
              var entry := Stored(q, msg, received).value;
              && (forall r :: InReply(msg, r) ==> entry.expire <= received + r.ttl * 1_000_000_000)
              && (exists r :: InReply(msg, r) && entry.expire == received + r.ttl * 1_000_000_000)
              && entry.msg.answer == msg.answer && entry.msg.ns == msg.ns
  {
    var m := msg.(extra := WithoutOpt(msg.extra));
    var all := m.answer + m.ns + m.extra;
    forall r ensures r in all <==> InReply(msg, r) { KeptIffNotOpt(msg.extra, r); }
    if all != [] {
      var i :| 0 <= i < |all| && all[i].ttl == MinTtl(all);
      assert all[i] in all;
    }
    forall r | r in all ensures MinTtl(all) <= r.ttl {
      var i :| 0 <= i < |all| && all[i] == r;
    }
  }

  lemma KeptIffNotOpt(records: seq<RR>, r: RR)
    ensures r in WithoutOpt(records) <==> r in records && r.rrtype != 41
  {
    hide WithoutOpt;
    assert r in WithoutOpt(records) <==> multiset(WithoutOpt(records))[r] > 0;
    assert r in records <==> multiset(records)[r] > 0;
  }

  /** A server failure is cached for five seconds, whatever it carries. */
  lemma ServerFailureExpires(q: Question, msg: Msg, received: int)
    requires msg.rcode == 2
    ensures Stored(q, msg, received).Some? <==> !(q.qtype == 16 && "_acme-challenge." <= q.name)
    ensures Stored(q, msg, received).Some? ==> Stored(q, msg, received).value.expire == received + 5_000_000_000
  {
  }

  // ----- from receipt to service -----

  /** A section served `elapsed` after receipt with `left` whole seconds to
      go: exact least TTL, gaps kept, and nothing outlives its own TTL except
      through the floor of one second. */
  ghost predicate Faithful(section: seq<RR>, after: seq<RR>, left: int, elapsed: int) {
    && |after| == |section|
    && (section != [] ==> MinTtl(after) == Max(1, left))
    && (left >= 1 ==> forall i, j :: 0 <= i < |section| && 0 <= j < |section| ==>
          after[i].ttl - after[j].ttl == section[i].ttl - section[j].ttl)
    && (forall i :: 0 <= i < |section| ==> after[i].ttl == 1 || after[i].ttl * SECOND + elapsed <= section[i].ttl * SECOND)
    && (forall i :: 0 <= i < |section| ==> after[i].(ttl := 0) == section[i].(ttl := 0))
  }

  lemma LifetimeArithmetic(ttl: int, least: int, lifetime: int, left: int, elapsed: int)
    requires lifetime <= least <= ttl && left * SECOND <= lifetime * SECOND - elapsed
    ensures (ttl - least + left) * SECOND + elapsed <= ttl * SECOND
  {
  }

  lemma WholeSecondsBound(lifetime: int, elapsed: int)
    requires 0 <= elapsed <= lifetime * SECOND
    ensures 0 <= WholeSeconds(lifetime * SECOND - elapsed) <= lifetime
  {
  }

  /** Any section whose TTLs are at least the stored lifetime is served
      faithfully, whatever the reply code. */
  lemma SectionFaithful(section: seq<RR>, lifetime: uint32, elapsed: int, after: seq<RR>)
    requires 1 <= lifetime && (section != [] ==> lifetime <= MinTtl(section))
    requires 0 <= elapsed <= lifetime * SECOND
    requires 0 <= WholeSeconds(lifetime * SECOND - elapsed) <= lifetime
    requires SectionServed(section, WholeSeconds(lifetime * SECOND - elapsed), after)
    ensures Faithful(section, after, WholeSeconds(lifetime * SECOND - elapsed), elapsed)
  {
    hide WholeSeconds, ServedTtl, MinTtl;
    var left := WholeSeconds(lifetime * SECOND - elapsed);
    if section != [] {
      LeastTtlIsTimeLeft(section, left, after);
      forall i | 0 <= i < |section|
        ensures after[i].ttl == 1 || after[i].ttl * SECOND + elapsed <= section[i].ttl * SECOND
      {
        ServedInTime(section, left, after, i);
        LifetimeArithmetic(section[i].ttl, MinTtl(section), lifetime, left, elapsed);
      }
    }
  }

  /** The section as it is served with ttl. */
  ghost function Adjusted(section: seq<RR>, ttl: uint32): (after: seq<RR>)
    ensures SectionServed(section, ttl, after)
  {
    seq(|section|, i requires 0 <= i < |section| => section[i].(ttl := ServedTtl(MinTtl(section), ttl, section[i].ttl)))
  }

  /** A section stored for `lifetime` seconds is served faithfully from receipt
      to expiry. */
  ghost predicate AlwaysFaithful(section: seq<RR>, lifetime: uint32) {
    forall elapsed :: 0 <= elapsed <= lifetime * SECOND ==> FaithfulAt(section, lifetime, elapsed)
  }

  ghost predicate FaithfulAt(section: seq<RR>, lifetime: uint32, elapsed: int)
    requires 0 <= elapsed <= lifetime * SECOND
  {
    WholeSecondsBound(lifetime, elapsed);
    var left := WholeSeconds(lifetime * SECOND - elapsed);
    forall after :: SectionServed(section, left, after) ==> Faithful(section, after, left, elapsed)
  }

  lemma UnfitRecord(own: uint32, lifetime: uint32)
    requires own < lifetime
    ensures ServedTtl(own, lifetime, own) < lifetime
  {
    assert Sub32(own, Sub32(own, lifetime)) == lifetime;
  }

  /** Served at once with more than its least TTL, a section cannot show it. */
  lemma UnfitIsUnfaithful(section: seq<RR>, lifetime: uint32)
    requires section != [] && 1 <= lifetime && MinTtl(section) < lifetime
    ensures !FaithfulAt(section, lifetime, 0)
  {
    hide MinTtl, ServedTtl;
    WholeSecondsBound(lifetime, 0);
    assert WholeSeconds(lifetime * SECOND) == lifetime;
    hide WholeSeconds;
    var after := Adjusted(section, lifetime);
    var k :| 0 <= k < |section| && section[k].ttl == MinTtl(section);
    UnfitRecord(section[k].ttl, lifetime);
    assert MinTtl(after) <= after[k].ttl < lifetime;
    assert !Faithful(section, after, lifetime, 0);
  }

  /** The exact condition: a section is served faithfully at every moment of
      its stored lifetime if and only if the lifetime does not exceed its least
      TTL. */
  lemma FaithfulIffLifetimeFits(section: seq<RR>, lifetime: uint32)
    requires section != [] && 1 <= lifetime
    ensures AlwaysFaithful(section, lifetime) <==> lifetime <= MinTtl(section)
  {
    hide Faithful, WholeSeconds, MinTtl, SectionServed;
    if lifetime <= MinTtl(section) {
      forall elapsed | 0 <= elapsed <= lifetime * SECOND ensures FaithfulAt(section, lifetime, elapsed) {
        WholeSecondsBound(lifetime, elapsed);
        var left := WholeSeconds(lifetime * SECOND - elapsed);
        forall after | SectionServed(section, left, after) ensures Faithful(section, after, left, elapsed) {
          SectionFaithful(section, lifetime, elapsed, after);
        }
      }
    } else {
      UnfitIsUnfaithful(section, lifetime);
    }
  }

  lemma EmptyIsFaithful(lifetime: uint32)
    requires 1 <= lifetime
    ensures AlwaysFaithful([], lifetime)
  {
    forall elapsed | 0 <= elapsed <= lifetime * SECOND ensures FaithfulAt([], lifetime, elapsed) {
      WholeSecondsBound(lifetime, elapsed);
    }
  }

  ghost predicate Fits(section: seq<RR>, lifetime: uint32) {
    section != [] ==> lifetime <= MinTtl(section)
  }

  /** The same for a whole stored reply: always, unless it is a server failure
      with a section whose least TTL is below five seconds. */
  lemma StoredReplyFaithfulIff(q: Question, msg: Msg, received: int)
    requires Stored(q, msg, received).Some?
    ensures var m := Stored(q, msg, received).value.msg;
            (AlwaysFaithful(m.answer, Lifetime(m)) && AlwaysFaithful(m.ns, Lifetime(m)) && AlwaysFaithful(m.extra, Lifetime(m))) <==>
            (msg.rcode == RCODE_SERVER_FAILURE ==>
               Fits(msg.answer, SERVER_FAILURE_TTL) && Fits(msg.ns, SERVER_FAILURE_TTL) && Fits(WithoutOpt(msg.extra), SERVER_FAILURE_TTL))
  {
    hide AlwaysFaithful, MinTtl, WithoutOpt;
    var m := Stored(q, msg, received).value.msg;
    SectionAtLeast(m);
    OneSection(m.answer, Lifetime(m));
    OneSection(m.ns, Lifetime(m));
    OneSection(m.extra, Lifetime(m));
  }

  lemma OneSection(section: seq<RR>, lifetime: uint32)
    requires 1 <= lifetime
    ensures AlwaysFaithful(section, lifetime) <==> Fits(section, lifetime)
  {
    hide AlwaysFaithful, MinTtl;
    if section == [] { EmptyIsFaithful(lifetime); } else { FaithfulIffLifetimeFits(section, lifetime); }
  }

  lemma SectionAtLeast(msg: Msg)
    ensures msg.answer != [] ==> MinTtl(msg.answer + msg.ns + msg.extra) <= MinTtl(msg.answer)
    ensures msg.ns != [] ==> MinTtl(msg.answer + msg.ns + msg.extra) <= MinTtl(msg.ns)
    ensures msg.extra != [] ==> MinTtl(msg.answer + msg.ns + msg.extra) <= MinTtl(msg.extra)
  {
    var all := msg.answer + msg.ns + msg.extra;
    if msg.answer != [] {
      var i :| 0 <= i < |msg.answer| && msg.answer[i].ttl == MinTtl(msg.answer);
      assert all[i] == msg.answer[i];
    }
    if msg.ns != [] {
      var i :| 0 <= i < |msg.ns| && msg.ns[i].ttl == MinTtl(msg.ns);
      assert all[|msg.answer| + i] == msg.ns[i];
    }
    if msg.extra != [] {
      var i :| 0 <= i < |msg.extra| && msg.extra[i].ttl == MinTtl(msg.extra);
      assert all[|msg.answer| + |msg.ns| + i] == msg.extra[i];
    }
  }

  /** A cached reply that is not a server failure is served faithfully, section
      by section.  The second clock reading may fall just after the expiry the
      first one did not see; the reply then counts as served at its expiry. */
  lemma CachedReplyFaithful(q: Question, msg: Msg, received: int, later: int, outside: int -> uint32, served: Msg)
    requires msg.rcode != RCODE_SERVER_FAILURE && Stored(q, msg, received).Some?
    requires received <= later < Stored(q, msg, received).value.expire + SECOND
    requires var entry := Stored(q, msg, received).value;
             MsgServed(entry.msg, Converted(WholeSeconds(entry.expire - later), outside), served)
    ensures var entry := Stored(q, msg, received).value;
            var left := WholeSeconds(entry.expire - later);
            var elapsed := (if later < entry.expire then later else entry.expire) - received;
            && Faithful(msg.answer, served.answer, left, elapsed)
            && Faithful(msg.ns, served.ns, left, elapsed)
            && Faithful(WithoutOpt(msg.extra), served.extra, left, elapsed)
  {
    hide Faithful, SectionServed, MinTtl;
    var entry := Stored(q, msg, received).value;
    var lifetime := Lifetime(entry.msg);
    var elapsed := (if later < entry.expire then later else entry.expire) - received;
    assert WholeSeconds(entry.expire - later) == WholeSeconds(lifetime * SECOND - elapsed);
    WholeSecondsBound(lifetime, elapsed);
    SectionAtLeast(entry.msg);
    SectionFaithful(entry.msg.answer, lifetime, elapsed, served.answer);
    SectionFaithful(entry.msg.ns, lifetime, elapsed, served.ns);
    SectionFaithful(entry.msg.extra, lifetime, elapsed, served.extra);
  }

  /** A server failure with TTLs 2 and 10 in its authority section. */
  const FailingReply := Msg(RCODE_SERVER_FAILURE, [], [RR(6, 2, ""), RR(6, 10, "")], [])

  lemma FailureIsStored(q: Question, received: int)
    ensures Stored(q, FailingReply, received) ==
            if IsAcme(q) then None else Some(Entry(FailingReply, received + SERVER_FAILURE_TTL * SECOND))
  {
  }

  /** A server failure is kept for five seconds whatever its records say, and
      then the claim can fail: one second after receipt the second record is
      still served with its full TTL, which it so outlives. */
  lemma ServerFailureMayOutlive(q: Question, received: int, outside: int -> uint32, served: Msg)
    requires Stored(q, FailingReply, received).Some?
    requires var entry := Stored(q, FailingReply, received).value;
             MsgServed(entry.msg, Converted(WholeSeconds(entry.expire - (received + SECOND)), outside), served)
    ensures |served.ns| == 2 && served.ns[1].ttl == 10
    ensures served.ns[1].ttl * SECOND + SECOND > FailingReply.ns[1].ttl * SECOND
    ensures !Faithful(FailingReply.ns, served.ns, 4, SECOND)
  {
    FailureIsStored(q, received);
    var section := FailingReply.ns;
    MinTtlUnique(section, MinTtl(section), 2);
    assert WholeSeconds(4 * SECOND) == 4;
    assert served.ns[1] == section[1].(ttl := ServedTtl(2, 4, 10));
  }

  /** The same through the cache itself. */
  method ServeFailure(q: Question, received: int, outside: int -> uint32) returns (served: Msg)
    requires !IsAcme(q)
    ensures |served.ns| == 2 && served.ns[1].ttl == 10
  {
    var cache := new Cache(outside);
    FailureIsStored(q, received);
    cache.Put(q, FailingReply, received);
    var msg, _ := cache.Serve(q, received + SECOND, received + SECOND);
    served := msg.value;
    ServerFailureMayOutlive(q, received, outside, served);
  }

  class Cache {
    var entries: map<Question, Entry>
    /** What the conversion gives for a number out of range. */
    const outside: int -> uint32

    constructor (outside: int -> uint32)
      ensures entries == map[] && this.outside == outside
    {
      this.outside := outside;
      entries := map[];
    }

    /** putMsgToCache. */
    method Put(q: Question, msg: Msg, now: int)
      modifies this
      ensures Stored(q, msg, now).None? ==> entries == old(entries)
      ensures Stored(q, msg, now).Some? ==> entries == old(entries)[q := Stored(q, msg, now).value]
    {
      if IsAcme(q) {
        return;
      }
      var m := msg.(extra := WithoutOpt(msg.extra));
      var ttl: uint32;
      if m.rcode == RCODE_SERVER_FAILURE {
        ttl := SERVER_FAILURE_TTL;
      } else {
        ttl := MinimalTtl(m.answer + m.ns + m.extra);
      }
      if ttl == 0 {
        return;
      }
      entries := entries[q := Entry(m, now + ttl * SECOND)];
    }

    /** The cached branch of ExchangeContext: `now` is the first clock reading,
        `later` the second one. */
    method Serve(q: Question, now: int, later: int) returns (msg: Option<Msg>, refetch: bool)
      ensures msg.Some? <==> q in entries
      ensures q in entries ==> (refetch <==> entries[q].expire < now)
      ensures q in entries && !refetch ==>
                MsgServed(entries[q].msg, Converted(WholeSeconds(entries[q].expire - later), outside), msg.value)
      ensures q in entries && refetch ==> msg.value.rcode == entries[q].msg.rcode
      ensures q in entries && refetch ==>
                AllOne(entries[q].msg.answer, msg.value.answer) && AllOne(entries[q].msg.ns, msg.value.ns)
      ensures q in entries && refetch && WithoutOpt(entries[q].msg.extra) == entries[q].msg.extra ==>
                AllOne(entries[q].msg.extra, msg.value.extra)
    {
      if q !in entries {
        return None, false;
      }
      var entry := entries[q];
      if entry.expire < now {
        if WithoutOpt(entry.msg.extra) == entry.msg.extra {
          assert forall r :: r in entry.msg.extra ==> r.rrtype != TYPE_OPT;
        }
        return Some(Msg(entry.msg.rcode, SetTtl(entry.msg.answer, 1, false), SetTtl(entry.msg.ns, 1, false), SetTtl(entry.msg.extra, 1, true))), true;
      }
      var ttl := Converted(WholeSeconds(entry.expire - later), outside);
      var answer := UpdateSection(entry.msg.answer, ttl);
      var ns := UpdateSection(entry.msg.ns, ttl);
      var extra := UpdateSection(entry.msg.extra, ttl);
      return Some(Msg(entry.msg.rcode, answer, ns, extra)), false;
    }
  }
}
