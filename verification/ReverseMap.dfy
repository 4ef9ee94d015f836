/** The bounded reverse address map of a translated packet connection: a map
    plus a ring of its keys. */
module ReverseMap {
  import opened Options
  import opened Graphs

  const LIMIT := 64

  type Addr = string

  // ----- specification: a first-in first-out table -----

  /** The translated addresses in the order of their insertion, and the
      logical address each one stands for. */
  datatype Table = Table(queue: seq<Addr>, reverse: map<Addr, Addr>)

  ghost predicate Consistent(t: Table) {
    && Distinct(t.queue) && 1 <= |t.queue| <= LIMIT
    && forall a :: a in t.reverse <==> a in t.queue
  }

  /** Records that `physical` stands for `logical`. */
  ghost function Record(t: Table, physical: Addr, logical: Addr): Table
    requires t.queue != []
  {
    if physical in t.reverse then t.(reverse := t.reverse[physical := logical])
    else if |t.queue| < LIMIT then Table(t.queue + [physical], t.reverse[physical := logical])
    else Table(t.queue[1..] + [physical], (t.reverse - {t.queue[0]})[physical := logical])
  }

  lemma RecordKeeps(t: Table, physical: Addr, logical: Addr)
    requires Consistent(t)
    ensures Consistent(Record(t, physical, logical))
  {
    if physical !in t.reverse {
      var kept := if |t.queue| < LIMIT then t.queue else t.queue[1..];
      assert t.queue == [t.queue[0]] + t.queue[1..];
      DistinctConcat([t.queue[0]], t.queue[1..]);
      DistinctConcat(kept, [physical]);
      assert Distinct([physical]);
    }
  }

  /** A ring of keys read from position next. */
  function RingOf(keys: seq<Addr>, next: nat): seq<Addr>
    requires next <= |keys|
  {
    keys[next..] + keys[..next]
  }

  lemma RingStart(keys: seq<Addr>)
    ensures RingOf(keys, 0) == keys
  {
  }

  /** Overwriting the oldest key and moving on drops it and appends the new one. */
  lemma RingStep(keys: seq<Addr>, next: nat, physical: Addr)
    requires |keys| == LIMIT && next < LIMIT
    ensures (next + 1) % LIMIT < LIMIT
    ensures |RingOf(keys, next)| == LIMIT && RingOf(keys, next)[0] == keys[next]
    ensures RingOf(keys[next := physical], (next + 1) % LIMIT) == RingOf(keys, next)[1..] + [physical]
  {
    var k := keys[next := physical];
    if next + 1 == LIMIT {
      assert k[0..] + k[..0] == keys[..next] + [physical];
    } else {
      assert k[next + 1..] == keys[next + 1..] && k[..next + 1] == keys[..next] + [physical];
    }
  }

  // ----- the connection -----

  class PhysicalConn {
    var reverse: map<Addr, Addr>
    var keys: seq<Addr>
    var nextKey: nat

    /** The ring read from its oldest key. */
    ghost function Queue(): seq<Addr>
      reads this
      requires nextKey <= |keys|
    {
      RingOf(keys, nextKey)
    }

    ghost predicate Valid()
      reads this
    {
      && 1 <= |keys| <= LIMIT && nextKey < |keys| && (|keys| < LIMIT ==> nextKey == 0)
      && Consistent(Table(Queue(), reverse))
    }

    ghost function Contents(): Table
      reads this
      requires Valid()
    {
      Table(Queue(), reverse)
    }

    constructor (logical: Addr, physical: Addr)
      ensures Valid() && Contents() == Table([physical], map[physical := logical])
    {
      reverse, keys, nextKey := map[physical := logical], [physical], 0;
    }

    /** WriteTo: `address` is the destination if it is a UDP address at all,
        `transformed` the outcome of the physical translation.  Returns where
        the packet goes, None when the translation failed. */
    method WriteTo(address: Option<Addr>, transformed: Option<Addr>) returns (target: Option<Addr>)
      requires Valid()
      modifies this
      ensures Valid()
      ensures address.None? ==> Contents() == old(Contents()) && target.None?
      ensures address.Some? ==> target == transformed
      ensures address.Some? && (transformed.None? || transformed == address) ==> Contents() == old(Contents())
      ensures address.Some? && transformed.Some? && transformed != address ==>
                Contents() == Record(old(Contents()), transformed.value, address.value)
    {
      if address.None? {
        return None;
      }
      if transformed.None? {
        return None;
      }
      if transformed != address {
        Note(transformed.value, address.value);
      }
      return transformed;
    }

    /** The locked section of WriteTo. */
    method Note(physical: Addr, logical: Addr)
      requires Valid()
      modifies this
      ensures Valid() && Contents() == Record(old(Contents()), physical, logical)
    {
      hide Consistent, RingOf;
      ghost var before := Contents();
      RecordKeeps(before, physical, logical);
      if physical !in reverse {
        if |keys| < LIMIT {
          RingStart(keys);
          RingStart(keys + [physical]);
          keys := keys + [physical];
        } else {
          RingStep(keys, nextKey, physical);
          reverse := reverse - {keys[nextKey]};
          keys := keys[nextKey := physical];
          nextKey := (nextKey + 1) % LIMIT;
        }
      }
      reverse := reverse[physical := logical];
      assert Table(Queue(), reverse) == Record(before, physical, logical);
    }

    /** ReadFrom: the address a reply appears to come from. */
    method ReadFrom(from: Addr) returns (shown: Addr)
      requires Valid()
      ensures shown == if from in Contents().reverse then Contents().reverse[from] else from
    {
      if from in reverse {
        return reverse[from];
      }
      return from;
    }
  }

  // ----- every history of writes -----

  datatype Write = Write(physical: Addr, logical: Addr)

  /** The table after the first write and all later ones. */
  ghost function Replay(first: Write, writes: seq<Write>): Table
    ensures Replay(first, writes).queue != []
  {
    if writes == [] then Table([first.physical], map[first.physical := first.logical])
    else
      var n := |writes| - 1;
      Record(Replay(first, writes[..n]), writes[n].physical, writes[n].logical)
  }

  lemma {:induction false} ReplayConsistent(first: Write, writes: seq<Write>)
    ensures Consistent(Replay(first, writes))
  {
    if writes != [] {
      var n := |writes| - 1;
      ReplayConsistent(first, writes[..n]);
      RecordKeeps(Replay(first, writes[..n]), writes[n].physical, writes[n].logical);
    }
  }

  /** Write i put a new address into the table. */
  ghost predicate Inserts(first: Write, writes: seq<Write>, i: nat)
    requires i < |writes|
  {
    writes[i].physical !in Replay(first, writes[..i]).reverse
  }

  /** How many of the writes i, i+1, ..., n-1 put in a new address. */
  ghost function Insertions(first: Write, writes: seq<Write>, i: nat, n: nat): nat
    requires i <= n <= |writes|
  {
    if i == n then 0 else Insertions(first, writes, i, n - 1) + if Inserts(first, writes, n - 1) then 1 else 0
  }

  lemma ReplayStep(first: Write, writes: seq<Write>, n: nat)
    requires n < |writes|
    ensures Replay(first, writes[..n + 1]) == Record(Replay(first, writes[..n]), writes[n].physical, writes[n].logical)
  {
    assert writes[..n + 1][..n] == writes[..n];
  }

  lemma RecordMoves(t: Table, physical: Addr, logical: Addr, c: nat)
    requires Consistent(t) && c < |t.queue|
    requires physical !in t.reverse ==> c + 1 < LIMIT
    ensures var q, d := Record(t, physical, logical).queue, (if physical in t.reverse then c else c + 1);
            d < |q| && q[|q| - 1 - d] == t.queue[|t.queue| - 1 - c]
  {
  }

  /** Eviction is first-in first-out: an address that was inserted stays, one
      place further from the end with each later insertion, until the 64th of
      them. */
  lemma {:induction false} StaysFor64Insertions(first: Write, writes: seq<Write>, i: nat, n: nat)
    requires i < n <= |writes| && Inserts(first, writes, i)
    requires Insertions(first, writes, i + 1, n) < LIMIT
    ensures var q, c := Replay(first, writes[..n]).queue, Insertions(first, writes, i + 1, n);
            c < |q| && q[|q| - 1 - c] == writes[i].physical
  {
    hide Replay, Record, Consistent;
    var t := Replay(first, writes[..n - 1]);
    ReplayStep(first, writes, n - 1);
    ReplayConsistent(first, writes[..n - 1]);
    if n > i + 1 {
      StaysFor64Insertions(first, writes, i, n - 1);
      RecordMoves(t, writes[n - 1].physical, writes[n - 1].logical, Insertions(first, writes, i + 1, n - 1));
    } else {
      RecordAtEnd(t, writes[i].physical, writes[i].logical);
    }
  }

  lemma RecordAtEnd(t: Table, physical: Addr, logical: Addr)
    requires Consistent(t) && physical !in t.reverse
    ensures var q := Record(t, physical, logical).queue; q != [] && q[|q| - 1] == physical
  {
  }

  /** The 64th insertion after its own evicts it. */
  lemma GoneAfter64Insertions(first: Write, writes: seq<Write>, i: nat, n: nat)
    requires i < n < |writes| && Inserts(first, writes, i) && Inserts(first, writes, n)
    requires Insertions(first, writes, i + 1, n) == LIMIT - 1
    ensures writes[i].physical in Replay(first, writes[..n]).reverse
    ensures writes[i].physical !in Replay(first, writes[..n + 1]).reverse
  {
    StaysFor64Insertions(first, writes, i, n);
    ReplayConsistent(first, writes[..n]);
    ReplayStep(first, writes, n);
  }

  lemma QueuedIsMapped(t: Table, c: nat)
    requires Consistent(t) && c < |t.queue|
    ensures t.queue[|t.queue| - 1 - c] in t.reverse
  {
  }

  /** A translated address stands for the last logical address written for it,
      as long as fewer than 64 addresses have been inserted after it. */
  lemma {:induction false} LastWriteWins(first: Write, writes: seq<Write>, i: nat, m: nat, n: nat)
    requires i <= m < n <= |writes| && Inserts(first, writes, i)
    requires writes[m].physical == writes[i].physical
    requires forall k :: m < k < n ==> writes[k].physical != writes[i].physical
    requires Insertions(first, writes, i + 1, n) < LIMIT
    ensures var r := Replay(first, writes[..n]).reverse;
            writes[i].physical in r && r[writes[i].physical] == writes[m].logical
  {
    hide Replay, Consistent;
    var a := writes[i].physical;
    StaysFor64Insertions(first, writes, i, n);
    ReplayConsistent(first, writes[..n]);
    QueuedIsMapped(Replay(first, writes[..n]), Insertions(first, writes, i + 1, n));
    ReplayStep(first, writes, n - 1);
    if m < n - 1 {
      LastWriteWins(first, writes, i, m, n - 1);
    }
  }

  /** The address the connection was opened with is the oldest entry and obeys
      the same rule. */
  lemma {:induction false} FirstStaysFor64Insertions(first: Write, writes: seq<Write>, n: nat)
    requires n <= |writes| && Insertions(first, writes, 0, n) < LIMIT
    ensures var q, c := Replay(first, writes[..n]).queue, Insertions(first, writes, 0, n);
            c < |q| && q[|q| - 1 - c] == first.physical
  {
    hide Record, Consistent;
    if n == 0 {
      assert writes[..0] == [];
    } else {
      hide Replay;
      FirstStaysFor64Insertions(first, writes, n - 1);
      ReplayStep(first, writes, n - 1);
      ReplayConsistent(first, writes[..n - 1]);
      RecordMoves(Replay(first, writes[..n - 1]), writes[n - 1].physical, writes[n - 1].logical, Insertions(first, writes, 0, n - 1));
    }
  }

  /** The logical address last written for the opening address. */
  ghost function LastForFirst(first: Write, writes: seq<Write>): Addr {
    if writes == [] then first.logical
    else
      var n := |writes| - 1;
      if writes[n].physical == first.physical then writes[n].logical else LastForFirst(first, writes[..n])
  }

  lemma {:induction false} FirstLastWriteWins(first: Write, writes: seq<Write>, n: nat)
    requires n <= |writes| && Insertions(first, writes, 0, n) < LIMIT
    ensures var r := Replay(first, writes[..n]).reverse;
            first.physical in r && r[first.physical] == LastForFirst(first, writes[..n])
  {
    hide Replay, Consistent;
    FirstStaysFor64Insertions(first, writes, n);
    ReplayConsistent(first, writes[..n]);
    QueuedIsMapped(Replay(first, writes[..n]), Insertions(first, writes, 0, n));
    if n == 0 {
      OpeningIsMapped(first, writes[..0]);
    } else {
      FirstLastWriteWins(first, writes, n - 1);
      ReplayStep(first, writes, n - 1);
      assert writes[..n][..n - 1] == writes[..n - 1];
    }
  }

  lemma OpeningIsMapped(first: Write, none: seq<Write>)
    requires none == []
    ensures Replay(first, none).reverse == map[first.physical := first.logical]
  {
  }

  /** The 64th insertion evicts the opening address. */
  lemma FirstGoneAfter64Insertions(first: Write, writes: seq<Write>, n: nat)
    requires n < |writes| && Inserts(first, writes, n) && Insertions(first, writes, 0, n) == LIMIT - 1
    ensures first.physical in Replay(first, writes[..n]).reverse
    ensures first.physical !in Replay(first, writes[..n + 1]).reverse
  {
    FirstStaysFor64Insertions(first, writes, n);
    ReplayConsistent(first, writes[..n]);
    ReplayStep(first, writes, n);
  }
}
