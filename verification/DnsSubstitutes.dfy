/** DNS clients that stand in for the system resolver, and the fallbacks that
    NewResolver wires for the time their addresses are stale. */
module DnsSubstitutes {
  import opened Options

  /** Everything that decides whether two name servers share a connection. */
  datatype Transport = Transport(net: string, addr: string, proxy: string, preferH3: bool, params: string)

  /** The rest of a name server only decides how its client is wrapped. */
  datatype NameServer = NameServer(transport: Transport, ecs: Option<string>, disable: Option<string>)

  /** The query filters are values and can be unwrapped; a substitute is an
      object with an identity and cannot. */
  datatype Client =
    | Raw(id: nat, transport: Transport, viaDefault: bool)
    | Edns(inner: Client, prefix: string)
    | Disable(inner: Client, types: string)
    | Substitute(id: nat, inner: Client)

  /** Peels what has an Unwrap method; stops at a substitute. */
  function Peel(c: Client): (r: Client)
    ensures r.Raw? || r.Substitute?
  {
    match c
    case Edns(inner, _) => Peel(inner)
    case Disable(inner, _) => Peel(inner)
    case _ => c
  }

  function Root(c: Client): (r: Client)
    ensures r.Raw?
  {
    match c
    case Raw(_, _, _) => c
    case Edns(inner, _) => Root(inner)
    case Disable(inner, _) => Root(inner)
    case Substitute(_, inner) => Root(inner)
  }

  /** One more than the largest substitute identity inside, 0 without any. */
  function Level(c: Client): nat {
    match c
    case Raw(_, _, _) => 0
    case Edns(inner, _) => Level(inner)
    case Disable(inner, _) => Level(inner)
    case Substitute(id, inner) => if Level(inner) > id + 1 then Level(inner) else id + 1
  }

  function Depth(c: Client): nat {
    match c
    case Raw(_, _, _) => 0
    case Edns(inner, _) => 1 + Depth(inner)
    case Disable(inner, _) => 1 + Depth(inner)
    case Substitute(_, inner) => 1 + Depth(inner)
  }

  /** Clients of the default resolver resolve nothing through it. */
  function Tier(c: Client): nat {
    if Root(c).viaDefault then 1 else 0
  }

  /** Inside a substitute there are only older ones. */
  predicate WellNested(c: Client) {
    match c
    case Raw(_, _, _) => true
    case Edns(inner, _) => WellNested(inner)
    case Disable(inner, _) => WellNested(inner)
    case Substitute(id, inner) => WellNested(inner) && Level(inner) <= id
  }

  /** rewrapClient. */
  function Rewrap(c: Client, ns: NameServer): Client {
    var raw := Peel(c);
    var e := if ns.ecs.Some? then Edns(raw, ns.ecs.value) else raw;
    if ns.disable.Some? then Disable(e, ns.disable.value) else e
  }

  datatype Filter = EcsFilter(prefix: string) | TypeFilter(types: string)

  /** What a query meets on its way to the connection. */
  function Filters(c: Client): seq<Filter> {
    match c
    case Raw(_, _, _) => []
    case Edns(inner, prefix) => [EcsFilter(prefix)] + Filters(inner)
    case Disable(inner, types) => [TypeFilter(types)] + Filters(inner)
    case Substitute(_, inner) => Filters(inner)
  }

  /** What the name server asked for. */
  function OwnFilters(ns: NameServer): seq<Filter> {
    (if ns.disable.Some? then [TypeFilter(ns.disable.value)] else []) +
    (if ns.ecs.Some? then [EcsFilter(ns.ecs.value)] else [])
  }

  /** Re-wrapping a shared client gives a name server exactly its own filters
      if and only if nothing is left on the client after peeling: always for a
      bare connection, but not for a substitute that wraps filters. */
  lemma RewrapFilters(c: Client, ns: NameServer)
    ensures Filters(Rewrap(c, ns)) == OwnFilters(ns) + Filters(Peel(c))
    ensures Filters(Rewrap(c, ns)) == OwnFilters(ns) <==> Filters(Peel(c)) == []
  {
    var raw := Peel(c);
    var e := if ns.ecs.Some? then Edns(raw, ns.ecs.value) else raw;
    assert Filters(e) == (if ns.ecs.Some? then [EcsFilter(ns.ecs.value)] else []) + Filters(raw);
  }

  lemma {:induction false} PeelFacts(c: Client)
    ensures Root(Peel(c)) == Root(c) && Level(Peel(c)) == Level(c)
    ensures WellNested(c) ==> WellNested(Peel(c))
    ensures Peel(c).Raw? <==> Level(c) == 0
  {
    match c
    case Edns(inner, _) => PeelFacts(inner);
    case Disable(inner, _) => PeelFacts(inner);
    case _ =>
  }

  lemma RewrapFacts(c: Client, ns: NameServer)
    requires WellNested(c)
    ensures var r := Rewrap(c, ns);
            WellNested(r) && Root(r) == Root(c) && Level(r) == Level(c) && Peel(r) == Peel(c)
  {
    PeelFacts(c);
    var raw := Peel(c);
    var e := if ns.ecs.Some? then Edns(raw, ns.ecs.value) else raw;
    assert WellNested(e) && Root(e) == Root(raw) && Level(e) == Level(raw) && Peel(e) == Peel(raw) == raw;
  }

  // ----- which filters a name server ends up with -----

  /** The first name server of a list on a transport. */
  ghost function FirstOn(names: seq<NameServer>, t: Transport): Option<NameServer> {
    if names == [] then None
    else
      var n := |names| - 1;
      if FirstOn(names[..n], t).Some? then FirstOn(names[..n], t)
      else if names[n].transport == t then Some(names[n]) else None
  }

  /** On a marked transport every later name server also gets the filters of
      the first one: its substitute cannot be peeled. */
  ghost function ServedFilters(marked: Transport -> bool, names: seq<NameServer>, ns: NameServer): seq<Filter> {
    var first := FirstOn(names, ns.transport);
    OwnFilters(ns) + if !marked(ns.transport) || first.None? || first.value == ns then [] else OwnFilters(first.value)
  }

  /** Its address is unmarked, or it is the first on its transport, or the
      first one there has no filters. */
  ghost predicate InheritsNothing(marked: Transport -> bool, names: seq<NameServer>, ns: NameServer)
    requires ns in names
  {
    FirstOnHas(names, ns);
    var first := FirstOn(names, ns.transport).value;
    !marked(ns.transport) || first == ns || OwnFilters(first) == []
  }

  /** A name server gets exactly its own filters if and only if there is
      nothing to inherit. */
  lemma OwnFiltersIff(marked: Transport -> bool, names: seq<NameServer>, ns: NameServer)
    requires ns in names
    ensures ServedFilters(marked, names, ns) == OwnFilters(ns) <==> InheritsNothing(marked, names, ns)
  {
    FirstOnHas(names, ns);
  }

  lemma FirstOnAppend(names: seq<NameServer>, ns: NameServer, t: Transport)
    ensures FirstOn(names + [ns], t) ==
            if FirstOn(names, t).Some? then FirstOn(names, t) else if ns.transport == t then Some(ns) else None
  {
    assert (names + [ns])[..|names|] == names;
  }

  lemma {:induction false} FirstOnHas(names: seq<NameServer>, ns: NameServer)
    requires ns in names
    ensures FirstOn(names, ns.transport).Some?
  {
    var n := |names| - 1;
    if ns != names[n] {
      assert ns in names[..n];
      FirstOnHas(names[..n], ns);
    }
  }

  lemma {:induction false} FirstOnAt(names: seq<NameServer>, i: nat)
    requires i < |names| && forall k :: 0 <= k < i ==> names[k].transport != names[i].transport
    ensures FirstOn(names, names[i].transport) == Some(names[i])
  {
    var n := |names| - 1;
    if i < n {
      FirstOnAt(names[..n], i);
    } else {
      FirstOnNone(names[..n], names[i].transport);
    }
  }

  lemma {:induction false} FirstOnNone(names: seq<NameServer>, t: Transport)
    requires forall k :: 0 <= k < |names| ==> names[k].transport != t
    ensures FirstOn(names, t).None?
  {
    if names != [] {
      FirstOnNone(names[..|names| - 1], t);
    }
  }

  /** Later name servers change nothing for earlier ones. */
  lemma {:induction false} ServedFiltersStay(marked: Transport -> bool, names: seq<NameServer>, more: seq<NameServer>, ns: NameServer)
    requires FirstOn(names, ns.transport).Some?
    ensures FirstOn(names + more, ns.transport) == FirstOn(names, ns.transport)
    ensures ServedFilters(marked, names + more, ns) == ServedFilters(marked, names, ns)
  {
    if more == [] {
      assert names + more == names;
    } else {
      var n := |more| - 1;
      ServedFiltersStay(marked, names, more[..n], ns);
      assert names + more == (names + more[..n]) + [more[n]];
      FirstOnAppend(names + more[..n], more[n], ns.transport);
    }
  }

  lemma SubstituteFacts(id: nat, c: Client)
    requires WellNested(c) && Level(c) <= id
    ensures var w := Substitute(id, c);
            WellNested(w) && Level(w) == id + 1 && Tier(w) == Tier(c) && Root(w) == Root(c) && Filters(w) == Filters(c)
  {
  }

  lemma PeelSubstitute(c: Client)
    requires c.Substitute?
    ensures Peel(c) == c
  {
  }

  lemma LevelZeroIsNone(c: Client)
    requires Level(c) == 0
    ensures !c.Substitute?
  {
  }

  // ----- the builder inside NewResolver -----

  datatype Cached = Cached(ns: NameServer, client: Client)

  class Builder {
    /** isSystemSubstitute, which looks at the transport only. */
    const marked: Transport -> bool
    var cache: seq<Cached>
    var created: seq<Client>
    var nextRaw: nat
    /** Every name server added so far, with repetitions. */
    ghost var added: seq<NameServer>

    ghost predicate CachedButForFilters(entry: Cached)
      reads this
    {
      && WellNested(entry.client) && Level(entry.client) <= |created| && Tier(entry.client) == 1
      && Root(entry.client).transport == entry.ns.transport
      && (Peel(entry.client).Substitute? ==> Peel(entry.client) in created)
      && (if marked(entry.ns.transport) then entry.client.Substitute? else Level(entry.client) == 0)
    }

    ghost predicate FiltersWith(entry: Cached, names: seq<NameServer>) {
      entry.ns in names && Filters(entry.client) == ServedFilters(marked, names, entry.ns)
    }

    ghost predicate CachedOk(entry: Cached)
      reads this
    {
      CachedButForFilters(entry) && FiltersWith(entry, added)
    }

    ghost function Names(): seq<NameServer>
      reads this
    {
      seq(|cache|, i requires 0 <= i < |cache| reads this => cache[i].ns)
    }

    /** The cache knows the first name server of every transport. */
    ghost predicate FirstsOk()
      reads this
    {
      forall t :: FirstOn(Names(), t) == FirstOn(added, t)
    }

    /** Substitutes are numbered in the order in which they are created. */
    ghost predicate Valid()
      reads this
    {
      && (forall i :: 0 <= i < |created| ==>
            created[i].Substitute? && created[i].id == i && WellNested(created[i]) && Tier(created[i]) == 1)
      && (forall i :: 0 <= i < |cache| ==> CachedOk(cache[i]))
      && FirstsOk()
    }

    ghost predicate Known(c: Client)
      reads this
    {
      exists i :: 0 <= i < |cache| && cache[i].client == c
    }

    constructor (marked: Transport -> bool)
      ensures Valid() && cache == [] && created == [] && added == [] && this.marked == marked
    {
      this.marked := marked;
      cache, created, nextRaw, added := [], [], 0, [];
      new;
      assert Names() == [];
    }

    /** c is the client of the first entry for exactly this name server. */
    ghost predicate FirstExact(ns: NameServer, c: Client)
      reads this
    {
      exists i :: 0 <= i < |cache| && cache[i] == Cached(ns, c) && forall k :: 0 <= k < i ==> cache[k].ns != ns
    }

    /** c is the client of the first entry on the transport of ns. */
    ghost predicate FirstOnTransport(ns: NameServer, c: Client)
      reads this
    {
      exists i ::
        && 0 <= i < |cache| && cache[i].ns.transport == ns.transport && cache[i].client == c
        && forall k :: 0 <= k < i ==> cache[k].ns.transport != ns.transport
    }

    /** The scan of nameServerCache: an exact entry, else the first entry with
        the same transport. */
    method Find(ns: NameServer) returns (exact: Option<Client>, reusable: Option<Client>)
      ensures exact.Some? ==> FirstExact(ns, exact.value)
      ensures exact.None? ==> forall i :: 0 <= i < |cache| ==> cache[i].ns != ns
      ensures exact.None? && reusable.Some? ==> FirstOnTransport(ns, reusable.value)
      ensures exact.None? && reusable.None? ==> forall i :: 0 <= i < |cache| ==> cache[i].ns.transport != ns.transport
    {
      exact, reusable := None, None;
      for i := 0 to |cache|
        invariant exact.None? && forall k :: 0 <= k < i ==> cache[k].ns != ns
        invariant reusable.None? ==> forall k :: 0 <= k < i ==> cache[k].ns.transport != ns.transport
        invariant reusable.Some? ==> FirstOnTransport(ns, reusable.value)
      {
        if cache[i].ns == ns {
          return Some(cache[i].client), reusable;
        }
        if reusable.None? && cache[i].ns.transport == ns.transport {
          reusable := Some(cache[i].client);
        }
      }
    }

    /** The filters of a client shared by the first name server on a transport. */
    lemma SharedFilters(ns: NameServer, shared: Client)
      requires Valid() && FirstOnTransport(ns, shared) && forall i :: 0 <= i < |cache| ==> cache[i].ns != ns
      ensures WellNested(shared) && Level(shared) <= |created| && Tier(shared) == 1 && Root(shared).transport == ns.transport
      ensures Peel(shared).Substitute? ==> Peel(shared) in created
      ensures !marked(ns.transport) ==> Level(shared) == 0
      ensures OwnFilters(ns) + Filters(Peel(shared)) == ServedFilters(marked, added + [ns], ns)
    {
      hide Filters, Peel, Root, Level, WellNested, Tier, FirstOn, OwnFilters;
      var i :| 0 <= i < |cache| && cache[i].ns.transport == ns.transport && cache[i].client == shared &&
               forall k :: 0 <= k < i ==> cache[k].ns.transport != ns.transport;
      assert CachedOk(cache[i]);
      assert Names()[i] == cache[i].ns;
      FirstOnAt(Names(), i);
      ServedFiltersStay(marked, added, [ns], ns);
      PeelFacts(shared);
      if marked(ns.transport) { PeelSubstitute(shared); } else { BareHasNoFilters(Peel(shared)); }
    }

    lemma FreshFilters(ns: NameServer)
      requires FirstsOk() && forall i :: 0 <= i < |cache| ==> cache[i].ns.transport != ns.transport
      ensures ServedFilters(marked, added + [ns], ns) == OwnFilters(ns)
    {
      FirstOnNone(Names(), ns.transport);
      FirstOnAppend(added, ns, ns.transport);
    }

    /** A client for ns on a shared or a new connection. */
    method Obtain(ns: NameServer, reusable: Option<Client>) returns (c: Client)
      requires Valid() && forall i :: 0 <= i < |cache| ==> cache[i].ns != ns
      requires reusable.Some? ==> FirstOnTransport(ns, reusable.value)
      requires reusable.None? ==> forall i :: 0 <= i < |cache| ==> cache[i].ns.transport != ns.transport
      modifies this`nextRaw
      ensures WellNested(c) && Level(c) <= |created| && Tier(c) == 1 && Root(c).transport == ns.transport
      ensures Peel(c).Substitute? ==> Peel(c) in created
      ensures !marked(ns.transport) ==> Level(c) == 0 && !c.Substitute?
      ensures Filters(c) == ServedFilters(marked, added + [ns], ns)
    {
      hide Rewrap, ServedFilters, CachedOk, FirstsOk;
      if reusable.Some? {
        c := Rewrap(reusable.value, ns);
        SharedFilters(ns, reusable.value);
        RewrapFilters(reusable.value, ns);
        RewrapFacts(reusable.value, ns);
      } else {
        c := Rewrap(Raw(nextRaw, ns.transport, true), ns);
        FreshFilters(ns);
        RewrapFilters(Raw(nextRaw, ns.transport, true), ns);
        RewrapFacts(Raw(nextRaw, ns.transport, true), ns);
        nextRaw := nextRaw + 1;
      }
    }

    /** What is cached stays right when another name server is added. */
    lemma CachedStays(entry: Cached, ns: NameServer)
      requires CachedOk(entry)
      ensures FiltersWith(entry, added + [ns])
    {
      FirstOnHas(added, entry.ns);
      ServedFiltersStay(marked, added, [ns], entry.ns);
    }

    lemma FirstsStay(ns: NameServer, names: seq<NameServer>)
      requires FirstsOk() && (names == Names() + [ns] || (names == Names() && ns in names))
      ensures forall t :: FirstOn(names, t) == FirstOn(added + [ns], t)
    {
      forall t ensures FirstOn(names, t) == FirstOn(added + [ns], t) {
        FirstOnAppend(added, ns, t);
        if names == Names() + [ns] { FirstOnAppend(Names(), ns, t); } else { FirstOnHas(names, ns); }
      }
    }

    /** What holds of the client c that was given to ns, the latest addition. */
    ghost predicate Given(ns: NameServer, c: Client)
      reads this
    {
      && Known(c) && marked(ns.transport) == c.Substitute? && Root(c).transport == ns.transport
      && Filters(c) == ServedFilters(marked, added, ns)
    }

    /** One name server: reuse, re-wrap or build, then mark. */
    method Add(ns: NameServer) returns (c: Client)
      requires Valid()
      modifies this
      ensures Valid() && added == old(added) + [ns] && Given(ns, c)
      ensures Filters(c) == OwnFilters(ns) <==> InheritsNothing(marked, added, ns)
      ensures old(created) <= created && old(cache) <= cache
      ensures forall i :: |old(created)| <= i < |created| ==> created[i] == c
    {
      hide ServedFilters, FirstOn, Filters, OwnFilters, InheritsNothing, Valid, Root, Known;
      OwnFiltersIff(marked, added + [ns], ns);
      var exact, reusable := Find(ns);
      if exact.Some? {
        c := exact.value;
        Reuse(ns, c);
      } else {
        c := Create(ns, reusable);
      }
    }

    /** An exact entry is used as it is. */
    ghost method Reuse(ns: NameServer, c: Client)
      requires Valid() && FirstExact(ns, c)
      modifies this`added
      ensures Valid() && added == old(added) + [ns] && Given(ns, c)
    {
      hide ServedFilters, FirstOn, Level, WellNested, Root, Tier, Peel, Filters;
      forall i | 0 <= i < |cache| ensures FiltersWith(cache[i], added + [ns]) { CachedStays(cache[i], ns); }
      var i :| 0 <= i < |cache| && cache[i] == Cached(ns, c);
      var names := Names();
      assert names[i] == ns;
      FirstsStay(ns, names);
      added := added + [ns];
      assert Names() == names;
      assert CachedOk(cache[i]);
      if !marked(ns.transport) { LevelZeroIsNone(c); }
    }

    method Create(ns: NameServer, reusable: Option<Client>) returns (c: Client)
      requires Valid() && forall i :: 0 <= i < |cache| ==> cache[i].ns != ns
      requires reusable.Some? ==> FirstOnTransport(ns, reusable.value)
      requires reusable.None? ==> forall i :: 0 <= i < |cache| ==> cache[i].ns.transport != ns.transport
      modifies this
      ensures Valid() && added == old(added) + [ns] && Given(ns, c)
      ensures old(created) <= created && old(cache) <= cache
      ensures forall i :: |old(created)| <= i < |created| ==> created[i] == c
    {
      hide ServedFilters, FirstOn, Level, WellNested, Root, Tier, Peel, Filters;
      forall i | 0 <= i < |cache| ensures FiltersWith(cache[i], added + [ns]) { CachedStays(cache[i], ns); }
      ghost var names := Names();
      FirstsStay(ns, names + [ns]);
      c := Obtain(ns, reusable);
      if marked(ns.transport) && !c.Substitute? {
        SubstituteFacts(|created|, c);
        c := Substitute(|created|, c);
        created := created + [c];
      }
      if c.Substitute? { PeelSubstitute(c); }
      assert Names() == names;
      Remember(ns, c);
      assert cache[|cache| - 1].client == c;
    }

    /** The new entry of the cache. */
    method Remember(ns: NameServer, c: Client)
      requires forall i :: 0 <= i < |created| ==>
                 created[i].Substitute? && created[i].id == i && WellNested(created[i]) && Tier(created[i]) == 1
      requires forall i :: 0 <= i < |cache| ==> CachedButForFilters(cache[i]) && FiltersWith(cache[i], added + [ns])
      requires CachedButForFilters(Cached(ns, c)) && FiltersWith(Cached(ns, c), added + [ns])
      requires forall t :: FirstOn(Names() + [ns], t) == FirstOn(added + [ns], t)
      modifies this`cache, this`added
      ensures Valid() && cache == old(cache) + [Cached(ns, c)] && added == old(added) + [ns]
    {
      hide ServedFilters, FirstOn, Level, WellNested, Root, Tier, Peel, Filters;
      ghost var names := Names();
      cache := cache + [Cached(ns, c)];
      added := added + [ns];
      assert Names() == names + [ns];
      assert CachedOk(cache[|cache| - 1]);
    }

    /** cacheTransform. */
    method Transform(nameservers: seq<NameServer>) returns (result: seq<Client>)
      requires Valid()
      modifies this
      ensures Valid() && old(created) <= created && old(cache) <= cache && added == old(added) + nameservers
      ensures |result| == |nameservers|
      ensures forall i :: 0 <= i < |result| ==> Known(result[i]) && marked(nameservers[i].transport) == result[i].Substitute?
      ensures forall i :: 0 <= i < |result| ==> Root(result[i]).transport == nameservers[i].transport
      ensures forall i :: 0 <= i < |result| ==> nameservers[i] in added && Filters(result[i]) == ServedFilters(marked, added, nameservers[i])
      ensures forall i :: 0 <= i < |result| ==>
                (Filters(result[i]) == OwnFilters(nameservers[i]) <==> InheritsNothing(marked, added, nameservers[i]))
      ensures forall i :: |old(created)| <= i < |created| ==> created[i] in result
    {
      hide ServedFilters, FirstOn, Filters, Root, WellNested, Level, Tier, Peel, CachedOk, FirstsOk, OwnFilters, InheritsNothing;
      result := [];
      for k := 0 to |nameservers|
        invariant Valid() && old(created) <= created && old(cache) <= cache && |result| == k
        invariant added == old(added) + nameservers[..k]
        invariant forall i :: 0 <= i < k ==> Known(result[i]) && marked(nameservers[i].transport) == result[i].Substitute?
        invariant forall i :: 0 <= i < k ==> Root(result[i]).transport == nameservers[i].transport
        invariant forall i :: 0 <= i < k ==> Filters(result[i]) == ServedFilters(marked, added, nameservers[i])
        invariant forall i :: |old(created)| <= i < |created| ==> created[i] in result
      {
        ghost var before := result;
        forall i | 0 <= i < k
          ensures ServedFilters(marked, added + [nameservers[k]], nameservers[i]) == ServedFilters(marked, added, nameservers[i])
        {
          assert nameservers[..k][i] in added;
          FirstOnHas(added, nameservers[i]);
          ServedFiltersStay(marked, added, [nameservers[k]], nameservers[i]);
        }
        var c := Add(nameservers[k]);
        result := result + [c];
        assert nameservers[..k + 1] == nameservers[..k] + [nameservers[k]];
        assert forall i :: 0 <= i < |before| ==> result[i] == before[i];
      }
      assert nameservers[..|nameservers|] == nameservers;
      forall i | 0 <= i < |result|
        ensures nameservers[i] in added
        ensures Filters(result[i]) == OwnFilters(nameservers[i]) <==> InheritsNothing(marked, added, nameservers[i])
      {
        OwnFiltersIff(marked, added, nameservers[i]);
      }
    }
  }

  lemma BareHasNoFilters(c: Client)
    requires c.Raw?
    ensures Filters(c) == []
  {
  }

  lemma SecondInherits(marked: Transport -> bool, first: NameServer, second: NameServer)
    requires first.transport == second.transport && first != second && marked(first.transport)
    ensures ServedFilters(marked, [first, second], second) == OwnFilters(second) + OwnFilters(first)
  {
    FirstOnAt([first, second], 0);
  }

  /** On a marked address a second name server inherits a client subnet it
      never asked for. */
  method SubstituteLendsItsFilters(marked: Transport -> bool, transport: Transport, prefix: string) returns (clients: seq<Client>)
    requires marked(transport)
    ensures var second := NameServer(transport, None, None);
            OwnFilters(second) == [] && |clients| == 2 && Filters(clients[1]) == [EcsFilter(prefix)]
  {
    hide ServedFilters, FirstOn, Filters, Root;
    var first, second := NameServer(transport, Some(prefix), None), NameServer(transport, None, None);
    var b := new Builder(marked);
    clients := b.Transform([first, second]);
    SecondInherits(marked, first, second);
    assert [] + [first, second] == [first, second];
  }

  // ----- wireSubstituteFallbacks -----

  /** The substitutes that the unwrapping of a list ends at. */
  function WrappersOf(clients: seq<Client>): seq<Client> {
    if clients == [] then []
    else
      var last := Peel(clients[|clients| - 1]);
      WrappersOf(clients[..|clients| - 1]) + if last.Substitute? then [last] else []
  }

  /** The other clients of a list. */
  function OthersOf(clients: seq<Client>): seq<Client> {
    if clients == [] then []
    else
      var last := clients[|clients| - 1];
      OthersOf(clients[..|clients| - 1]) + if Peel(last).Substitute? then [] else [last]
  }

  function Without(clients: seq<Client>, w: Client): seq<Client> {
    if clients == [] then []
    else
      var last := clients[|clients| - 1];
      Without(clients[..|clients| - 1], w) + if last == w then [] else [last]
  }

  lemma {:induction false} WrappersOfHas(clients: seq<Client>, w: Client)
    ensures w in WrappersOf(clients) <==> w.Substitute? && exists i :: 0 <= i < |clients| && Peel(clients[i]) == w
  {
    if clients != [] {
      var n := |clients| - 1;
      WrappersOfHas(clients[..n], w);
      assert forall i :: 0 <= i < n ==> clients[..n][i] == clients[i];
      if i :| 0 <= i < |clients| && Peel(clients[i]) == w && w.Substitute? {
        if i < n { assert Peel(clients[..n][i]) == w; }
      }
    }
  }

  lemma {:induction false} OthersOfHas(clients: seq<Client>, c: Client)
    ensures c in OthersOf(clients) <==> c in clients && !Peel(c).Substitute?
  {
    if clients != [] {
      var n := |clients| - 1;
      OthersOfHas(clients[..n], c);
      assert clients == clients[..n] + [clients[n]];
    }
  }

  lemma {:induction false} WithoutHas(clients: seq<Client>, w: Client, c: Client)
    ensures c in Without(clients, w) <==> c in clients && c != w
  {
    if clients != [] {
      var n := |clients| - 1;
      WithoutHas(clients[..n], w, c);
      assert clients == clients[..n] + [clients[n]];
    }
  }

  /** The unwrapping loop both list scans share. */
  method Unwrapped(client: Client) returns (c: Client)
    ensures c == Peel(client)
  {
    c := client;
    while !c.Substitute? && !c.Raw?
      invariant Peel(c) == Peel(client)
      decreases c
    {
      c := c.inner;
    }
  }

  method SubstituteWrappers(clients: seq<Client>) returns (out: seq<Client>)
    ensures out == WrappersOf(clients)
  {
    out := [];
    for i := 0 to |clients|
      invariant out == WrappersOf(clients[..i])
    {
      var c := Unwrapped(clients[i]);
      if c.Substitute? {
        out := out + [c];
      }
      assert clients[..i + 1][..i] == clients[..i];
    }
    assert clients[..|clients|] == clients;
  }

  method NonSubstituteClients(clients: seq<Client>) returns (out: seq<Client>)
    ensures out == OthersOf(clients)
  {
    var wrappers := SubstituteWrappers(clients);
    out := [];
    for i := 0 to |clients|
      invariant out == OthersOf(clients[..i])
    {
      var c := Unwrapped(clients[i]);
      WrappersOfHas(clients, c);
      if !(c.Substitute? && c in wrappers) {
        out := out + [clients[i]];
      }
      assert clients[..i + 1][..i] == clients[..i];
    }
    assert clients[..|clients|] == clients;
  }

  method SetFallback(w: Client, clients: seq<Client>) returns (own: seq<Client>)
    ensures own == Without(clients, w)
  {
    own := [];
    for i := 0 to |clients|
      invariant own == Without(clients[..i], w)
    {
      if clients[i] != w {
        own := own + [clients[i]];
      }
      assert clients[..i + 1][..i] == clients[..i];
    }
    assert clients[..|clients|] == clients;
  }

  /** What substitute w is wired to. */
  function FallbackFor(main: seq<Client>, w: Client): seq<Client> {
    Without(if w in WrappersOf(main) then OthersOf(main) else main, w)
  }

  lemma {:induction false} WithoutAbsent(clients: seq<Client>, w: Client)
    requires w !in clients
    ensures Without(clients, w) == clients
  {
    if clients != [] {
      var n := |clients| - 1;
      WithoutAbsent(clients[..n], w);
      assert clients == clients[..n] + [clients[n]];
    }
  }

  /** A substitute outside the main list falls back to the whole main list, one
      at which a main client ends to all main clients that end elsewhere. */
  lemma FallbackExact(main: seq<Client>, w: Client)
    requires w.Substitute?
    ensures (forall i :: 0 <= i < |main| ==> Peel(main[i]) != w) ==> FallbackFor(main, w) == main
    ensures (exists i :: 0 <= i < |main| && Peel(main[i]) == w) ==>
              FallbackFor(main, w) == OthersOf(main) && forall x :: x in FallbackFor(main, w) <==> x in main && !Peel(x).Substitute?
  {
    WrappersOfHas(main, w);
    PeelSubstitute(w);
    forall x ensures x in OthersOf(main) <==> x in main && !Peel(x).Substitute? { OthersOfHas(main, x); }
    if w in WrappersOf(main) { WithoutAbsent(OthersOf(main), w); } else { WithoutAbsent(main, w); }
  }

  method Wire(main: seq<Client>, created: seq<Client>) returns (fallback: map<nat, seq<Client>>)
    requires forall i :: 0 <= i < |created| ==> created[i].Substitute? && created[i].id == i
    ensures forall id: nat :: id in fallback <==> id < |created|
    ensures forall id: nat :: id in fallback ==> fallback[id] == FallbackFor(main, created[id])
  {
    fallback := map[];
    var mainWrappers := SubstituteWrappers(main);
    var mainOthers := NonSubstituteClients(main);
    for i := 0 to |created|
      invariant forall id: nat :: id in fallback <==> id < i
      invariant forall id: nat :: id in fallback ==> fallback[id] == FallbackFor(main, created[id])
    {
      var own := SetFallback(created[i], if created[i] in mainWrappers then mainOthers else main);
      fallback := fallback[created[i].id := own];
    }
  }
}
