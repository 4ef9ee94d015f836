/** The graph of calls between DNS clients that NewResolver leaves behind:
    every nested exchange ends, whatever the stale flag and the live list do in
    the meantime, and a stale address is not asked. */
module DnsFallbackGraph {
  import opened DnsSubstitutes

  /** fallback holds the wired substitutes by identity; the clients of the
      default resolver and the last resort are never wired. */
  datatype System = System(fallback: map<nat, seq<Client>>, defaults: seq<Client>, lastResort: seq<Client>)

  /** A client of the live list or of the last resort: a bare connection that
      resolves nothing through the default resolver. */
  predicate Plain(c: Client) {
    c.Raw? && !c.viaDefault
  }

  predicate Unwired(sys: System, c: Client) {
    match c
    case Raw(_, _, _) => true
    case Edns(inner, _) => Unwired(sys, inner)
    case Disable(inner, _) => Unwired(sys, inner)
    case Substitute(id, inner) => id !in sys.fallback && Unwired(sys, inner)
  }

  /** fallbackClients. */
  function Fallbacks(sys: System, id: nat): seq<Client> {
    if id in sys.fallback && sys.fallback[id] != [] then sys.fallback[id] else sys.lastResort
  }

  /** An exchange of a may start an exchange of b. */
  predicate Calls(sys: System, a: Client, b: Client) {
    match a
    case Raw(_, _, viaDefault) => viaDefault && b in sys.defaults
    case Edns(inner, _) => b == inner
    case Disable(inner, _) => b == inner
    case Substitute(id, inner) => b == inner || b in Fallbacks(sys, id) || Plain(b)
  }

  predicate NodeOk(sys: System, c: Client) {
    WellNested(c) && (Tier(c) == 0 ==> Unwired(sys, c))
  }

  ghost predicate SystemOk(sys: System) {
    && (forall id, x :: id in sys.fallback && x in sys.fallback[id] ==> WellNested(x) && Level(x) <= id && Tier(x) == 1)
    && (forall x :: x in sys.defaults ==> NodeOk(sys, x) && Tier(x) == 0)
    && (forall x :: x in sys.lastResort ==> Plain(x))
  }

  predicate Lower(b: Client, a: Client) {
    || Tier(b) < Tier(a)
    || (Tier(b) == Tier(a) && (Level(b) < Level(a) || (Level(b) == Level(a) && Depth(b) < Depth(a))))
  }

  /** Every call goes down: out of the main resolvers, to older substitutes, or
      one wrapper further in. */
  lemma CallGoesDown(sys: System, a: Client, b: Client)
    requires SystemOk(sys) && NodeOk(sys, a) && Calls(sys, a, b)
    ensures NodeOk(sys, b) && Lower(b, a)
  {
  }

  /** No chain of calls ever comes back to where it started. */
  lemma NoCallCycle(sys: System, p: seq<Client>)
    requires SystemOk(sys) && |p| >= 2 && NodeOk(sys, p[0])
    requires forall i, j :: 0 <= i < |p| - 1 && j == i + 1 ==> Calls(sys, p[i], p[j])
    ensures p[0] != p[|p| - 1]
  {
    ChainGoesDown(sys, p);
  }

  lemma {:induction false} ChainGoesDown(sys: System, p: seq<Client>)
    requires SystemOk(sys) && |p| >= 2 && NodeOk(sys, p[0])
    requires forall i, j :: 0 <= i < |p| - 1 && j == i + 1 ==> Calls(sys, p[i], p[j])
    ensures NodeOk(sys, p[|p| - 1]) && Lower(p[|p| - 1], p[0])
  {
    hide SystemOk, Calls, NodeOk;
    var n := |p| - 1;
    if n == 1 {
      CallGoesDown(sys, p[0], p[1]);
    } else {
      ChainGoesDown(sys, p[..n]);
      CallGoesDown(sys, p[n - 1], p[n]);
    }
  }

  // ----- exchanges -----

  /** What a substitute sees when it is asked. */
  datatype Env = Env(live: seq<Client>, stale: bool)

  /** A different answer may be seen at every node of the call tree. */
  type Oracle = seq<nat> -> Env

  ghost predicate OracleOk(o: Oracle) {
    forall path, x :: x in o(path).live ==> Plain(x)
  }

  /** The connections an exchange may ask.  That this is a function at all is
      the termination claim: it recurs exactly as the exchanges nest. */
  ghost function Consulted(sys: System, o: Oracle, path: seq<nat>, c: Client): set<Client>
    requires SystemOk(sys) && OracleOk(o) && NodeOk(sys, c)
    decreases Tier(c), Level(c), Depth(c)
  {
    match c
    case Raw(_, _, viaDefault) =>
      if viaDefault then
        assert forall x :: x in sys.defaults ==> NodeOk(sys, x) && Tier(x) < Tier(c);
        {c} + set i: nat, x | i < |sys.defaults| && x in Consulted(sys, o, path + [i], sys.defaults[i]) :: x
      else {c}
    case Edns(inner, _) => CallGoesDown(sys, c, inner); Consulted(sys, o, path + [0], inner)
    case Disable(inner, _) => CallGoesDown(sys, c, inner); Consulted(sys, o, path + [0], inner)
    case Substitute(id, inner) =>
      if o(path).live != [] then set x | x in o(path).live
      else if !o(path).stale then CallGoesDown(sys, c, inner); Consulted(sys, o, path + [0], inner)
      else
        var fs := Fallbacks(sys, id);
        assert forall x :: x in fs ==> NodeOk(sys, x) && Lower(x, c) by {
          forall x | x in fs ensures NodeOk(sys, x) && Lower(x, c) { CallGoesDown(sys, c, x); }
        }
        set i: nat, x | i < |fs| && x in Consulted(sys, o, path + [i], fs[i]) :: x
  }

  // ----- what NewResolver wires -----

  /** A client of a resolver is a substitute when its address is marked, and
      has no substitute inside when it is not. */
  predicate Clean(marked: Transport -> bool, c: Client) {
    c.Substitute? || (Level(c) == 0 && !marked(Root(c).transport))
  }

  /** The main list, when `count` substitutes had been created. */
  ghost predicate MainOk(main: seq<Client>, created: seq<Client>, count: nat) {
    && count <= |created|
    && (forall i :: 0 <= i < |created| ==> created[i].Substitute? && created[i].id == i && WellNested(created[i]) && Tier(created[i]) == 1)
    && (forall c :: c in main ==> WellNested(c) && Level(c) <= count && Tier(c) == 1)
    && (forall i :: 0 <= i < count ==> created[i] in main)
  }

  lemma FallbackIsLower(main: seq<Client>, created: seq<Client>, count: nat, id: nat, x: Client)
    requires MainOk(main, created, count) && id < |created| && x in FallbackFor(main, created[id])
    ensures WellNested(x) && Level(x) <= id && Tier(x) == 1 && x in main
  {
    var w := created[id];
    WithoutHas(if w in WrappersOf(main) then OthersOf(main) else main, w, x);
    OthersOfHas(main, x);
    if id < count {
      var i :| 0 <= i < |main| && main[i] == w;
      assert Peel(main[i]) == w;
      WrappersOfHas(main, w);
      PeelFacts(x);
    }
  }

  const LAST_RESORT := [
    Raw(0, Transport("", "114.114.114.114:53", "", false, ""), false),
    Raw(1, Transport("", "8.8.8.8:53", "", false, ""), false)]

  /** A default client: its own transport and filters, a substitute exactly
      when its address is marked. */
  predicate DefaultOk(marked: Transport -> bool, ns: NameServer, c: Client) {
    Root(c).transport == ns.transport && c.Substitute? == marked(ns.transport) && Filters(c) == OwnFilters(ns)
  }

  lemma DefaultWrapped(raw: Client, ns: NameServer, marked: Transport -> bool, id: nat)
    requires raw.Raw? && raw.transport == ns.transport
    ensures var c := Rewrap(raw, ns); DefaultOk(marked, ns, if marked(ns.transport) then Substitute(id, c) else c)
  {
    RewrapFacts(raw, ns);
    RewrapFilters(raw, ns);
    LevelZeroIsNone(Rewrap(raw, ns));
  }

  /** defaultResolver.main, wrapped at the end of NewResolver. */
  method WrapDefaults(defaults: seq<NameServer>, marked: Transport -> bool, first: nat) returns (out: seq<Client>)
    ensures |out| == |defaults|
    ensures forall x :: x in out ==> WellNested(x) && Tier(x) == 0 && Clean(marked, x)
    ensures forall x, sys: System :: x in out && (forall id :: id in sys.fallback ==> id < first) ==> Unwired(sys, x)
    ensures forall i :: 0 <= i < |out| ==> DefaultOk(marked, defaults[i], out[i])
  {
    hide DefaultOk;
    out := [];
    for i := 0 to |defaults|
      invariant |out| == i
      invariant forall k :: 0 <= k < i ==> DefaultOk(marked, defaults[k], out[k])
      invariant forall x :: x in out ==> WellNested(x) && Tier(x) == 0 && Clean(marked, x)
      invariant forall x, sys: System :: x in out && (forall id :: id in sys.fallback ==> id < first) ==> Unwired(sys, x)
    {
      var raw := Raw(2 + i, defaults[i].transport, false);
      var c := Rewrap(raw, defaults[i]);
      RewrapFacts(raw, defaults[i]);
      LevelZeroIsUnwired(c);
      if marked(defaults[i].transport) {
        c := Substitute(first + i, c);
      }
      DefaultWrapped(raw, defaults[i], marked, first + i);
      out := out + [c];
    }
  }

  lemma {:induction false} LevelZeroIsUnwired(c: Client)
    ensures Level(c) == 0 ==> forall sys: System :: Unwired(sys, c)
  {
    match c
    case Edns(inner, _) => LevelZeroIsUnwired(inner);
    case Disable(inner, _) => LevelZeroIsUnwired(inner);
    case _ =>
  }

  ghost predicate SystemClean(sys: System, marked: Transport -> bool) {
    && (forall id, x :: id in sys.fallback && x in sys.fallback[id] ==> Clean(marked, x))
    && (forall x :: x in sys.defaults ==> Clean(marked, x))
  }

  ghost predicate ListedOk(marked: Transport -> bool, c: Client, created: seq<Client>) {
    && WellNested(c) && Level(c) <= |created| && Tier(c) == 1 && Clean(marked, c)
    && (c.Substitute? ==> c.id < |created| && created[c.id] == c)
  }

  lemma KnownIsListed(b: Builder, c: Client)
    requires b.Valid() && b.Known(c)
    ensures ListedOk(b.marked, c, b.created)
  {
    var i :| 0 <= i < |b.cache| && b.cache[i].client == c;
    assert b.CachedOk(b.cache[i]);
  }

  ghost predicate AllListed(marked: Transport -> bool, list: seq<Client>, created: seq<Client>) {
    forall c :: c in list ==> ListedOk(marked, c, created)
  }

  lemma ListedGrows(marked: Transport -> bool, list: seq<Client>, created: seq<Client>, more: seq<Client>)
    requires AllListed(marked, list, created) && created <= more
    ensures AllListed(marked, list, more)
  {
  }

  method TransformOne(b: Builder, nameservers: seq<NameServer>) returns (list: seq<Client>)
    requires b.Valid()
    modifies b
    ensures b.Valid() && old(b.created) <= b.created && |list| == |nameservers| && AllListed(b.marked, list, b.created)
    ensures forall i :: |old(b.created)| <= i < |b.created| ==> b.created[i] in list
    ensures forall i :: 0 <= i < |list| ==> Root(list[i]).transport == nameservers[i].transport
    ensures b.added == old(b.added) + nameservers && AllFiltered(b.marked, b.added, nameservers, list)
  {
    list := b.Transform(nameservers);
    forall c | c in list ensures ListedOk(b.marked, c, b.created) { KnownIsListed(b, c); }
  }

  /** Every client of a list has its name server's transport, is a substitute
      exactly when that is marked, and has the filters that the order of all
      name servers gives it. */
  ghost predicate AllFiltered(marked: Transport -> bool, names: seq<NameServer>, nameservers: seq<NameServer>, list: seq<Client>) {
    |list| == |nameservers| && forall i :: 0 <= i < |list| ==>
      && nameservers[i] in names && Filters(list[i]) == ServedFilters(marked, names, nameservers[i])
      && Root(list[i]).transport == nameservers[i].transport && list[i].Substitute? == marked(nameservers[i].transport)
  }

  lemma FilteredStays(marked: Transport -> bool, names: seq<NameServer>, more: seq<NameServer>, nameservers: seq<NameServer>, list: seq<Client>)
    requires AllFiltered(marked, names, nameservers, list)
    ensures AllFiltered(marked, names + more, nameservers, list)
  {
    hide ServedFilters, Filters, Root;
    forall i | 0 <= i < |list| ensures ServedFilters(marked, names + more, nameservers[i]) == ServedFilters(marked, names, nameservers[i]) {
      FirstOnHas(names, nameservers[i]);
      ServedFiltersStay(marked, names, more, nameservers[i]);
    }
  }

  /** Lists of name servers one after the other. */
  ghost function Flat(lists: seq<seq<NameServer>>): seq<NameServer> {
    if lists == [] then [] else Flat(lists[..|lists| - 1]) + lists[|lists| - 1]
  }

  method TransformAll(b: Builder, others: seq<seq<NameServer>>) returns (lists: seq<seq<Client>>)
    requires b.Valid()
    modifies b
    ensures b.Valid() && old(b.created) <= b.created && |lists| == |others|
    ensures forall k :: 0 <= k < |lists| ==> AllListed(b.marked, lists[k], b.created)
    ensures b.added == old(b.added) + Flat(others)
    ensures forall k :: 0 <= k < |lists| ==> AllFiltered(b.marked, b.added, others[k], lists[k])
  {
    hide AllListed, AllFiltered;
    lists := [];
    for k := 0 to |others|
      invariant b.Valid() && |lists| == k && old(b.created) <= b.created && b.added == old(b.added) + Flat(others[..k])
      invariant forall i :: 0 <= i < k ==> AllListed(b.marked, lists[i], b.created)
      invariant forall i :: 0 <= i < k ==> AllFiltered(b.marked, b.added, others[i], lists[i])
    {
      ghost var before, names := b.created, b.added;
      var list := TransformOne(b, others[k]);
      forall i | 0 <= i < k ensures AllListed(b.marked, lists[i], b.created) && AllFiltered(b.marked, b.added, others[i], lists[i]) {
        ListedGrows(b.marked, lists[i], before, b.created);
        FilteredStays(b.marked, names, others[k], others[i], lists[i]);
      }
      lists := lists + [list];
      assert others[..k + 1][..k] == others[..k];
      assert old(b.added) + Flat(others[..k]) + others[k] == old(b.added) + (Flat(others[..k]) + others[k]);
    }
    assert others[..|others|] == others;
  }

  /** A listed client may start an exchange and, if it is a substitute, is wired. */
  ghost predicate Served(sys: System, marked: Transport -> bool, main: seq<Client>, c: Client) {
    && NodeOk(sys, c) && Clean(marked, c)
    && (c.Substitute? ==> c.id in sys.fallback && sys.fallback[c.id] == FallbackFor(main, c))
  }

  lemma ListedIsServed(sys: System, marked: Transport -> bool, main: seq<Client>, created: seq<Client>, list: seq<Client>)
    requires AllListed(marked, list, created)
    requires forall id: nat :: id in sys.fallback <==> id < |created|
    requires forall id: nat :: id in sys.fallback ==> sys.fallback[id] == FallbackFor(main, created[id])
    ensures forall c :: c in list ==> Served(sys, marked, main, c)
  {
    forall c | c in list ensures Served(sys, marked, main, c) {
      assert ListedOk(marked, c, created);
    }
  }

  /** The client lists of NewResolver: the main servers first, then every other
      list in turn, all through one cache; then the wiring. */
  method NewResolver(main: seq<NameServer>, defaults: seq<NameServer>, others: seq<seq<NameServer>>, marked: Transport -> bool)
    returns (sys: System, mainClients: seq<Client>, lists: seq<seq<Client>>)
    ensures SystemOk(sys) && SystemClean(sys, marked) && sys.lastResort == LAST_RESORT
    ensures |mainClients| == |main| && |lists| == |others| && |sys.defaults| == |defaults|
    ensures forall c :: c in mainClients ==> Served(sys, marked, mainClients, c)
    ensures forall k, c :: 0 <= k < |lists| && c in lists[k] ==> Served(sys, marked, mainClients, c)
    ensures AllFiltered(marked, main + Flat(others), main, mainClients)
    ensures forall k :: 0 <= k < |lists| ==> AllFiltered(marked, main + Flat(others), others[k], lists[k])
    ensures forall i :: 0 <= i < |defaults| ==> DefaultOk(marked, defaults[i], sys.defaults[i])
  {
    hide DefaultOk, SystemOk, SystemClean, AllListed, AllFiltered, Served, FallbackFor, Unwired;
    var b := new Builder(marked);
    mainClients := TransformOne(b, main);
    ghost var early := b.created;
    assert [] + main == main;
    lists := TransformAll(b, others);
    FilteredStays(marked, main, Flat(others), main, mainClients);
    var fallback := Wire(mainClients, b.created);
    var ds := WrapDefaults(defaults, marked, |b.created|);
    sys := System(fallback, ds, LAST_RESORT);
    MainListed(b, marked, mainClients, early);
    WiredIsOk(sys, mainClients, b.created, |early|, marked);
    ListedGrows(marked, mainClients, early, b.created);
    ListedIsServed(sys, marked, mainClients, b.created, mainClients);
    forall k | 0 <= k < |lists| ensures forall c :: c in lists[k] ==> Served(sys, marked, mainClients, c) {
      ListedIsServed(sys, marked, mainClients, b.created, lists[k]);
    }
  }

  lemma MainListed(b: Builder, marked: Transport -> bool, main: seq<Client>, early: seq<Client>)
    requires b.Valid() && early <= b.created && AllListed(marked, main, early)
    requires forall i :: 0 <= i < |early| ==> early[i] in main
    ensures MainOk(main, b.created, |early|) && forall c :: c in main ==> Clean(marked, c)
  {
    forall c | c in main ensures WellNested(c) && Level(c) <= |early| && Tier(c) == 1 && Clean(marked, c) {
      assert ListedOk(marked, c, early);
    }
  }

  lemma WiredIsOk(sys: System, main: seq<Client>, created: seq<Client>, count: nat, marked: Transport -> bool)
    requires MainOk(main, created, count) && sys.lastResort == LAST_RESORT
    requires forall id: nat :: id in sys.fallback <==> id < |created|
    requires forall id: nat :: id in sys.fallback ==> sys.fallback[id] == FallbackFor(main, created[id])
    requires forall c :: c in main ==> Clean(marked, c)
    requires forall x :: x in sys.defaults ==> WellNested(x) && Tier(x) == 0 && Clean(marked, x) && Unwired(sys, x)
    ensures SystemOk(sys) && SystemClean(sys, marked)
  {
    hide FallbackFor, MainOk, Clean;
    forall id, x | id in sys.fallback && x in sys.fallback[id]
      ensures WellNested(x) && Level(x) <= id && Tier(x) == 1 && Clean(marked, x)
    {
      FallbackIsLower(main, created, count, id, x);
    }
  }

  // ----- a stale address is not asked -----

  /** While the flag stays up and no live servers are known, an exchange
      reaches only connections whose address is not marked, and upstream's
      last resort. */
  lemma {:induction false} StaleIsNotAsked(sys: System, o: Oracle, path: seq<nat>, c: Client, marked: Transport -> bool, r: Client)
    requires SystemOk(sys) && SystemClean(sys, marked) && OracleOk(o) && NodeOk(sys, c) && Clean(marked, c)
    requires forall q :: o(q).stale && o(q).live == []
    requires r in Consulted(sys, o, path, c)
    ensures r.Raw? && (!marked(r.transport) || r in sys.lastResort)
    decreases Tier(c), Level(c), Depth(c)
  {
    match c
    case Raw(_, _, viaDefault) =>
      if r != c {
        var i: nat :| i < |sys.defaults| && r in Consulted(sys, o, path + [i], sys.defaults[i]);
        StaleIsNotAsked(sys, o, path + [i], sys.defaults[i], marked, r);
      }
    case Edns(inner, _) =>
      CallGoesDown(sys, c, inner);
      StaleIsNotAsked(sys, o, path + [0], inner, marked, r);
    case Disable(inner, _) =>
      CallGoesDown(sys, c, inner);
      StaleIsNotAsked(sys, o, path + [0], inner, marked, r);
    case Substitute(id, inner) =>
      var fs := Fallbacks(sys, id);
      forall x | x in fs ensures NodeOk(sys, x) { CallGoesDown(sys, c, x); }
      var i: nat :| i < |fs| && r in Consulted(sys, o, path + [i], fs[i]);
      CallGoesDown(sys, c, fs[i]);
      if fs[i] in sys.lastResort && Plain(fs[i]) {
        assert r == fs[i];
      } else {
        StaleIsNotAsked(sys, o, path + [i], fs[i], marked, r);
      }
  }

  /** While live servers are known, a substitute asks those and nothing else;
      while it is not stale it asks its own address. */
  lemma SubstitutePreference(sys: System, o: Oracle, path: seq<nat>, id: nat, inner: Client)
    requires SystemOk(sys) && OracleOk(o) && NodeOk(sys, Substitute(id, inner))
    ensures o(path).live != [] ==> Consulted(sys, o, path, Substitute(id, inner)) == set x | x in o(path).live
    ensures o(path).live == [] && !o(path).stale ==> Root(inner) in Consulted(sys, o, path, Substitute(id, inner)) || Level(inner) > 0
  {
    if o(path).live == [] && !o(path).stale && Level(inner) == 0 {
      CallGoesDown(sys, Substitute(id, inner), inner);
      PlainChainAsksRoot(sys, o, path + [0], inner);
    }
  }

  lemma {:induction false} PlainChainAsksRoot(sys: System, o: Oracle, path: seq<nat>, c: Client)
    requires SystemOk(sys) && OracleOk(o) && NodeOk(sys, c) && Level(c) == 0
    ensures Root(c) in Consulted(sys, o, path, c)
    decreases c
  {
    match c
    case Raw(_, _, _) =>
    case Edns(inner, _) =>
      CallGoesDown(sys, c, inner);
      PlainChainAsksRoot(sys, o, path + [0], inner);
    case Disable(inner, _) =>
      CallGoesDown(sys, c, inner);
      PlainChainAsksRoot(sys, o, path + [0], inner);
  }

  // ----- a stale substitute asks what it was wired to -----

  ghost predicate IsStale(o: Oracle, path: seq<nat>) {
    o(path).stale && o(path).live == []
  }

  /** A stale substitute asks exactly what the clients it is wired to ask, and
      the last resort only if it is wired to none. */
  lemma StaleAsksWired(sys: System, o: Oracle, path: seq<nat>, id: nat, inner: Client, r: Client)
    requires SystemOk(sys) && OracleOk(o) && NodeOk(sys, Substitute(id, inner)) && IsStale(o, path)
    ensures id in sys.fallback && sys.fallback[id] != [] ==>
              && (forall x :: x in sys.fallback[id] ==> NodeOk(sys, x))
              && (r in Consulted(sys, o, path, Substitute(id, inner)) <==>
                  exists i: nat :: i < |sys.fallback[id]| && r in Consulted(sys, o, path + [i], sys.fallback[id][i]))
    ensures id !in sys.fallback || sys.fallback[id] == [] ==>
              (r in Consulted(sys, o, path, Substitute(id, inner)) <==> r in sys.lastResort)
  {
    var c := Substitute(id, inner);
    var fs := Fallbacks(sys, id);
    forall x | x in fs ensures NodeOk(sys, x) { CallGoesDown(sys, c, x); }
    assert r in Consulted(sys, o, path, c) <==> exists i: nat :: i < |fs| && r in Consulted(sys, o, path + [i], fs[i]);
    if id !in sys.fallback || sys.fallback[id] == [] {
      assert fs == sys.lastResort;
      forall i: nat | i < |fs| ensures Consulted(sys, o, path + [i], fs[i]) == {fs[i]} { PlainAsksItself(sys, o, path + [i], fs[i]); }
      if r in fs {
        var i: nat :| i < |fs| && fs[i] == r;
        assert r in Consulted(sys, o, path + [i], fs[i]);
      }
    }
  }

  lemma PlainAsksItself(sys: System, o: Oracle, path: seq<nat>, c: Client)
    requires SystemOk(sys) && OracleOk(o) && NodeOk(sys, c) && Plain(c)
    ensures Consulted(sys, o, path, c) == {c}
  {
  }

  /** What a client handed out by NewResolver is wired to: the main clients
      without a substitute if it is one of them, else the whole main list. */
  lemma ServedFallback(sys: System, marked: Transport -> bool, main: seq<Client>, c: Client)
    requires Served(sys, marked, main, c) && c.Substitute? && forall x :: x in main ==> Clean(marked, x)
    ensures c.id in sys.fallback
    ensures c in main ==> forall x :: x in sys.fallback[c.id] <==> x in main && !x.Substitute?
    ensures c !in main ==> sys.fallback[c.id] == main
  {
    hide FallbackFor;
    FallbackExact(main, c);
    PeelSubstitute(c);
    forall i | 0 <= i < |main| ensures Peel(main[i]).Substitute? <==> main[i].Substitute? { CleanPeel(marked, main[i]); }
    forall i | 0 <= i < |main| && Peel(main[i]) == c ensures main[i] == c {
      CleanPeel(marked, main[i]);
      PeelSubstitute(main[i]);
    }
    if c in main {
      var i :| 0 <= i < |main| && main[i] == c;
      assert Peel(main[i]) == c;
      forall x | x in main ensures Peel(x).Substitute? <==> x.Substitute? { CleanPeel(marked, x); }
    }
  }

  lemma CleanPeel(marked: Transport -> bool, c: Client)
    requires Clean(marked, c)
    ensures Peel(c).Substitute? <==> c.Substitute?
  {
    PeelFacts(c);
  }

  /** While it is stale, a substitute that NewResolver handed out asks every
      main server whose address is not marked. */
  lemma StaleAsksUnmarkedMain(sys: System, marked: Transport -> bool, main: seq<Client>, o: Oracle, path: seq<nat>, c: Client, x: Client)
    requires SystemOk(sys) && OracleOk(o) && IsStale(o, path) && Served(sys, marked, main, c) && c.Substitute?
    requires (forall y :: y in main ==> Clean(marked, y)) && x in main && !x.Substitute?
    ensures NodeOk(sys, c) && Root(x) in Consulted(sys, o, path, c)
  {
    hide SystemOk, OracleOk, Consulted, NodeOk;
    ServedFallback(sys, marked, main, c);
    assert x in sys.fallback[c.id];
    var i: nat :| i < |sys.fallback[c.id]| && sys.fallback[c.id][i] == x;
    StaleAsksWired(sys, o, path, c.id, c.inner, Root(x));
    PlainChainAsksRoot(sys, o, path + [i], x);
  }

  /** Connections that need a name resolved ask the default clients too. */
  lemma DefaultsAreAsked(sys: System, o: Oracle, path: seq<nat>, c: Client, i: nat, r: Client)
    requires SystemOk(sys) && OracleOk(o) && NodeOk(sys, c) && c.Raw? && c.viaDefault && i < |sys.defaults|
    requires r in Consulted(sys, o, path + [i], sys.defaults[i])
    ensures r in Consulted(sys, o, path, c)
  {
  }
}
