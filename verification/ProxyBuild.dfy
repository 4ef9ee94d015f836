/** Building the proxy groups of a configuration after they have been sorted,
    and why walking from a group to the proxy it selects always ends. */
module ProxyBuild {
  import opened Options
  import opened Graphs
  import opened GroupSort
  import opened GroupLoops

  /** What a group entry says besides its name and members: whether all checks
      that do not look at other proxies pass, the proxies pulled in by
      include-all, whether it uses providers, and its fallback. */
  datatype GroupOptions = GroupOptions(accepted: bool, includes: seq<string>, provided: bool, fallback: string)

  /** Members and fallback are earlier entries, by position. */
  datatype Adapter = Leaf | Group(members: seq<nat>, provided: bool, fallback: nat)

  datatype Built = Built(table: map<string, nat>, adapters: seq<Adapter>)

  ghost predicate WellBuilt(b: Built) {
    && (forall name :: name in b.table ==> b.table[name] < |b.adapters|)
    && (forall id :: 0 <= id < |b.adapters| ==> AdapterOk(b, id))
  }

  ghost predicate AdapterOk(b: Built, id: nat)
    requires id < |b.adapters|
  {
    b.adapters[id].Group? ==>
      && (forall m :: m in b.adapters[id].members ==> m < id)
      && b.adapters[id].fallback < id && b.adapters[b.adapters[id].fallback].Leaf?
      && (b.adapters[id].members != [] || b.adapters[id].provided)
  }

  function AllMembers(m: Mapping, o: GroupOptions): seq<string> {
    m.proxies + o.includes
  }

  /** Group i can be built once the base proxies and the groups before it are. */
  ghost predicate GroupBuildable(base: set<string>, gs: seq<Mapping>, options: Mapping -> GroupOptions, i: nat)
    requires i < |gs|
  {
    var o := options(gs[i]);
    && o.accepted && o.fallback in base && gs[i].name !in base
    && (AllMembers(gs[i], o) != [] || o.provided)
    && (forall x :: x in AllMembers(gs[i], o) ==> x in base || NameTaken(gs[..i], x))
    && !NameTaken(gs[..i], gs[i].name)
  }

  ghost predicate Buildable(base: set<string>, gs: seq<Mapping>, options: Mapping -> GroupOptions) {
    forall i :: 0 <= i < |gs| ==> GroupBuildable(base, gs, options, i)
  }

  /** The table after some groups: base proxies are leaves, groups follow. */
  ghost predicate TableFor(b: Built, base: set<string>, gs: seq<Mapping>) {
    && (forall x :: x in b.table <==> x in base || NameTaken(gs, x))
    && (forall x :: x in b.table && x in base ==> b.table[x] < |b.adapters| && b.adapters[b.table[x]].Leaf?)
    && (forall x :: x in b.table && x !in base ==> b.table[x] < |b.adapters| && b.adapters[b.table[x]].Group?)
  }

  method Resolve(b: Built, names: seq<string>) returns (ids: Option<seq<nat>>)
    requires WellBuilt(b)
    ensures ids.Some? <==> forall x :: x in names ==> x in b.table
    ensures ids.Some? ==> |ids.value| == |names| && forall i :: 0 <= i < |names| ==> ids.value[i] == b.table[names[i]]
    ensures ids.Some? ==> forall m :: m in ids.value ==> m < |b.adapters|
  {
    var out: seq<nat> := [];
    for i := 0 to |names|
      invariant |out| == i && forall k :: 0 <= k < i ==> names[k] in b.table && out[k] == b.table[names[k]]
    {
      if names[i] !in b.table {
        return None;
      }
      out := out + [b.table[names[i]]];
    }
    return Some(out);
  }

  /** ParseProxyGroup and the duplicate check around it. */
  method BuildGroup(b: Built, m: Mapping, o: GroupOptions) returns (r: Option<Built>)
    requires WellBuilt(b)
    ensures r.Some? <==> o.accepted && o.fallback in b.table && b.adapters[b.table[o.fallback]].Leaf? && m.name !in b.table &&
                         (AllMembers(m, o) != [] || o.provided) && forall x :: x in AllMembers(m, o) ==> x in b.table
    ensures r.Some? ==> WellBuilt(r.value) && r.value.table == b.table[m.name := |b.adapters|]
    ensures r.Some? ==> |r.value.adapters| == |b.adapters| + 1 && r.value.adapters[..|b.adapters|] == b.adapters
    ensures r.Some? ==> var g := r.value.adapters[|b.adapters|];
                        g.Group? && g.provided == o.provided && g.fallback == b.table[o.fallback] &&
                        |g.members| == |AllMembers(m, o)| &&
                        forall i :: 0 <= i < |g.members| ==> g.members[i] == b.table[AllMembers(m, o)[i]]
  {
    if !o.accepted || o.fallback !in b.table || b.adapters[b.table[o.fallback]].Group? {
      return None;
    }
    if |AllMembers(m, o)| == 0 && !o.provided {
      return None;
    }
    var ids := Resolve(b, AllMembers(m, o));
    if ids.None? || m.name in b.table {
      return None;
    }
    var g := Group(ids.value, o.provided, b.table[o.fallback]);
    var next := Built(b.table[m.name := |b.adapters|], b.adapters + [g]);
    forall id | 0 <= id < |next.adapters| ensures AdapterOk(next, id) {
      if id < |b.adapters| { assert AdapterOk(b, id); }
    }
    return Some(next);
  }

  lemma NameTakenStep(gs: seq<Mapping>, i: nat, x: string)
    requires i < |gs|
    ensures NameTaken(gs[..i + 1], x) <==> NameTaken(gs[..i], x) || gs[i].name == x
  {
    var h, k := gs[..i], gs[..i + 1];
    if NameTaken(h, x) {
      var j :| 0 <= j < |h| && h[j].name == x;
      assert k[j] == h[j];
    }
    if NameTaken(k, x) {
      var j :| 0 <= j < |k| && k[j].name == x;
      if j < i { assert h[j] == k[j]; }
    }
    assert k[i] == gs[i];
  }

  /** The entry of a group is what its configuration says: its members in
      order, then those pulled in by include-all, its fallback, its providers. */
  ghost predicate AsConfigured(b: Built, m: Mapping, o: GroupOptions) {
    && m.name in b.table && b.table[m.name] < |b.adapters|
    && (forall x :: x in m.proxies + o.includes ==> x in b.table) && o.fallback in b.table
    && var g := b.adapters[b.table[m.name]];
       && g.Group? && g.provided == o.provided && g.fallback == b.table[o.fallback]
       && |g.members| == |m.proxies| + |o.includes|
       && (forall i :: 0 <= i < |m.proxies| ==> g.members[i] == b.table[m.proxies[i]])
       && (forall i :: 0 <= i < |o.includes| ==> g.members[|m.proxies| + i] == b.table[o.includes[i]])
  }

  lemma ConfiguredNow(b: Built, m: Mapping, o: GroupOptions, next: Built)
    requires WellBuilt(b) && m.name !in b.table && o.fallback in b.table && next.table == b.table[m.name := |b.adapters|]
    requires |next.adapters| == |b.adapters| + 1 && forall x :: x in AllMembers(m, o) ==> x in b.table
    requires var g := next.adapters[|b.adapters|];
             g.Group? && g.provided == o.provided && g.fallback == b.table[o.fallback] && |g.members| == |AllMembers(m, o)| &&
             forall i :: 0 <= i < |g.members| ==> g.members[i] == b.table[AllMembers(m, o)[i]]
    ensures AsConfigured(next, m, o)
  {
    var g, all := next.adapters[|b.adapters|], AllMembers(m, o);
    forall i | 0 <= i < |m.proxies| ensures g.members[i] == next.table[m.proxies[i]] { assert all[i] == m.proxies[i]; }
    forall i | 0 <= i < |o.includes| ensures g.members[|m.proxies| + i] == next.table[o.includes[i]] {
      assert all[|m.proxies| + i] == o.includes[i];
    }
    assert forall x :: x in m.proxies + o.includes ==> x in all;
  }

  lemma StaysConfigured(b: Built, m: Mapping, o: GroupOptions, name: string, next: Built)
    requires AsConfigured(b, m, o) && name !in b.table && next.table == b.table[name := |b.adapters|]
    requires |next.adapters| == |b.adapters| + 1 && next.adapters[..|b.adapters|] == b.adapters
    ensures AsConfigured(next, m, o)
  {
    assert next.adapters[b.table[m.name]] == next.adapters[..|b.adapters|][b.table[m.name]];
  }

  /** The group loop of parseProxies. */
  method BuildGroups(start: Built, base: set<string>, gs: seq<Mapping>, options: Mapping -> GroupOptions) returns (r: Option<Built>)
    requires WellBuilt(start) && start.table.Keys == base && forall id :: 0 <= id < |start.adapters| ==> start.adapters[id].Leaf?
    ensures r.Some? <==> Buildable(base, gs, options)
    ensures r.Some? ==> WellBuilt(r.value) && TableFor(r.value, base, gs)
    ensures r.Some? ==> forall i :: 0 <= i < |gs| ==> AsConfigured(r.value, gs[i], options(gs[i]))
  {
    hide AllMembers, TableFor, WellBuilt, GroupBuildable, AsConfigured;
    var b := start;
    TableStart(start, base, gs);
    for i := 0 to |gs|
      invariant WellBuilt(b) && TableFor(b, base, gs[..i])
      invariant forall k :: 0 <= k < i ==> GroupBuildable(base, gs, options, k)
      invariant forall k :: 0 <= k < i ==> AsConfigured(b, gs[k], options(gs[k]))
    {
      BuildableHere(b, base, gs, options, i);
      var next := BuildGroup(b, gs[i], options(gs[i]));
      if next.None? {
        return None;
      }
      TableStep(b, base, gs, i, next.value);
      ConfiguredNow(b, gs[i], options(gs[i]), next.value);
      forall k | 0 <= k < i ensures AsConfigured(next.value, gs[k], options(gs[k])) {
        StaysConfigured(b, gs[k], options(gs[k]), gs[i].name, next.value);
      }
      b := next.value;
    }
    assert gs[..|gs|] == gs;
    return Some(b);
  }

  lemma TableStart(start: Built, base: set<string>, gs: seq<Mapping>)
    requires WellBuilt(start) && start.table.Keys == base && forall id :: 0 <= id < |start.adapters| ==> start.adapters[id].Leaf?
    ensures TableFor(start, base, gs[..0])
  {
  }

  lemma BuildableHere(b: Built, base: set<string>, gs: seq<Mapping>, options: Mapping -> GroupOptions, i: nat)
    requires i < |gs| && WellBuilt(b) && TableFor(b, base, gs[..i])
    ensures var o := options(gs[i]);
            GroupBuildable(base, gs, options, i) <==>
              o.accepted && o.fallback in b.table && b.adapters[b.table[o.fallback]].Leaf? && gs[i].name !in b.table &&
              (AllMembers(gs[i], o) != [] || o.provided) && forall x :: x in AllMembers(gs[i], o) ==> x in b.table
  {
  }

  lemma TableStep(b: Built, base: set<string>, gs: seq<Mapping>, i: nat, next: Built)
    requires i < |gs| && TableFor(b, base, gs[..i]) && gs[i].name !in b.table
    requires next.table == b.table[gs[i].name := |b.adapters|]
    requires |next.adapters| == |b.adapters| + 1 && next.adapters[..|b.adapters|] == b.adapters && next.adapters[|b.adapters|].Group?
    ensures TableFor(next, base, gs[..i + 1])
  {
    forall x ensures NameTaken(gs[..i + 1], x) <==> NameTaken(gs[..i], x) || gs[i].name == x {
      NameTakenStep(gs, i, x);
    }
    assert forall id :: 0 <= id < |b.adapters| ==> next.adapters[id] == next.adapters[..|b.adapters|][id];
  }

  // ----- sorting makes the order right -----

  /** Group m makes sense regardless of the order of the groups. */
  ghost predicate Resolvable(base: set<string>, gs: seq<Mapping>, options: Mapping -> GroupOptions, m: Mapping) {
    var o := options(m);
    && o.accepted && o.fallback in base && m.name !in base
    && (AllMembers(m, o) != [] || o.provided)
    && (forall x :: x in m.proxies ==> x in base || NameTaken(gs, x))
    && (forall x :: x in o.includes ==> x in base)
  }

  /** include-all only pulls in proxies that are not groups. */
  ghost predicate IncludesAreBase(base: set<string>, gs: seq<Mapping>, options: Mapping -> GroupOptions) {
    forall m, x :: m in gs && x in options(m).includes ==> x in base
  }

  lemma SameNames(gs: seq<Mapping>, sorted: seq<Mapping>, x: string)
    requires multiset(sorted) == multiset(gs)
    ensures NameTaken(gs, x) <==> NameTaken(sorted, x)
  {
    if NameTaken(gs, x) {
      var i :| 0 <= i < |gs| && gs[i].name == x;
      assert gs[i] in multiset(gs) && gs[i] in sorted;
    }
    if NameTaken(sorted, x) {
      var i :| 0 <= i < |sorted| && sorted[i].name == x;
      assert sorted[i] in multiset(sorted) && sorted[i] in gs;
    }
  }

  lemma UniqueNamesPermute(gs: seq<Mapping>, sorted: seq<Mapping>)
    requires UniqueNames(gs) && multiset(sorted) == multiset(gs)
    ensures UniqueNames(sorted)
  {
    forall i, j | 0 <= i < j < |sorted| ensures sorted[i].name != sorted[j].name {
      if sorted[i].name == sorted[j].name {
        assert sorted[i] in multiset(sorted) && sorted[j] in multiset(sorted);
        assert sorted[i] in gs && sorted[j] in gs;
        assert sorted[i] == sorted[j];
        OnceEach(gs, sorted[i]);
        TwicePresent(sorted, i, j);
      }
    }
  }

  lemma TwicePresent(s: seq<Mapping>, i: nat, j: nat)
    requires i < j < |s| && s[i] == s[j]
    ensures multiset(s)[s[i]] >= 2
  {
    assert s == s[..j] + [s[j]] + s[j + 1..];
    assert s[i] == s[..j][i] && s[i] in s[..j];
    assert multiset(s) == multiset(s[..j]) + multiset{s[j]} + multiset(s[j + 1..]);
  }

  /** In sorted order every group is buildable exactly when every group is
      resolvable at all: the sort never makes a reference come too early. */
  lemma SortedIsBuildable(base: set<string>, gs: seq<Mapping>, sorted: seq<Mapping>, options: Mapping -> GroupOptions)
    requires UniqueNames(gs) && multiset(sorted) == multiset(gs) && MembersFirst(sorted) && IncludesAreBase(base, gs, options)
    ensures Buildable(base, sorted, options) <==> forall m :: m in gs ==> Resolvable(base, gs, options, m)
  {
    hide AllMembers;
    UniqueNamesPermute(gs, sorted);
    if forall m :: m in gs ==> Resolvable(base, gs, options, m) {
      forall i | 0 <= i < |sorted| ensures GroupBuildable(base, sorted, options, i) {
        InGroups(gs, sorted, i);
        ResolvableIsBuildable(base, gs, sorted, options, i);
      }
    }
    if Buildable(base, sorted, options) {
      forall m | m in gs ensures Resolvable(base, gs, options, m) {
        assert m in multiset(gs) && m in sorted;
        var i :| 0 <= i < |sorted| && sorted[i] == m;
        BuildableIsResolvable(base, gs, sorted, options, i);
      }
    }
  }

  lemma InGroups(gs: seq<Mapping>, sorted: seq<Mapping>, i: nat)
    requires multiset(sorted) == multiset(gs) && i < |sorted|
    ensures sorted[i] in gs
  {
    assert sorted[i] in multiset(sorted);
  }

  lemma ResolvableIsBuildable(base: set<string>, gs: seq<Mapping>, sorted: seq<Mapping>, options: Mapping -> GroupOptions, i: nat)
    requires UniqueNames(sorted) && multiset(sorted) == multiset(gs) && MembersFirst(sorted)
    requires i < |sorted| && Resolvable(base, gs, options, sorted[i])
    ensures GroupBuildable(base, sorted, options, i)
  {
    var m, o := sorted[i], options(sorted[i]);
    forall x | x in AllMembers(m, o) ensures x in base || NameTaken(sorted[..i], x) {
      if x !in base {
        assert x in m.proxies;
        SameNames(gs, sorted, x);
        var j :| 0 <= j < |sorted| && sorted[j].name == x;
        assert j < i && sorted[..i][j] == sorted[j];
      }
    }
    assert forall k :: 0 <= k < i ==> sorted[..i][k] == sorted[k];
  }

  lemma BuildableIsResolvable(base: set<string>, gs: seq<Mapping>, sorted: seq<Mapping>, options: Mapping -> GroupOptions, i: nat)
    requires multiset(sorted) == multiset(gs) && i < |sorted| && GroupBuildable(base, sorted, options, i)
    requires IncludesAreBase(base, gs, options)
    ensures Resolvable(base, gs, options, sorted[i])
  {
    var m, o := sorted[i], options(sorted[i]);
    InGroups(gs, sorted, i);
    forall x | x in m.proxies ensures x in base || NameTaken(gs, x) {
      assert x in AllMembers(m, o);
      if x !in base {
        var j :| 0 <= j < |sorted[..i]| && sorted[..i][j].name == x;
        assert sorted[j].name == x;
        SameNames(gs, sorted, x);
      }
    }
  }

  /** The group part of parseProxies.  A configuration is accepted exactly when
      its groups decode, have unique names, name each other without a loop and
      name only proxies and groups that exist. */
  method ParseGroups(a: array<Mapping>, start: Built, base: set<string>, options: Mapping -> GroupOptions)
    returns (r: Option<Built>)
    requires WellBuilt(start) && start.table.Keys == base && forall id :: 0 <= id < |start.adapters| ==> start.adapters[id].Leaf?
    requires IncludesAreBase(base, a[..], options)
    modifies a
    ensures r.Some? <==>
              WellFormed(old(a[..])) && Acyclic(GroupEdges(old(a[..]))) &&
              forall m :: m in old(a[..]) ==> Resolvable(base, old(a[..]), options, m)
    ensures r.Some? ==> WellBuilt(r.value) && forall x :: x in r.value.table <==> x in base || NameTaken(old(a[..]), x)
    ensures r.Some? ==> forall m :: m in old(a[..]) ==> AsConfigured(r.value, m, options(m))
  {
    hide AsConfigured, WellBuilt, Resolvable, IncludesAreBase, Acyclic, GroupEdges, MembersFirst, AllMembers, Buildable, Suspect;
    ghost var gs := a[..];
    var outcome := SortGroups(a);
    if !outcome.Sorted? {
      return None;
    }
    SortedIsBuildable(base, gs, a[..], options);
    r := BuildGroups(start, base, a[..], options);
    forall x ensures NameTaken(gs, x) <==> NameTaken(a[..], x) { SameNames(gs, a[..], x); }
    forall m | m in gs && r.Some? ensures AsConfigured(r.value, m, options(m)) {
      assert m in multiset(gs) && m in a[..];
    }
  }

  // ----- walks -----

  /** Where a walk can stand: at an entry of the table, or at a proxy that came
      from a provider, which is never a group. */
  datatype Place = Entry(id: nat) | FromProvider

  /** Unwrap may lead from a to c: to a member, to the fallback when the member
      list came out empty, or to a provider's proxy. */
  predicate MayUnwrap(b: Built, a: Place, c: Place) {
    && a.Entry? && a.id < |b.adapters| && b.adapters[a.id].Group?
    && match c
       case FromProvider => b.adapters[a.id].provided
       case Entry(id) => id in b.adapters[a.id].members || id == b.adapters[a.id].fallback
  }

  /** An accepted group can lead to every proxy it names and to its fallback. */
  lemma GroupReachesMembers(b: Built, m: Mapping, o: GroupOptions, x: string)
    requires AsConfigured(b, m, o) && (x in m.proxies || x in o.includes || x == o.fallback)
    ensures x in b.table && MayUnwrap(b, Entry(b.table[m.name]), Entry(b.table[x]))
  {
    var g := b.adapters[b.table[m.name]];
    if x in m.proxies {
      var i :| 0 <= i < |m.proxies| && m.proxies[i] == x;
      assert g.members[i] == b.table[x];
    } else if x in o.includes {
      var i :| 0 <= i < |o.includes| && o.includes[i] == x;
      assert x in m.proxies + o.includes && g.members[|m.proxies| + i] == b.table[x];
    }
  }

  ghost predicate Walk(b: Built, w: seq<Place>) {
    |w| >= 1 && forall i, j :: 0 <= i < |w| - 1 && j == i + 1 ==> MayUnwrap(b, w[i], w[j])
  }

  function PlaceRank(p: Place): nat {
    match p case FromProvider => 0 case Entry(id) => id + 1
  }

  /** Every unwrap goes to something built earlier. */
  lemma UnwrapGoesDown(b: Built, a: Place, c: Place)
    requires WellBuilt(b) && MayUnwrap(b, a, c)
    ensures PlaceRank(c) < PlaceRank(a)
  {
    assert AdapterOk(b, a.id);
  }

  /** Whatever the groups select at each step, a walk from an entry takes at
      most as many steps as there are entries up to it, and ends. */
  lemma {:induction false} WalksAreFinite(b: Built, w: seq<Place>)
    requires WellBuilt(b) && Walk(b, w)
    ensures |w| - 1 + PlaceRank(w[|w| - 1]) <= PlaceRank(w[0])
  {
    if |w| > 1 {
      var n := |w| - 1;
      WalksAreFinite(b, w[..n]);
      UnwrapGoesDown(b, w[n - 1], w[n]);
    }
  }

  /** The entries GLOBAL offers: the listed names in order, without Pass types. */
  ghost function Selectable(b: Built, list: seq<string>, isPass: nat -> bool): seq<nat>
    requires forall x :: x in list ==> x in b.table
  {
    if list == [] then []
    else
      var n := |list| - 1;
      Selectable(b, list[..n], isPass) + if isPass(b.table[list[n]]) then [] else [b.table[list[n]]]
  }

  lemma {:induction false} SelectableHas(b: Built, list: seq<string>, isPass: nat -> bool, id: nat)
    requires forall x :: x in list ==> x in b.table
    ensures id in Selectable(b, list, isPass) <==> !isPass(id) && exists x :: x in list && b.table[x] == id
  {
    if list != [] {
      var n := |list| - 1;
      assert list == list[..n] + [list[n]];
      SelectableHas(b, list[..n], isPass, id);
    }
  }

  /** GLOBAL, added last over everything listed unless a group of that name is
      configured.  It replaces a plain proxy of that name. */
  method AddGlobal(b: Built, list: seq<string>, isPass: nat -> bool, hasGlobal: bool, fallback: nat) returns (r: Built)
    requires WellBuilt(b) && fallback < |b.adapters| && b.adapters[fallback].Leaf?
    requires (forall x :: x in list ==> x in b.table) && "DIRECT" in list && !isPass(b.table["DIRECT"])
    ensures WellBuilt(r)
    ensures hasGlobal ==> r == b
    ensures !hasGlobal ==> r.table == b.table["GLOBAL" := |b.adapters|]
    ensures !hasGlobal ==> r.adapters == b.adapters + [Group(Selectable(b, list, isPass), false, fallback)]
  {
    var ps: seq<nat> := [];
    for i := 0 to |list|
      invariant ps == Selectable(b, list[..i], isPass)
    {
      assert list[..i + 1][..i] == list[..i];
      if !isPass(b.table[list[i]]) {
        ps := ps + [b.table[list[i]]];
      }
    }
    assert list[..|list|] == list;
    if hasGlobal {
      return b;
    }
    r := Built(b.table["GLOBAL" := |b.adapters|], b.adapters + [Group(ps, false, fallback)]);
    SelectableHas(b, list, isPass, b.table["DIRECT"]);
    forall m | m in ps ensures m < |b.adapters| { SelectableHas(b, list, isPass, m); }
    forall id | 0 <= id < |r.adapters| ensures AdapterOk(r, id) {
      if id < |b.adapters| { assert AdapterOk(b, id) && r.adapters[id] == b.adapters[id]; }
    }
  }
}
