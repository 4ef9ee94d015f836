/** proxyGroupsDagSort: the proxy groups of a configuration are sorted so that
    each group follows the groups it names, and when that is impossible the
    names that hold it up are reported.  Map iteration order is arbitrary in
    the source and is an arbitrary choice here. */
module GroupSort {
  import opened Options
  import opened Graphs

  /** One entry of the group list: the decoded name and members, whether the
      decoder accepts the entry, and everything else it carries. */
  datatype Mapping = Mapping(name: string, proxies: seq<string>, decodes: bool, rest: string)

  datatype Node = Node(indegree: int, data: Option<Mapping>, outdegree: int, from: seq<string>)

  type Graph = map<string, Node>

  datatype Outcome =
    | Sorted
    | DecodeFailed(name: string)
    | DuplicateName(name: string)
    | LoopDetected(elements: seq<string>)

  // ----- specification of the group graph -----

  ghost function GroupEdges(gs: seq<Mapping>): Edges<string> {
    set i, p | 0 <= i < |gs| && p in gs[i].proxies :: (gs[i].name, p)
  }

  /** Every name that occurs, as a group or as a member. */
  ghost function Nodes(gs: seq<Mapping>): set<string> {
    if gs == [] then {}
    else Nodes(gs[..|gs| - 1]) + {gs[|gs| - 1].name} + Elements(gs[|gs| - 1].proxies)
  }

  lemma {:induction false} NodesContain(gs: seq<Mapping>, i: nat)
    requires i < |gs|
    ensures gs[i].name in Nodes(gs) && Elements(gs[i].proxies) <= Nodes(gs)
  {
    if i < |gs| - 1 {
      NodesContain(gs[..|gs| - 1], i);
    }
  }

  ghost predicate UniqueNames(gs: seq<Mapping>) {
    forall i, j :: 0 <= i < j < |gs| ==> gs[i].name != gs[j].name
  }

  ghost predicate WellFormed(gs: seq<Mapping>) {
    UniqueNames(gs) && forall i :: 0 <= i < |gs| ==> gs[i].decodes
  }

  ghost function Lookup(gs: seq<Mapping>, x: string): (m: Option<Mapping>)
    ensures m.Some? ==> m.value in gs && m.value.name == x
    ensures m.None? ==> forall i :: 0 <= i < |gs| ==> gs[i].name != x
  {
    if gs == [] then None
    else if gs[|gs| - 1].name == x then Some(gs[|gs| - 1])
    else Lookup(gs[..|gs| - 1], x)
  }

  /** How often x is listed. */
  ghost function Times(s: seq<string>, x: string): nat {
    if s == [] then 0 else Times(s[..|s| - 1], x) + if s[|s| - 1] == x then 1 else 0
  }

  ghost function Members(m: Option<Mapping>): seq<string> {
    match m case None => [] case Some(g) => g.proxies
  }

  /** Edges into x, with multiplicity, from groups that are not done. */
  ghost function InDegree(gs: seq<Mapping>, done: set<string>, x: string): nat {
    if gs == [] then 0
    else
      var g := gs[|gs| - 1];
      InDegree(gs[..|gs| - 1], done, x) + if g.name in done then 0 else Times(g.proxies, x)
  }

  lemma LookupUnique(gs: seq<Mapping>, k: nat)
    requires UniqueNames(gs) && k < |gs|
    ensures Lookup(gs, gs[k].name) == Some(gs[k])
  {
  }

  lemma EdgeIsMembership(gs: seq<Mapping>, a: string, b: string)
    requires UniqueNames(gs)
    ensures (a, b) in GroupEdges(gs) <==> b in Members(Lookup(gs, a))
  {
    var e := GroupEdges(gs);
    if (a, b) in e {
      var i, p :| 0 <= i < |gs| && p in gs[i].proxies && (gs[i].name, p) == (a, b);
      LookupUnique(gs, i);
    }
    var m := Lookup(gs, a);
    if b in Members(m) {
      var i :| 0 <= i < |gs| && gs[i] == m.value;
      assert (gs[i].name, b) in e;
    }
  }

  lemma EdgeNodes(gs: seq<Mapping>, a: string, b: string)
    requires (a, b) in GroupEdges(gs)
    ensures a in Nodes(gs) && b in Nodes(gs)
  {
    var i, p :| 0 <= i < |gs| && p in gs[i].proxies && (gs[i].name, p) == (a, b);
    NodesContain(gs, i);
  }

  lemma {:induction false} InDegreeZero(gs: seq<Mapping>, done: set<string>, x: string)
    ensures InDegree(gs, done, x) == 0 <==>
            forall i :: 0 <= i < |gs| && gs[i].name !in done ==> x !in gs[i].proxies
  {
    if gs != [] {
      var n := |gs| - 1;
      InDegreeZero(gs[..n], done, x);
      TimesPositive(gs[n].proxies, x);
      assert forall i :: 0 <= i < n ==> gs[..n][i] == gs[i];
    }
  }

  lemma {:induction false} InDegreeStep(gs: seq<Mapping>, done: set<string>, name: string, x: string)
    requires UniqueNames(gs) && name !in done
    ensures InDegree(gs, done, x) == InDegree(gs, done + {name}, x) + Times(Members(Lookup(gs, name)), x)
  {
    if gs != [] {
      var n := |gs| - 1;
      InDegreeStep(gs[..n], done, name, x);
      if gs[n].name == name {
        InDegreeForeign(gs[..n], done, name, x);
      }
    }
  }

  lemma {:induction false} InDegreeForeign(gs: seq<Mapping>, done: set<string>, name: string, x: string)
    requires forall i :: 0 <= i < |gs| ==> gs[i].name != name
    ensures InDegree(gs, done, x) == InDegree(gs, done + {name}, x)
    ensures Lookup(gs, name) == None
  {
    if gs != [] {
      InDegreeForeign(gs[..|gs| - 1], done, name, x);
    }
  }

  lemma TimesStep(s: seq<string>, j: nat, x: string)
    requires j < |s|
    ensures Times(s[..j + 1], x) == Times(s[..j], x) + if s[j] == x then 1 else 0
  {
    assert s[..j + 1][..j] == s[..j];
  }

  lemma {:induction false} TimesPrefix(s: seq<string>, j: nat, x: string)
    requires j <= |s|
    ensures Times(s[..j], x) <= Times(s, x)
    ensures j < |s| && s[j] == x ==> Times(s[..j], x) < Times(s, x)
  {
    if j == |s| {
      assert s[..j] == s;
    } else {
      TimesPrefix(s[..|s| - 1], j, x);
      assert s[..|s| - 1][..j] == s[..j];
    }
  }

  lemma {:induction false} TimesPositive(s: seq<string>, x: string)
    ensures x in s <==> Times(s, x) > 0
  {
    if s != [] {
      TimesPositive(s[..|s| - 1], x);
      assert s == s[..|s| - 1] + [s[|s| - 1]];
    }
  }

  // ----- step 1.1: build the dependency graph -----

  ghost predicate Built(gs: seq<Mapping>, graph: Graph) {
    && graph.Keys == Nodes(gs)
    && forall x :: x in graph ==> graph[x] == Node(InDegree(gs, {}, x), Lookup(gs, x), 0, [])
  }

  /** The node for x once the listed members have been counted. */
  ghost function Counted(graph: Graph, proxies: seq<string>, x: string): Node {
    if x in graph then graph[x].(indegree := graph[x].indegree + Times(proxies, x))
    else Node(Times(proxies, x), None, 0, [])
  }

  ghost predicate CountedUpTo(graph: Graph, proxies: seq<string>, g: Graph) {
    && (forall x :: x in g <==> x in graph || Times(proxies, x) > 0)
    && forall x :: x in g ==> g[x] == Counted(graph, proxies, x)
  }

  /** Counts one reference per listed member, creating unseen nodes. */
  method CountMembers(graph: Graph, proxies: seq<string>) returns (g: Graph)
    ensures CountedUpTo(graph, proxies, g)
  {
    g := graph;
    for j := 0 to |proxies|
      invariant CountedUpTo(graph, proxies[..j], g)
    {
      var p := proxies[j];
      ghost var before := g;
      if p in g {
        g := g[p := g[p].(indegree := g[p].indegree + 1)];
      } else {
        g := g[p := Node(1, None, 0, [])];
      }
      forall x
        ensures x in g <==> x in graph || Times(proxies[..j + 1], x) > 0
        ensures x in g ==> g[x] == Counted(graph, proxies[..j + 1], x)
      {
        TimesStep(proxies, j, x);
      }
    }
    assert proxies[..|proxies|] == proxies;
  }

  lemma BuiltNode(gs: seq<Mapping>, g: Mapping, x: string)
    ensures InDegree(gs + [g], {}, x) == InDegree(gs, {}, x) + Times(g.proxies, x)
    ensures Lookup(gs + [g], x) == if g.name == x then Some(g) else Lookup(gs, x)
  {
    assert (gs + [g])[..|gs|] == gs;
  }

  lemma NodesStep(gs: seq<Mapping>, g: Mapping)
    ensures Nodes(gs + [g]) == Nodes(gs) + {g.name} + Elements(g.proxies)
  {
    assert (gs + [g])[..|gs|] == gs;
  }

  ghost function Named(graph: Graph, g: Mapping): Graph {
    graph[g.name := if g.name in graph then graph[g.name].(data := Some(g)) else Node(0, Some(g), 0, [])]
  }

  lemma BuiltStepAt(gs: seq<Mapping>, g: Mapping, before: Graph, x: string)
    requires Built(gs, before)
    ensures Counted(Named(before, g), g.proxies, x) == Node(InDegree(gs + [g], {}, x), Lookup(gs + [g], x), 0, [])
  {
    BuiltNode(gs, g, x);
    if x !in before {
      NotANode(gs, x);
    }
  }

  lemma BuiltStep(gs: seq<Mapping>, g: Mapping, before: Graph, after: Graph)
    requires Built(gs, before)
    requires CountedUpTo(Named(before, g), g.proxies, after)
    ensures Built(gs + [g], after)
  {
    assert after.Keys == Nodes(gs + [g]) by {
      NodesStep(gs, g);
      forall x ensures x in after <==> x in Nodes(gs + [g]) {
        TimesPositive(g.proxies, x);
      }
    }
    forall x | x in after
      ensures after[x] == Node(InDegree(gs + [g], {}, x), Lookup(gs + [g], x), 0, [])
    {
      BuiltStepAt(gs, g, before, x);
    }
  }

  lemma {:induction false} NotANode(gs: seq<Mapping>, x: string)
    requires x !in Nodes(gs)
    ensures InDegree(gs, {}, x) == 0 && Lookup(gs, x) == None
  {
    InDegreeZero(gs, {}, x);
    forall i | 0 <= i < |gs| ensures gs[i].name != x && x !in gs[i].proxies {
      NodesContain(gs, i);
    }
  }

  ghost predicate NameTaken(gs: seq<Mapping>, name: string) {
    exists i :: 0 <= i < |gs| && gs[i].name == name
  }

  lemma NameTakenIffData(gs: seq<Mapping>, graph: Graph, name: string)
    requires Built(gs, graph)
    ensures name in graph && graph[name].data.Some? <==> NameTaken(gs, name)
  {
    if name !in graph {
      NotANode(gs, name);
    } else if NameTaken(gs, name) {
      assert Lookup(gs, name).Some?;
    }
  }

  /** Why the list is refused before any sorting, if it is. */
  ghost predicate Faulty(gs: seq<Mapping>, fault: Outcome) {
    exists j :: 0 <= j < |gs| && FaultyAt(gs, j, fault)
  }

  ghost predicate FaultyAt(gs: seq<Mapping>, j: nat, fault: Outcome)
    requires j < |gs|
  {
    && WellFormed(gs[..j])
    && fault == (if !gs[j].decodes then DecodeFailed(gs[j].name) else DuplicateName(gs[j].name))
    && (gs[j].decodes ==> NameTaken(gs[..j], gs[j].name))
  }

  lemma WellFormedStep(gs: seq<Mapping>, j: nat)
    requires j < |gs| && WellFormed(gs[..j])
    ensures WellFormed(gs[..j + 1]) <==> gs[j].decodes && !NameTaken(gs[..j], gs[j].name)
    ensures !WellFormed(gs[..j + 1]) ==> !WellFormed(gs)
  {
    var hs, ks := gs[..j], gs[..j + 1];
    assert forall i :: 0 <= i < j ==> hs[i] == ks[i] == gs[i];
    if WellFormed(gs) {
      assert forall i :: 0 <= i < |ks| ==> ks[i] == gs[i];
    }
  }

  lemma FaultFound(gs: seq<Mapping>, j: nat)
    requires j < |gs| && WellFormed(gs[..j])
    requires gs[j].decodes ==> NameTaken(gs[..j], gs[j].name)
    ensures Faulty(gs, if !gs[j].decodes then DecodeFailed(gs[j].name) else DuplicateName(gs[j].name))
  {
    assert FaultyAt(gs, j, if !gs[j].decodes then DecodeFailed(gs[j].name) else DuplicateName(gs[j].name));
  }

  lemma BuiltEmpty()
    ensures Built([], map[])
  {
  }

  method AddGroup(ghost gs: seq<Mapping>, graph: Graph, g: Mapping) returns (after: Graph)
    requires Built(gs, graph)
    ensures Built(gs + [g], after)
  {
    var named: Graph;
    if g.name in graph {
      named := graph[g.name := graph[g.name].(data := Some(g))];
    } else {
      named := graph[g.name := Node(0, Some(g), 0, [])];
    }
    after := CountMembers(named, g.proxies);
    BuiltStep(gs, g, graph, after);
  }

  method BuildGraph(gs: seq<Mapping>) returns (graph: Graph, fault: Option<Outcome>)
    ensures fault.None? <==> WellFormed(gs)
    ensures fault.None? ==> Built(gs, graph)
    ensures fault.Some? ==> Faulty(gs, fault.value)
  {
    hide Built, Faulty, FaultyAt;
    graph, fault := map[], None;
    BuiltEmpty();
    for i := 0 to |gs|
      invariant WellFormed(gs[..i]) && Built(gs[..i], graph)
    {
      WellFormedStep(gs, i);
      var name := gs[i].name;
      NameTakenIffData(gs[..i], graph, name);
      if !gs[i].decodes {
        FaultFound(gs, i);
        return graph, Some(DecodeFailed(name));
      }
      if name in graph && graph[name].data.Some? {
        FaultFound(gs, i);
        return graph, Some(DuplicateName(name));
      }
      graph := AddGroup(gs[..i], graph, gs[i]);
      assert gs[..i + 1] == gs[..i] + [gs[i]];
    }
    assert gs[..|gs|] == gs;
  }

  // ----- step 1.2: topological sort -----

  /** Names whose indegree has just reached zero join the queue. */
  ghost predicate Released(graph: Graph, proxies: seq<string>, g: Graph, added: seq<string>) {
    && g.Keys == graph.Keys
    && (forall x :: x in g ==> g[x] == graph[x].(indegree := graph[x].indegree - Times(proxies, x)))
    && Distinct(added)
    && forall x :: x in added <==> x in g && Times(proxies, x) > 0 && g[x].indegree == 0
  }

  method ReleaseMembers(graph: Graph, queue: seq<string>, proxies: seq<string>)
    returns (g: Graph, q: seq<string>)
    requires forall p :: p in proxies ==> p in graph && graph[p].indegree >= Times(proxies, p)
    ensures |queue| <= |q| && q[..|queue|] == queue && Released(graph, proxies, g, q[|queue|..])
  {
    g, q := graph, queue;
    ghost var added := [];
    for j := 0 to |proxies|
      invariant q == queue + added && Released(graph, proxies[..j], g, added)
    {
      var p := proxies[j];
      TimesPrefix(proxies, j, p);
      g := g[p := g[p].(indegree := g[p].indegree - 1)];
      assert p !in added;
      if g[p].indegree == 0 {
        q := q + [p];
        added := added + [p];
      }
      forall x
        ensures x in g ==> g[x] == graph[x].(indegree := graph[x].indegree - Times(proxies[..j + 1], x))
        ensures x in added <==> x in g && Times(proxies[..j + 1], x) > 0 && g[x].indegree == 0
      {
        TimesStep(proxies, j, x);
      }
    }
    assert proxies[..|proxies|] == proxies;
    assert q[|queue|..] == added;
  }

  /** Every predecessor of an eliminated name was eliminated before it. */
  ghost predicate PredecessorsFirst(gs: seq<Mapping>, order: seq<string>) {
    forall i, a :: 0 <= i < |order| && (a, order[i]) in GroupEdges(gs) ==> a in order[..i]
  }

  /** The state between two dequeues: what has been eliminated, in order, and
      a graph whose counters are exact for what is left. */
  ghost predicate Peeling(gs: seq<Mapping>, order: seq<string>, queue: seq<string>, graph: Graph) {
    && Distinct(order) && Distinct(queue)
    && (forall x :: x in Nodes(gs) <==> x in order || x in graph)
    && (forall x :: x in order ==> x !in graph)
    && (forall x :: x in graph ==> graph[x] == Node(InDegree(gs, Elements(order), x), Lookup(gs, x), 0, []))
    && (forall x :: x in queue <==> x in graph && graph[x].indegree == 0)
    && PredecessorsFirst(gs, order)
  }

  lemma MemberIsPending(gs: seq<Mapping>, order: seq<string>, queue: seq<string>, graph: Graph, name: string, p: string)
    requires UniqueNames(gs) && Peeling(gs, order, queue, graph)
    requires name in graph && p in Members(graph[name].data)
    ensures p in graph && graph[p].indegree >= Times(Members(graph[name].data), p)
  {
    EdgeIsMembership(gs, name, p);
    EdgeNodes(gs, name, p);
    assert name !in order;
    InDegreeStep(gs, Elements(order), name, p);
  }

  lemma ReadyHasNoPending(gs: seq<Mapping>, order: seq<string>, name: string)
    requires InDegree(gs, Elements(order), name) == 0
    ensures forall a :: (a, name) in GroupEdges(gs) ==> a in order
  {
    InDegreeZero(gs, Elements(order), name);
  }

  lemma PredecessorsFirstStep(gs: seq<Mapping>, order: seq<string>, name: string)
    requires PredecessorsFirst(gs, order) && InDegree(gs, Elements(order), name) == 0
    ensures PredecessorsFirst(gs, order + [name])
  {
    ReadyHasNoPending(gs, order, name);
    var next := order + [name];
    forall i, a | 0 <= i < |next| && (a, next[i]) in GroupEdges(gs) ensures a in next[..i] {
      assert next[..i] == order[..i];
    }
  }

  lemma PeelCounters(gs: seq<Mapping>, order: seq<string>, name: string, graph: Graph, g: Graph, added: seq<string>, x: string)
    requires UniqueNames(gs) && name !in order && name in graph && x in graph
    requires graph[name].data == Lookup(gs, name)
    requires graph[x] == Node(InDegree(gs, Elements(order), x), Lookup(gs, x), 0, [])
    requires Released(graph, Members(graph[name].data), g, added)
    ensures g[x] == Node(InDegree(gs, Elements(order + [name]), x), Lookup(gs, x), 0, [])
  {
    InDegreeStep(gs, Elements(order), name, x);
    assert Elements(order + [name]) == Elements(order) + {name};
  }

  lemma PeelStep(gs: seq<Mapping>, order: seq<string>, queue: seq<string>, name: string, graph: Graph, g: Graph, added: seq<string>)
    requires UniqueNames(gs) && Peeling(gs, order, [name] + queue, graph)
    requires name in graph && Released(graph, Members(graph[name].data), g, added)
    ensures Peeling(gs, order + [name], queue + added, g - {name}) && Distinct(order + [name])
  {
    var ready := [name] + queue;
    assert name in ready && ready[0] == name;
    assert forall x :: x in queue ==> x in ready;
    forall x | x in graph
      ensures g[x] == Node(InDegree(gs, Elements(order + [name]), x), Lookup(gs, x), 0, [])
    {
      PeelCounters(gs, order, name, graph, g, added, x);
    }
    PredecessorsFirstStep(gs, order, name);
    PeelQueue(queue, name, graph, Members(graph[name].data), g, added);
  }

  lemma PeelQueue(queue: seq<string>, name: string, graph: Graph, proxies: seq<string>, g: Graph, added: seq<string>)
    requires Distinct([name] + queue)
    requires forall x :: x in [name] + queue <==> x in graph && graph[x].indegree == 0
    requires Released(graph, proxies, g, added) && forall x :: x in g ==> g[x].indegree >= 0
    ensures Distinct(queue + added)
    ensures forall x :: x in queue + added <==> x in g - {name} && g[x].indegree == 0
  {
    DistinctConcat([name], queue);
    DistinctConcat(queue, added);
    forall x ensures x in queue + added <==> x in g - {name} && g[x].indegree == 0
             ensures x in queue ==> x !in added
    {
      assert x in [name] + queue <==> x == name || x in queue;
    }
  }

  /** The groups among the eliminated names, last eliminated first: what the
      sort has written at the end of the list. */
  ghost function Filled(gs: seq<Mapping>, order: seq<string>): seq<Mapping> {
    if order == [] then []
    else
      var rest := Filled(gs, order[..|order| - 1]);
      match Lookup(gs, order[|order| - 1])
      case None => rest
      case Some(m) => [m] + rest
  }

  lemma {:induction false} FilledNames(gs: seq<Mapping>, order: seq<string>, k: nat)
    requires k < |Filled(gs, order)|
    ensures var m := Filled(gs, order)[k]; m in gs && m.name in order
  {
    var n := |order| - 1;
    var prefix := order[..n];
    if Lookup(gs, order[n]).None? {
      FilledNames(gs, prefix, k);
    } else if k > 0 {
      FilledNames(gs, prefix, k - 1);
    }
  }

  lemma {:induction false} FilledHasAll(gs: seq<Mapping>, order: seq<string>, k: nat)
    requires UniqueNames(gs) && k < |gs| && gs[k].name in order
    ensures gs[k] in Filled(gs, order)
  {
    var n := |order| - 1;
    LookupUnique(gs, k);
    if order[n] != gs[k].name {
      assert order == order[..n] + [order[n]];
      FilledHasAll(gs, order[..n], k);
    }
  }

  ghost predicate DistinctNames(ms: seq<Mapping>) {
    forall i, j :: 0 <= i < j < |ms| ==> ms[i].name != ms[j].name
  }

  lemma {:induction false} FilledDistinct(gs: seq<Mapping>, order: seq<string>)
    requires Distinct(order)
    ensures DistinctNames(Filled(gs, order))
  {
    if order != [] {
      var n := |order| - 1;
      var prefix := order[..n];
      FilledDistinct(gs, prefix);
      var rest := Filled(gs, prefix);
      forall k | 0 <= k < |rest| ensures rest[k].name != order[n] {
        FilledNames(gs, prefix, k);
      }
    }
  }

  lemma {:induction false} DistinctNamesFit(ms: seq<Mapping>, gs: seq<Mapping>)
    requires DistinctNames(ms) && forall k :: 0 <= k < |ms| ==> ms[k] in gs
    ensures |ms| <= |gs|
  {
    if ms != [] {
      var i :| 0 <= i < |gs| && gs[i] == ms[0];
      var hs := gs[..i] + gs[i + 1..];
      var rest := ms[1..];
      forall k | 0 <= k < |rest| ensures rest[k] in hs {
        var j :| 0 <= j < |gs| && gs[j] == ms[k + 1];
        assert ms[k + 1].name != ms[0].name;
        if j < i { assert hs[j] == gs[j]; } else { assert hs[j - 1] == gs[j]; }
      }
      DistinctNamesFit(rest, hs);
    }
  }

  lemma FilledFits(gs: seq<Mapping>, order: seq<string>)
    requires Distinct(order)
    ensures |Filled(gs, order)| <= |gs|
  {
    FilledDistinct(gs, order);
    forall k | 0 <= k < |Filled(gs, order)| ensures Filled(gs, order)[k] in gs {
      FilledNames(gs, order, k);
    }
    DistinctNamesFit(Filled(gs, order), gs);
  }

  /** Each group stands after every group it names. */
  ghost predicate MembersFirst(ms: seq<Mapping>) {
    forall i, j :: 0 <= i < |ms| && 0 <= j < |ms| && ms[i].name in ms[j].proxies ==> i < j
  }

  lemma FilledHead(gs: seq<Mapping>, order: seq<string>, k: nat)
    requires UniqueNames(gs) && Distinct(order) && PredecessorsFirst(gs, order)
    requires order != [] && Lookup(gs, order[|order| - 1]).Some? && k < |Filled(gs, order)|
    ensures Filled(gs, order)[k].name !in Lookup(gs, order[|order| - 1]).value.proxies
  {
    var n := |order| - 1;
    var m := Lookup(gs, order[n]).value;
    var x := Filled(gs, order)[k].name;
    FilledNames(gs, order, k);
    EdgeIsMembership(gs, order[n], x);
  }

  lemma {:induction false} FilledInOrder(gs: seq<Mapping>, order: seq<string>)
    requires UniqueNames(gs) && Distinct(order) && PredecessorsFirst(gs, order)
    ensures MembersFirst(Filled(gs, order))
  {
    if order != [] {
      var n := |order| - 1;
      var prefix := order[..n];
      assert forall i :: 0 <= i < n ==> prefix[..i] == order[..i];
      FilledInOrder(gs, prefix);
      if Lookup(gs, order[n]).Some? {
        var f := Filled(gs, order);
        forall i, j | 0 <= i < |f| && 0 <= j < |f| && f[i].name in f[j].proxies ensures i < j {
          FilledHead(gs, order, i);
          if i > 0 && j > 0 {
            var rest := Filled(gs, prefix);
            assert f[i] == rest[i - 1] && f[j] == rest[j - 1];
          }
        }
      }
    }
  }

  lemma {:induction false} SameMultiset(ms: seq<Mapping>, gs: seq<Mapping>)
    requires DistinctNames(ms) && DistinctNames(gs)
    requires forall m :: m in ms <==> m in gs
    ensures multiset(ms) == multiset(gs)
  {
    forall m ensures multiset(ms)[m] == multiset(gs)[m] {
      OnceEach(ms, m);
      OnceEach(gs, m);
    }
  }

  lemma {:induction false} OnceEach(ms: seq<Mapping>, m: Mapping)
    requires DistinctNames(ms)
    ensures multiset(ms)[m] == if m in ms then 1 else 0
  {
    if ms != [] {
      var n := |ms| - 1;
      assert ms == ms[..n] + [ms[n]];
      OnceEach(ms[..n], m);
    }
  }

  /** With every name eliminated, the written list is a permutation of the
      input in which members come first, and the group graph has no cycle. */
  lemma CompleteElimination(gs: seq<Mapping>, order: seq<string>)
    requires UniqueNames(gs) && Distinct(order) && PredecessorsFirst(gs, order)
    requires forall x :: x in Nodes(gs) ==> x in order
    ensures multiset(Filled(gs, order)) == multiset(gs)
    ensures MembersFirst(Filled(gs, order))
    ensures Acyclic(GroupEdges(gs))
  {
    var f := Filled(gs, order);
    FilledDistinct(gs, order);
    forall m ensures m in f <==> m in gs {
      if m in f {
        var k :| 0 <= k < |f| && f[k] == m;
        FilledNames(gs, order, k);
      }
      if m in gs {
        var k :| 0 <= k < |gs| && gs[k] == m;
        NodesContain(gs, k);
        FilledHasAll(gs, order, k);
      }
    }
    SameMultiset(f, gs);
    FilledInOrder(gs, order);
    forall c ensures !Cycle(GroupEdges(gs), c) {
      if Cycle(GroupEdges(gs), c) {
        CycleKeepsBoth(GroupEdges(gs), c);
        EliminationSparesPredecessorSets(GroupEdges(gs), order, Elements(c));
        assert (c[0], c[1]) in GroupEdges(gs);
        EdgeNodes(gs, c[0], c[1]);
        assert false;
      }
    }
  }

  /** Map iteration: the names whose node is ready, in whatever order. */
  method Collect(graph: Graph, ready: Node -> bool) returns (queue: seq<string>)
    ensures Distinct(queue)
    ensures forall x :: x in queue <==> x in graph && ready(graph[x])
  {
    queue := [];
    var rest := graph.Keys;
    while rest != {}
      invariant rest <= graph.Keys && Distinct(queue)
      invariant forall x :: x in queue <==> x in graph && x !in rest && ready(graph[x])
    {
      var name :| name in rest;
      if ready(graph[name]) {
        queue := queue + [name];
      }
      rest := rest - {name};
    }
  }

  lemma QueueHead(gs: seq<Mapping>, order: seq<string>, queue: seq<string>, graph: Graph)
    requires UniqueNames(gs) && Peeling(gs, order, queue, graph) && queue != []
    ensures queue[0] in graph && graph[queue[0]].data == Lookup(gs, queue[0])
    ensures forall p :: p in Members(graph[queue[0]].data) ==>
              p in graph && graph[p].indegree >= Times(Members(graph[queue[0]].data), p)
  {
    var name := queue[0];
    assert name in queue;
    forall p | p in Members(graph[name].data)
      ensures p in graph && graph[p].indegree >= Times(Members(graph[name].data), p)
    {
      MemberIsPending(gs, order, queue, graph, name, p);
    }
  }

  /** One round of the queue loop, apart from the write into the list. */
  method Dequeue(ghost gs: seq<Mapping>, ghost order: seq<string>, queue: seq<string>, graph: Graph)
    returns (g: Graph, q: seq<string>)
    requires UniqueNames(gs) && Peeling(gs, order, queue, graph) && queue != []
    ensures Peeling(gs, order + [queue[0]], q, g) && Distinct(order + [queue[0]])
    ensures queue[0] in graph && graph[queue[0]].data == Lookup(gs, queue[0]) && |g| < |graph|
  {
    hide Peeling, Released, UniqueNames, Times;
    var name := queue[0];
    QueueHead(gs, order, queue, graph);
    var proxies := match graph[name].data case None => [] case Some(m) => m.proxies;
    g, q := ReleaseMembers(graph, queue[1..], proxies);
    ReleasedKeys(graph, proxies, g, q[|queue| - 1..]);
    assert queue == [name] + queue[1..] && q == queue[1..] + q[|queue| - 1..];
    PeelStep(gs, order, queue[1..], name, graph, g, q[|queue| - 1..]);
    g := g - {name};
    assert g.Keys < graph.Keys;
    KeysShrink(g, graph);
  }

  lemma ReleasedKeys(graph: Graph, proxies: seq<string>, g: Graph, added: seq<string>)
    requires Released(graph, proxies, g, added)
    ensures g.Keys == graph.Keys
  {
  }

  lemma KeysShrink(g: Graph, h: Graph)
    requires g.Keys < h.Keys
    ensures |g| < |h|
  {
    var x :| x in h.Keys && x !in g.Keys;
    SubsetSize(g.Keys, h.Keys - {x});
    assert |g| == |g.Keys| && |h| == |h.Keys|;
  }

  lemma {:induction false} SubsetSize(s: set<string>, t: set<string>)
    requires s <= t
    ensures |s| <= |t|
  {
    if s != {} {
      var x :| x in s;
      SubsetSize(s - {x}, t - {x});
    }
  }

  /** Writing the next group just before what is already filled in. */
  method Place(a: array<Mapping>, index: nat, node: Option<Mapping>, ghost gs: seq<Mapping>, ghost order: seq<string>, ghost name: string)
    returns (i: nat)
    requires |gs| == a.Length && Distinct(order + [name]) && node == Lookup(gs, name)
    requires |Filled(gs, order)| == index <= a.Length
    requires a[..] == gs[..a.Length - index] + Filled(gs, order)
    modifies a
    ensures |Filled(gs, order + [name])| == i <= a.Length
    ensures a[..] == gs[..a.Length - i] + Filled(gs, order + [name])
  {
    assert (order + [name])[..|order|] == order;
    FilledFits(gs, order + [name]);
    i := index;
    if node.Some? {
      i := i + 1;
      a[a.Length - i] := node.value;
    }
  }

  lemma PeelingStart(gs: seq<Mapping>, built: Graph, queue: seq<string>)
    requires Built(gs, built) && Distinct(queue)
    requires forall x :: x in queue <==> x in built && built[x].indegree == 0
    ensures Peeling(gs, [], queue, built) && Filled(gs, []) == []
  {
    assert Elements<string>([]) == {};
  }

  method Topological(a: array<Mapping>, built: Graph) returns (graph: Graph, ghost order: seq<string>)
    requires UniqueNames(a[..]) && Built(a[..], built)
    modifies a
    ensures Peeling(old(a[..]), order, [], graph)
    ensures |Filled(old(a[..]), order)| <= a.Length
    ensures a[..] == old(a[..])[..a.Length - |Filled(old(a[..]), order)|] + Filled(old(a[..]), order)
  {
    hide *;
    ghost var gs := a[..];
    order, graph := [], built;
    var queue := Collect(graph, (n: Node) => n.indegree == 0);
    var index := 0;
    PeelingStart(gs, graph, queue);
    while queue != []
      invariant Peeling(gs, order, queue, graph)
      invariant |Filled(gs, order)| == index <= a.Length
      invariant a[..] == gs[..a.Length - index] + Filled(gs, order)
      decreases |graph|
    {
      var name, before := queue[0], graph;
      graph, queue := Dequeue(gs, order, queue, graph);
      index := Place(a, index, before[name].data, gs, order, name);
      order := order + [name];
    }
  }
}
