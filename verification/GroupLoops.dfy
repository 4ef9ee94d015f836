/** The second half of proxyGroupsDagSort: when the sort is stuck, the names
    left over are peeled from the other side and what remains is reported. */
module GroupLoops {
  import opened Options
  import opened Graphs
  import opened GroupSort

  /** Reported: reachable from some cycle and able to reach some cycle. */
  ghost predicate Suspect(gs: seq<Mapping>, x: string) {
    ReachedFromCycle(GroupEdges(gs), x) && ReachesCycle(GroupEdges(gs), x)
  }

  // ----- what the stuck sort leaves behind -----

  lemma ResidueClosed(gs: seq<Mapping>, order: seq<string>, graph: Graph)
    requires UniqueNames(gs) && Peeling(gs, order, [], graph)
    ensures forall a, b :: (a, b) in GroupEdges(gs) && a in graph ==> b in graph
  {
    forall a, b | (a, b) in GroupEdges(gs) && a in graph ensures b in graph {
      EdgeIsMembership(gs, a, b);
      MemberIsPending(gs, order, [], graph, a, b);
    }
  }

  lemma ResidueKeepsPredecessor(gs: seq<Mapping>, order: seq<string>, graph: Graph)
    requires UniqueNames(gs) && Peeling(gs, order, [], graph)
    ensures KeepsPredecessor(GroupEdges(gs), graph.Keys)
  {
    var e, r := GroupEdges(gs), graph.Keys;
    forall y | y in r ensures HasPredecessorIn(e, r, y) {
      InDegreeZero(gs, Elements(order), y);
      var i :| 0 <= i < |gs| && gs[i].name !in Elements(order) && y in gs[i].proxies;
      NodesContain(gs, i);
      assert gs[i].name in r && (gs[i].name, y) in e;
    }
  }

  lemma CycleInNodes(gs: seq<Mapping>, c: seq<string>, x: string)
    requires Cycle(GroupEdges(gs), c) && x in c
    ensures x in Nodes(gs)
  {
    var i :| 0 <= i < |c| && c[i] == x;
    var k := if i == |c| - 1 then i - 1 else i;
    assert (c[k], c[k + 1]) in GroupEdges(gs);
    EdgeNodes(gs, c[k], c[k + 1]);
  }

  lemma CycleInResidue(gs: seq<Mapping>, order: seq<string>, graph: Graph, c: seq<string>)
    requires UniqueNames(gs) && Peeling(gs, order, [], graph) && Cycle(GroupEdges(gs), c)
    ensures forall x :: x in c ==> x in graph
  {
    CycleKeepsBoth(GroupEdges(gs), c);
    EliminationSparesPredecessorSets(GroupEdges(gs), order, Elements(c));
    forall x | x in c ensures x in graph {
      CycleInNodes(gs, c, x);
      assert x in Elements(c);
    }
  }

  /** The sort gets stuck on exactly the names that a cycle leads to. */
  lemma ResidueExact(gs: seq<Mapping>, order: seq<string>, graph: Graph, x: string)
    requires UniqueNames(gs) && Peeling(gs, order, [], graph)
    ensures x in graph <==> ReachedFromCycle(GroupEdges(gs), x)
  {
    var e := GroupEdges(gs);
    if x in graph {
      ResidueKeepsPredecessor(gs, order, graph);
      KeptPredecessorsReachedFromCycle(e, graph.Keys, x);
    }
    if ReachedFromCycle(e, x) {
      var c :| OnCycle(e, c) && Reaches(e, c, x);
      var loop :| Cycle(e, loop) && c in loop;
      CycleInResidue(gs, order, graph, loop);
      ResidueClosed(gs, order, graph);
      var p :| PathFromTo(e, p, c, x);
      ClosedUnderPaths(e, graph.Keys, p);
    }
  }

  // ----- step 2.1: outdegrees and back references -----

  ghost function Links(gs: seq<Mapping>, seen: set<string>, f: string, c: string): nat {
    if f in seen then Times(Members(Lookup(gs, f)), c) else 0
  }

  ghost predicate LinkedNode(n0: Node, n: Node, x: string, name: string, proxies: seq<string>) {
    && n.data == n0.data && n.indegree == n0.indegree
    && n.outdegree == n0.outdegree + (if x == name then |proxies| else 0)
    && forall f :: Times(n.from, f) == Times(n0.from, f) + if f == name then Times(proxies, x) else 0
  }

  ghost predicate LinkedBy(g0: Graph, name: string, proxies: seq<string>, g: Graph) {
    g.Keys == g0.Keys && forall x :: x in g ==> LinkedNode(g0[x], g[x], x, name, proxies)
  }

  lemma TimesAppend(s: seq<string>, y: string, x: string)
    ensures Times(s + [y], x) == Times(s, x) + if x == y then 1 else 0
  {
    assert (s + [y])[..|s|] == s;
  }

  method LinkMembers(g0: Graph, name: string, proxies: seq<string>) returns (g: Graph)
    requires name in g0 && forall p :: p in proxies ==> p in g0
    ensures LinkedBy(g0, name, proxies, g)
  {
    g := g0;
    forall x | x in g ensures LinkedNode(g0[x], g[x], x, name, proxies[..0]) {
      assert Times(proxies[..0], x) == 0;
    }
    for j := 0 to |proxies|
      invariant LinkedBy(g0, name, proxies[..j], g)
    {
      var p := proxies[j];
      ghost var before := g;
      g := g[name := g[name].(outdegree := g[name].outdegree + 1)];
      g := g[p := g[p].(from := g[p].from + [name])];
      forall x | x in g ensures LinkedNode(g0[x], g[x], x, name, proxies[..j + 1]) {
        assert LinkedNode(g0[x], before[x], x, name, proxies[..j]);
        TimesStep(proxies, j, x);
        forall f ensures Times(g[x].from, f) == Times(g0[x].from, f) + if f == name then Times(proxies[..j + 1], x) else 0 {
          TimesAppend(before[x].from, name, f);
        }
      }
    }
    assert proxies[..|proxies|] == proxies;
  }

  ghost predicate LinkedFrom(gs: seq<Mapping>, seen: set<string>, n: Node, x: string) {
    && n.data == Lookup(gs, x)
    && n.outdegree == (if x in seen then |Members(Lookup(gs, x))| else 0)
    && forall f :: Times(n.from, f) == Links(gs, seen, f, x)
  }

  ghost predicate Linked(gs: seq<Mapping>, full: set<string>, seen: set<string>, g: Graph) {
    g.Keys == full && forall x :: x in g ==> LinkedFrom(gs, seen, g[x], x)
  }

  lemma LinkedStep(gs: seq<Mapping>, full: set<string>, seen: set<string>, g0: Graph, name: string, g: Graph)
    requires Linked(gs, full, seen, g0) && name !in seen && name in g0
    requires LinkedBy(g0, name, Members(g0[name].data), g)
    ensures Linked(gs, full, seen + {name}, g)
  {
    forall x | x in g ensures LinkedFrom(gs, seen + {name}, g[x], x) {
      assert LinkedFrom(gs, seen, g0[x], x) && LinkedFrom(gs, seen, g0[name], name);
      assert LinkedNode(g0[x], g[x], x, name, Members(g0[name].data));
    }
  }

  method FillLinks(ghost gs: seq<Mapping>, graph: Graph) returns (g: Graph)
    requires Linked(gs, graph.Keys, {}, graph)
    requires forall f, c :: f in graph && c in Members(Lookup(gs, f)) ==> c in graph
    ensures Linked(gs, graph.Keys, graph.Keys, g)
  {
    g := graph;
    var rest := graph.Keys;
    while rest != {}
      invariant rest <= graph.Keys
      invariant Linked(gs, graph.Keys, graph.Keys - rest, g)
    {
      var name :| name in rest;
      assert LinkedFrom(gs, graph.Keys - rest, g[name], name);
      var proxies := match g[name].data case None => [] case Some(m) => m.proxies;
      var g1 := LinkMembers(g, name, proxies);
      LinkedStep(gs, graph.Keys, graph.Keys - rest, g, name, g1);
      assert graph.Keys - rest + {name} == graph.Keys - (rest - {name});
      g := g1;
      rest := rest - {name};
    }
    assert graph.Keys - {} == graph.Keys;
  }

  // ----- step 2.2: peel the names that lead to no cycle -----

  ghost function CountIn(s: seq<string>, r: set<string>): nat {
    if s == [] then 0 else CountIn(s[..|s| - 1], r) + if s[|s| - 1] in r then 1 else 0
  }

  lemma {:induction false} CountInAll(s: seq<string>, r: set<string>)
    requires forall x :: x in s ==> x in r
    ensures CountIn(s, r) == |s|
  {
    if s != [] {
      CountInAll(s[..|s| - 1], r);
    }
  }

  lemma {:induction false} CountInStep(s: seq<string>, r: set<string>, x: string)
    requires x in r
    ensures CountIn(s, r) == CountIn(s, r - {x}) + Times(s, x)
  {
    if s != [] {
      CountInStep(s[..|s| - 1], r, x);
    }
  }

  lemma {:induction false} CountInZero(s: seq<string>, r: set<string>)
    ensures CountIn(s, r) == 0 <==> forall x :: x in s ==> x !in r
  {
    if s != [] {
      var n := |s| - 1;
      CountInZero(s[..n], r);
      assert s == s[..n] + [s[n]];
    }
  }

  ghost predicate Loosened(graph: Graph, from: seq<string>, g: Graph, added: seq<string>) {
    && g.Keys == graph.Keys
    && (forall x :: x in g ==> g[x] == graph[x].(outdegree := graph[x].outdegree - Times(from, x)))
    && Distinct(added)
    && forall x :: x in added <==> x in g && Times(from, x) > 0 && g[x].outdegree == 0
  }

  method LoosenParents(graph: Graph, queue: seq<string>, from: seq<string>)
    returns (g: Graph, q: seq<string>)
    requires forall f :: f in from ==> f in graph && graph[f].outdegree >= Times(from, f)
    ensures |queue| <= |q| && q[..|queue|] == queue && Loosened(graph, from, g, q[|queue|..])
  {
    g, q := graph, queue;
    ghost var added := [];
    for j := 0 to |from|
      invariant q == queue + added && Loosened(graph, from[..j], g, added)
    {
      var f := from[j];
      TimesPrefix(from, j, f);
      g := g[f := g[f].(outdegree := g[f].outdegree - 1)];
      assert f !in added;
      if g[f].outdegree == 0 {
        q := q + [f];
        added := added + [f];
      }
      forall x
        ensures x in g ==> g[x] == graph[x].(outdegree := graph[x].outdegree - Times(from[..j + 1], x))
        ensures x in added <==> x in g && Times(from[..j + 1], x) > 0 && g[x].outdegree == 0
      {
        TimesStep(from, j, x);
      }
    }
    assert from[..|from|] == from;
    assert q[|queue|..] == added;
  }

  ghost predicate SuccessorsFirst(gs: seq<Mapping>, order: seq<string>) {
    forall i, b :: 0 <= i < |order| && (order[i], b) in GroupEdges(gs) ==> b in order[..i]
  }

  ghost predicate DrainNode(gs: seq<Mapping>, full: set<string>, left: set<string>, n: Node, x: string) {
    && n.data == Lookup(gs, x)
    && n.outdegree == CountIn(Members(Lookup(gs, x)), left)
    && forall f :: Times(n.from, f) == Links(gs, full, f, x)
  }

  ghost predicate Draining(gs: seq<Mapping>, full: set<string>, order: seq<string>, queue: seq<string>, graph: Graph) {
    && Distinct(order) && Distinct(queue)
    && (forall x :: x in full <==> x in order || x in graph)
    && (forall x :: x in order ==> x !in graph)
    && (forall x :: x in graph ==> DrainNode(gs, full, graph.Keys, graph[x], x))
    && (forall x :: x in queue <==> x in graph && graph[x].outdegree == 0)
    && SuccessorsFirst(gs, order)
  }

  lemma ParentIsPending(gs: seq<Mapping>, full: set<string>, order: seq<string>, queue: seq<string>, graph: Graph, name: string, f: string)
    requires UniqueNames(gs) && Draining(gs, full, order, queue, graph)
    requires name in graph && f in graph[name].from
    ensures f in graph && graph[f].outdegree >= Times(graph[name].from, f)
  {
    assert DrainNode(gs, full, graph.Keys, graph[name], name);
    TimesPositive(graph[name].from, f);
    TimesPositive(Members(Lookup(gs, f)), name);
    EdgeIsMembership(gs, f, name);
    assert f in full && f !in order;
    assert DrainNode(gs, full, graph.Keys, graph[f], f);
    CountInStep(Members(Lookup(gs, f)), graph.Keys, name);
  }

  lemma DrainCounters(gs: seq<Mapping>, full: set<string>, left: set<string>, name: string, n0: Node, from: seq<string>, n: Node, x: string)
    requires name in left && x in full
    requires DrainNode(gs, full, left, n0, x)
    requires Times(from, x) == Links(gs, full, x, name)
    requires n == n0.(outdegree := n0.outdegree - Times(from, x))
    ensures DrainNode(gs, full, left - {name}, n, x)
  {
    CountInStep(Members(Lookup(gs, x)), left, name);
  }

  lemma SuccessorsFirstStep(gs: seq<Mapping>, full: set<string>, order: seq<string>, graph: Graph, name: string)
    requires UniqueNames(gs) && SuccessorsFirst(gs, order)
    requires forall x :: x in full <==> x in order || x in graph
    requires forall a, b :: (a, b) in GroupEdges(gs) && a in full ==> b in full
    requires name in graph && CountIn(Members(Lookup(gs, name)), graph.Keys) == 0
    ensures SuccessorsFirst(gs, order + [name])
  {
    CountInZero(Members(Lookup(gs, name)), graph.Keys);
    var next := order + [name];
    forall i, b | 0 <= i < |next| && (next[i], b) in GroupEdges(gs) ensures b in next[..i] {
      assert next[..i] == order[..i];
      if i == |order| {
        EdgeIsMembership(gs, name, b);
        assert order[..i] == order;
      }
    }
  }

  lemma DrainQueue(queue: seq<string>, name: string, graph: Graph, from: seq<string>, g: Graph, added: seq<string>)
    requires Distinct([name] + queue)
    requires forall x :: x in [name] + queue <==> x in graph && graph[x].outdegree == 0
    requires Loosened(graph, from, g, added) && forall x :: x in g ==> g[x].outdegree >= 0
    ensures Distinct(queue + added)
    ensures forall x :: x in queue + added <==> x in g - {name} && g[x].outdegree == 0
  {
    DistinctConcat([name], queue);
    DistinctConcat(queue, added);
    forall x ensures x in queue + added <==> x in g - {name} && g[x].outdegree == 0
             ensures x in queue ==> x !in added
    {
      assert x in [name] + queue <==> x == name || x in queue;
    }
  }

  lemma DrainStep(gs: seq<Mapping>, full: set<string>, order: seq<string>, queue: seq<string>, name: string, graph: Graph, g: Graph, added: seq<string>)
    requires UniqueNames(gs) && Draining(gs, full, order, [name] + queue, graph)
    requires forall a, b :: (a, b) in GroupEdges(gs) && a in full ==> b in full
    requires name in graph && Loosened(graph, graph[name].from, g, added)
    ensures Draining(gs, full, order + [name], queue + added, g - {name})
  {
    var ready := [name] + queue;
    assert name in ready && ready[0] == name;
    assert DrainNode(gs, full, graph.Keys, graph[name], name);
    forall x | x in graph ensures DrainNode(gs, full, graph.Keys - {name}, g[x], x) {
      assert DrainNode(gs, full, graph.Keys, graph[x], x);
      DrainCounters(gs, full, graph.Keys, name, graph[x], graph[name].from, g[x], x);
    }
    SuccessorsFirstStep(gs, full, order, graph, name);
    forall x | x in g ensures g[x].outdegree >= 0 {
      assert DrainNode(gs, full, graph.Keys - {name}, g[x], x);
    }
    DrainQueue(queue, name, graph, graph[name].from, g, added);
    assert (g - {name}).Keys == graph.Keys - {name};
  }

  lemma DrainHead(gs: seq<Mapping>, full: set<string>, order: seq<string>, queue: seq<string>, graph: Graph)
    requires UniqueNames(gs) && Draining(gs, full, order, queue, graph) && queue != []
    ensures queue[0] in graph
    ensures forall f :: f in graph[queue[0]].from ==>
              f in graph && graph[f].outdegree >= Times(graph[queue[0]].from, f)
  {
    assert queue[0] in queue;
    forall f | f in graph[queue[0]].from
      ensures f in graph && graph[f].outdegree >= Times(graph[queue[0]].from, f)
    {
      ParentIsPending(gs, full, order, queue, graph, queue[0], f);
    }
  }

  method DrainNext(ghost gs: seq<Mapping>, ghost full: set<string>, ghost order: seq<string>, queue: seq<string>, graph: Graph)
    returns (g: Graph, q: seq<string>)
    requires UniqueNames(gs) && Draining(gs, full, order, queue, graph) && queue != []
    requires forall a, b :: (a, b) in GroupEdges(gs) && a in full ==> b in full
    ensures Draining(gs, full, order + [queue[0]], q, g)
    ensures |g| < |graph|
  {
    hide *;
    var name := queue[0];
    DrainHead(gs, full, order, queue, graph);
    g, q := LoosenParents(graph, queue[1..], graph[name].from);
    LoosenedKeys(graph, graph[name].from, g, q[|queue| - 1..]);
    assert queue == [name] + queue[1..] && q == queue[1..] + q[|queue| - 1..];
    DrainStep(gs, full, order, queue[1..], name, graph, g, q[|queue| - 1..]);
    g := g - {name};
    assert g.Keys < graph.Keys;
    KeysShrink(g, graph);
  }

  lemma LoosenedKeys(graph: Graph, from: seq<string>, g: Graph, added: seq<string>)
    requires Loosened(graph, from, g, added)
    ensures g.Keys == graph.Keys
  {
  }

  lemma DrainStart(gs: seq<Mapping>, full: set<string>, graph: Graph, queue: seq<string>)
    requires UniqueNames(gs) && Linked(gs, full, full, graph) && Distinct(queue)
    requires forall a, b :: (a, b) in GroupEdges(gs) && a in full ==> b in full
    requires forall x :: x in queue <==> x in graph && graph[x].outdegree == 0
    ensures Draining(gs, full, [], queue, graph)
  {
    forall x | x in graph ensures DrainNode(gs, full, graph.Keys, graph[x], x) {
      assert LinkedFrom(gs, full, graph[x], x);
      var members := Members(Lookup(gs, x));
      forall y | y in members ensures y in full {
        EdgeIsMembership(gs, x, y);
      }
      CountInAll(members, full);
    }
  }

  lemma DrainedKeepsSuccessor(gs: seq<Mapping>, full: set<string>, order: seq<string>, graph: Graph)
    requires UniqueNames(gs) && Draining(gs, full, order, [], graph)
    ensures KeepsSuccessor(GroupEdges(gs), graph.Keys)
  {
    var e, r := GroupEdges(gs), graph.Keys;
    forall x | x in r ensures HasSuccessorIn(e, r, x) {
      assert DrainNode(gs, full, r, graph[x], x);
      CountInZero(Members(Lookup(gs, x)), r);
      var y :| y in Members(Lookup(gs, x)) && y in r;
      EdgeIsMembership(gs, x, y);
    }
  }

  /** What is left after both peels is exactly the suspect names. */
  lemma DrainedExact(gs: seq<Mapping>, full: set<string>, order: seq<string>, graph: Graph, x: string)
    requires UniqueNames(gs) && Draining(gs, full, order, [], graph)
    requires forall y :: y in full <==> ReachedFromCycle(GroupEdges(gs), y)
    requires forall a, b :: (a, b) in GroupEdges(gs) && a in full ==> b in full
    ensures x in graph <==> Suspect(gs, x)
  {
    var e := GroupEdges(gs);
    if x in graph {
      DrainedKeepsSuccessor(gs, full, order, graph);
      KeptSuccessorsReachCycle(e, graph.Keys, x);
    }
    if Suspect(gs, x) {
      var c :| OnCycle(e, c) && Reaches(e, x, c);
      var loop :| Cycle(e, loop) && c in loop;
      var p :| PathFromTo(e, p, x, c);
      PathToCycleKeepsSuccessor(e, p, loop);
      EliminationSparesSuccessorSets(e, order, Elements(p) + Elements(loop));
      assert x in Elements(p);
    }
  }

  lemma CycleIsSuspect(gs: seq<Mapping>, x: string)
    requires OnCycle(GroupEdges(gs), x)
    ensures Suspect(gs, x)
  {
    ReachesSelf(GroupEdges(gs), x);
  }

  /** The whole locating phase: exactly the suspect names, each once. */
  method LocateLoops(ghost gs: seq<Mapping>, ghost order: seq<string>, stuck: Graph) returns (elements: seq<string>)
    requires UniqueNames(gs) && Peeling(gs, order, [], stuck)
    ensures Distinct(elements)
    ensures forall x :: x in elements <==> Suspect(gs, x)
  {
    ghost var full := stuck.Keys;
    ResidueClosed(gs, order, stuck);
    forall f, c | f in stuck && c in Members(Lookup(gs, f)) ensures c in stuck {
      EdgeIsMembership(gs, f, c);
    }
    StuckIsUnlinked(gs, order, stuck);
    var graph := FillLinks(gs, stuck);
    var queue := Collect(graph, (n: Node) => n.outdegree == 0);
    DrainStart(gs, full, graph, queue);
    ghost var drained;
    graph, drained := Drain(gs, full, queue, graph);
    elements := Collect(graph, (n: Node) => true);
    forall x ensures x in elements <==> Suspect(gs, x) {
      forall y ensures y in full <==> ReachedFromCycle(GroupEdges(gs), y) {
        ResidueExact(gs, order, stuck, y);
      }
      DrainedExact(gs, full, drained, graph, x);
    }
  }

  lemma StuckIsUnlinked(gs: seq<Mapping>, order: seq<string>, stuck: Graph)
    requires Peeling(gs, order, [], stuck)
    ensures Linked(gs, stuck.Keys, {}, stuck)
  {
    forall x | x in stuck ensures LinkedFrom(gs, {}, stuck[x], x) {
      assert stuck[x].from == [];
    }
  }

  method Drain(ghost gs: seq<Mapping>, ghost full: set<string>, queue0: seq<string>, graph0: Graph)
    returns (graph: Graph, ghost order: seq<string>)
    requires UniqueNames(gs) && Draining(gs, full, [], queue0, graph0)
    requires forall a, b :: (a, b) in GroupEdges(gs) && a in full ==> b in full
    ensures Draining(gs, full, order, [], graph)
  {
    hide Draining;
    var queue := queue0;
    graph, order := graph0, [];
    while queue != []
      invariant Draining(gs, full, order, queue, graph)
      decreases |graph|
    {
      ghost var name := queue[0];
      graph, queue := DrainNext(gs, full, order, queue, graph);
      order := order + [name];
    }
  }

  lemma StuckMeansCycle(gs: seq<Mapping>, order: seq<string>, graph: Graph)
    requires UniqueNames(gs) && Peeling(gs, order, [], graph)
    ensures graph == map[] <==> Acyclic(GroupEdges(gs))
  {
    if graph == map[] {
      CompleteElimination(gs, order);
    } else {
      var x :| x in graph;
      ResidueExact(gs, order, graph, x);
      var c :| OnCycle(GroupEdges(gs), c) && Reaches(GroupEdges(gs), c, x);
      var loop :| Cycle(GroupEdges(gs), loop) && c in loop;
      assert !Acyclic(GroupEdges(gs));
    }
  }

  /** proxyGroupsDagSort. */
  method SortGroups(a: array<Mapping>) returns (r: Outcome)
    modifies a
    ensures r.Sorted? || r.LoopDetected? <==> WellFormed(old(a[..]))
    ensures r.DecodeFailed? || r.DuplicateName? ==> a[..] == old(a[..]) && Faulty(old(a[..]), r)
    ensures WellFormed(old(a[..])) ==> (r.Sorted? <==> Acyclic(GroupEdges(old(a[..]))))
    ensures r.Sorted? ==> multiset(a[..]) == multiset(old(a[..])) && MembersFirst(a[..])
    ensures r.LoopDetected? ==> Distinct(r.elements) && forall x :: x in r.elements <==> Suspect(old(a[..]), x)
    ensures r.LoopDetected? ==> r.elements != []
    ensures r.LoopDetected? ==> forall x :: OnCycle(GroupEdges(old(a[..])), x) ==> x in r.elements
  {
    ghost var gs := a[..];
    var graph, fault := BuildGraph(a[..]);
    if fault.Some? {
      FaultKinds(gs, fault.value);
      return fault.value;
    }
    ghost var order;
    graph, order := Topological(a, graph);
    StuckMeansCycle(gs, order, graph);
    if |graph| == 0 {
      CompleteElimination(gs, order);
      FullyWritten(gs, order);
      return Sorted;
    }
    var elements := LocateLoops(gs, order, graph);
    LoopReport(gs, elements);
    return LoopDetected(elements);
  }

  lemma FaultKinds(gs: seq<Mapping>, fault: Outcome)
    requires Faulty(gs, fault)
    ensures fault.DecodeFailed? || fault.DuplicateName?
  {
  }

  lemma FullyWritten(gs: seq<Mapping>, order: seq<string>)
    requires multiset(Filled(gs, order)) == multiset(gs)
    ensures |Filled(gs, order)| == |gs|
  {
    assert |multiset(Filled(gs, order))| == |multiset(gs)|;
  }

  lemma LoopReport(gs: seq<Mapping>, elements: seq<string>)
    requires !Acyclic(GroupEdges(gs))
    requires forall x :: x in elements <==> Suspect(gs, x)
    ensures elements != [] && forall x :: OnCycle(GroupEdges(gs), x) ==> x in elements
  {
    hide Suspect, GroupEdges;
    var e := GroupEdges(gs);
    var c :| Cycle(e, c);
    assert OnCycle(e, c[0]);
    forall x | OnCycle(e, x) ensures x in elements {
      CycleIsSuspect(gs, x);
    }
  }

  /** A loop, a bridge and a second loop. */
  ghost function BridgeExample(): seq<Mapping> {
    [Mapping("a", ["a", "b"], true, ""), Mapping("b", ["c"], true, ""), Mapping("c", ["c"], true, "")]
  }

  lemma BridgeEdges(x: string, y: string)
    ensures (x, y) in GroupEdges(BridgeExample()) <==>
            (x == "a" && (y == "a" || y == "b")) || (x == "b" && y == "c") || (x == "c" && y == "c")
  {
    var gs := BridgeExample();
    var e := GroupEdges(gs);
    assert gs[0].proxies == ["a", "b"] && gs[1].proxies == ["c"] && gs[2].proxies == ["c"];
    if (x, y) in e {
      var i, p :| 0 <= i < |gs| && p in gs[i].proxies && (gs[i].name, p) == (x, y);
      assert i == 0 || i == 1 || i == 2;
    }
    assert (gs[0].name, "a") in e && (gs[0].name, "b") in e && (gs[1].name, "c") in e && (gs[2].name, "c") in e;
  }

  lemma BridgeOffCycle(e: Edges<string>, p: seq<string>)
    requires forall y :: ("b", y) in e ==> y == "c"
    requires forall y :: ("c", y) in e ==> y == "c"
    requires Cycle(e, p)
    ensures "b" !in p
  {
    if i :| 0 <= i < |p| && p[i] == "b" {
      var k := if i == |p| - 1 then 0 else i;
      var tail := p[k + 1..];
      assert (p[k], p[k + 1]) in e && Path(e, tail);
      ClosedUnderPaths(e, {"c"}, tail);
      assert tail[|tail| - 1] in tail && p[0] == "c" && p[i] in p;
      ClosedUnderPaths(e, {"c"}, p);
      assert false;
    }
  }

  lemma BridgeSuspect(e: Edges<string>)
    requires ("a", "a") in e && ("a", "b") in e && ("b", "c") in e && ("c", "c") in e
    ensures ReachedFromCycle(e, "b") && ReachesCycle(e, "b")
  {
    assert Cycle(e, ["a", "a"]) && Cycle(e, ["c", "c"]);
    assert OnCycle(e, "a") && OnCycle(e, "c");
    assert PathFromTo(e, ["a", "b"], "a", "b") && PathFromTo(e, ["b", "c"], "b", "c");
  }

  /** A reported name need not lie on a loop: "b" only connects two. */
  lemma BridgeIsReported()
    ensures WellFormed(BridgeExample()) && Suspect(BridgeExample(), "b")
    ensures !OnCycle(GroupEdges(BridgeExample()), "b")
  {
    hide GroupEdges;
    var e := GroupEdges(BridgeExample());
    forall x, y {:trigger (x, y) in e} ensures (x, y) in e <==> (x == "a" && (y == "a" || y == "b")) || (x == "b" && y == "c") || (x == "c" && y == "c") {
      BridgeEdges(x, y);
    }
    BridgeSuspect(e);
    forall p | Cycle(e, p) ensures "b" !in p {
      BridgeOffCycle(e, p);
    }
  }
}
