/** The two other reference checks of the configuration: dialer-proxy chains
    and sub-rules. */
module ReferenceChecks {
  import opened Graphs

  // ----- shared facts about reaching a cycle -----

  /** A node reaches a cycle if and only if one of its successors does. */
  lemma ReachesCycleStep<T(!new)>(e: Edges<T>, a: T)
    ensures ReachesCycle(e, a) <==> exists b :: (a, b) in e && ReachesCycle(e, b)
  {
    if ReachesCycle(e, a) {
      var c :| OnCycle(e, c) && Reaches(e, a, c);
      var p :| PathFromTo(e, p, a, c);
      if |p| > 1 {
        assert PathFromTo(e, p[1..], p[1], c);
        assert (a, p[1]) in e && ReachesCycle(e, p[1]);
      } else {
        var loop :| Cycle(e, loop) && a in loop;
        var i :| 0 <= i < |loop| && loop[i] == a;
        var k := if i == |loop| - 1 then 0 else i;
        var b := loop[k + 1];
        ReachesSelf(e, b);
        assert (a, b) in e && OnCycle(e, b);
      }
    }
    if b :| (a, b) in e && ReachesCycle(e, b) {
      StepReachesCycle(e, a, b);
    }
  }

  lemma StepReaches<T(!new)>(e: Edges<T>, a: T, b: T, c: T)
    requires (a, b) in e && Reaches(e, b, c)
    ensures Reaches(e, a, c)
  {
    var p :| PathFromTo(e, p, b, c);
    assert PathFromTo(e, [a] + p, a, c);
  }

  lemma StepReachesCycle<T(!new)>(e: Edges<T>, a: T, b: T)
    requires (a, b) in e && ReachesCycle(e, b)
    ensures ReachesCycle(e, a)
  {
    var c :| OnCycle(e, c) && Reaches(e, b, c);
    StepReaches(e, a, b, c);
  }

  lemma AcyclicIffNoneReaches<T(!new)>(e: Edges<T>)
    ensures Acyclic(e) <==> forall a, b :: (a, b) in e ==> !ReachesCycle(e, a)
  {
    if !Acyclic(e) {
      var p :| Cycle(e, p);
      assert OnCycle(e, p[0]) && (p[0], p[1]) in e;
      ReachesSelf(e, p[0]);
      assert ReachesCycle(e, p[0]);
    }
  }

  /** A path that runs into itself closes a cycle through its last node. */
  lemma BackEdgeIsCycle<T(!new)>(e: Edges<T>, path: seq<T>, next: T)
    requires Path(e, path) && next in path && (path[|path| - 1], next) in e
    ensures exists k :: 0 <= k < |path| && Cycle(e, path[k..] + [next])
    ensures ReachesCycle(e, path[|path| - 1])
  {
    var k :| 0 <= k < |path| && path[k] == next;
    var loop := path[k..] + [next];
    assert Cycle(e, loop);
    var last := path[|path| - 1];
    assert loop[|loop| - 2] == last;
    ReachesSelf(e, last);
    assert OnCycle(e, last);
  }

  // ----- dialer-proxy -----

  datatype DialerVerdict = DialersOk | DialerMissing(name: string, dialer: string) | DialerLoop(name: string)

  ghost function DialerEdges(graph: map<string, string>): Edges<string> {
    set a | a in graph :: (a, graph[a])
  }

  lemma OneDialer(graph: map<string, string>, a: string)
    ensures a in graph ==> (ReachesCycle(DialerEdges(graph), a) <==> ReachesCycle(DialerEdges(graph), graph[a]))
    ensures a !in graph ==> !ReachesCycle(DialerEdges(graph), a)
  {
    ReachesCycleStep(DialerEdges(graph), a);
    if a in graph {
      assert forall b :: (a, b) in DialerEdges(graph) <==> b == graph[a];
    }
  }

  ghost function Names(graph: map<string, string>): set<string> {
    graph.Keys + set a | a in graph :: graph[a]
  }

  /** validateDialerProxiesHasCycle: a depth-first walk down one chain. */
  method HasCycle(current: string, graph: map<string, string>, visited0: set<string>, path: seq<string>)
    returns (found: bool, visited: set<string>)
    requires path != [] ==> Path(DialerEdges(graph), path + [current])
    requires forall v :: v in visited0 && v !in path ==> !ReachesCycle(DialerEdges(graph), v)
    requires current in Names(graph) && forall v :: v in path ==> v in visited0
    ensures found <==> ReachesCycle(DialerEdges(graph), current)
    decreases Names(graph) - visited0
  {
    visited := visited0;
    for i := 0 to |path|
      invariant forall k :: 0 <= k < i ==> path[k] != current
    {
      if path[i] == current {
        ClosedWalk(DialerEdges(graph), path, current);
        return true, visited;
      }
    }
    OneDialer(graph, current);
    if current in visited {
      return false, visited;
    }
    visited := visited + {current};
    if current in graph {
      var next := graph[current];
      assert (current, next) in DialerEdges(graph);
      ExtendWalk(DialerEdges(graph), path, current, next);
      found, visited := HasCycle(next, graph, visited, path + [current]);
    } else {
      found := false;
    }
  }

  lemma ClosedWalk(e: Edges<string>, path: seq<string>, current: string)
    requires current in path && Path(e, path + [current])
    ensures ReachesCycle(e, current)
  {
    var k :| 0 <= k < |path| && path[k] == current;
    var walk := path + [current];
    assert Cycle(e, walk[k..]);
    assert OnCycle(e, current);
    ReachesSelf(e, current);
  }

  lemma ExtendWalk(e: Edges<string>, path: seq<string>, current: string, next: string)
    requires path != [] ==> Path(e, path + [current])
    requires (current, next) in e
    ensures Path(e, path + [current] + [next])
  {
    var walk := path + [current];
    assert path == [] ==> walk == [current];
  }

  /** What validateDialerProxies accepts: every named dialer exists and the
      chains have no loop.  An empty name means no dialer. */
  ghost function DialerGraph(proxies: map<string, string>): map<string, string> {
    map name | name in proxies && proxies[name] != "" :: proxies[name]
  }

  method ValidateDialers(proxies: map<string, string>) returns (r: DialerVerdict)
    ensures r.DialersOk? <==>
              (forall name :: name in DialerGraph(proxies) ==> DialerGraph(proxies)[name] in proxies) &&
              Acyclic(DialerEdges(DialerGraph(proxies)))
    ensures r.DialerMissing? ==> r.name in proxies && proxies[r.name] == r.dialer != "" && r.dialer !in proxies
    ensures r.DialerLoop? ==> ReachesCycle(DialerEdges(DialerGraph(proxies)), r.name)
  {
    var graph: map<string, string> := map[];
    var rest := proxies.Keys;
    while rest != {}
      invariant rest <= proxies.Keys
      invariant forall name :: name in graph <==> name in proxies && name !in rest && proxies[name] != ""
      invariant forall name :: name in graph ==> graph[name] == proxies[name] && graph[name] in proxies
    {
      var name :| name in rest;
      var dialer := proxies[name];
      if dialer != "" {
        if dialer !in proxies {
          assert name in DialerGraph(proxies);
          return DialerMissing(name, dialer);
        }
        graph := graph[name := dialer];
      }
      rest := rest - {name};
    }
    assert graph == DialerGraph(proxies);
    r := CheckLoops(graph);
  }

  method CheckLoops(graph: map<string, string>) returns (r: DialerVerdict)
    ensures !r.DialerMissing?
    ensures r.DialersOk? <==> Acyclic(DialerEdges(graph))
    ensures r.DialerLoop? ==> ReachesCycle(DialerEdges(graph), r.name)
  {
    ghost var e := DialerEdges(graph);
    AcyclicIffNoneReaches(e);
    var rest := graph.Keys;
    while rest != {}
      invariant rest <= graph.Keys
      invariant forall name :: name in graph && name !in rest ==> !ReachesCycle(e, name)
    {
      var name :| name in rest;
      var found, _ := HasCycle(name, graph, {}, []);
      if found {
        assert (name, graph[name]) in e;
        return DialerLoop(name);
      }
      rest := rest - {name};
    }
    return DialersOk;
  }

  // ----- sub-rules -----

  datatype Rule = Rule(isSubRule: bool, adapter: string)

  type SubRules = map<string, seq<Rule>>

  datatype SubRuleVerdict =
    | SubRulesOk
    | SubRuleMissing(at: nat, name: string, adapter: string)
    | SubRuleLoop(walk: seq<string>)

  ghost function SubRuleEdges(rules: SubRules): Edges<string> {
    set a, r | a in rules && r in rules[a] && r.isSubRule :: (a, r.adapter)
  }

  lemma SubRuleEdge(rules: SubRules, a: string, i: nat)
    requires a in rules && i < |rules[a]| && rules[a][i].isSubRule
    ensures (a, rules[a][i].adapter) in SubRuleEdges(rules)
  {
  }

  /** Something is wrong below a name: a loop, or a name that is not defined. */
  ghost predicate Broken(rules: SubRules, a: string) {
    || ReachesCycle(SubRuleEdges(rules), a)
    || exists d :: d !in rules && Reaches(SubRuleEdges(rules), a, d)
  }

  lemma BrokenStep(rules: SubRules, a: string)
    requires a in rules
    ensures Broken(rules, a) <==> exists b :: (a, b) in SubRuleEdges(rules) && Broken(rules, b)
  {
    var e := SubRuleEdges(rules);
    ReachesCycleStep(e, a);
    if d :| d !in rules && Reaches(e, a, d) {
      var p :| PathFromTo(e, p, a, d);
      assert PathFromTo(e, p[1..], p[1], d);
      assert (a, p[1]) in e && Broken(rules, p[1]);
    }
    if b, d :| (a, b) in e && d !in rules && Reaches(e, b, d) {
      StepReaches(e, a, b, d);
    }
  }

  lemma UndefinedIsBroken(rules: SubRules, a: string)
    requires a !in rules
    ensures Broken(rules, a)
  {
    ReachesSelf(SubRuleEdges(rules), a);
  }

  /** No edge out of a leads to anything broken. */
  ghost predicate CleanUpTo(rules: SubRules, a: string, i: nat)
    requires a in rules && i <= |rules[a]|
  {
    forall k :: 0 <= k < i && rules[a][k].isSubRule ==> !Broken(rules, rules[a][k].adapter)
  }

  lemma AllCleanIsNotBroken(rules: SubRules, a: string)
    requires a in rules && CleanUpTo(rules, a, |rules[a]|)
    ensures !Broken(rules, a)
  {
    BrokenStep(rules, a);
    forall b | (a, b) in SubRuleEdges(rules) ensures !Broken(rules, b) {
      var r :| r in rules[a] && r.isSubRule && r.adapter == b;
    }
  }

  /** verifySubRuleCircularReferences: walk is the chain of names above n. */
  method VerifyFrom(n: string, rules: SubRules, walk: seq<string>) returns (r: SubRuleVerdict)
    requires n in rules && n !in walk && Distinct(walk) && forall x :: x in walk ==> x in rules
    requires Path(SubRuleEdges(rules), walk + [n])
    ensures r.SubRulesOk? <==> !Broken(rules, n)
    ensures r.SubRuleMissing? ==>
              r.name in rules && r.at < |rules[r.name]| && rules[r.name][r.at] == Rule(true, r.adapter) && r.adapter !in rules
    ensures r.SubRuleLoop? ==> exists k :: 0 <= k < |r.walk| && Cycle(SubRuleEdges(rules), r.walk[k..])
    decreases |rules.Keys| - |walk|
  {
    var arr := walk + [n];
    DistinctConcat(walk, [n]);
    DistinctFits(arr, rules.Keys);
    for i := 0 to |rules[n]|
      invariant CleanUpTo(rules, n, i)
    {
      var rule := rules[n][i];
      if rule.isSubRule {
        SubRuleEdge(rules, n, i);
        BrokenStep(rules, n);
        if rule.adapter !in rules {
          UndefinedIsBroken(rules, rule.adapter);
          return SubRuleMissing(i, n, rule.adapter);
        }
        if rule.adapter in arr {
          BackEdge(rules, arr, n, rule.adapter);
          return SubRuleLoop(arr + [rule.adapter]);
        }
        ExtendPath(SubRuleEdges(rules), arr, rule.adapter);
        var verdict := VerifyFrom(rule.adapter, rules, arr);
        if !verdict.SubRulesOk? {
          return verdict;
        }
      }
    }
    AllCleanIsNotBroken(rules, n);
    return SubRulesOk;
  }

  lemma ExtendPath(e: Edges<string>, p: seq<string>, x: string)
    requires Path(e, p) && (p[|p| - 1], x) in e
    ensures Path(e, p + [x])
  {
  }

  lemma BackEdge(rules: SubRules, arr: seq<string>, n: string, x: string)
    requires Path(SubRuleEdges(rules), arr) && arr[|arr| - 1] == n && x in arr && (n, x) in SubRuleEdges(rules)
    ensures Broken(rules, n)
    ensures exists k :: 0 <= k < |arr + [x]| && Cycle(SubRuleEdges(rules), (arr + [x])[k..])
  {
    BackEdgeIsCycle(SubRuleEdges(rules), arr, x);
    var k :| 0 <= k < |arr| && Cycle(SubRuleEdges(rules), arr[k..] + [x]);
    assert (arr + [x])[k..] == arr[k..] + [x];
  }

  /** verifySubRule accepts exactly the rule sets in which every reference is
      defined and no chain of references loops. */
  method VerifySubRules(rules: SubRules) returns (r: SubRuleVerdict)
    ensures r.SubRulesOk? <==>
              (forall a, b :: (a, b) in SubRuleEdges(rules) ==> b in rules) && Acyclic(SubRuleEdges(rules))
  {
    ghost var e := SubRuleEdges(rules);
    var rest := rules.Keys;
    while rest != {}
      invariant rest <= rules.Keys
      invariant forall n :: n in rules && n !in rest ==> !Broken(rules, n)
    {
      var n :| n in rest;
      r := VerifyFrom(n, rules, []);
      if !r.SubRulesOk? {
        BrokenMeansUnsound(rules, n);
        return;
      }
      rest := rest - {n};
    }
    UnbrokenMeansSound(rules);
    return SubRulesOk;
  }

  lemma UnbrokenMeansSound(rules: SubRules)
    requires forall n :: n in rules ==> !Broken(rules, n)
    ensures (forall a, b :: (a, b) in SubRuleEdges(rules) ==> b in rules) && Acyclic(SubRuleEdges(rules))
  {
    var e := SubRuleEdges(rules);
    AcyclicIffNoneReaches(e);
    forall a, b | (a, b) in e ensures b in rules {
      BrokenStep(rules, a);
      if b !in rules { UndefinedIsBroken(rules, b); }
    }
  }

  lemma BrokenMeansUnsound(rules: SubRules, n: string)
    requires n in rules && Broken(rules, n)
    ensures !((forall a, b :: (a, b) in SubRuleEdges(rules) ==> b in rules) && Acyclic(SubRuleEdges(rules)))
  {
    var e := SubRuleEdges(rules);
    AcyclicIffNoneReaches(e);
    if ReachesCycle(e, n) {
      ReachesCycleStep(e, n);
    } else {
      var d :| d !in rules && Reaches(e, n, d);
      var p :| PathFromTo(e, p, n, d);
      if forall a, b :: (a, b) in e ==> b in rules {
        ClosedUnderPaths(e, rules.Keys, p);
      }
    }
  }
}
