/** Finite directed graphs given as a set of edges: paths, cycles and the two
    facts every loop check of the program rests on.  A rank that grows along
    each edge rules cycles out, and a set in which every node keeps a
    successor (or a predecessor) forces one. */
module Graphs {

  type Edges<T(==)> = set<(T, T)>

  ghost predicate Path<T>(e: Edges<T>, p: seq<T>) {
    |p| >= 1 && forall i, j :: 0 <= i < |p| - 1 && j == i + 1 ==> (p[i], p[j]) in e
  }

  ghost predicate Cycle<T>(e: Edges<T>, p: seq<T>) {
    Path(e, p) && |p| >= 2 && p[0] == p[|p| - 1]
  }

  ghost predicate Acyclic<T(!new)>(e: Edges<T>) {
    forall p :: !Cycle(e, p)
  }

  ghost predicate PathFromTo<T>(e: Edges<T>, p: seq<T>, a: T, b: T) {
    Path(e, p) && p[0] == a && p[|p| - 1] == b
  }

  /** Reachable in zero or more steps. */
  ghost predicate Reaches<T(!new)>(e: Edges<T>, a: T, b: T) {
    exists p :: PathFromTo(e, p, a, b)
  }

  ghost predicate OnCycle<T(!new)>(e: Edges<T>, a: T) {
    exists p :: Cycle(e, p) && a in p
  }

  ghost predicate ReachesCycle<T(!new)>(e: Edges<T>, a: T) {
    exists c :: OnCycle(e, c) && Reaches(e, a, c)
  }

  ghost predicate ReachedFromCycle<T(!new)>(e: Edges<T>, a: T) {
    exists c :: OnCycle(e, c) && Reaches(e, c, a)
  }

  ghost predicate Distinct<T>(p: seq<T>) {
    forall i, j :: 0 <= i < j < |p| ==> p[i] != p[j]
  }

  ghost function Elements<T>(p: seq<T>): set<T> {
    set x | x in p
  }

  ghost predicate HasSuccessorIn<T(!new)>(e: Edges<T>, s: set<T>, x: T) {
    exists y :: y in s && (x, y) in e
  }

  ghost predicate HasPredecessorIn<T(!new)>(e: Edges<T>, s: set<T>, y: T) {
    exists x :: x in s && (x, y) in e
  }

  ghost predicate KeepsSuccessor<T(!new)>(e: Edges<T>, s: set<T>) {
    forall x {:trigger HasSuccessorIn(e, s, x)} :: x in s ==> HasSuccessorIn(e, s, x)
  }

  ghost predicate KeepsPredecessor<T(!new)>(e: Edges<T>, s: set<T>) {
    forall y {:trigger HasPredecessorIn(e, s, y)} :: y in s ==> HasPredecessorIn(e, s, y)
  }

  lemma {:induction false} DistinctFits<T>(p: seq<T>, s: set<T>)
    requires Distinct(p) && forall x :: x in p ==> x in s
    ensures |p| <= |s|
  {
    if p != [] {
      var q := p[1..];
      forall x | x in q ensures x in s - {p[0]} {
        var i :| 0 <= i < |q| && q[i] == x;
        assert p[i + 1] == x;
      }
      DistinctFits(q, s - {p[0]});
    }
  }

  lemma DistinctConcat<T>(p: seq<T>, q: seq<T>)
    ensures Distinct(p + q) <==> Distinct(p) && Distinct(q) && forall x :: x in p ==> x !in q
  {
    var r := p + q;
    if Distinct(r) {
      forall i, j | 0 <= i < j < |p| ensures p[i] != p[j] {
        assert r[i] == p[i] && r[j] == p[j];
      }
      forall i, j | 0 <= i < j < |q| ensures q[i] != q[j] {
        assert r[|p| + i] == q[i] && r[|p| + j] == q[j];
      }
      forall i, j | 0 <= i < |p| && 0 <= j < |q| ensures p[i] != q[j] {
        assert r[i] == p[i] && r[|p| + j] == q[j];
      }
    }
    if Distinct(p) && Distinct(q) && forall x :: x in p ==> x !in q {
      forall i, j | 0 <= i < j < |r| ensures r[i] != r[j] {
        assert i < |p| ==> r[i] in p;
        assert j >= |p| ==> r[j] == q[j - |p|];
        assert i >= |p| ==> r[i] == q[i - |p|];
      }
    }
  }

  lemma ReachesSelf<T(!new)>(e: Edges<T>, a: T)
    ensures Reaches(e, a, a)
  {
    assert PathFromTo(e, [a], a, a);
  }

  /** Following successors inside a finite set runs into a cycle. */
  lemma {:induction false} FollowSuccessors<T(!new)>(e: Edges<T>, s: set<T>, p: seq<T>)
    requires KeepsSuccessor(e, s)
    requires Path(e, p) && Distinct(p) && forall x :: x in p ==> x in s
    ensures ReachesCycle(e, p[0])
    decreases |s| - |p|
  {
    DistinctFits(p, s);
    var last := p[|p| - 1];
    assert HasSuccessorIn(e, s, last);
    var y :| y in s && (last, y) in e;
    if y in p {
      var k :| 0 <= k < |p| && p[k] == y;
      assert Cycle(e, p[k..] + [y]);
      assert OnCycle(e, y);
      assert PathFromTo(e, p[..k + 1], p[0], y);
    } else {
      var q := p + [y];
      DistinctFits(q, s);
      FollowSuccessors(e, s, q);
    }
  }

  lemma KeptSuccessorsReachCycle<T(!new)>(e: Edges<T>, s: set<T>, x: T)
    requires KeepsSuccessor(e, s) && x in s
    ensures ReachesCycle(e, x)
  {
    FollowSuccessors(e, s, [x]);
  }

  /** Following predecessors backwards does too. */
  lemma {:induction false} FollowPredecessors<T(!new)>(e: Edges<T>, s: set<T>, p: seq<T>)
    requires KeepsPredecessor(e, s)
    requires Path(e, p) && Distinct(p) && forall x :: x in p ==> x in s
    ensures ReachedFromCycle(e, p[|p| - 1])
    decreases |s| - |p|
  {
    DistinctFits(p, s);
    var last := p[|p| - 1];
    assert HasPredecessorIn(e, s, p[0]);
    var x :| x in s && (x, p[0]) in e;
    if x in p {
      var k :| 0 <= k < |p| && p[k] == x;
      assert Cycle(e, [x] + p[..k + 1]);
      assert OnCycle(e, x);
      assert PathFromTo(e, p[k..], x, last);
    } else {
      var q := [x] + p;
      DistinctFits(q, s);
      FollowPredecessors(e, s, q);
      assert q[|q| - 1] == last;
    }
  }

  lemma KeptPredecessorsReachedFromCycle<T(!new)>(e: Edges<T>, s: set<T>, x: T)
    requires KeepsPredecessor(e, s) && x in s
    ensures ReachedFromCycle(e, x)
  {
    FollowPredecessors(e, s, [x]);
  }

  lemma CycleKeepsBoth<T(!new)>(e: Edges<T>, p: seq<T>)
    requires Cycle(e, p)
    ensures KeepsSuccessor(e, Elements(p)) && KeepsPredecessor(e, Elements(p))
  {
    var s := Elements(p);
    forall x | x in s ensures HasSuccessorIn(e, s, x) {
      var i :| 0 <= i < |p| && p[i] == x;
      var k := if i == |p| - 1 then 1 else i + 1;
      assert (p[k - 1], p[k]) in e && p[k] in s;
    }
    forall y | y in s ensures HasPredecessorIn(e, s, y) {
      var i :| 0 <= i < |p| && p[i] == y;
      var k := if i == 0 then |p| - 2 else i - 1;
      assert (p[k], p[k + 1]) in e && p[k] in s;
    }
  }

  /** A path that ends on a cycle keeps a successor for each of its nodes once
      the cycle is added. */
  lemma PathToCycleKeepsSuccessor<T(!new)>(e: Edges<T>, p: seq<T>, c: seq<T>)
    requires Path(e, p) && Cycle(e, c) && p[|p| - 1] in c
    ensures KeepsSuccessor(e, Elements(p) + Elements(c))
  {
    CycleKeepsBoth(e, c);
    var s := Elements(p) + Elements(c);
    forall x | x in s ensures HasSuccessorIn(e, s, x) {
      if x in Elements(c) {
        assert HasSuccessorIn(e, Elements(c), x);
        var y :| y in Elements(c) && (x, y) in e;
        assert y in s;
      } else {
        var i :| 0 <= i < |p| && p[i] == x;
        assert i < |p| - 1;
        assert (p[i], p[i + 1]) in e && p[i + 1] in s;
      }
    }
  }

  /** A set closed under successors holds everything reachable from it. */
  lemma {:induction false} ClosedUnderPaths<T(!new)>(e: Edges<T>, s: set<T>, p: seq<T>)
    requires forall a, b :: (a, b) in e && a in s ==> b in s
    requires Path(e, p) && p[0] in s
    ensures forall x :: x in p ==> x in s
  {
    if |p| > 1 {
      var q := p[..|p| - 1];
      ClosedUnderPaths(e, s, q);
      assert (p[|p| - 2], p[|p| - 1]) in e && q[|q| - 1] in s;
      forall x | x in p ensures x in s {
        var i :| 0 <= i < |p| && p[i] == x;
        if i < |q| { assert q[i] == x; }
      }
    }
  }

  /** What an elimination order may not touch: if every predecessor of an
      eliminated node was eliminated earlier, no set that keeps a predecessor
      for each of its members loses one. */
  lemma {:induction false} EliminationSparesPredecessorSets<T(!new)>(e: Edges<T>, order: seq<T>, s: set<T>)
    requires forall i, a :: 0 <= i < |order| && (a, order[i]) in e ==> a in order[..i]
    requires KeepsPredecessor(e, s)
    ensures forall x :: x in order ==> x !in s
  {
    if order != [] {
      var n := |order| - 1;
      var prefix := order[..n];
      forall i, a | 0 <= i < |prefix| && (a, prefix[i]) in e ensures a in prefix[..i] {
        assert prefix[..i] == order[..i];
      }
      EliminationSparesPredecessorSets(e, prefix, s);
      assert order[n] in s ==> HasPredecessorIn(e, s, order[n]);
      forall x | x in order ensures x !in s {
        var i :| 0 <= i < |order| && order[i] == x;
        if i < n { assert prefix[i] == x; }
      }
    }
  }

  lemma {:induction false} EliminationSparesSuccessorSets<T(!new)>(e: Edges<T>, order: seq<T>, s: set<T>)
    requires forall i, b :: 0 <= i < |order| && (order[i], b) in e && b in s ==> b in order[..i]
    requires KeepsSuccessor(e, s)
    ensures forall x :: x in order ==> x !in s
  {
    if order != [] {
      var n := |order| - 1;
      var prefix := order[..n];
      forall i, b | 0 <= i < |prefix| && (prefix[i], b) in e && b in s ensures b in prefix[..i] {
        assert prefix[..i] == order[..i];
      }
      EliminationSparesSuccessorSets(e, prefix, s);
      assert order[n] in s ==> HasSuccessorIn(e, s, order[n]);
      forall x | x in order ensures x !in s {
        var i :| 0 <= i < |order| && order[i] == x;
        if i < n { assert prefix[i] == x; }
      }
    }
  }
}
