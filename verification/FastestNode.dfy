/** The url-test group's choice of its fastest node, with 16-bit delays.  The
    group remembers a node, not what the node looked like: every evaluation
    reads the current status of every node, listed or not. */
module FastestNode {
  import opened Options

  const MAX_DELAY := 0xffff
  const WRAP := 0x1_0000

  type uint16 = x: int | 0 <= x < WRAP

  /** The state kept for the group's test URL: last verdict, last delay. */
  datatype UrlState = UrlState(alive: bool, delay: uint16)

  datatype Status = Status(name: string, alive: bool, state: Option<UrlState>)

  /** A node is an identity; the world gives its status at one evaluation. */
  type Node = nat

  type World = Node -> Status

  function AliveForTestUrl(s: Status): bool {
    if s.state.Some? then s.state.value.alive else s.alive
  }

  function LastDelay(s: Status): uint16 {
    if s.state.Some? && s.state.value.alive && s.state.value.delay != 0 then s.state.value.delay else MAX_DELAY
  }

  function Add16(a: uint16, b: uint16): uint16 {
    if a + b < WRAP then a + b else a + b - WRAP
  }

  /** i is the earliest position of the least current delay. */
  ghost predicate IsFirstFastest(w: World, proxies: seq<Node>, i: nat) {
    && i < |proxies|
    && (forall k :: 0 <= k < |proxies| ==> LastDelay(w(proxies[i])) <= LastDelay(w(proxies[k])))
    && (forall k :: 0 <= k < i ==> LastDelay(w(proxies[i])) < LastDelay(w(proxies[k])))
  }

  ghost predicate Named(w: World, proxies: seq<Node>, name: string, from: nat) {
    exists k :: from <= k < |proxies| && w(proxies[k]).name == name
  }

  predicate LivePin(w: World, n: Node, selected: string) {
    AliveForTestUrl(w(n)) && w(n).name == selected
  }

  /** i is the first live node with the pinned name. */
  ghost predicate IsPinned(w: World, proxies: seq<Node>, selected: string, i: nat) {
    && selected != "" && i < |proxies| && LivePin(w, proxies[i], selected)
    && forall k :: 0 <= k < i ==> !LivePin(w, proxies[k], selected)
  }

  ghost predicate HasPinned(w: World, proxies: seq<Node>, selected: string) {
    exists i: nat :: IsPinned(w, proxies, selected, i)
  }

  /** The previous node is kept: its name is listed beyond the head, it is live
      now, and its current delay is within the tolerance as the 16-bit sum sees
      it. */
  ghost predicate Keeps(w: World, proxies: seq<Node>, previous: Option<Node>, least: uint16, tolerance: uint16) {
    && previous.Some? && Named(w, proxies, w(previous.value).name, 1) && AliveForTestUrl(w(previous.value))
    && LastDelay(w(previous.value)) <= Add16(least, tolerance)
  }

  /** The choice without a live pinned node. */
  ghost predicate Chosen(w: World, proxies: seq<Node>, previous: Option<Node>, tolerance: uint16, r: Node) {
    exists i: nat :: IsFirstFastest(w, proxies, i) &&
      if Keeps(w, proxies, previous, LastDelay(w(proxies[i])), tolerance) then Some(r) == previous else r == proxies[i]
  }

  class URLTest {
    const tolerance: uint16
    var selected: string
    var fastNode: Option<Node>

    constructor (tolerance: uint16)
      ensures this.tolerance == tolerance && selected == "" && fastNode == None
    {
      this.tolerance, selected, fastNode := tolerance, "", None;
    }

    /** The function inside fast, on the group's current proxies. */
    method Fast(w: World, proxies: seq<Node>) returns (r: Node)
      requires proxies != []
      modifies this`fastNode
      ensures fastNode == Some(r)
      ensures forall i: nat :: IsPinned(w, proxies, selected, i) ==> r == proxies[i]
      ensures !HasPinned(w, proxies, selected) ==> Chosen(w, proxies, old(fastNode), tolerance, r)
    {
      if selected != "" {
        for i := 0 to |proxies|
          invariant fastNode == old(fastNode)
          invariant forall k :: 0 <= k < i ==> !LivePin(w, proxies[k], selected)
        {
          if LivePin(w, proxies[i], selected) {
            fastNode := Some(proxies[i]);
            assert IsPinned(w, proxies, selected, i);
            forall j: nat | IsPinned(w, proxies, selected, j) ensures j == i { PinnedUnique(w, proxies, selected, i, j); }
            return proxies[i];
          }
        }
      }
      var fast, minDelay, fastNotExist := proxies[0], LastDelay(w(proxies[0])), true;
      ghost var at := 0;
      for i := 1 to |proxies|
        invariant at < i && fast == proxies[at] && minDelay == LastDelay(w(fast)) && fastNode == old(fastNode)
        invariant IsFirstFastest(w, proxies[..i], at)
        invariant !fastNotExist <==> fastNode.Some? && Named(w, proxies[..i], w(fastNode.value).name, 1)
      {
        if fastNode.Some? && w(proxies[i]).name == w(fastNode.value).name {
          fastNotExist := false;
          assert w(proxies[..i + 1][i]).name == w(fastNode.value).name;
        }
        var delay := LastDelay(w(proxies[i]));
        if AliveForTestUrl(w(proxies[i])) && delay < minDelay {
          fast, minDelay := proxies[i], delay;
          at := i;
        }
        assert forall k :: 0 <= k < i ==> proxies[..i + 1][k] == proxies[..i][k];
      }
      assert proxies[..|proxies|] == proxies;
      if fastNode.None? || fastNotExist || !AliveForTestUrl(w(fastNode.value)) ||
         LastDelay(w(fastNode.value)) > Add16(LastDelay(w(fast)), tolerance) {
        fastNode := Some(fast);
      }
      return fastNode.value;
    }
  }

  lemma PinnedUnique(w: World, proxies: seq<Node>, selected: string, i: nat, j: nat)
    requires IsPinned(w, proxies, selected, i) && IsPinned(w, proxies, selected, j)
    ensures i == j
  {
    assert LivePin(w, proxies[i], selected) && LivePin(w, proxies[j], selected);
  }

  /** The fastest node is a function of the list and its current status. */
  lemma FirstFastestUnique(w: World, proxies: seq<Node>, i: nat, j: nat)
    requires IsFirstFastest(w, proxies, i) && IsFirstFastest(w, proxies, j)
    ensures i == j
  {
    assert LastDelay(w(proxies[i])) <= LastDelay(w(proxies[j])) && LastDelay(w(proxies[j])) <= LastDelay(w(proxies[i]));
  }

  /** In unbounded integers the current delay of the chosen node is within the
      tolerance of the least delay of any listed proxy, dead or alive. */
  lemma ChosenIsWithinTolerance(w: World, proxies: seq<Node>, previous: Option<Node>, tolerance: uint16, r: Node, k: nat)
    requires Chosen(w, proxies, previous, tolerance, r) && k < |proxies|
    ensures LastDelay(w(r)) <= LastDelay(w(proxies[k])) + tolerance
  {
    var i: nat :| IsFirstFastest(w, proxies, i) &&
      if Keeps(w, proxies, previous, LastDelay(w(proxies[i])), tolerance) then Some(r) == previous else r == proxies[i];
    assert Add16(LastDelay(w(proxies[i])), tolerance) <= LastDelay(w(proxies[i])) + tolerance;
  }

  /** While some listed node has answered the test URL in good time, the chosen
      node has too, and not much later: a dead node, or one without a measured
      delay for that URL, is never chosen over it. */
  lemma ChosenHasAnswered(w: World, proxies: seq<Node>, previous: Option<Node>, tolerance: uint16, r: Node, k: nat, delay: uint16)
    requires Chosen(w, proxies, previous, tolerance, r) && k < |proxies|
    requires w(proxies[k]).state == Some(UrlState(true, delay)) && 0 < delay && delay + tolerance < 0xffff
    ensures exists d: uint16 :: w(r).state == Some(UrlState(true, d)) && 0 < d <= delay + tolerance
  {
    ChosenIsWithinTolerance(w, proxies, previous, tolerance, r, k);
  }

  /** The fastest node when every listed node has answered. */
  lemma ChosenIsLeast(w: World, proxies: seq<Node>, r: Node, k: nat)
    requires Chosen(w, proxies, None, 0, r) && k < |proxies|
    requires forall i :: 0 <= i < |proxies| ==> w(proxies[i]).state.Some? && w(proxies[i]).state.value.alive && w(proxies[i]).state.value.delay > 0
    ensures r in proxies && w(r).state.Some? && w(r).state.value.delay <= w(proxies[k]).state.value.delay
  {
    ChosenIsWithinTolerance(w, proxies, None, 0, r, k);
  }

  /** The verdict for the test URL decides whether a node counts as live; the
      general one does only without it. */
  lemma PinObeysTestUrl(w: World, proxies: seq<Node>, selected: string, i: nat)
    requires IsPinned(w, proxies, selected, i)
    ensures w(proxies[i]).name == selected && (w(proxies[i]).state.Some? ==> w(proxies[i]).state.value.alive)
    ensures w(proxies[i]).state.None? ==> w(proxies[i]).alive
    ensures forall k :: 0 <= k < i && w(proxies[k]).name == selected ==>
              (if w(proxies[k]).state.Some? then !w(proxies[k]).state.value.alive else !w(proxies[k]).alive)
  {
    forall k | 0 <= k < i && w(proxies[k]).name == selected
      ensures if w(proxies[k]).state.Some? then !w(proxies[k]).state.value.alive else !w(proxies[k]).alive
    {
      assert !LivePin(w, proxies[k], selected);
    }
  }

  /** Exactly when the previous node is returned again: it is the first fastest
      itself; or its name is beyond the head, it is live and within the
      tolerance, and either the sum fits 16 bits or the node is still below
      what remains of it. */
  lemma ReturnedIff(w: World, proxies: seq<Node>, previous: Node, tolerance: uint16, r: Node, i: nat)
    requires Chosen(w, proxies, Some(previous), tolerance, r) && IsFirstFastest(w, proxies, i)
    ensures r == previous <==>
              var limit := LastDelay(w(proxies[i])) + tolerance;
              || proxies[i] == previous
              || (&& Named(w, proxies, w(previous).name, 1) && AliveForTestUrl(w(previous))
                  && LastDelay(w(previous)) <= limit && (limit < WRAP || LastDelay(w(previous)) <= limit - WRAP))
  {
    var j: nat :| IsFirstFastest(w, proxies, j) &&
      if Keeps(w, proxies, Some(previous), LastDelay(w(proxies[j])), tolerance) then r == previous else r == proxies[j];
    FirstFastestUnique(w, proxies, i, j);
  }

  /** A previous node that is listed beyond the head, live, and within the
      tolerance is returned again if and only if the 16-bit sum does not
      overflow or it is the first fastest anyway. */
  lemma StickyIffNoOverflow(w: World, proxies: seq<Node>, k: nat, tolerance: uint16, r: Node, i: nat)
    requires 1 <= k < |proxies| && Chosen(w, proxies, Some(proxies[k]), tolerance, r) && IsFirstFastest(w, proxies, i)
    requires AliveForTestUrl(w(proxies[k])) && LastDelay(w(proxies[k])) <= LastDelay(w(proxies[i])) + tolerance
    ensures r == proxies[k] <==> LastDelay(w(proxies[i])) + tolerance < WRAP || proxies[i] == proxies[k]
  {
    ReturnedIff(w, proxies, proxies[k], tolerance, r, i);
    assert Named(w, proxies, w(proxies[k]).name, 1);
  }

  /** The overflow costs a node its place although it is well within the
      tolerance. */
  lemma OverflowDropsNode(r: Node)
    ensures var w := (n: Node) => Status("n", true, Some(UrlState(true, if n == 0 then 60000 else 60001)));
            Chosen(w, [0, 1], Some(1), 10000, r) <==> r == 0
  {
    var w := (n: Node) => Status("n", true, Some(UrlState(true, if n == 0 then 60000 else 60001)));
    assert IsFirstFastest(w, [0, 1], 0);
    if Chosen(w, [0, 1], Some(1), 10000, r) {
      StickyIffNoOverflow(w, [0, 1], 1, 10000, r, 0);
      var j: nat :| IsFirstFastest(w, [0, 1], j) &&
        if Keeps(w, [0, 1], Some(1), LastDelay(w([0, 1][j])), 10000) then r == 1 else r == [0, 1][j];
      FirstFastestUnique(w, [0, 1], 0, j);
    }
  }
}
