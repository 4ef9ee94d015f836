/** The load-balance strategies: jump consistent hashing and round robin. */
module LoadBalance {
  import opened Graphs

  const KEY_WRAP := 0x1_0000_0000_0000_0000
  const MULTIPLIER := 2862933555777941757
  const MAX_RETRY := 5

  type uint64 = x: int | 0 <= x < KEY_WRAP

  // ----- jump consistent hash -----

  function NextKey(key: uint64): uint64 {
    (key * MULTIPLIER + 1) % KEY_WRAP
  }

  /** The bucket count at which a key that sits in bucket b jumps next, with
      the quotient taken over the reals. */
  function NextJump(key: uint64, b: nat): (j: int)
    ensures j > b
  {
    StretchAtLeastOne(key);
    StretchedExceeds(b, Stretch(key));
    ((b + 1) as real * Stretch(key)).Floor
  }

  /** 2^31 over one more than the top 31 bits of the key. */
  function Stretch(key: uint64): real {
    2147483648.0 / ((key / 0x2_0000_0000 + 1) as real)
  }

  lemma StretchAtLeastOne(key: uint64)
    ensures Stretch(key) >= 1.0
  {
    var top := (key / 0x2_0000_0000 + 1) as real;
    assert 0.0 < top <= 2147483648.0;
    assert Stretch(key) * top == 2147483648.0;
  }

  lemma StretchedExceeds(b: nat, stretch: real)
    requires stretch >= 1.0
    ensures ((b + 1) as real * stretch).Floor > b
  {
    var x := (b + 1) as real;
    assert x * stretch - x == x * (stretch - 1.0) >= 0.0;
  }

  /** One more than the top 31 bits of a key. */
  function Top(key: uint64): (t: nat)
    ensures 1 <= t <= 0x8000_0000
  {
    key / 0x2_0000_0000 + 1
  }

  lemma StretchTimesTop(key: uint64)
    ensures Stretch(key) * (Top(key) as real) == 2147483648.0
  {
  }

  lemma Scaled(b: int, stretch: real, t: real)
    ensures (b as real * stretch) * t == b as real * (stretch * t)
  {
  }

  lemma LessTimes(x: real, y: real, t: real)
    requires t > 0.0
    ensures x <= y ==> x * t <= y * t
    ensures x < y ==> x * t < y * t
  {
  }

  /** The jump in integers: the next bucket count j is the quotient of
      (b + 1) * 2^31 by the top of the key. */
  lemma JumpIsQuotient(key: uint64, b: nat)
    ensures var j, t := NextJump(key, b), Top(key); j * t <= (b + 1) * 0x8000_0000 < (j + 1) * t
  {
    var j, t, x := NextJump(key, b), Top(key), (b + 1) as real * Stretch(key);
    StretchTimesTop(key);
    Scaled(b + 1, Stretch(key), t as real);
    assert x * (t as real) == (b + 1) as real * 2147483648.0;
    assert j as real <= x < (j + 1) as real;
    LessTimes(j as real, x, t as real);
    LessTimes(x, (j + 1) as real, t as real);
    RealProducts(j, t, b);
  }

  lemma RealProducts(j: int, t: int, b: int)
    requires j as real * (t as real) <= (b + 1) as real * 2147483648.0 < (j + 1) as real * (t as real)
    ensures j * t <= (b + 1) * 0x8000_0000 < (j + 1) * t
  {
    assert j as real * (t as real) == (j * t) as real;
    assert (j + 1) as real * (t as real) == ((j + 1) * t) as real;
    assert (b + 1) as real * 2147483648.0 == ((b + 1) * 0x8000_0000) as real;
  }

  /** A key in bucket b does not move while there are at most n buckets exactly
      when its top is at most (b + 1) / n of the range: the balance of the jump
      hash. */
  lemma StaysIff(key: uint64, b: nat, n: nat)
    ensures NextJump(key, b) >= n <==> Top(key) * n <= (b + 1) * 0x8000_0000
  {
    var j, t := NextJump(key, b), Top(key);
    JumpIsQuotient(key, b);
    if j >= n {
      MulAtMost(n, j, t);
    } else {
      MulAtMost(j + 1, n, t);
    }
  }

  lemma MulAtMost(a: int, b: int, t: int)
    requires a <= b && t >= 0
    ensures a * t <= b * t && t * a == a * t && t * b == b * t
  {
    assert b * t - a * t == (b - a) * t;
  }

  const INVERSE := 16133697096952638549

  /** The key step loses nothing: it has an inverse. */
  function PrevKey(key: uint64): uint64 {
    ((key + KEY_WRAP - 1) * INVERSE) % KEY_WRAP
  }

  lemma KeysAreNotLost(key: uint64)
    ensures NextKey(PrevKey(key)) == key
  {
    var a := (key + KEY_WRAP - 1) * INVERSE;
    var q := a / KEY_WRAP;
    assert PrevKey(key) == a - KEY_WRAP * q;
    assert INVERSE * MULTIPLIER == 2503948805982125087 * KEY_WRAP + 1;
    var c := (key + KEY_WRAP - 1) * 2503948805982125087 - q * MULTIPLIER + 1;
    assert PrevKey(key) * MULTIPLIER + 1 == KEY_WRAP * c + key;
    WrapsTo(key, c);
  }

  lemma WrapsTo(key: uint64, c: int)
    ensures (KEY_WRAP * c + key) % KEY_WRAP == key
  {
  }

  /** With two buckets the top bit of the first step decides, so exactly half of
      the keys go to each. */
  lemma TwoBuckets(key: uint64)
    ensures Landing(key, 0, 0, 2) == if Top(NextKey(key)) <= 0x4000_0000 then 0 else 1
  {
    var k := NextKey(key);
    StaysIff(k, 0, 2);
    var j := NextJump(k, 0);
    assert Landing(key, 0, 0, 2) == Landing(k, 0, j, 2);
    if j < 2 {
      var k2 := NextKey(k);
      assert j == 1 && NextJump(k2, 1) >= 2;
      assert Landing(k, 0, 1, 2) == Landing(k2, 1, NextJump(k2, 1), 2);
    }
  }

  /** Where a key ends up that sits in bucket b and jumps next at j. */
  function Landing(key: uint64, b: nat, j: nat, buckets: nat): (r: nat)
    ensures if j < buckets then j <= r < buckets else r == b
    decreases buckets - j
  {
    if j >= buckets then b
    else
      var k := NextKey(key);
      Landing(k, j, NextJump(k, j), buckets)
  }

  /** jumpHash. */
  method JumpHash(key0: uint64, buckets: nat) returns (r: nat)
    ensures r == Landing(key0, 0, 0, buckets)
  {
    var key, b, j: int := key0, 0, 0;
    while j < buckets
      invariant 0 <= b && 0 <= j
      invariant Landing(key, b, j, buckets) == Landing(key0, 0, 0, buckets)
      decreases buckets - j
    {
      b := j;
      key := NextKey(key);
      j := NextJump(key, b);
    }
    return b;
  }

  /** With more buckets a key stays where it was or goes to a new bucket. */
  lemma {:induction false} GrowingMovesToNewBuckets(key: uint64, b: nat, j: nat, n: nat, m: nat)
    requires n <= m && (j >= n ==> b < n)
    ensures Landing(key, b, j, m) == Landing(key, b, j, n) || Landing(key, b, j, m) >= n
    decreases n - j
  {
    if j < n {
      var k := NextKey(key);
      GrowingMovesToNewBuckets(k, j, NextJump(k, j), n, m);
    }
  }

  /** Appending one bucket moves a key only to that bucket. */
  lemma AppendingMovesOnlyToTheNewBucket(key: uint64, n: nat)
    requires n >= 1
    ensures Landing(key, 0, 0, n) < n
    ensures Landing(key, 0, 0, n + 1) == Landing(key, 0, 0, n) || Landing(key, 0, 0, n + 1) == n
  {
    GrowingMovesToNewBuckets(key, 0, 0, n, n + 1);
  }

  // ----- consistent hashing over proxies -----

  function Home(key: uint64, alive: seq<bool>): (r: nat)
    ensures alive != [] ==> r < |alive|
  {
    Landing(key, 0, 0, |alive|)
  }

  /** The key of the t-th attempt. */
  function Shifted(key: uint64, t: nat): uint64 {
    if t == 0 then key else (Shifted(key, t - 1) + 1) % KEY_WRAP
  }

  predicate Hit(key: uint64, alive: seq<bool>, t: nat)
    requires alive != []
  {
    alive[Home(Shifted(key, t), alive)]
  }

  ghost predicate FirstHit(key: uint64, alive: seq<bool>, t: nat)
    requires alive != []
  {
    t < MAX_RETRY && Hit(key, alive, t) && forall u :: 0 <= u < t ==> !Hit(key, alive, u)
  }

  /** r is the first alive position, 0 when there is none. */
  ghost predicate IsFirstAlive(alive: seq<bool>, r: nat)
    requires alive != []
  {
    if exists i :: 0 <= i < |alive| && alive[i] then r < |alive| && alive[r] && forall i :: 0 <= i < r ==> !alive[i] else r == 0
  }

  /** What strategyConsistentHashing promises: the home of the first attempt
      that meets a live proxy, else the first live proxy. */
  ghost predicate Selects(key: uint64, alive: seq<bool>, r: nat)
    requires alive != []
  {
    if exists t :: FirstHit(key, alive, t) then forall t :: FirstHit(key, alive, t) ==> r == Home(Shifted(key, t), alive)
    else IsFirstAlive(alive, r)
  }

  /** strategyConsistentHashing on the liveness of the proxies. */
  method ConsistentHashing(key0: uint64, alive: seq<bool>) returns (r: nat)
    requires alive != []
    ensures r < |alive| && Selects(key0, alive, r)
    ensures alive[r] <==> exists i :: 0 <= i < |alive| && alive[i]
    ensures alive[Home(key0, alive)] ==> r == Home(key0, alive)
  {
    hide Home;
    var key := key0;
    for i := 0 to MAX_RETRY
      invariant key == Shifted(key0, i)
      invariant forall u :: 0 <= u < i ==> !Hit(key0, alive, u)
    {
      var idx := JumpHash(key, |alive|);
      HomeIs(key, alive);
      if alive[idx] {
        assert Hit(key0, alive, i) && Hit(key0, alive, 0) == alive[Home(key0, alive)];
        assert FirstHit(key0, alive, i);
        return idx;
      }
      assert !Hit(key0, alive, i);
      key := (key + 1) % KEY_WRAP;
    }
    assert Hit(key0, alive, 0) == alive[Home(key0, alive)];
    for i := 0 to |alive|
      invariant forall k :: 0 <= k < i ==> !alive[k]
    {
      if alive[i] {
        return i;
      }
    }
    return 0;
  }

  lemma HomeIs(key: uint64, alive: seq<bool>)
    ensures Home(key, alive) == Landing(key, 0, 0, |alive|)
  {
  }

  lemma {:induction false} SomeHitIsFirst(key: uint64, alive: seq<bool>, t: nat)
    requires alive != [] && t < MAX_RETRY && Hit(key, alive, t)
    ensures exists u :: FirstHit(key, alive, u)
  {
    if u :| 0 <= u < t && Hit(key, alive, u) {
      SomeHitIsFirst(key, alive, u);
    } else {
      assert FirstHit(key, alive, t);
    }
  }

  /** An attempt either goes where it went before or to the new proxy. */
  lemma AttemptMoves(key: uint64, alive: seq<bool>, t: nat)
    requires alive != []
    ensures var more := alive + [true]; var k := Shifted(key, t);
            Home(k, more) == |alive| || (Home(k, more) == Home(k, alive) && Hit(key, more, t) == Hit(key, alive, t))
    ensures Home(Shifted(key, t), alive + [true]) == |alive| ==> Hit(key, alive + [true], t)
  {
    AppendingMovesOnlyToTheNewBucket(Shifted(key, t), |alive|);
  }

  /** Appending a live proxy, through all attempts and the scan: a connection
      goes to the new proxy, or it had a live proxy before and stays with it. */
  lemma AddedProxyTakesOnlyItsOwn(key: uint64, alive: seq<bool>, r: nat, q: nat)
    requires alive != [] && r < |alive| && Selects(key, alive, r) && Selects(key, alive + [true], q)
    ensures q == |alive| || (q == r && alive[r])
  {
    hide Home, Shifted, Hit;
    var more := alive + [true];
    forall t: nat ensures Home(Shifted(key, t), more) == |alive| ||
        (Home(Shifted(key, t), more) == Home(Shifted(key, t), alive) && Hit(key, more, t) == Hit(key, alive, t)) {
      AttemptMoves(key, alive, t);
    }
    if t: nat :| FirstHit(key, more, t) {
      if Home(Shifted(key, t), more) != |alive| {
        forall u | 0 <= u < t ensures !Hit(key, alive, u) { AttemptMoves(key, alive, u); }
        assert FirstHit(key, alive, t);
        HitIsAlive(key, alive, t);
      }
    } else {
      if t: nat :| FirstHit(key, alive, t) {
        AttemptMoves(key, alive, t);
        SomeHitIsFirst(key, more, t);
        assert false;
      }
      ScanStays(alive, r, q);
    }
  }

  lemma HitIsAlive(key: uint64, alive: seq<bool>, t: nat)
    requires alive != [] && Hit(key, alive, t)
    ensures alive[Home(Shifted(key, t), alive)]
  {
  }

  lemma ScanStays(alive: seq<bool>, r: nat, q: nat)
    requires alive != [] && r < |alive| && IsFirstAlive(alive, r) && IsFirstAlive(alive + [true], q)
    ensures q == |alive| || (q == r && alive[r])
  {
    var more := alive + [true];
    assert more[|alive|];
    assert forall i :: 0 <= i < |alive| ==> more[i] == alive[i];
  }

  // ----- round robin -----

  function Slot(tick: nat, n: nat): (r: nat)
    requires n > 0
    ensures r < n
  {
    tick % n
  }

  /** The alive positions met from tick a up to tick b, in order. */
  ghost function Met(alive: seq<bool>, a: nat, b: nat): seq<nat>
    requires alive != [] && a <= b
    decreases b - a
  {
    if a == b then []
    else (if alive[Slot(a, |alive|)] then [Slot(a, |alive|)] else []) + Met(alive, a + 1, b)
  }

  /** The alive positions in the order in which the cursor will serve them. */
  ghost function Turn(alive: seq<bool>, idx: nat): seq<nat>
    requires alive != []
  {
    Met(alive, idx, idx + |alive|)
  }

  class RoundRobin {
    var idx: nat

    constructor ()
      ensures idx == 0
    {
      idx := 0;
    }

    /** strategyRoundRobin: the first alive proxy from the cursor on. */
    method Pick(alive: seq<bool>, touch: bool) returns (r: nat)
      requires alive != []
      modifies this
      ensures r < |alive|
      ensures Turn(alive, old(idx)) != [] ==> r == Turn(alive, old(idx))[0]
      ensures Turn(alive, old(idx)) == [] ==> r == 0
      ensures !touch ==> idx == old(idx)
      ensures touch && Turn(alive, old(idx)) != [] ==> idx == Slot(r + 1, |alive|)
      ensures touch && Turn(alive, old(idx)) == [] ==> idx == Slot(old(idx), |alive|)
    {
      hide Slot;
      var length := |alive|;
      var i := 0;
      while i < length
        invariant i <= length && Turn(alive, idx) == Met(alive, idx + i, idx + length)
      {
        var id := Slot(idx + i, length);
        if alive[id] {
          i := i + 1;
          if touch {
            ModSuccessor(idx + i - 1, length);
            idx := Slot(idx + i, length);
          }
          return id;
        }
        i := i + 1;
      }
      if touch {
        ModAddsUp(idx, length);
        idx := Slot(idx + i, length);
      }
      return 0;
    }
  }

  lemma ModAddsUp(a: nat, n: nat)
    requires n > 0
    ensures Slot(a + n, n) == Slot(a, n)
  {
    DivModUnique(a + n, n, a / n + 1, a % n);
  }

  lemma ModSuccessor(a: nat, n: nat)
    requires n > 0
    ensures Slot(a + 1, n) == Slot(Slot(a, n) + 1, n)
  {
    if a % n + 1 == n {
      DivModUnique(a + 1, n, a / n + 1, 0);
      DivModUnique(n, n, 1, 0);
    } else {
      DivModUnique(a + 1, n, a / n, a % n + 1);
    }
  }

  lemma MulAtLeast(n: int, k: int)
    requires n > 0 && k >= 1
    ensures n * k >= n
  {
    assert n * k == n + n * (k - 1);
  }

  lemma DivModUnique(a: int, n: int, q: int, r: int)
    requires n > 0 && a == n * q + r && 0 <= r < n
    ensures a % n == r && a / n == q
  {
    var p := a / n;
    assert a == n * p + a % n && 0 <= a % n < n;
    if p < q {
      MulAtLeast(n, q - p);
    } else if q < p {
      MulAtLeast(n, p - q);
    }
  }

  lemma ModsDiffer(a: nat, t: nat, n: nat)
    requires n > 0 && a < t < a + n
    ensures Slot(a, n) != Slot(t, n)
  {
    if a % n == t % n {
      DivModUnique(t - a, n, t / n - a / n, 0);
      DivModUnique(t - a, n, 0, t - a);
    }
  }

  lemma {:induction false} MetSplit(alive: seq<bool>, a: nat, b: nat, c: nat)
    requires alive != [] && a <= b <= c
    ensures Met(alive, a, c) == Met(alive, a, b) + Met(alive, b, c)
    decreases b - a
  {
    if a < b {
      MetSplit(alive, a + 1, b, c);
    }
  }

  /** Only the remainder of the tick matters. */
  lemma {:induction false} MetShift(alive: seq<bool>, a: nat, b: nat, len: nat)
    requires alive != [] && Slot(a, |alive|) == Slot(b, |alive|)
    ensures Met(alive, a, a + len) == Met(alive, b, b + len)
    decreases len
  {
    if len > 0 {
      ModSuccessor(a, |alive|);
      ModSuccessor(b, |alive|);
      MetShift(alive, a + 1, b + 1, len - 1);
    }
  }

  lemma {:induction false} MetMembers(alive: seq<bool>, a: nat, b: nat, x: nat)
    requires alive != [] && a <= b
    ensures x in Met(alive, a, b) <==> x < |alive| && alive[x] && exists t :: a <= t < b && Slot(t, |alive|) == x
    decreases b - a
  {
    if a < b {
      MetMembers(alive, a + 1, b, x);
      var head := if alive[Slot(a, |alive|)] then [Slot(a, |alive|)] else [];
      assert Met(alive, a, b) == head + Met(alive, a + 1, b);
      if t :| a <= t < b && Slot(t, |alive|) == x {
        assert t == a || a + 1 <= t < b;
      }
    }
  }

  lemma {:induction false} MetDistinct(alive: seq<bool>, a: nat, b: nat)
    requires alive != [] && a <= b <= a + |alive|
    ensures Distinct(Met(alive, a, b))
    decreases b - a
  {
    if a < b {
      MetDistinct(alive, a + 1, b);
      MetMembers(alive, a + 1, b, Slot(a, |alive|));
      forall t | a + 1 <= t < b ensures Slot(t, |alive|) != Slot(a, |alive|) {
        ModsDiffer(a, t, |alive|);
      }
      DistinctConcat([Slot(a, |alive|)], Met(alive, a + 1, b));
      assert Distinct([Slot(a, |alive|)]);
    }
  }

  lemma TickFor(idx: nat, n: nat, x: nat) returns (t: nat)
    requires x < n
    ensures idx <= t < idx + n && Slot(t, n) == x
  {
    var q, r := idx / n, idx % n;
    if r <= x {
      t := n * q + x;
      DivModUnique(t, n, q, x);
    } else {
      t := n * (q + 1) + x;
      DivModUnique(t, n, q + 1, x);
    }
  }

  /** A turn lists every alive proxy once. */
  lemma TurnListsAlive(alive: seq<bool>, idx: nat, x: nat)
    requires alive != []
    ensures Distinct(Turn(alive, idx))
    ensures x in Turn(alive, idx) <==> x < |alive| && alive[x]
  {
    var n := |alive|;
    MetDistinct(alive, idx, idx + n);
    MetMembers(alive, idx, idx + n, x);
    if x < n {
      var t := TickFor(idx, n, x);
    }
  }

  lemma {:induction false} FirstMet(alive: seq<bool>, a: nat, b: nat) returns (c: nat)
    requires alive != [] && a <= b && Met(alive, a, b) != []
    ensures a <= c < b && Met(alive, a, c) == [] && alive[Slot(c, |alive|)]
    ensures Met(alive, a, b) == [Slot(c, |alive|)] + Met(alive, c + 1, b)
    decreases b - a
  {
    if alive[Slot(a, |alive|)] {
      c := a;
    } else {
      c := FirstMet(alive, a + 1, b);
    }
  }

  /** Serving the first of a turn moves it to the back. */
  lemma TurnRotates(alive: seq<bool>, idx: nat)
    requires alive != [] && Turn(alive, idx) != []
    ensures var t := Turn(alive, idx); Turn(alive, Slot(t[0] + 1, |alive|)) == t[1..] + [t[0]]
  {
    var n := |alive|;
    var c := FirstMet(alive, idx, idx + n);
    var r := Slot(c, n);
    ModSuccessor(c, n);
    ModSuccessor(r, n);
    DivModUnique(r, n, 0, r);
    var next := Slot(r + 1, n);
    DivModUnique(next, n, 0, next);
    MetShift(alive, next, c + 1, n);
    MetSplit(alive, c + 1, idx + n, c + 1 + n);
    ModAddsUp(idx, n);
    MetShift(alive, idx + n, idx, c + 1 - idx);
    MetSplit(alive, idx, c, c + 1);
    assert Met(alive, c, c + 1) == [r] + Met(alive, c + 1, c + 1);
  }

  /** The results of m touching calls in a row, as Pick defines them. */
  ghost function Picks(alive: seq<bool>, idx: nat, m: nat): seq<nat>
    requires alive != []
    decreases m
  {
    if m == 0 then []
    else
      var t := Turn(alive, idx);
      if t == [] then [0] + Picks(alive, Slot(idx, |alive|), m - 1)
      else [t[0]] + Picks(alive, Slot(t[0] + 1, |alive|), m - 1)
  }

  /** Touching calls in a row. */
  method PickMany(group: RoundRobin, alive: seq<bool>, m: nat) returns (picks: seq<nat>)
    requires alive != []
    modifies group
    ensures picks == Picks(alive, old(group.idx), m)
    ensures m == |Turn(alive, old(group.idx))| ==> Distinct(picks) && forall x: nat :: x in picks <==> x < |alive| && alive[x]
  {
    hide Turn, Slot, Picks, Distinct;
    picks := [];
    for i := 0 to m
      invariant Picks(alive, old(group.idx), m) == picks + Picks(alive, group.idx, m - i)
    {
      ghost var idx := group.idx;
      PicksUnfold(alive, idx, m - i);
      var r := group.Pick(alive, true);
      assert Picks(alive, idx, m - i) == [r] + Picks(alive, group.idx, m - i - 1);
      picks := picks + [r];
    }
    NoPicks(alive, group.idx);
    FairForEver(alive, old(group.idx));
  }

  lemma PicksUnfold(alive: seq<bool>, idx: nat, m: nat)
    requires alive != [] && m > 0
    ensures var t := Turn(alive, idx);
            Picks(alive, idx, m) == if t == [] then [0] + Picks(alive, Slot(idx, |alive|), m - 1)
                                    else [t[0]] + Picks(alive, Slot(t[0] + 1, |alive|), m - 1)
  {
    hide Turn, Slot;
  }

  lemma NoPicks(alive: seq<bool>, idx: nat)
    requires alive != []
    ensures Picks(alive, idx, 0) == []
  {
  }

  /** Consecutive touching calls serve the turn in order, so as many calls as
      there are alive proxies serve each of them exactly once. */
  lemma {:induction false} CallsServeTheTurn(alive: seq<bool>, idx: nat, m: nat)
    requires alive != [] && m <= |Turn(alive, idx)|
    ensures Picks(alive, idx, m) == Turn(alive, idx)[..m]
    decreases m
  {
    if m > 0 {
      var t := Turn(alive, idx);
      TurnRotates(alive, idx);
      var next := Slot(t[0] + 1, |alive|);
      CallsServeTheTurn(alive, next, m - 1);
      assert (t[1..] + [t[0]])[..m - 1] == t[1..m];
    }
  }

  /** After a full turn the order starts over. */
  lemma FairForEver(alive: seq<bool>, idx: nat)
    requires alive != []
    ensures Picks(alive, idx, |Turn(alive, idx)|) == Turn(alive, idx)
    ensures Distinct(Picks(alive, idx, |Turn(alive, idx)|))
    ensures forall x: nat :: x in Picks(alive, idx, |Turn(alive, idx)|) <==> x < |alive| && alive[x]
  {
    var t := Turn(alive, idx);
    CallsServeTheTurn(alive, idx, |t|);
    assert t[..|t|] == t;
    forall x: nat ensures x in t <==> x < |alive| && alive[x] {
      TurnListsAlive(alive, idx, x);
    }
    TurnListsAlive(alive, idx, 0);
  }
}
