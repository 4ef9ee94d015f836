/** What the member order of a group with several providers and filters means,
    independently of how the loops compute it. */
module GroupOrder {
  import opened GroupMembers

  /** What a provider offers before any reordering: everything it has if it
      needs no filter, else what some filter matches, in its own order. */
  ghost function Matching(filters: seq<Pattern>, list: seq<Proxy>): seq<Proxy> {
    if list == [] then []
    else
      var n := |list| - 1;
      Matching(filters, list[..n]) + if Rank(filters, list[n].name) < |filters| then [list[n]] else []
  }

  ghost function Offered(filters: seq<Pattern>, p: Provider): seq<Proxy> {
    if p.compatible then p.proxies else Matching(filters, p.proxies)
  }

  ghost function AllOffered(filters: seq<Pattern>, providers: seq<Provider>): seq<Proxy> {
    if providers == [] then []
    else
      var n := |providers| - 1;
      AllOffered(filters, providers[..n]) + Offered(filters, providers[n])
  }

  // ----- RankedBelow is a stable sort by rank -----

  lemma {:induction false} OfRankConcat(filters: seq<Pattern>, a: seq<Proxy>, b: seq<Proxy>, r: nat)
    ensures OfRank(filters, a + b, r) == OfRank(filters, a, r) + OfRank(filters, b, r)
  {
    if b == [] {
      assert a + b == a;
    } else {
      var n := |b| - 1;
      assert (a + b)[..|a + b| - 1] == a + b[..n];
      OfRankConcat(filters, a, b[..n], r);
    }
  }

  lemma {:induction false} OfRankOfRank(filters: seq<Pattern>, list: seq<Proxy>, k: nat, r: nat)
    ensures OfRank(filters, OfRank(filters, list, k), r) == if r == k then OfRank(filters, list, k) else []
  {
    if list != [] {
      var n := |list| - 1;
      OfRankOfRank(filters, list[..n], k, r);
      if Rank(filters, list[n].name) == k {
        OfRankStep(filters, OfRank(filters, list[..n], k), list[n], r);
      } else {
        assert OfRank(filters, list, k) == OfRank(filters, list[..n], k);
      }
    }
  }

  lemma NoneOfRank(filters: seq<Pattern>, r: nat)
    ensures OfRank(filters, [], r) == []
  {
  }

  /** Within a rank the order of the list is kept. */
  lemma {:induction false} RankedIsStable(filters: seq<Pattern>, list: seq<Proxy>, k: nat, r: nat)
    ensures OfRank(filters, RankedBelow(filters, list, k), r) == if r < k then OfRank(filters, list, r) else []
  {
    hide OfRank, Rank;
    if k == 0 {
      NoneOfRank(filters, r);
    } else {
      RankedIsStable(filters, list, k - 1, r);
      OfRankConcat(filters, RankedBelow(filters, list, k - 1), OfRank(filters, list, k - 1), r);
      OfRankOfRank(filters, list, k - 1, r);
    }
  }

  lemma {:induction false} OfRankRanks(filters: seq<Pattern>, list: seq<Proxy>, r: nat, i: nat)
    requires i < |OfRank(filters, list, r)|
    ensures Rank(filters, OfRank(filters, list, r)[i].name) == r
  {
    var n := |list| - 1;
    if i < |OfRank(filters, list[..n], r)| {
      OfRankRanks(filters, list[..n], r, i);
    }
  }

  /** Ranks never decrease along the result. */
  lemma {:induction false} RankedIsSorted(filters: seq<Pattern>, list: seq<Proxy>, k: nat, i: nat, j: nat)
    requires i <= j < |RankedBelow(filters, list, k)|
    ensures Rank(filters, RankedBelow(filters, list, k)[i].name) <= Rank(filters, RankedBelow(filters, list, k)[j].name) < k
  {
    var front := RankedBelow(filters, list, k - 1);
    if j >= |front| {
      OfRankRanks(filters, list, k - 1, j - |front|);
      if i < |front| {
        RankedIsSorted(filters, list, k - 1, i, i);
      } else {
        OfRankRanks(filters, list, k - 1, i - |front|);
      }
    } else {
      RankedIsSorted(filters, list, k - 1, i, j);
    }
  }

  lemma {:induction false} OfRankCounts(filters: seq<Pattern>, list: seq<Proxy>, r: nat, p: Proxy)
    ensures multiset(OfRank(filters, list, r))[p] == if Rank(filters, p.name) == r then multiset(list)[p] else 0
  {
    if list != [] {
      var n := |list| - 1;
      OfRankCounts(filters, list[..n], r, p);
      assert list == list[..n] + [list[n]];
    }
  }

  lemma {:induction false} RankedCounts(filters: seq<Pattern>, list: seq<Proxy>, k: nat, p: Proxy)
    ensures multiset(RankedBelow(filters, list, k))[p] == if Rank(filters, p.name) < k then multiset(list)[p] else 0
  {
    hide OfRank, RankFrom;
    if k > 0 {
      RankedCounts(filters, list, k - 1, p);
      OfRankCounts(filters, list, k - 1, p);
    }
  }

  /** Nothing is added or lost. */
  lemma RankedIsPermutation(filters: seq<Pattern>, list: seq<Proxy>)
    ensures multiset(RankedBelow(filters, list, |filters| + 1)) == multiset(list)
  {
    forall p ensures multiset(RankedBelow(filters, list, |filters| + 1))[p] == multiset(list)[p] {
      RankedCounts(filters, list, |filters| + 1, p);
    }
  }

  // ----- the prefilter inside each provider changes nothing -----

  /** Since a name decides its rank, both orders of thinning agree. */
  lemma {:induction false} FirstThenRank(filters: seq<Pattern>, list: seq<Proxy>, r: nat)
    ensures OfRank(filters, FirstPerName(list), r) == FirstPerName(OfRank(filters, list, r))
  {
    if list != [] {
      var n := |list| - 1;
      var front, p := list[..n], list[n];
      FirstThenRank(filters, front, r);
      if Rank(filters, p.name) == r {
        OfRankNames(filters, front, r, p.name);
        FirstPerNameStep(OfRank(filters, front, r), p);
      } else {
        assert OfRank(filters, list, r) == OfRank(filters, front, r);
      }
      if HasName(front, p.name) {
        assert FirstPerName(list) == FirstPerName(front);
      } else {
        OfRankStep(filters, FirstPerName(front), p, r);
      }
    }
  }

  lemma {:induction false} AbsorbRight(a: seq<Proxy>, b: seq<Proxy>)
    ensures FirstPerName(a + FirstPerName(b)) == FirstPerName(a + b)
  {
    if b == [] {
      assert FirstPerName(b) == [];
    } else {
      var n := |b| - 1;
      var front, p := b[..n], b[n];
      AbsorbRight(a, front);
      assert a + b == (a + front) + [p];
      FirstPerNameStep(a + front, p);
      HasNameConcat(a, front, p.name);
      HasNameConcat(a, FirstPerName(front), p.name);
      FirstPerNameNames(front, p.name);
      if HasName(front, p.name) {
        assert FirstPerName(b) == FirstPerName(front);
      } else {
        assert a + FirstPerName(b) == (a + FirstPerName(front)) + [p];
        FirstPerNameStep(a + FirstPerName(front), p);
      }
    }
  }

  lemma {:induction false} AbsorbLeft(a: seq<Proxy>, b: seq<Proxy>)
    ensures FirstPerName(FirstPerName(a) + b) == FirstPerName(a + b)
  {
    if b == [] {
      AbsorbRight([], a);
      assert [] + FirstPerName(a) == FirstPerName(a) + b && [] + a == a + b;
    } else {
      var n := |b| - 1;
      var front, p := b[..n], b[n];
      AbsorbLeft(a, front);
      assert a + b == (a + front) + [p] && FirstPerName(a) + b == (FirstPerName(a) + front) + [p];
      FirstPerNameStep(a + front, p);
      FirstPerNameStep(FirstPerName(a) + front, p);
      HasNameConcat(a, front, p.name);
      HasNameConcat(FirstPerName(a), front, p.name);
      FirstPerNameNames(a, p.name);
    }
  }

  lemma SameFirsts(a: seq<Proxy>, b: seq<Proxy>, c: seq<Proxy>, d: seq<Proxy>)
    requires FirstPerName(a) == FirstPerName(c) && FirstPerName(b) == FirstPerName(d)
    ensures FirstPerName(a + b) == FirstPerName(c + d)
  {
    AbsorbLeft(a, b);
    AbsorbRight(FirstPerName(a), b);
    AbsorbLeft(c, d);
    AbsorbRight(FirstPerName(c), d);
  }

  lemma {:induction false} MatchingOfRank(filters: seq<Pattern>, list: seq<Proxy>, r: nat)
    ensures OfRank(filters, Matching(filters, list), r) == if r < |filters| then OfRank(filters, list, r) else []
  {
    if list != [] {
      var n := |list| - 1;
      MatchingOfRank(filters, list[..n], r);
      if Rank(filters, list[n].name) < |filters| {
        OfRankStep(filters, Matching(filters, list[..n]), list[n], r);
      } else {
        assert Matching(filters, list) == Matching(filters, list[..n]);
        if r < |filters| { assert OfRank(filters, list, r) == OfRank(filters, list[..n], r); }
      }
    }
  }

  lemma ContributionFirsts(filters: seq<Pattern>, p: Provider, r: nat)
    requires filters != []
    ensures FirstPerName(OfRank(filters, Contribution(filters, p), r)) == FirstPerName(OfRank(filters, Offered(filters, p), r))
  {
    if !p.compatible {
      RankedIsStable(filters, FirstPerName(p.proxies), |filters|, r);
      MatchingOfRank(filters, p.proxies, r);
      FirstThenRank(filters, p.proxies, r);
      AbsorbLeft(OfRank(filters, p.proxies, r), []);
      assert FirstPerName(OfRank(filters, p.proxies, r)) + [] == FirstPerName(OfRank(filters, p.proxies, r));
      assert OfRank(filters, p.proxies, r) + [] == OfRank(filters, p.proxies, r);
    }
  }

  lemma {:induction false} GatheredFirsts(filters: seq<Pattern>, providers: seq<Provider>, r: nat)
    requires filters != []
    ensures FirstPerName(OfRank(filters, Gathered(filters, providers), r)) == FirstPerName(OfRank(filters, AllOffered(filters, providers), r))
  {
    if providers != [] {
      var n := |providers| - 1;
      var front, last := providers[..n], providers[n];
      GatheredFirsts(filters, front, r);
      ContributionFirsts(filters, last, r);
      OfRankConcat(filters, Gathered(filters, front), Contribution(filters, last), r);
      OfRankConcat(filters, AllOffered(filters, front), Offered(filters, last), r);
      SameFirsts(OfRank(filters, Gathered(filters, front), r), OfRank(filters, Contribution(filters, last), r),
                 OfRank(filters, AllOffered(filters, front), r), OfRank(filters, Offered(filters, last), r));
    }
  }

  lemma {:induction false} RankedFromOffered(filters: seq<Pattern>, providers: seq<Provider>, k: nat)
    requires filters != []
    ensures RankedBelow(filters, FirstPerName(Gathered(filters, providers)), k) ==
            RankedBelow(filters, FirstPerName(AllOffered(filters, providers)), k)
  {
    hide OfRank, FirstPerName, Gathered, AllOffered;
    if k > 0 {
      RankedFromOffered(filters, providers, k - 1);
      GatheredFirsts(filters, providers, k - 1);
      FirstThenRank(filters, Gathered(filters, providers), k - 1);
      FirstThenRank(filters, AllOffered(filters, providers), k - 1);
    }
  }

  /** With several providers and several filters the order is: everything the
      providers offer, first entry per name, stably sorted by first matching
      filter, unmatched last. */
  lemma SeveralProvidersAndFilters(filters: seq<Pattern>, providers: seq<Provider>)
    requires |filters| > 1 && |providers| > 1
    ensures Ordered(filters, providers) == RankedBelow(filters, FirstPerName(AllOffered(filters, providers)), |filters| + 1)
    ensures multiset(Ordered(filters, providers)) == multiset(FirstPerName(AllOffered(filters, providers)))
  {
    RankedFromOffered(filters, providers, |filters| + 1);
    RankedIsPermutation(filters, FirstPerName(AllOffered(filters, providers)));
  }

  /** The exclusions keep exactly what neither list matches, in order. */
  lemma {:induction false} RemainingKeeps(c: Config, list: seq<Proxy>, p: Proxy)
    ensures multiset(Remaining(c, list))[p] == if Kept(c, p) then multiset(list)[p] else 0
  {
    if list != [] {
      var n := |list| - 1;
      RemainingKeeps(c, list[..n], p);
      assert list == list[..n] + [list[n]];
    }
  }

  /** FirstPerName keeps an entry exactly when no earlier one has its name. */
  lemma {:induction false} FirstPerNameIsFirst(list: seq<Proxy>, i: nat)
    requires i < |list| && !HasName(list[..i], list[i].name)
    ensures list[i] in FirstPerName(list)
    ensures forall p :: p in FirstPerName(list) && p.name == list[i].name ==> p == list[i]
  {
    var n := |list| - 1;
    var front := list[..n];
    if i < n {
      assert front[..i] == list[..i] && front[i] == list[i];
      FirstPerNameIsFirst(front, i);
      assert HasName(front, list[i].name);
    } else {
      FirstPerNameNames(front, list[i].name);
      forall p | p in FirstPerName(front) ensures p.name != list[i].name {
        assert HasName(FirstPerName(front), p.name);
      }
    }
  }
}
