/** GroupBase.GetProxies: the member list of a proxy group, gathered from its
    providers, reordered by its filters, thinned by its exclusions and cached
    by provider version. */
module GroupMembers {

  datatype Proxy = Proxy(name: string, kind: string, id: nat)

  datatype Provider = Provider(compatible: bool, proxies: seq<Proxy>)

  type Pattern = string -> bool

  datatype Config = Config(filters: seq<Pattern>, excludeFilters: seq<Pattern>, excludeTypes: seq<Pattern>, emptyFallback: Proxy)

  // ----- specification -----

  ghost predicate HasName(list: seq<Proxy>, name: string) {
    exists i :: 0 <= i < |list| && list[i].name == name
  }

  /** The first entry of each name, in order. */
  ghost function FirstPerName(list: seq<Proxy>): seq<Proxy> {
    if list == [] then []
    else
      var n := |list| - 1;
      FirstPerName(list[..n]) + if HasName(list[..n], list[n].name) then [] else [list[n]]
  }

  function RankFrom(filters: seq<Pattern>, name: string, k: nat): (r: nat)
    requires k <= |filters|
    ensures k <= r <= |filters|
    ensures r < |filters| ==> filters[r](name)
    ensures forall i :: k <= i < r ==> !filters[i](name)
    decreases |filters| - k
  {
    if k == |filters| || filters[k](name) then k else RankFrom(filters, name, k + 1)
  }

  /** The first filter that matches; |filters| when none does. */
  function Rank(filters: seq<Pattern>, name: string): (r: nat)
    ensures r <= |filters|
    ensures r < |filters| ==> filters[r](name)
    ensures forall i :: 0 <= i < r ==> !filters[i](name)
  {
    RankFrom(filters, name, 0)
  }

  /** The entries of one rank, in order. */
  ghost function OfRank(filters: seq<Pattern>, list: seq<Proxy>, r: nat): seq<Proxy> {
    if list == [] then []
    else
      var n := |list| - 1;
      OfRank(filters, list[..n], r) + if Rank(filters, list[n].name) == r then [list[n]] else []
  }

  /** The entries of ranks below k, rank by rank: a stable sort by rank. */
  ghost function RankedBelow(filters: seq<Pattern>, list: seq<Proxy>, k: nat): seq<Proxy> {
    if k == 0 then [] else RankedBelow(filters, list, k - 1) + OfRank(filters, list, k - 1)
  }

  /** What one provider contributes. */
  ghost function Contribution(filters: seq<Pattern>, p: Provider): seq<Proxy> {
    if filters == [] || p.compatible then p.proxies
    else RankedBelow(filters, FirstPerName(p.proxies), |filters|)
  }

  ghost function Gathered(filters: seq<Pattern>, providers: seq<Provider>): seq<Proxy> {
    if providers == [] then []
    else
      var n := |providers| - 1;
      Gathered(filters, providers[..n]) + Contribution(filters, providers[n])
  }

  ghost function Ordered(filters: seq<Pattern>, providers: seq<Provider>): seq<Proxy> {
    var all := Gathered(filters, providers);
    if |providers| > 1 && |filters| > 1 then RankedBelow(filters, FirstPerName(all), |filters| + 1) else all
  }

  predicate AnyMatch(patterns: seq<Pattern>, text: string) {
    exists i :: 0 <= i < |patterns| && patterns[i](text)
  }

  predicate Kept(c: Config, p: Proxy) {
    !AnyMatch(c.excludeFilters, p.name) && !AnyMatch(c.excludeTypes, p.kind)
  }

  ghost function Remaining(c: Config, list: seq<Proxy>): seq<Proxy> {
    if list == [] then []
    else
      var n := |list| - 1;
      Remaining(c, list[..n]) + if Kept(c, list[n]) then [list[n]] else []
  }

  ghost function Members(c: Config, providers: seq<Provider>): seq<Proxy> {
    Remaining(c, Ordered(c.filters, providers))
  }

  /** What a caller of GetProxies gets for given provider contents. */
  ghost function Listing(c: Config, providers: seq<Provider>): seq<Proxy> {
    if Members(c, providers) == [] then [c.emptyFallback] else Members(c, providers)
  }

  // ----- small facts about the specification -----

  lemma HasNameStep(list: seq<Proxy>, p: Proxy, name: string)
    ensures HasName(list + [p], name) <==> HasName(list, name) || p.name == name
  {
    var l := list + [p];
    assert l[|list|] == p;
    if HasName(list, name) {
      var i :| 0 <= i < |list| && list[i].name == name;
      assert l[i] == list[i];
    }
  }

  lemma {:induction false} HasNameConcat(a: seq<Proxy>, b: seq<Proxy>, name: string)
    ensures HasName(a + b, name) <==> HasName(a, name) || HasName(b, name)
  {
    if b == [] {
      assert a + b == a;
    } else {
      var n := |b| - 1;
      assert a + b == (a + b[..n]) + [b[n]] && b == b[..n] + [b[n]];
      HasNameConcat(a, b[..n], name);
      HasNameStep(a + b[..n], b[n], name);
      HasNameStep(b[..n], b[n], name);
    }
  }

  lemma FirstPerNameStep(list: seq<Proxy>, p: Proxy)
    ensures FirstPerName(list + [p]) == FirstPerName(list) + if HasName(list, p.name) then [] else [p]
  {
    assert (list + [p])[..|list|] == list;
  }

  lemma OfRankStep(filters: seq<Pattern>, list: seq<Proxy>, p: Proxy, r: nat)
    ensures OfRank(filters, list + [p], r) == OfRank(filters, list, r) + if Rank(filters, p.name) == r then [p] else []
  {
    assert (list + [p])[..|list|] == list;
  }

  lemma {:induction false} FirstPerNameNames(list: seq<Proxy>, name: string)
    ensures HasName(FirstPerName(list), name) <==> HasName(list, name)
  {
    if list != [] {
      var n := |list| - 1;
      FirstPerNameNames(list[..n], name);
      assert list == list[..n] + [list[n]];
      HasNameStep(list[..n], list[n], name);
      if !HasName(list[..n], list[n].name) {
        HasNameStep(FirstPerName(list[..n]), list[n], name);
      } else {
        assert FirstPerName(list) == FirstPerName(list[..n]);
      }
    }
  }

  lemma {:induction false} OfRankNames(filters: seq<Pattern>, list: seq<Proxy>, r: nat, name: string)
    ensures HasName(OfRank(filters, list, r), name) <==> HasName(list, name) && Rank(filters, name) == r
  {
    hide RankFrom;
    if list != [] {
      var n := |list| - 1;
      OfRankNames(filters, list[..n], r, name);
      assert list == list[..n] + [list[n]];
      HasNameStep(list[..n], list[n], name);
      if Rank(filters, list[n].name) == r {
        HasNameStep(OfRank(filters, list[..n], r), list[n], name);
      } else {
        assert OfRank(filters, list, r) == OfRank(filters, list[..n], r);
      }
    }
  }

  lemma {:induction false} RankedNames(filters: seq<Pattern>, list: seq<Proxy>, k: nat, name: string)
    ensures HasName(RankedBelow(filters, list, k), name) <==> HasName(list, name) && Rank(filters, name) < k
  {
    hide Rank, HasName, OfRank;
    if k == 0 {
      NoNames(name);
    } else {
      RankedNames(filters, list, k - 1, name);
      OfRankNames(filters, list, k - 1, name);
      HasNameConcat(RankedBelow(filters, list, k - 1), OfRank(filters, list, k - 1), name);
    }
  }

  lemma NoNames(name: string)
    ensures !HasName([], name)
  {
  }

  // ----- the filter loops -----

  /** The entries of a list that a pass takes: those that match and whose name
      is not taken yet. */
  ghost function Fresh(f: Pattern, list: seq<Proxy>, taken: seq<Proxy>): seq<Proxy> {
    if list == [] then []
    else
      var n := |list| - 1;
      var front := Fresh(f, list[..n], taken);
      front + if f(list[n].name) && !HasName(taken + front, list[n].name) then [list[n]] else []
  }

  ghost predicate NamesAre(seen: set<string>, list: seq<Proxy>) {
    forall x :: x in seen <==> HasName(list, x)
  }

  lemma NamesStep(seen: set<string>, list: seq<Proxy>, p: Proxy)
    requires NamesAre(seen, list)
    ensures NamesAre(seen + {p.name}, list + [p])
  {
    forall x ensures HasName(list + [p], x) <==> HasName(list, x) || p.name == x { HasNameStep(list, p, x); }
  }

  /** One filter over one reading of a list. */
  method Pass(f: Pattern, list: seq<Proxy>, new0: seq<Proxy>, seen0: set<string>)
    returns (newProxies: seq<Proxy>, seen: set<string>)
    requires NamesAre(seen0, new0)
    ensures newProxies == new0 + Fresh(f, list, new0) && NamesAre(seen, newProxies)
  {
    hide HasName;
    newProxies, seen := new0, seen0;
    for j := 0 to |list|
      invariant newProxies == new0 + Fresh(f, list[..j], new0) && NamesAre(seen, newProxies)
    {
      assert list[..j + 1][..j] == list[..j];
      if f(list[j].name) && list[j].name !in seen {
        NamesStep(seen, newProxies, list[j]);
        seen := seen + {list[j].name};
        newProxies := newProxies + [list[j]];
      }
    }
    assert list[..|list|] == list;
  }

  const Anything: Pattern := (name: string) => true

  function FilterAt(filters: seq<Pattern>, k: nat): Pattern {
    if k < |filters| then filters[k] else Anything
  }

  /** The new entry, if any, that position j adds at rank k. */
  lemma RowStep(filters: seq<Pattern>, list: seq<Proxy>, k: nat, j: nat)
    requires j < |list|
    ensures OfRank(filters, FirstPerName(list[..j + 1]), k) == OfRank(filters, FirstPerName(list[..j]), k) +
            if Rank(filters, list[j].name) == k && !HasName(list[..j], list[j].name) then [list[j]] else []
  {
    hide FirstPerName, OfRank, HasName, Rank;
    assert list[..j + 1] == list[..j] + [list[j]];
    FirstPerNameStep(list[..j], list[j]);
    if HasName(list[..j], list[j].name) {
      assert FirstPerName(list[..j + 1]) == FirstPerName(list[..j]);
    } else {
      OfRankStep(filters, FirstPerName(list[..j]), list[j], k);
    }
  }

  /** When the ranks below k are taken, pass k takes exactly rank k. */
  lemma {:induction false} FreshIsOfRank(filters: seq<Pattern>, list: seq<Proxy>, k: nat, taken: seq<Proxy>, j: nat)
    requires k <= |filters| && j <= |list| && forall x :: HasName(taken, x) <==> HasName(list, x) && Rank(filters, x) < k
    ensures Fresh(FilterAt(filters, k), list[..j], taken) == OfRank(filters, FirstPerName(list[..j]), k)
  {
    hide RankFrom, HasName;
    if j == 0 {
      assert list[..0] == [];
    } else {
      FreshIsOfRank(filters, list, k, taken, j - 1);
      var front, x := list[..j - 1], list[j - 1].name;
      assert list[..j][..j - 1] == front;
      RowStep(filters, list, k, j - 1);
      OfRankNames(filters, FirstPerName(front), k, x);
      FirstPerNameNames(front, x);
      HasNameConcat(taken, Fresh(FilterAt(filters, k), front, taken), x);
      Listed(list, j - 1);
    }
  }

  lemma Listed(list: seq<Proxy>, j: nat)
    requires j < |list|
    ensures HasName(list, list[j].name)
  {
  }

  lemma FreshPass(filters: seq<Pattern>, list: seq<Proxy>, k: nat)
    requires k <= |filters|
    ensures var taken := RankedBelow(filters, FirstPerName(list), k);
            taken + Fresh(FilterAt(filters, k), list, taken) == RankedBelow(filters, FirstPerName(list), k + 1)
  {
    hide HasName, Fresh, FirstPerName, OfRank, Rank;
    var taken := RankedBelow(filters, FirstPerName(list), k);
    forall x ensures HasName(taken, x) <==> HasName(list, x) && Rank(filters, x) < k {
      RankedNames(filters, FirstPerName(list), k, x);
      FirstPerNameNames(list, x);
    }
    FreshIsOfRank(filters, list, k, taken, |list|);
    assert list[..|list|] == list;
  }

  /** The reordering of the whole list. */
  method Reorder(filters: seq<Pattern>, list: seq<Proxy>) returns (newProxies: seq<Proxy>)
    ensures newProxies == RankedBelow(filters, FirstPerName(list), |filters| + 1)
  {
    hide Fresh;
    newProxies := [];
    var seen: set<string> := {};
    for k := 0 to |filters|
      invariant newProxies == RankedBelow(filters, FirstPerName(list), k) && NamesAre(seen, newProxies)
    {
      FreshPass(filters, list, k);
      newProxies, seen := Pass(filters[k], list, newProxies, seen);
    }
    FreshPass(filters, list, |filters|);
    newProxies, seen := Pass(Anything, list, newProxies, seen);
  }

  // ----- what one call sees of its providers -----

  /** A provider is read once, or once per filter if it needs filtering; it may
      be updated in between. */
  datatype View = View(compatible: bool, passes: seq<seq<Proxy>>)

  predicate ViewOk(filters: seq<Pattern>, v: View) {
    |v.passes| >= 1 && |v.passes| >= |filters|
  }

  /** What the first k filters take from the readings of one provider. */
  ghost function Passes(filters: seq<Pattern>, lists: seq<seq<Proxy>>, k: nat): seq<Proxy>
    requires k <= |filters| && k <= |lists|
  {
    if k == 0 then []
    else
      var taken := Passes(filters, lists, k - 1);
      taken + Fresh(filters[k - 1], lists[k - 1], taken)
  }

  ghost function SeenContribution(filters: seq<Pattern>, v: View): seq<Proxy>
    requires ViewOk(filters, v)
  {
    if filters == [] || v.compatible then v.passes[0] else Passes(filters, v.passes, |filters|)
  }

  ghost predicate ViewsOk(filters: seq<Pattern>, views: seq<View>) {
    forall i :: 0 <= i < |views| ==> ViewOk(filters, views[i])
  }

  ghost function SeenGathered(filters: seq<Pattern>, views: seq<View>): seq<Proxy>
    requires ViewsOk(filters, views)
  {
    if views == [] then []
    else
      var n := |views| - 1;
      SeenGathered(filters, views[..n]) + SeenContribution(filters, views[n])
  }

  ghost function SeenMembers(c: Config, views: seq<View>): seq<Proxy>
    requires ViewsOk(c.filters, views)
  {
    var all := SeenGathered(c.filters, views);
    Remaining(c, if |views| > 1 && |c.filters| > 1 then RankedBelow(c.filters, FirstPerName(all), |c.filters| + 1) else all)
  }

  ghost function SeenListing(c: Config, views: seq<View>): seq<Proxy>
    requires ViewsOk(c.filters, views)
  {
    if SeenMembers(c, views) == [] then [c.emptyFallback] else SeenMembers(c, views)
  }

  /** Nothing is invented: what is taken was in the reading of a filter that
      matches it. */
  lemma {:induction false} PassesAreRead(filters: seq<Pattern>, lists: seq<seq<Proxy>>, k: nat, p: Proxy)
    requires k <= |filters| && k <= |lists| && p in Passes(filters, lists, k)
    ensures exists j :: 0 <= j < k && p in lists[j] && filters[j](p.name)
  {
    var taken := Passes(filters, lists, k - 1);
    if p in taken {
      PassesAreRead(filters, lists, k - 1, p);
    } else {
      FreshIsRead(filters[k - 1], lists[k - 1], taken, p);
    }
  }

  lemma {:induction false} FreshIsRead(f: Pattern, list: seq<Proxy>, taken: seq<Proxy>, p: Proxy)
    requires p in Fresh(f, list, taken)
    ensures p in list && f(p.name)
  {
    var n := |list| - 1;
    if p in Fresh(f, list[..n], taken) {
      FreshIsRead(f, list[..n], taken, p);
    }
  }

  // ----- an undisturbed call -----

  /** Every reading of the view shows the same provider. */
  ghost predicate Shows(v: View, p: Provider) {
    v.compatible == p.compatible && forall k :: 0 <= k < |v.passes| ==> v.passes[k] == p.proxies
  }

  ghost predicate AllShow(views: seq<View>, providers: seq<Provider>) {
    |views| == |providers| && forall i :: 0 <= i < |views| ==> Shows(views[i], providers[i])
  }

  lemma {:induction false} SteadyPasses(filters: seq<Pattern>, v: View, p: Provider, k: nat)
    requires ViewOk(filters, v) && Shows(v, p) && k <= |filters|
    ensures Passes(filters, v.passes, k) == RankedBelow(filters, FirstPerName(p.proxies), k)
  {
    hide Fresh, RankedBelow, FirstPerName;
    if k == 0 {
      NothingRanked(filters, FirstPerName(p.proxies));
    } else {
      SteadyPasses(filters, v, p, k - 1);
      FreshPass(filters, p.proxies, k - 1);
    }
  }

  lemma NothingRanked(filters: seq<Pattern>, list: seq<Proxy>)
    ensures RankedBelow(filters, list, 0) == []
  {
  }

  lemma {:induction false} SteadyGathered(filters: seq<Pattern>, views: seq<View>, providers: seq<Provider>)
    requires ViewsOk(filters, views) && AllShow(views, providers)
    ensures SeenGathered(filters, views) == Gathered(filters, providers)
  {
    hide Passes, RankedBelow, FirstPerName;
    if views != [] {
      var n := |views| - 1;
      SteadyGathered(filters, views[..n], providers[..n]);
      SteadyPasses(filters, views[n], providers[n], |filters|);
    }
  }

  /** With no update during the call the list is the one specified for the
      contents of the providers. */
  lemma SteadyListing(c: Config, views: seq<View>, providers: seq<Provider>)
    requires ViewsOk(c.filters, views) && AllShow(views, providers)
    ensures SeenMembers(c, views) == Members(c, providers) && SeenListing(c, views) == Listing(c, providers)
  {
    SteadyGathered(c.filters, views, providers);
  }

  /** With an update between two filters the list may be that of no version: a
      provider that goes from a to b shows both. */
  lemma TornReading(c: Config, a: Proxy, b: Proxy)
    requires a.name != b.name && c.filters == [(x: string) => x == a.name, (x: string) => x == b.name]
    requires c.excludeFilters == [] && c.excludeTypes == []
    ensures SeenListing(c, [View(false, [[a], [b]])]) == [a, b]
    ensures Listing(c, [Provider(false, [a])]) == [a] && Listing(c, [Provider(false, [b])]) == [b]
  {
    hide Passes, SeenMembers, Members;
    OneReading(c, View(false, [[a], [b]]));
    OneReading(c, View(false, [[a], [a]]));
    OneReading(c, View(false, [[b], [b]]));
    TwoReadings(c.filters, a, b);
    TwoReadings(c.filters, a, a);
    TwoReadings(c.filters, b, b);
    SteadyListing(c, [View(false, [[a], [a]])], [Provider(false, [a])]);
    SteadyListing(c, [View(false, [[b], [b]])], [Provider(false, [b])]);
  }

  lemma OneReading(c: Config, v: View)
    requires |c.filters| == 2 && ViewOk(c.filters, v) && !v.compatible && c.excludeFilters == [] && c.excludeTypes == []
    ensures SeenMembers(c, [v]) == Passes(c.filters, v.passes, 2)
  {
    hide Passes;
    assert [v][..0] == [];
    assert SeenGathered(c.filters, []) == [];
    assert SeenGathered(c.filters, [v]) == Passes(c.filters, v.passes, 2);
    AllRemain(c, Passes(c.filters, v.passes, 2));
  }

  lemma {:induction false} AllRemain(c: Config, list: seq<Proxy>)
    requires c.excludeFilters == [] && c.excludeTypes == []
    ensures Remaining(c, list) == list
  {
    if list != [] {
      AllRemain(c, list[..|list| - 1]);
    }
  }

  lemma TwoReadings(filters: seq<Pattern>, p: Proxy, q: Proxy)
    requires |filters| == 2
    ensures Passes(filters, [[p], [q]], 2) ==
            (if filters[0](p.name) then [p] else []) +
            (if filters[1](q.name) && !(filters[0](p.name) && p.name == q.name) then [q] else [])
  {
    hide Fresh;
    var taken := if filters[0](p.name) then [p] else [];
    FreshOne(filters[0], p, []);
    FreshOne(filters[1], q, taken);
    assert Passes(filters, [[p], [q]], 0) == [];
    assert Passes(filters, [[p], [q]], 1) == taken;
    assert HasName(taken, q.name) <==> filters[0](p.name) && p.name == q.name by {
      if filters[0](p.name) && p.name == q.name { assert taken[0].name == q.name; }
    }
  }

  lemma FreshOne(f: Pattern, p: Proxy, taken: seq<Proxy>)
    ensures Fresh(f, [p], taken) == if f(p.name) && !HasName(taken, p.name) then [p] else []
  {
    assert [p][..0] == [];
    assert taken + [] == taken;
  }

  // ----- gathering, excluding, caching -----

  /** The filters over one provider, each with its own reading. */
  method FilterViews(filters: seq<Pattern>, lists: seq<seq<Proxy>>) returns (newProxies: seq<Proxy>)
    requires |filters| <= |lists|
    ensures newProxies == Passes(filters, lists, |filters|)
  {
    newProxies := [];
    var seen: set<string> := {};
    for k := 0 to |filters|
      invariant newProxies == Passes(filters, lists, k) && NamesAre(seen, newProxies)
    {
      newProxies, seen := Pass(filters[k], lists[k], newProxies, seen);
    }
  }

  method Gather(filters: seq<Pattern>, views: seq<View>) returns (proxies: seq<Proxy>)
    requires ViewsOk(filters, views)
    ensures proxies == SeenGathered(filters, views)
  {
    proxies := [];
    for i := 0 to |views|
      invariant proxies == SeenGathered(filters, views[..i])
    {
      assert views[..i + 1][..i] == views[..i];
      if |filters| == 0 || views[i].compatible {
        proxies := proxies + views[i].passes[0];
      } else {
        var newProxies := FilterViews(filters, views[i].passes);
        proxies := proxies + newProxies;
      }
    }
    assert views[..|views|] == views;
  }

  method Exclude(patterns: seq<Pattern>, list: seq<Proxy>, text: Proxy -> string) returns (out: seq<Proxy>)
    ensures out == Surviving(patterns, list, text)
  {
    out := [];
    for i := 0 to |list|
      invariant out == Surviving(patterns, list[..i], text)
    {
      var hit := false;
      for k := 0 to |patterns|
        invariant hit <==> exists m :: 0 <= m < k && patterns[m](text(list[i]))
      {
        if patterns[k](text(list[i])) {
          hit := true;
        }
      }
      if !hit {
        out := out + [list[i]];
      }
      assert list[..i + 1][..i] == list[..i];
    }
    assert list[..|list|] == list;
  }

  ghost function Surviving(patterns: seq<Pattern>, list: seq<Proxy>, text: Proxy -> string): seq<Proxy> {
    if list == [] then []
    else
      var n := |list| - 1;
      Surviving(patterns, list[..n], text) + if AnyMatch(patterns, text(list[n])) then [] else [list[n]]
  }

  function NameOf(p: Proxy): string { p.name }

  function KindOf(p: Proxy): string { p.kind }

  lemma {:induction false} TwoExclusions(c: Config, list: seq<Proxy>)
    ensures Surviving(c.excludeTypes, Surviving(c.excludeFilters, list, NameOf), KindOf) == Remaining(c, list)
  {
    if list != [] {
      var n := |list| - 1;
      TwoExclusions(c, list[..n]);
      if !AnyMatch(c.excludeFilters, NameOf(list[n])) {
        SurvivingStep(c.excludeTypes, Surviving(c.excludeFilters, list[..n], NameOf), list[n], KindOf);
      } else {
        assert Surviving(c.excludeFilters, list, NameOf) == Surviving(c.excludeFilters, list[..n], NameOf);
      }
    }
  }

  lemma SurvivingStep(patterns: seq<Pattern>, list: seq<Proxy>, p: Proxy, text: Proxy -> string)
    ensures Surviving(patterns, list + [p], text) == Surviving(patterns, list, text) + if AnyMatch(patterns, text(p)) then [] else [p]
  {
    assert (list + [p])[..|list|] == list;
  }

  method Build(c: Config, views: seq<View>) returns (proxies: seq<Proxy>)
    requires ViewsOk(c.filters, views)
    ensures proxies == SeenMembers(c, views)
  {
    proxies := Gather(c.filters, views);
    if |views| > 1 && |c.filters| > 1 {
      proxies := Reorder(c.filters, proxies);
    }
    ghost var ordered := proxies;
    if |c.excludeFilters| > 0 {
      proxies := Exclude(c.excludeFilters, proxies, NameOf);
    } else {
      NothingExcluded(proxies, NameOf);
    }
    if |c.excludeTypes| > 0 {
      proxies := Exclude(c.excludeTypes, proxies, KindOf);
    } else {
      NothingExcluded(proxies, KindOf);
    }
    TwoExclusions(c, ordered);
  }

  lemma NoProviders(c: Config)
    ensures SeenMembers(c, []) == []
  {
  }

  lemma {:induction false} NothingExcluded(list: seq<Proxy>, text: Proxy -> string)
    ensures Surviving([], list, text) == list
  {
    if list != [] {
      NothingExcluded(list[..|list| - 1], text);
    }
  }

  /** The contents of the providers at given versions. */
  ghost function ContentsAt(history: (nat, nat) -> Provider, versions: seq<nat>): seq<Provider> {
    seq(|versions|, i requires 0 <= i < |versions| => history(i, versions[i]))
  }

  /** The versions of the readings of one call, provider by provider. */
  type Readings = seq<seq<nat>>

  /** As many readings as the filters need, none older than the versions. */
  ghost predicate NotOlder(filters: seq<Pattern>, at: Readings, versions: seq<nat>) {
    && |at| == |versions|
    && (forall i :: 0 <= i < |at| ==> |at[i]| >= 1 && |at[i]| >= |filters|)
    && (forall i, k :: 0 <= i < |at| && 0 <= k < |at[i]| ==> versions[i] <= at[i][k])
  }

  ghost function ViewAt(history: (nat, nat) -> Provider, i: nat, at: seq<nat>): View
    requires at != []
  {
    View(history(i, at[0]).compatible, seq(|at|, k requires 0 <= k < |at| => history(i, at[k]).proxies))
  }

  ghost function ViewsAt(history: (nat, nat) -> Provider, at: Readings): seq<View>
    requires forall i :: 0 <= i < |at| ==> at[i] != []
  {
    seq(|at|, i requires 0 <= i < |at| => ViewAt(history, i, at[i]))
  }

  /** All readings of a provider are of one version. */
  ghost predicate Undisturbed(at: Readings, versions: seq<nat>) {
    |at| == |versions| && forall i, k :: 0 <= i < |at| && 0 <= k < |at[i]| ==> at[i][k] == versions[i]
  }

  /** What the readings of an undisturbed call come to. */
  lemma UndisturbedListing(c: Config, history: (nat, nat) -> Provider, at: Readings, versions: seq<nat>)
    requires NotOlder(c.filters, at, versions) && Undisturbed(at, versions)
    ensures SeenListing(c, ViewsAt(history, at)) == Listing(c, ContentsAt(history, versions))
  {
    forall i | 0 <= i < |at| ensures Shows(ViewsAt(history, at)[i], ContentsAt(history, versions)[i]) {
      assert at[i][0] == versions[i];
    }
    SteadyListing(c, ViewsAt(history, at), ContentsAt(history, versions));
  }

  class GroupBase {
    const config: Config
    /** history(i, v) is what provider i holds at version v. */
    ghost const history: (nat, nat) -> Provider
    var providerVersions: seq<nat>
    var providerProxies: seq<Proxy>
    ghost var cachedAt: Readings

    /** The cached list was built from contents no older than its versions. */
    ghost predicate Valid()
      reads this
    {
      if providerVersions == [] then providerProxies == []
      else
        && providerProxies != [] && NotOlder(config.filters, cachedAt, providerVersions)
        && providerProxies == SeenMembers(config, ViewsAt(history, cachedAt))
    }

    constructor (config: Config, ghost history: (nat, nat) -> Provider)
      ensures Valid() && this.config == config && this.history == history && providerVersions == []
    {
      this.config, this.history := config, history;
      providerVersions, providerProxies, cachedAt := [], [], [];
    }

    /** GetProxies: `versions` is read first, the contents are read later, when
        the providers may have moved on to the versions in `readAt`, reading by
        reading. */
    method GetProxies(versions: seq<nat>, views: seq<View>, ghost readAt: Readings)
      returns (proxies: seq<Proxy>, ghost builtAt: Readings)
      requires Valid() && NotOlder(config.filters, readAt, versions) && views == ViewsAt(history, readAt)
      modifies this
      ensures Valid()
      ensures versions != [] ==> proxies != [] && NotOlder(config.filters, builtAt, versions)
      ensures versions != [] ==> proxies == SeenListing(config, ViewsAt(history, builtAt))
      ensures versions != [] && versions != old(providerVersions) ==> builtAt == readAt
      ensures versions == [] ==> proxies == (if old(providerVersions) == [] then [] else [config.emptyFallback])
      ensures versions == [] || versions == old(providerVersions) || proxies == [config.emptyFallback] ||
              (providerVersions == versions && providerProxies == proxies)
    {
      hide SeenMembers;
      if versions == providerVersions {
        return providerProxies, cachedAt;
      }
      var list := Build(config, views);
      NoProviders(config);
      if |list| == 0 {
        return [config.emptyFallback], readAt;
      }
      providerVersions := versions;
      providerProxies := list;
      cachedAt := readAt;
      return list, readAt;
    }
  }
}
