/** tunnel.match: the first rule whose adapter qualifies, with rematch rounds,
    Pass skipping and unwrapping of nested groups. */
module RuleMatch {
  import opened Options
  import opened Graphs
  import ProxyBuild

  /** The part of a connection's metadata that matching looks at; rules may
      refine `rest` (a resolved address, a process name) as they are tried. */
  datatype Metadata = Metadata(udp: bool, specialRules: string, rematchName: string, rest: string)

  datatype Kind = Plain | Pass | Rematch

  datatype Tried = Tried(matched: bool, adapter: string, metadata: Metadata)

  /** The tables a match reads, and the calls it makes on rules and adapters;
      adapters are numbered, rules are named by position in their list. */
  datatype Env = Env(
    rules: seq<nat>, subRules: map<string, seq<nat>>, proxies: map<string, nat>,
    tryRule: (nat, Metadata) -> Tried,
    kind: nat -> Kind, name: nat -> string, supportUDP: nat -> bool,
    unwrap: (nat, Metadata) -> Option<nat>, rank: nat -> nat,
    update: (nat, Metadata) -> Option<Metadata>, rematchNames: set<string>)

  /** What an accepted configuration gives: unwrapping goes to adapters built
      earlier, and the names of Rematch adapters are finitely many. */
  ghost predicate EnvOk(env: Env) {
    && (forall p, m :: env.unwrap(p, m).Some? ==> env.rank(env.unwrap(p, m).value) < env.rank(p))
    && (forall p :: env.kind(p) == Rematch ==> env.name(p) in env.rematchNames)
  }

  datatype Result =
    | Routed(adapter: nat, rule: nat)
    | Stuck(adapter: nat, rule: nat)        // a Rematch adapter itself
    | Direct(direct: Option<nat>)           // no rule; DIRECT may be missing

  // ----- specification -----

  function GetRules(env: Env, m: Metadata): seq<nat> {
    if m.specialRules in env.subRules then env.subRules[m.specialRules] else env.rules
  }

  /** An adapter and everything it unwraps to. */
  ghost function Chain(env: Env, p: nat, m: Metadata): seq<nat>
    requires EnvOk(env)
    decreases env.rank(p)
  {
    [p] + match env.unwrap(p, m) case None => [] case Some(q) => Chain(env, q, m)
  }

  /** The first Pass or Rematch in the chain decides. */
  datatype WalkVerdict = NothingSpecial | HasPass | HasRematch(adapter: nat)

  ghost predicate WalkIs(env: Env, chain: seq<nat>, v: WalkVerdict) {
    match v
    case NothingSpecial => forall i :: 0 <= i < |chain| ==> env.kind(chain[i]) == Plain
    case HasPass => exists i :: 0 <= i < |chain| && env.kind(chain[i]) == Pass && forall j :: 0 <= j < i ==> env.kind(chain[j]) == Plain
    case HasRematch(p) =>
      exists i :: 0 <= i < |chain| && chain[i] == p && env.kind(p) == Rematch && forall j :: 0 <= j < i ==> env.kind(chain[j]) == Plain
  }

  /** The metadata rule i of a list is tried with. */
  function MetadataAt(env: Env, rules: seq<nat>, m: Metadata, i: nat): Metadata
    requires i <= |rules|
  {
    if i == 0 then m else env.tryRule(rules[i - 1], MetadataAt(env, rules, m, i - 1)).metadata
  }

  datatype RuleVerdict = Skipped | Taken(adapter: nat) | Again(adapter: nat)

  /** What rule i of a list comes to. */
  ghost predicate RuleIs(env: Env, rules: seq<nat>, m: Metadata, i: nat, v: RuleVerdict)
    requires EnvOk(env) && i < |rules|
  {
    var tried := env.tryRule(rules[i], MetadataAt(env, rules, m, i));
    if !tried.matched || tried.adapter !in env.proxies then v == Skipped
    else
      var p := env.proxies[tried.adapter];
      var chain := Chain(env, p, tried.metadata);
      if WalkIs(env, chain, NothingSpecial) then
        v == if tried.metadata.udp && !env.supportUDP(p) then Skipped else Taken(p)
      else if WalkIs(env, chain, HasPass) then v == Skipped
      else v.Again? && WalkIs(env, chain, HasRematch(v.adapter))
  }

  /** Rule i is the first that is not skipped, and comes to v. */
  ghost predicate FirstIs(env: Env, m: Metadata, i: nat, v: RuleVerdict)
    requires EnvOk(env)
  {
    var rules := GetRules(env, m);
    && i < |rules| && v != Skipped && RuleIs(env, rules, m, i, v)
    && forall k :: 0 <= k < i ==> RuleIs(env, rules, m, k, Skipped)
  }

  ghost predicate NothingQualifies(env: Env, m: Metadata)
    requires EnvOk(env)
  {
    var rules := GetRules(env, m);
    forall k :: 0 <= k < |rules| ==> RuleIs(env, rules, m, k, Skipped)
  }

  function DirectOf(env: Env): Result {
    Direct(if "DIRECT" in env.proxies then Some(env.proxies["DIRECT"]) else None)
  }

  /** The rounds of one match: chain lists the Rematch names already used. */
  ghost predicate Matches(env: Env, m: Metadata, chain: seq<string>, r: Result)
    requires EnvOk(env) && Distinct(chain) && forall x :: x in chain ==> x in env.rematchNames
    decreases |env.rematchNames| - |chain|
  {
    DistinctFits(chain, env.rematchNames);
    || (NothingQualifies(env, m) && r == DirectOf(env))
    || (exists i: nat, p: nat :: FirstIs(env, m, i, Taken(p)) && r == Routed(p, GetRules(env, m)[i]))
    || (exists i: nat, p: nat :: FirstIs(env, m, i, Again(p)) && RematchGives(env, m, chain, i, p, r))
  }

  /** A Rematch adapter hit by rule i of this round. */
  ghost predicate RematchGives(env: Env, m: Metadata, chain: seq<string>, i: nat, p: nat, r: Result)
    requires EnvOk(env) && Distinct(chain) && (forall x :: x in chain ==> x in env.rematchNames) && |chain| <= |env.rematchNames|
    requires FirstIs(env, m, i, Again(p))
    decreases |env.rematchNames| - |chain|, 0
  {
    var rules := GetRules(env, m);
    var seen := MetadataAt(env, rules, m, i + 1);
    if env.name(p) in chain then r == Stuck(p, rules[i])
    else
      match env.update(p, seen)
      case None => r == Stuck(p, rules[i])
      case Some(next) =>
        AgainIsRematch(env, m, i, p);
        ChainGrows(env, chain, env.name(p));
        Matches(env, next, chain + [env.name(p)], r)
  }

  lemma AgainIsRematch(env: Env, m: Metadata, i: nat, p: nat)
    requires EnvOk(env) && FirstIs(env, m, i, Again(p))
    ensures env.kind(p) == Rematch && env.name(p) in env.rematchNames
  {
  }

  lemma ChainGrows(env: Env, chain: seq<string>, name: string)
    requires Distinct(chain) && (forall x :: x in chain ==> x in env.rematchNames)
    requires name !in chain && name in env.rematchNames
    ensures Distinct(chain + [name]) && (forall x :: x in chain + [name] ==> x in env.rematchNames)
    ensures |chain| + 1 <= |env.rematchNames|
  {
    DistinctConcat(chain, [name]);
    assert Distinct([name]);
    DistinctFits(chain + [name], env.rematchNames);
  }

  // ----- the specification determines the result -----

  lemma WalkUnique(env: Env, chain: seq<nat>, v: WalkVerdict, w: WalkVerdict)
    requires WalkIs(env, chain, v) && WalkIs(env, chain, w)
    ensures v == w
  {
    if v.HasRematch? && w.HasRematch? {
      var i :| 0 <= i < |chain| && chain[i] == v.adapter && env.kind(v.adapter) == Rematch && forall j :: 0 <= j < i ==> env.kind(chain[j]) == Plain;
      var k :| 0 <= k < |chain| && chain[k] == w.adapter && env.kind(w.adapter) == Rematch && forall j :: 0 <= j < k ==> env.kind(chain[j]) == Plain;
      assert i == k;
    }
  }

  lemma RuleUnique(env: Env, rules: seq<nat>, m: Metadata, i: nat, v: RuleVerdict, w: RuleVerdict)
    requires EnvOk(env) && i < |rules| && RuleIs(env, rules, m, i, v) && RuleIs(env, rules, m, i, w)
    ensures v == w
  {
    hide WalkIs, Chain;
    if v.Again? && w.Again? {
      var tried := env.tryRule(rules[i], MetadataAt(env, rules, m, i));
      WalkUnique(env, Chain(env, env.proxies[tried.adapter], tried.metadata), HasRematch(v.adapter), HasRematch(w.adapter));
    }
  }

  lemma FirstUnique(env: Env, m: Metadata, i: nat, v: RuleVerdict, j: nat, w: RuleVerdict)
    requires EnvOk(env) && FirstIs(env, m, i, v) && FirstIs(env, m, j, w)
    ensures i == j && v == w
  {
    hide RuleIs;
    var rules := GetRules(env, m);
    if i < j {
      RuleUnique(env, rules, m, i, v, Skipped);
    } else if j < i {
      RuleUnique(env, rules, m, j, w, Skipped);
    } else {
      RuleUnique(env, rules, m, i, v, w);
    }
  }

  lemma NothingIsNotFirst(env: Env, m: Metadata, i: nat, v: RuleVerdict)
    requires EnvOk(env) && NothingQualifies(env, m)
    ensures !FirstIs(env, m, i, v)
  {
    hide RuleIs;
    if FirstIs(env, m, i, v) {
      RuleUnique(env, GetRules(env, m), m, i, v, Skipped);
    }
  }

  ghost predicate ChainOk(env: Env, chain: seq<string>) {
    Distinct(chain) && forall x :: x in chain ==> x in env.rematchNames
  }

  // ----- the loops -----

  ghost predicate AllPlain(env: Env, chain: seq<nat>) {
    forall i :: 0 <= i < |chain| ==> env.kind(chain[i]) == Plain
  }

  lemma WalkStops(env: Env, done: seq<nat>, q: nat, rest: seq<nat>)
    requires AllPlain(env, done)
    ensures env.kind(q) == Pass ==> WalkIs(env, done + ([q] + rest), HasPass)
    ensures env.kind(q) == Rematch ==> WalkIs(env, done + ([q] + rest), HasRematch(q))
    ensures env.kind(q) == Plain ==> AllPlain(env, done + [q])
  {
    var chain := done + ([q] + rest);
    assert chain[|done|] == q;
    assert forall j :: 0 <= j < |done| ==> chain[j] == done[j];
  }

  lemma WalkEnds(env: Env, done: seq<nat>)
    requires AllPlain(env, done)
    ensures WalkIs(env, done, NothingSpecial)
  {
  }

  ghost function Tail(env: Env, at: Option<nat>, m: Metadata): seq<nat>
    requires EnvOk(env)
  {
    if at.Some? then Chain(env, at.value, m) else []
  }

  lemma ChainUnfolds(env: Env, q: nat, m: Metadata)
    requires EnvOk(env)
    ensures Chain(env, q, m) == [q] + Tail(env, env.unwrap(q, m), m)
  {
  }

  /** The multi-layer unwrapping of one adapter. */
  method WalkAdapter(env: Env, p: nat, m: Metadata) returns (v: WalkVerdict)
    requires EnvOk(env)
    ensures WalkIs(env, Chain(env, p, m), v)
  {
    hide WalkIs, AllPlain, Chain;
    var adapter := Some(p);
    ghost var done: seq<nat> := [];
    assert AllPlain(env, done) by { NothingDone(env); }
    while adapter.Some?
      invariant Chain(env, p, m) == done + Tail(env, adapter, m)
      invariant AllPlain(env, done)
      decreases if adapter.Some? then env.rank(adapter.value) + 1 else 0
    {
      var q := adapter.value;
      ChainUnfolds(env, q, m);
      WalkStops(env, done, q, Tail(env, env.unwrap(q, m), m));
      if env.kind(q) == Pass {
        return HasPass;
      }
      if env.kind(q) == Rematch {
        return HasRematch(q);
      }
      adapter := env.unwrap(q, m);
      done := done + [q];
    }
    WalkEnds(env, done);
    assert Chain(env, p, m) == done;
    return NothingSpecial;
  }

  lemma NothingDone(env: Env)
    ensures AllPlain(env, [])
  {
  }

  /** What one rule comes to. */
  method TryRule(env: Env, rules: seq<nat>, ghost m0: Metadata, m: Metadata, i: nat) returns (v: RuleVerdict, next: Metadata)
    requires EnvOk(env) && i < |rules| && m == MetadataAt(env, rules, m0, i)
    ensures RuleIs(env, rules, m0, i, v) && next == MetadataAt(env, rules, m0, i + 1)
  {
    hide WalkIs;
    var tried := env.tryRule(rules[i], m);
    next := tried.metadata;
    if !tried.matched || tried.adapter !in env.proxies {
      return Skipped, next;
    }
    var p := env.proxies[tried.adapter];
    var walk := WalkAdapter(env, p, next);
    ghost var chain := Chain(env, p, next);
    if WalkIs(env, chain, NothingSpecial) { WalkUnique(env, chain, walk, NothingSpecial); }
    if WalkIs(env, chain, HasPass) { WalkUnique(env, chain, walk, HasPass); }
    match walk
    case HasPass => return Skipped, next;
    case HasRematch(q) => return Again(q), next;
    case NothingSpecial =>
      if next.udp && !env.supportUDP(p) {
        return Skipped, next;
      }
      return Taken(p), next;
  }

  /** One round over the current rule list. */
  method Scan(env: Env, m: Metadata) returns (hit: Option<nat>, v: RuleVerdict, next: Metadata)
    requires EnvOk(env)
    ensures hit.None? ==> NothingQualifies(env, m)
    ensures hit.Some? ==> FirstIs(env, m, hit.value, v) && next == MetadataAt(env, GetRules(env, m), m, hit.value + 1)
  {
    hide RuleIs;
    var rules := GetRules(env, m);
    next := m;
    for i := 0 to |rules|
      invariant next == MetadataAt(env, rules, m, i)
      invariant forall k :: 0 <= k < i ==> RuleIs(env, rules, m, k, Skipped)
    {
      v, next := TryRule(env, rules, m, next, i);
      if v != Skipped {
        return Some(i), v, next;
      }
    }
    return None, Skipped, next;
  }

  /** match. */
  method Match(env: Env, m0: Metadata) returns (r: Result)
    requires EnvOk(env)
    ensures Matches(env, m0, [], r)
    ensures exists m2, chain2 :: Reached(env, m0, [], m2, chain2) && LastRound(env, m2, chain2, r) && ReadsSelectedList(env, m2, r)
  {
    r := MatchRounds(env, m0);
    ResultReadsSelectedList(env, m0, r);
  }

  method MatchRounds(env: Env, m0: Metadata) returns (r: Result)
    requires EnvOk(env)
    ensures Matches(env, m0, [], r)
  {
    hide FirstIs, NothingQualifies, EnvOk;
    var m, chain := m0, [];
    DistinctFits(chain, env.rematchNames);
    while true
      invariant ChainOk(env, chain) && |chain| <= |env.rematchNames|
      invariant forall x :: Matches(env, m, chain, x) ==> Matches(env, m0, [], x)
      decreases |env.rematchNames| - |chain|
    {
      var rules := GetRules(env, m);
      var hit, v, next := Scan(env, m);
      if hit.None? {
        r := DirectOf(env);
        assert Matches(env, m, chain, r);
        return;
      }
      HitInRange(env, m, hit.value, v);
      if v.Taken? {
        r := Routed(v.adapter, rules[hit.value]);
        assert Matches(env, m, chain, r);
        return;
      }
      var p := v.adapter;
      AgainIsRematch(env, m, hit.value, p);
      var updated := if env.name(p) in chain then None else env.update(p, next);
      if updated.None? {
        r := Stuck(p, rules[hit.value]);
        assert RematchGives(env, m, chain, hit.value, p, r);
        assert Matches(env, m, chain, r);
        return;
      }
      ChainGrows(env, chain, env.name(p));
      forall x | Matches(env, updated.value, chain + [env.name(p)], x) ensures Matches(env, m, chain, x) {
        assert RematchGives(env, m, chain, hit.value, p, x);
      }
      m, chain := updated.value, chain + [env.name(p)];
    }
  }

  lemma HitInRange(env: Env, m: Metadata, i: nat, v: RuleVerdict)
    requires EnvOk(env) && FirstIs(env, m, i, v)
    ensures i < |GetRules(env, m)| && v != Skipped
  {
  }

  // ----- what the result means -----

  lemma {:induction false} MatchesUnique(env: Env, m: Metadata, chain: seq<string>, r: Result, q: Result)
    requires EnvOk(env) && ChainOk(env, chain) && Matches(env, m, chain, r) && Matches(env, m, chain, q)
    ensures r == q
    decreases |env.rematchNames| - |chain|
  {
    hide FirstIs, NothingQualifies, EnvOk;
    DistinctFits(chain, env.rematchNames);
    forall i: nat, v | NothingQualifies(env, m) ensures !FirstIs(env, m, i, v) {
      NothingIsNotFirst(env, m, i, v);
    }
    forall i: nat, v, j: nat, w | FirstIs(env, m, i, v) && FirstIs(env, m, j, w) ensures i == j && v == w {
      FirstUnique(env, m, i, v, j, w);
    }
    if i: nat, p: nat :| FirstIs(env, m, i, Again(p)) && RematchGives(env, m, chain, i, p, r) {
      assert RematchGives(env, m, chain, i, p, q);
      HitInRange(env, m, i, Again(p));
      AgainIsRematch(env, m, i, p);
      var seen := MetadataAt(env, GetRules(env, m), m, i + 1);
      if env.name(p) !in chain && env.update(p, seen).Some? {
        ChainGrows(env, chain, env.name(p));
        MatchesUnique(env, env.update(p, seen).value, chain + [env.name(p)], r, q);
      }
    }
  }

  /** Rounds lead from m and chain to m2 and chain2: each ends at a Rematch
      adapter with a new name whose update succeeds. */
  ghost predicate Reached(env: Env, m: Metadata, chain: seq<string>, m2: Metadata, chain2: seq<string>)
    requires EnvOk(env)
    decreases |chain2| - |chain|
  {
    || (m == m2 && chain == chain2)
    || (|chain| < |chain2| && exists i: nat, p: nat, next ::
          FirstIs(env, m, i, Again(p)) && env.name(p) !in chain &&
          env.update(p, MetadataAt(env, GetRules(env, m), m, i + 1)) == Some(next) &&
          Reached(env, next, chain + [env.name(p)], m2, chain2))
  }

  /** How the last round, with metadata m2, ends in r. */
  ghost predicate LastRound(env: Env, m2: Metadata, chain2: seq<string>, r: Result)
    requires EnvOk(env)
  {
    match r
    case Direct(_) => NothingQualifies(env, m2) && r == DirectOf(env)
    case Routed(p, rule) => exists i: nat :: FirstIs(env, m2, i, Taken(p)) && rule == GetRules(env, m2)[i]
    case Stuck(p, rule) =>
      exists i: nat :: FirstIs(env, m2, i, Again(p)) && rule == GetRules(env, m2)[i] &&
        (env.name(p) in chain2 || env.update(p, MetadataAt(env, GetRules(env, m2), m2, i + 1)).None?)
  }

  /** Every result comes from the last of a chain of rounds: DIRECT only when
      nothing in the current rules qualifies, a routed adapter from the first
      rule that qualifies, and a Rematch adapter itself only when its name was
      used before or its update failed.  There is at most one extra round per
      Rematch name. */
  lemma {:induction false} ResultExplained(env: Env, m: Metadata, chain: seq<string>, r: Result)
    requires EnvOk(env) && ChainOk(env, chain) && Matches(env, m, chain, r)
    ensures exists m2, chain2 :: Reached(env, m, chain, m2, chain2) && LastRound(env, m2, chain2, r) && |chain2| <= |env.rematchNames|
    decreases |env.rematchNames| - |chain|
  {
    hide FirstIs, NothingQualifies, EnvOk, ChainOk;
    LengthFits(env, chain);
    if i: nat, p: nat :| FirstIs(env, m, i, Again(p)) && RematchGives(env, m, chain, i, p, r) {
      HitInRange(env, m, i, Again(p));
      AgainIsRematch(env, m, i, p);
      var seen := MetadataAt(env, GetRules(env, m), m, i + 1);
      if env.name(p) in chain || env.update(p, seen).None? {
        assert Reached(env, m, chain, m, chain) && LastRound(env, m, chain, r);
      } else {
        var next, longer := env.update(p, seen).value, chain + [env.name(p)];
        GrownChainOk(env, chain, env.name(p));
        ResultExplained(env, next, longer, r);
        var m2, chain2 :| Reached(env, next, longer, m2, chain2) && LastRound(env, m2, chain2, r) && |chain2| <= |env.rematchNames|;
        ReachedGrows(env, next, longer, m2, chain2);
        assert Reached(env, m, chain, m2, chain2);
      }
    } else {
      assert Reached(env, m, chain, m, chain) && LastRound(env, m, chain, r);
    }
  }

  lemma {:induction false} ReachedGrows(env: Env, m: Metadata, chain: seq<string>, m2: Metadata, chain2: seq<string>)
    requires EnvOk(env) && Reached(env, m, chain, m2, chain2)
    ensures |chain| <= |chain2|
  {
  }

  lemma LengthFits(env: Env, chain: seq<string>)
    requires ChainOk(env, chain)
    ensures Distinct(chain) && (forall x :: x in chain ==> x in env.rematchNames) && |chain| <= |env.rematchNames|
  {
    DistinctFits(chain, env.rematchNames);
  }

  lemma GrownChainOk(env: Env, chain: seq<string>, name: string)
    requires ChainOk(env, chain) && name !in chain && name in env.rematchNames
    ensures ChainOk(env, chain + [name]) && |chain| < |env.rematchNames|
  {
    ChainGrows(env, chain, name);
  }

  /** The last round read the list its metadata selects: the sub-rules of that
      name if there are any, else the rules.  A rule of the result is in it, and
      without one every rule of it was skipped. */
  ghost predicate ReadsSelectedList(env: Env, m2: Metadata, r: Result)
    requires EnvOk(env)
  {
    match r
    case Direct(d) =>
      && (m2.specialRules in env.subRules ==>
            forall k :: 0 <= k < |env.subRules[m2.specialRules]| ==> RuleIs(env, env.subRules[m2.specialRules], m2, k, Skipped))
      && (m2.specialRules !in env.subRules ==> forall k :: 0 <= k < |env.rules| ==> RuleIs(env, env.rules, m2, k, Skipped))
      && (d.Some? <==> "DIRECT" in env.proxies) && (d.Some? ==> env.proxies["DIRECT"] == d.value)
    case Routed(p, rule) =>
      && (m2.specialRules in env.subRules ==> FirstIn(env, env.subRules[m2.specialRules], m2, rule, Taken(p)))
      && (m2.specialRules !in env.subRules ==> FirstIn(env, env.rules, m2, rule, Taken(p)))
    case Stuck(p, rule) =>
      && (m2.specialRules in env.subRules ==> FirstIn(env, env.subRules[m2.specialRules], m2, rule, Again(p)))
      && (m2.specialRules !in env.subRules ==> FirstIn(env, env.rules, m2, rule, Again(p)))
  }

  /** rule is the first of a list that is not skipped, and comes to v. */
  ghost predicate FirstIn(env: Env, rules: seq<nat>, m: Metadata, rule: nat, v: RuleVerdict)
    requires EnvOk(env)
  {
    exists i :: 0 <= i < |rules| && rules[i] == rule && RuleIs(env, rules, m, i, v) &&
                forall k :: 0 <= k < i ==> RuleIs(env, rules, m, k, Skipped)
  }

  lemma LastRoundReads(env: Env, m2: Metadata, chain2: seq<string>, r: Result)
    requires EnvOk(env) && LastRound(env, m2, chain2, r)
    ensures ReadsSelectedList(env, m2, r)
  {
    hide RuleIs, EnvOk;
  }

  /** Every result of a match is read off the list selected by the metadata of
      the round that decides. */
  lemma ResultReadsSelectedList(env: Env, m: Metadata, r: Result)
    requires EnvOk(env) && Matches(env, m, [], r)
    ensures exists m2, chain2 :: Reached(env, m, [], m2, chain2) && LastRound(env, m2, chain2, r) && ReadsSelectedList(env, m2, r)
  {
    hide EnvOk, Matches, Reached, LastRound, ReadsSelectedList;
    ResultExplained(env, m, [], r);
    var m2, chain2 :| Reached(env, m, [], m2, chain2) && LastRound(env, m2, chain2, r) && |chain2| <= |env.rematchNames|;
    LastRoundReads(env, m2, chain2, r);
  }

  /** A Rematch with a defined target sub-rule makes the next round read exactly
      that list: a rule found there decides, or all of it is skipped. */
  lemma RematchSwitchesList(env: Env, m: Metadata, chain: seq<string>, i: nat, p: nat, r: Result,
                            targetName: nat -> Option<string>, targetSubRule: nat -> Option<string>, x: string)
    requires EnvOk(env) && ChainOk(env, chain) && Matches(env, m, chain, r)
    requires FirstIs(env, m, i, Again(p)) && env.name(p) !in chain
    requires forall q, y :: env.update(q, y) == Some(ApplyMetadata(targetName(q), targetSubRule(q), y))
    requires targetSubRule(p) == Some(x) && x in env.subRules
    ensures exists next: Metadata ::
              && next.specialRules == x && (targetName(p).Some? ==> next.rematchName == targetName(p).value)
              && ChainOk(env, chain + [env.name(p)]) && Matches(env, next, chain + [env.name(p)], r)
              && RoundOver(env, env.subRules[x], next, r)
  {
    hide EnvOk, RuleIs;
    LengthFits(env, chain);
    HitInRange(env, m, i, Again(p));
    AgainIsRematch(env, m, i, p);
    assert !NothingQualifies(env, m) by { if NothingQualifies(env, m) { NothingIsNotFirst(env, m, i, Again(p)); } }
    forall j: nat, v | FirstIs(env, m, j, v) ensures j == i && v == Again(p) { FirstUnique(env, m, i, Again(p), j, v); }
    assert RematchGives(env, m, chain, i, p, r);
    var seen := MetadataAt(env, GetRules(env, m), m, i + 1);
    var next := env.update(p, seen).value;
    GrownChainOk(env, chain, env.name(p));
    LengthFits(env, chain + [env.name(p)]);
    NextReads(env, next, chain + [env.name(p)], r, x);
  }

  /** A round over this list ends in r, or at another Rematch adapter of it. */
  ghost predicate RoundOver(env: Env, rules: seq<nat>, m: Metadata, r: Result)
    requires EnvOk(env)
  {
    || ((forall k :: 0 <= k < |rules| ==> RuleIs(env, rules, m, k, Skipped)) && r.Direct?)
    || (exists rule, p :: FirstIn(env, rules, m, rule, Taken(p)) && r == Routed(p, rule))
    || (exists rule, p :: FirstIn(env, rules, m, rule, Again(p)))
  }

  lemma NextReads(env: Env, next: Metadata, chain: seq<string>, r: Result, x: string)
    requires EnvOk(env) && ChainOk(env, chain) && Matches(env, next, chain, r) && next.specialRules == x && x in env.subRules
    ensures RoundOver(env, env.subRules[x], next, r)
  {
    hide RuleIs, RematchGives;
    LengthFits(env, chain);
    var rules := env.subRules[x];
    if i: nat, p: nat :| FirstIs(env, next, i, Taken(p)) && r == Routed(p, GetRules(env, next)[i]) {
      assert FirstIn(env, rules, next, rules[i], Taken(p));
    } else if i: nat, p: nat :| FirstIs(env, next, i, Again(p)) {
      assert FirstIn(env, rules, next, rules[i], Again(p));
    }
  }

  /** What a Rematch changes and what it leaves alone. */
  lemma RematchChangesTargets(targetName: Option<string>, targetSubRule: Option<string>, m: Metadata)
    ensures var n := ApplyMetadata(targetName, targetSubRule, m);
            && n.udp == m.udp && n.rest == m.rest
            && (targetName == None ==> n.rematchName == m.rematchName) && (targetSubRule == None ==> n.specialRules == m.specialRules)
            && (forall x :: targetName == Some(x) ==> n.rematchName == x) && (forall x :: targetSubRule == Some(x) ==> n.specialRules == x)
  {
  }

  /** Rematch.applyMetadata, which cannot fail. */
  function ApplyMetadata(targetName: Option<string>, targetSubRule: Option<string>, m: Metadata): Metadata {
    m.(rematchName := if targetName.Some? then targetName.value else m.rematchName,
       specialRules := if targetSubRule.Some? then targetSubRule.value else m.specialRules)
  }

  /** With the Rematch adapters the program has, a Rematch adapter is returned
      only when its name comes up a second time. */
  lemma StuckMeansRepeated(env: Env, m: Metadata, p: nat, rule: nat, targetName: nat -> Option<string>, targetSubRule: nat -> Option<string>)
    requires EnvOk(env) && Matches(env, m, [], Stuck(p, rule))
    requires forall q, x :: env.update(q, x) == Some(ApplyMetadata(targetName(q), targetSubRule(q), x))
    ensures exists m2, chain2 ::
              Reached(env, m, [], m2, chain2) && LastRound(env, m2, chain2, Stuck(p, rule)) && env.name(p) in chain2
  {
    hide FirstIs, EnvOk, Reached;
    ResultExplained(env, m, [], Stuck(p, rule));
    var m2, chain2 :| Reached(env, m, [], m2, chain2) && LastRound(env, m2, chain2, Stuck(p, rule));
    assert env.name(p) in chain2;
  }

  /** An accepted configuration is such an environment: whatever its groups
      select, unwrapping follows the build order, so matching terminates. */
  lemma AcceptedConfigurationsUnwrapDown(b: ProxyBuild.Built, env: Env, place: nat -> ProxyBuild.Place)
    requires ProxyBuild.WellBuilt(b)
    requires forall p, m :: env.unwrap(p, m).Some? ==> ProxyBuild.MayUnwrap(b, place(p), place(env.unwrap(p, m).value))
    requires forall p :: env.rank(p) == ProxyBuild.PlaceRank(place(p))
    requires forall p :: env.kind(p) == Rematch ==> env.name(p) in env.rematchNames
    ensures EnvOk(env)
  {
    forall p, m | env.unwrap(p, m).Some? ensures env.rank(env.unwrap(p, m).value) < env.rank(p) {
      ProxyBuild.UnwrapGoesDown(b, place(p), place(env.unwrap(p, m).value));
    }
  }
}
