/** Chains of unordered and optional stages: an incident is due as soon as every unordered
    stage has been hit, and the matcher cuts a stream into as many such pieces as possible. */
module UnorderedChains {
  import opened Wrappers
  import opened Sequences
  import opened CorrelationModel
  import opened ChainInvariant
  import opened ChainProjection
  import opened OrderedChains

  /** Only unordered and optional stages, at least one of them unordered. */
  ghost predicate AnyOrder(chain: AttackChain) {
    && (forall i | 0 <= i < |chain.stages| ::
          chain.stages[i].stageType.Unordered? || chain.stages[i].stageType.Optional?)
    && (exists i :: 0 <= i < |chain.stages| && chain.stages[i].stageType.Unordered?)
  }

  /** The first stage that lists the rule; the number of stages when none does. */
  function Owner(chain: AttackChain, rule: string, idx: nat): (j: nat)
    requires idx <= |chain.stages|
    ensures idx <= j <= |chain.stages|
    ensures j < |chain.stages| ==> rule in chain.stages[j].ruleIds
    ensures forall i | idx <= i < j :: rule !in chain.stages[i].ruleIds
    decreases |chain.stages| - idx
  {
    if idx == |chain.stages| || rule in chain.stages[idx].ruleIds then idx else Owner(chain, rule, idx + 1)
  }

  /** The stream hits stage `i`: it holds a rule for which `i` is the first stage that lists it. */
  ghost predicate HitBy(chain: AttackChain, i: nat, rules: seq<string>)
    requires i < |chain.stages|
  {
    exists x :: x in rules && Owner(chain, x, 0) == i
  }

  /** No rule is listed by two stages. */
  ghost predicate DisjointRules(chain: AttackChain) {
    forall i, j, r | 0 <= i < j < |chain.stages| && r in chain.stages[i].ruleIds :: r !in chain.stages[j].ruleIds
  }

  /** Without shared rules a stage is hit by any rule that it lists. */
  lemma HitByAnyListedRule(chain: AttackChain, i: nat, rules: seq<string>)
    requires DisjointRules(chain) && i < |chain.stages|
    ensures HitBy(chain, i, rules) <==> exists x :: x in rules && x in chain.stages[i].ruleIds
  {
    forall x | x in chain.stages[i].ruleIds ensures Owner(chain, x, 0) == i {}
  }

  /** Every unordered stage is in `have` or hit by the stream. */
  ghost predicate CoversWith(chain: AttackChain, have: set<nat>, rules: seq<string>) {
    forall i: nat | i < |chain.stages| && chain.stages[i].stageType.Unordered? ::
      i in have || HitBy(chain, i, rules)
  }

  ghost predicate Covers(chain: AttackChain, rules: seq<string>) {
    CoversWith(chain, {}, rules)
  }

  /** The stream falls into `m` consecutive pieces that each cover the chain, with the stages
      of `have` granted to the first piece, and a rest. */
  ghost predicate SplitsFrom(chain: AttackChain, have: set<nat>, rules: seq<string>, m: nat)
    decreases m, 1
  {
    m == 0 || exists i: nat :: SplitsAt(chain, have, rules, m, i)
  }

  /** The first of the `m` pieces has length `i`. */
  ghost predicate SplitsAt(chain: AttackChain, have: set<nat>, rules: seq<string>, m: nat, i: nat)
    requires m > 0
    decreases m, 0
  {
    i <= |rules| && CoversWith(chain, have, rules[..i]) && SplitsFrom(chain, {}, rules[i..], m - 1)
  }

  lemma SplitPoint(chain: AttackChain, have: set<nat>, rules: seq<string>, m: nat) returns (i: nat)
    requires m > 0 && SplitsFrom(chain, have, rules, m)
    ensures SplitsAt(chain, have, rules, m, i)
  {
    i :| SplitsAt(chain, have, rules, m, i);
  }

  ghost predicate Splits(chain: AttackChain, rules: seq<string>, m: nat) {
    SplitsFrom(chain, {}, rules, m)
  }

  // ----- the matcher, in terms of the stages matched so far -----

  ghost function MatchedStages(chain: AttackChain, o: Option<ChainState>): set<nat> {
    if o.None? then {}
    else set i: nat | i < |chain.stages| && ProgressOf(chain, o.value, i).matched
  }

  /** Cutting the stream as soon as the current piece covers the chain. */
  ghost function GreedyCuts(chain: AttackChain, have: set<nat>, rules: seq<string>): nat
    decreases rules
  {
    if rules == [] then 0
    else
      var own := Owner(chain, rules[0], 0);
      var more := With(chain, have, own);
      if own < |chain.stages| && CoversWith(chain, more, []) then 1 + GreedyCuts(chain, {}, rules[1..])
      else GreedyCuts(chain, more, rules[1..])
  }

  lemma {:induction false} OwnerTakes(chain: AttackChain, st: ChainState, rule: string, idx: nat)
    requires AnyOrder(chain) && idx <= |chain.stages|
    ensures Taker(chain, st, rule, idx) == Owner(chain, rule, idx)
    decreases |chain.stages| - idx
  {}

  lemma RequiredMatchedIsCovered(chain: AttackChain, st: ChainState)
    requires WellFormed(chain) && AnyOrder(chain) && ProgressOk(chain, st)
    ensures AllRequiredMatched(chain, st) <==> CoversWith(chain, MatchedStages(chain, Some(st)), [])
  {}

  lemma TakenMatches(chain: AttackChain, st: ChainState, j: nat, h: LocalHit)
    requires WellFormed(chain) && j < |chain.stages| && chain.stages[j].stageId in st.progress
    ensures MatchedStages(chain, Some(Taken(chain, st, j, h.rule, h.event, h.now))) == MatchedStages(chain, Some(st)) + {j}
  {}

  function With(chain: AttackChain, have: set<nat>, own: nat): set<nat> {
    if own < |chain.stages| then have + {own} else have
  }

  lemma AnyOrderAdvance(chain: AttackChain, st: ChainState, h: LocalHit)
    requires WellFormed(chain) && AnyOrder(chain) && ChainOk(chain, st)
    ensures var r := Advance(chain, st, h.rule, h.event, h.now);
            var own := Owner(chain, h.rule, 0);
            && r.Advanced?
            && MatchedStages(chain, Some(r.state)) == With(chain, MatchedStages(chain, Some(st)), own)
            && (r.completed <==> own < |chain.stages| && CoversWith(chain, MatchedStages(chain, Some(r.state)), []))
  {
    var touched := Touched(st, h.now);
    TouchedIsOk(chain, st, h.now);
    assert MatchedStages(chain, Some(touched)) == MatchedStages(chain, Some(st));
    AdvanceByTaker(chain, touched, h.rule, h.event, h.now, 0);
    OwnerTakes(chain, touched, h.rule, 0);
    var own := Owner(chain, h.rule, 0);
    if own < |chain.stages| {
      assert chain.stages[own].stageId in StageIds(chain);
      TakenMatches(chain, touched, own, h);
      MarkKeepsProgress(chain, touched, own, h.rule, h.event, h.now);
      RequiredMatchedIsCovered(chain, Taken(chain, touched, own, h.rule, h.event, h.now));
    }
  }

  /** One step of such a chain. */
  lemma AnyOrderStep(chain: AttackChain, o: Option<ChainState>, h: LocalHit)
    requires WellFormed(chain) && AnyOrder(chain) && ComponentOk(chain, o)
    ensures var (next, completed) := LocalStep(chain, o, h);
            var own := Owner(chain, h.rule, 0);
            var more := With(chain, MatchedStages(chain, o), own);
            && ComponentOk(chain, next)
            && (completed <==> own < |chain.stages| && CoversWith(chain, more, []))
            && MatchedStages(chain, next) == if completed then {} else more
  {
    StartedChainIsOk(chain, 0, h.now);
    var st := if o.Some? then o.value else Start(chain, 0, h.now);
    assert MatchedStages(chain, o) == MatchedStages(chain, Some(st));
    AdvanceKeepsInvariant(chain, st, h.rule, h.event, h.now);
    AnyOrderAdvance(chain, st, h);
  }

  lemma {:induction false} MatcherCutsGreedily(chain: AttackChain, o: Option<ChainState>, hits: seq<LocalHit>)
    requires WellFormed(chain) && AnyOrder(chain) && ComponentOk(chain, o)
    ensures LocalCount(chain, o, hits) == GreedyCuts(chain, MatchedStages(chain, o), Rules(hits))
    decreases hits
  {
    if hits != [] {
      assert Rules(hits)[1..] == Rules(hits[1..]) && Rules(hits)[0] == hits[0].rule && Rules(hits) != [];
      hide WellFormed, AnyOrder, ComponentOk, CoversWith, LocalStep, MatchedStages, With, Rules;
      AnyOrderStep(chain, o, hits[0]);
      var (next, completed) := LocalStep(chain, o, hits[0]);
      assert LocalCount(chain, o, hits) == (if completed then 1 else 0) + LocalCount(chain, next, hits[1..]);
      hide LocalCount;
      MatcherCutsGreedily(chain, next, hits[1..]);
    }
  }

  // ----- cutting as early as possible is optimal -----

  /** A piece may start later: dropping earlier hits from a split stream is never needed. */
  lemma SplitsLonger(chain: AttackChain, have: set<nat>, more: set<nat>, rules: seq<string>, drop: nat, m: nat)
    requires drop <= |rules| && SplitsFrom(chain, have, rules[drop..], m) && have <= more
    ensures SplitsFrom(chain, more, rules, m)
  {
    if m > 0 {
      var i := SplitPoint(chain, have, rules[drop..], m);
      assert rules[..drop + i] == rules[..drop] + rules[drop..][..i];
      assert rules[drop + i..] == rules[drop..][i..];
      forall j: nat | j < |chain.stages| && chain.stages[j].stageType.Unordered?
        ensures j in more || HitBy(chain, j, rules[..drop + i])
      {
        if j !in more {
          var x :| x in rules[drop..][..i] && Owner(chain, x, 0) == j;
          assert x in rules[..drop + i];
        }
      }
      assert SplitsAt(chain, more, rules, m, drop + i);
    }
  }

  lemma EmptyCoversNothing(chain: AttackChain)
    requires AnyOrder(chain)
    ensures !CoversWith(chain, {}, [])
  {}

  lemma PiecesStep(chain: AttackChain, have: set<nat>, rules: seq<string>)
    requires rules != []
    ensures forall i | 1 <= i <= |rules| ::
              CoversWith(chain, have, rules[..i]) <==> CoversWith(chain, With(chain, have, Owner(chain, rules[0], 0)), rules[1..][..i - 1])
  {}

  lemma NothingSplits(chain: AttackChain, have: set<nat>, m: nat)
    requires m > 0 && !CoversWith(chain, have, [])
    ensures !SplitsFrom(chain, have, [], m)
  {}

  lemma {:induction false} GreedyCutsAreOptimal(chain: AttackChain, have: set<nat>, rules: seq<string>, m: nat)
    requires AnyOrder(chain) && !CoversWith(chain, have, [])
    ensures SplitsFrom(chain, have, rules, m) <==> m <= GreedyCuts(chain, have, rules)
    decreases rules
  {
    if m == 0 {
    } else if rules == [] {
      NothingSplits(chain, have, m);
    } else {
      hide SplitsFrom, HitBy;
      var own := Owner(chain, rules[0], 0);
      var more := With(chain, have, own);
      if CoversWith(chain, more, []) {
        EmptyCoversNothing(chain);
        hide CoversWith;
        CutNow(chain, have, rules, m);
        GreedyCutsAreOptimal(chain, {}, rules[1..], m - 1);
      } else {
        hide CoversWith;
        CutLater(chain, have, rules, m);
        GreedyCutsAreOptimal(chain, more, rules[1..], m);
      }
    }
  }

  /** When the first hit closes the piece, closing it there loses nothing. */
  lemma CutNow(chain: AttackChain, have: set<nat>, rules: seq<string>, m: nat)
    requires m > 0 && rules != [] && !CoversWith(chain, have, [])
    requires CoversWith(chain, With(chain, have, Owner(chain, rules[0], 0)), [])
    ensures SplitsFrom(chain, have, rules, m) <==> SplitsFrom(chain, {}, rules[1..], m - 1)
  {
    assert CoversWith(chain, have, rules[..1]) by {
      PiecesStep(chain, have, rules);
      assert rules[1..][..0] == [];
    }
    if SplitsFrom(chain, have, rules, m) {
      var i := SplitPoint(chain, have, rules, m);
      assert i != 0 by { assert rules[..0] == []; }
      assert rules[i..] == rules[1..][i - 1..];
      SplitsLonger(chain, {}, {}, rules[1..], i - 1, m - 1);
    }
    if SplitsFrom(chain, {}, rules[1..], m - 1) {
      assert SplitsAt(chain, have, rules, m, 1);
    }
  }

  lemma CutLater(chain: AttackChain, have: set<nat>, rules: seq<string>, m: nat)
    requires m > 0 && rules != [] && !CoversWith(chain, have, [])
    ensures SplitsFrom(chain, have, rules, m) <==> SplitsFrom(chain, With(chain, have, Owner(chain, rules[0], 0)), rules[1..], m)
  {
    var more := With(chain, have, Owner(chain, rules[0], 0));
    PiecesStep(chain, have, rules);
    if SplitsFrom(chain, have, rules, m) {
      var i := SplitPoint(chain, have, rules, m);
      assert i != 0 by { assert rules[..0] == []; }
      assert rules[i..] == rules[1..][i - 1..];
      assert SplitsAt(chain, more, rules[1..], m, i - 1);
    }
    if SplitsFrom(chain, more, rules[1..], m) {
      var i := SplitPoint(chain, more, rules[1..], m);
      assert rules[i + 1..] == rules[1..][i..];
      assert rules[1..][..i] == rules[1..][..i + 1 - 1];
      assert SplitsAt(chain, have, rules, m, i + 1);
    }
  }

  /** The local theorem: completions are the most pieces the stream can be cut into. */
  lemma CompletionsAreMostPieces(chain: AttackChain, hits: seq<LocalHit>, m: nat)
    requires WellFormed(chain) && AnyOrder(chain)
    ensures Splits(chain, Rules(hits), m) <==> m <= LocalCount(chain, None, hits)
  {
    MatcherCutsGreedily(chain, None, hits);
    var i :| 0 <= i < |chain.stages| && chain.stages[i].stageType.Unordered?;
    assert !HitBy(chain, i, []);
    GreedyCutsAreOptimal(chain, {}, Rules(hits), m);
  }

  lemma OnePiece(chain: AttackChain, rules: seq<string>)
    ensures Splits(chain, rules, 1) <==> Covers(chain, rules)
  {
    assert rules[..|rules|] == rules;
    if Covers(chain, rules) {
      assert SplitsAt(chain, {}, rules, 1, |rules|);
    }
    if Splits(chain, rules, 1) {
      var i := SplitPoint(chain, {}, rules, 1);
      forall j: nat | j < |chain.stages| && chain.stages[j].stageType.Unordered?
        ensures HitBy(chain, j, rules)
      {
        var x :| x in rules[..i] && Owner(chain, x, 0) == j;
        assert x in rules;
      }
    }
  }

  /** In any run that does not replace the definition the incidents of such a chain and an untracked key
      are a sum over the stretches between expiries: for each stretch the most consecutive pieces that
      each hit every unordered stage. */
  lemma IncidentsAreMostPieces(es: EngineState, j: nat, k: string, ops: seq<Op>) returns (counts: seq<nat>)
    requires DistinctIds(es.defs) && j < |es.defs| && k != UNKNOWN && KeepsDefinition(es.defs[j], ops)
    requires WellFormed(es.defs[j]) && AnyOrder(es.defs[j]) && (es.defs[j].id, k) !in es.chains
    ensures var chain := es.defs[j];
            var stretches := Stretches(chain, [], EventsFor(chain, k, ops));
      && CountFor(chain, k, Run(es, ops).1) == Sum(counts) && |counts| == |stretches|
      && forall i, m: nat | 0 <= i < |stretches| :: Splits(chain, Rules(stretches[i]), m) <==> m <= counts[i]
  {
    var chain := es.defs[j];
    var stretches := Stretches(chain, [], EventsFor(chain, k, ops));
    IncidentsAddUp(es, j, k, ops);
    counts := CountsOf(chain, stretches);
    forall i, m: nat | 0 <= i < |stretches|
      ensures Splits(chain, Rules(stretches[i]), m) <==> m <= counts[i]
    {
      CompletionsAreMostPieces(chain, stretches[i], m);
    }
  }

  lemma {:induction false} PositiveSum(s: seq<nat>)
    ensures Sum(s) > 0 <==> exists i :: 0 <= i < |s| && s[i] > 0
  {
    if s != [] {
      PositiveSum(s[1..]);
      assert forall i | 0 < i < |s| :: s[i] == s[1..][i - 1];
    }
  }

  /** There is an incident iff the hits of some stretch cover the chain: the first incident comes with
      exactly the hit by which every unordered stage has been hit since the last expiry. */
  lemma FirstIncidentWhenCovered(es: EngineState, j: nat, k: string, ops: seq<Op>)
    requires DistinctIds(es.defs) && j < |es.defs| && k != UNKNOWN && KeepsDefinition(es.defs[j], ops)
    requires WellFormed(es.defs[j]) && AnyOrder(es.defs[j]) && (es.defs[j].id, k) !in es.chains
    ensures 0 < CountFor(es.defs[j], k, Run(es, ops).1) <==>
            exists s :: s in Stretches(es.defs[j], [], EventsFor(es.defs[j], k, ops)) && Covers(es.defs[j], Rules(s))
  {
    var chain := es.defs[j];
    var stretches := Stretches(chain, [], EventsFor(chain, k, ops));
    var counts := IncidentsAreMostPieces(es, j, k, ops);
    PositiveSum(counts);
    hide Stretches, EventsFor, CountFor, Splits, Covers;
    forall i | 0 <= i < |stretches| ensures counts[i] > 0 <==> Covers(chain, Rules(stretches[i])) {
      OnePiece(chain, Rules(stretches[i]));
      assert Splits(chain, Rules(stretches[i]), 1) <==> 1 <= counts[i];
    }
  }

  /** Reordering the hits never turns a completing stream into one that does not complete. */
  lemma CompletionIgnoresOrder(chain: AttackChain, hits: seq<LocalHit>, shuffled: seq<LocalHit>)
    requires WellFormed(chain) && AnyOrder(chain)
    requires multiset(Rules(hits)) == multiset(Rules(shuffled))
    ensures 0 < LocalCount(chain, None, hits) <==> 0 < LocalCount(chain, None, shuffled)
  {
    CompletionsAreMostPieces(chain, hits, 1);
    CompletionsAreMostPieces(chain, shuffled, 1);
    OnePiece(chain, Rules(hits));
    OnePiece(chain, Rules(shuffled));
    assert forall x :: x in Rules(hits) <==> x in multiset(Rules(hits));
    assert forall x :: x in Rules(shuffled) <==> x in multiset(Rules(shuffled));
  }
}
