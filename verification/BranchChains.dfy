/** Chains with a branch stage: every hit on it completes the chain, unless an ordered stage that is due
    takes the hit. With the other kinds of chain this covers all definitions with distinct stage ids. */
module BranchChains {
  import opened Wrappers
  import opened Values
  import opened Sequences
  import opened CorrelationModel
  import opened ChainInvariant
  import opened ChainProjection
  import opened OrderedChains
  import opened MixedChains

  /** The first `p` stages are ordered, the next is not, and some stage is a branch. */
  ghost predicate Branching(chain: AttackChain, p: nat) {
    && p < |chain.stages| && !chain.stages[p].stageType.Ordered?
    && (forall i | 0 <= i < p :: chain.stages[i].stageType.Ordered?)
    && (exists b: nat :: b < |chain.stages| && chain.stages[b].stageType.Branch?)
  }

  /** The first stage from `idx` on that is not ordered and lists the rule; the number of stages when none does. */
  function LaterTaker(chain: AttackChain, rule: string, idx: nat): (j: nat)
    requires idx <= |chain.stages|
    ensures idx <= j <= |chain.stages|
    ensures j < |chain.stages| ==> rule in chain.stages[j].ruleIds && !chain.stages[j].stageType.Ordered?
    ensures forall i | idx <= i < j :: rule in chain.stages[i].ruleIds ==> chain.stages[i].stageType.Ordered?
    decreases |chain.stages| - idx
  {
    if idx == |chain.stages| || (rule in chain.stages[idx].ruleIds && !chain.stages[idx].stageType.Ordered?) then idx
    else LaterTaker(chain, rule, idx + 1)
  }

  /** The first stage that is not ordered and lists the rule is a branch. */
  predicate BranchHit(chain: AttackChain, rule: string) {
    var j := LaterTaker(chain, rule, 0);
    j < |chain.stages| && chain.stages[j].stageType.Branch?
  }

  function BranchHits(chain: AttackChain, rules: seq<string>): nat {
    if rules == [] then 0 else (if BranchHit(chain, rules[0]) then 1 else 0) + BranchHits(chain, rules[1..])
  }

  // ----- the matcher -----

  lemma {:induction false} LaterTakes(chain: AttackChain, p: nat, st: ChainState, rule: string, idx: nat)
    requires Branching(chain, p) && idx <= |chain.stages| && st.current <= p && !Due(chain, p, st.current, rule)
    ensures Taker(chain, st, rule, idx) == LaterTaker(chain, rule, idx)
    decreases |chain.stages| - idx
  {
    if idx < |chain.stages| {
      LaterTakes(chain, p, st, rule, idx + 1);
    }
  }

  lemma BranchIsMissing(chain: AttackChain, st: ChainState, j: nat, h: LocalHit)
    requires WellFormed(chain) && ChainOk(chain, st) && j < |chain.stages| && chain.stages[j].stageId in st.progress
    requires !chain.stages[j].stageType.Branch?
    requires exists b: nat :: b < |chain.stages| && chain.stages[b].stageType.Branch?
    ensures !AllRequiredMatched(chain, Taken(chain, st, j, h.rule, h.event, h.now))
  {
    var b: nat :| b < |chain.stages| && chain.stages[b].stageType.Branch?;
    TakenLeavesBranchesAlone(chain, st, j, h.rule, h.event, h.now);
    assert !ProgressOf(chain, st, b).matched;
    hide WellFormed, ChainOk, Taken;
  }

  lemma BranchAdvance(chain: AttackChain, p: nat, st: ChainState, h: LocalHit)
    requires WellFormed(chain) && Branching(chain, p) && ChainOk(chain, st)
    ensures var r := Advance(chain, st, h.rule, h.event, h.now);
      && st.current <= p && r.Advanced?
      && (r.completed <==> !Due(chain, p, st.current, h.rule) && BranchHit(chain, h.rule))
      && r.state.current == if Due(chain, p, st.current, h.rule) then st.current + 1 else st.current
  {
    var touched := Touched(st, h.now);
    TouchedIsOk(chain, st, h.now);
    assert st.current <= p;
    AdvanceByTaker(chain, touched, h.rule, h.event, h.now, 0);
    var j := if Due(chain, p, st.current, h.rule) then st.current else LaterTaker(chain, h.rule, 0);
    if Due(chain, p, st.current, h.rule) {
      DueTakes(chain, p, touched, h.rule, 0);
    } else {
      LaterTakes(chain, p, touched, h.rule, 0);
    }
    if j < |chain.stages| {
      assert chain.stages[j].stageId in StageIds(chain);
      if !chain.stages[j].stageType.Branch? {
        BranchIsMissing(chain, touched, j, h);
      }
    }
    hide WellFormed, ChainOk, ProgressOk, AllRequiredMatched, AdvanceFrom, StageIds;
  }

  /** One step of such a chain. */
  lemma BranchStep(chain: AttackChain, p: nat, o: Option<ChainState>, h: LocalHit)
    requires WellFormed(chain) && Branching(chain, p) && ComponentOk(chain, o)
    ensures var (next, completed) := LocalStep(chain, o, h);
      && ComponentOk(chain, next) && Current(o) <= p
      && (completed <==> !Due(chain, p, Current(o), h.rule) && BranchHit(chain, h.rule))
      && Current(next) == if completed then 0 else if Due(chain, p, Current(o), h.rule) then Current(o) + 1 else Current(o)
  {
    StartedChainIsOk(chain, 0, h.now);
    var st := if o.Some? then o.value else Start(chain, 0, h.now);
    AdvanceKeepsInvariant(chain, st, h.rule, h.event, h.now);
    BranchAdvance(chain, p, st, h);
    hide WellFormed, ChainOk, Advance, Branching, BranchHit, Due;
  }

  /** The hits on a branch that no due ordered stage takes, with `cur` ordered stages done. */
  function SparedHits(chain: AttackChain, p: nat, cur: nat, rules: seq<string>): nat
    requires p <= |chain.stages|
    decreases |rules|
  {
    if rules == [] then 0
    else if Due(chain, p, cur, rules[0]) then SparedHits(chain, p, cur + 1, rules[1..])
    else if BranchHit(chain, rules[0]) then 1 + SparedHits(chain, p, 0, rules[1..])
    else SparedHits(chain, p, cur, rules[1..])
  }

  /** Completions are exactly the spared hits. */
  lemma {:induction false} CompletionsAreSparedHits(chain: AttackChain, p: nat, o: Option<ChainState>, hits: seq<LocalHit>)
    requires WellFormed(chain) && Branching(chain, p) && ComponentOk(chain, o)
    ensures LocalCount(chain, o, hits) == SparedHits(chain, p, Current(o), Rules(hits))
    decreases hits
  {
    if hits != [] {
      assert p <= |chain.stages|;
      BranchStep(chain, p, o, hits[0]);
      RulesStep(hits);
      CountStep(chain, o, hits);
      hide WellFormed, Branching, ComponentOk, LocalStep, Rules, Due, BranchHit, LocalCount, Current;
      CompletionsAreSparedHits(chain, p, LocalStep(chain, o, hits[0]).0, hits[1..]);
    }
  }

  // ----- when all hits are spared -----

  /** No rule of the leading ordered stages is a hit on a branch. */
  predicate BranchesApart(chain: AttackChain, p: nat)
    requires p <= |chain.stages|
  {
    forall i, x | 0 <= i < p && x in chain.stages[i].ruleIds :: !BranchHit(chain, x)
  }

  lemma {:induction false} AllAreSpared(chain: AttackChain, p: nat, cur: nat, rules: seq<string>)
    requires p <= |chain.stages| && BranchesApart(chain, p)
    ensures SparedHits(chain, p, cur, rules) == BranchHits(chain, rules)
    decreases |rules|
  {
    if rules != [] {
      assert Due(chain, p, cur, rules[0]) ==> !BranchHit(chain, rules[0]);
      hide BranchHit, BranchesApart;
      AllAreSpared(chain, p, cur + 1, rules[1..]);
      AllAreSpared(chain, p, 0, rules[1..]);
      AllAreSpared(chain, p, cur, rules[1..]);
    }
  }

  /** The first ordered stage that shares a rule with a branch, and the rule. */
  lemma {:induction false} FirstShared(chain: AttackChain, p: nat, n: nat) returns (i: nat, x: string)
    requires n <= p <= |chain.stages|
    requires exists t, y :: 0 <= t < n && y in chain.stages[t].ruleIds && BranchHit(chain, y)
    ensures i < n && x in chain.stages[i].ruleIds && BranchHit(chain, x)
    ensures forall t, y | 0 <= t < i && y in chain.stages[t].ruleIds :: !BranchHit(chain, y)
  {
    if exists t, y :: 0 <= t < n - 1 && y in chain.stages[t].ruleIds && BranchHit(chain, y) {
      i, x := FirstShared(chain, p, n - 1);
    } else {
      i := n - 1;
      var t, y :| 0 <= t < n && y in chain.stages[t].ruleIds && BranchHit(chain, y);
      x := y;
    }
  }

  /** The first rules of the ordered stages from `t` up to stage `i`, and then `x`. */
  function Lead(chain: AttackChain, i: nat, x: string, t: nat): seq<string>
    requires i < |chain.stages| && forall n | 0 <= n < i :: chain.stages[n].ruleIds != []
    decreases i - t
  {
    if t >= i then [x] else [chain.stages[t].ruleIds[0]] + Lead(chain, i, x, t + 1)
  }

  lemma {:induction false} LeadIsTaken(chain: AttackChain, p: nat, i: nat, x: string, t: nat)
    requires WellFormed(chain) && t <= i < p <= |chain.stages| && x in chain.stages[i].ruleIds && BranchHit(chain, x)
    requires forall n, y | 0 <= n < i && y in chain.stages[n].ruleIds :: !BranchHit(chain, y)
    ensures SparedHits(chain, p, t, Lead(chain, i, x, t)) == 0 && BranchHits(chain, Lead(chain, i, x, t)) == 1
    decreases i - t
  {
    var rules := Lead(chain, i, x, t);
    if t == i {
      assert rules[1..] == [];
      assert Due(chain, p, t, rules[0]);
      assert SparedHits(chain, p, t + 1, []) == 0 && BranchHits(chain, []) == 0;
    } else {
      assert rules[0] in chain.stages[t].ruleIds && rules[1..] == Lead(chain, i, x, t + 1);
      LeadIsTaken(chain, p, i, x, t + 1);
    }
  }

  /** Exactly for which of these chains every hit on a branch completes, in every stream: those whose
      leading ordered stages share no rule with a branch. */
  lemma EveryBranchHitCountsIff(chain: AttackChain, p: nat)
    requires WellFormed(chain) && Branching(chain, p)
    ensures EveryBranchHitCounts(chain) <==> BranchesApart(chain, p)
  {
    if BranchesApart(chain, p) {
      forall hits ensures LocalCount(chain, None, hits) == BranchHits(chain, Rules(hits)) {
        CompletionsAreSparedHits(chain, p, None, hits);
        AllAreSpared(chain, p, 0, Rules(hits));
      }
    } else {
      var i, x := FirstShared(chain, p, p);
      LeadIsTaken(chain, p, i, x, 0);
      var hits := HitsOn(Lead(chain, i, x, 0));
      assert Rules(hits) == Lead(chain, i, x, 0);
      CompletionsAreSparedHits(chain, p, None, hits);
      assert LocalCount(chain, None, hits) != BranchHits(chain, Rules(hits));
    }
  }

  // ----- whole runs -----

  function HitsIn(events: seq<LocalOp>): seq<LocalHit> {
    if events == [] then []
    else (if events[0].LocalMatch? then [events[0].hit] else []) + HitsIn(events[1..])
  }

  lemma {:induction false} BranchHitsAppend(chain: AttackChain, a: seq<string>, b: seq<string>)
    ensures BranchHits(chain, a + b) == BranchHits(chain, a) + BranchHits(chain, b)
  {
    if a == [] {
      assert a + b == b;
    } else {
      assert (a + b)[1..] == a[1..] + b;
      hide BranchHit;
      BranchHitsAppend(chain, a[1..], b);
    }
  }

  /** Every hit on a branch completes, in every stream. */
  ghost predicate EveryBranchHitCounts(chain: AttackChain) {
    forall hits :: LocalCount(chain, None, hits) == BranchHits(chain, Rules(hits))
  }

  lemma HitsAppend(chain: AttackChain, a: seq<LocalHit>, b: seq<LocalHit>)
    ensures BranchHits(chain, Rules(a + b)) == BranchHits(chain, Rules(a)) + BranchHits(chain, Rules(b))
  {
    assert Rules(a + b) == Rules(a) + Rules(b);
    BranchHitsAppend(chain, Rules(a), Rules(b));
  }

  lemma CountsOfMore(chain: AttackChain, current: seq<LocalHit>, rest: seq<seq<LocalHit>>)
    ensures Sum(CountsOf(chain, [current] + rest)) == LocalCount(chain, None, current) + Sum(CountsOf(chain, rest))
  {
    assert CountsOf(chain, [current] + rest)[1..] == CountsOf(chain, rest);
  }

  /** Expiries do not matter to the number of hits. */
  lemma {:induction false} HitsOfStretches(chain: AttackChain, current: seq<LocalHit>, events: seq<LocalOp>)
    requires EveryBranchHitCounts(chain)
    ensures Sum(CountsOf(chain, Stretches(chain, current, events))) == BranchHits(chain, Rules(current + HitsIn(events)))
    decreases |events|
  {
    assert LocalCount(chain, None, current) == BranchHits(chain, Rules(current));
    hide EveryBranchHitCounts, LocalCount, CountsOf, Rules, BranchHits, Sum;
    if events == [] {
      CountsOfMore(chain, current, []);
      assert [current] + [] == [current] && current + [] == current;
      assert Sum(CountsOf(chain, [])) == 0 by { NoCounts(chain); }
    } else {
      match events[0] {
        case LocalMatch(h) =>
          assert current + HitsIn(events) == current + [h] + HitsIn(events[1..]);
          HitsOfStretches(chain, current + [h], events[1..]);
        case LocalSweep(at) =>
          assert HitsIn(events) == HitsIn(events[1..]);
          if current != [] && at - current[|current| - 1].now > chain.timeout as real {
            CountsOfMore(chain, current, Stretches(chain, [], events[1..]));
            HitsOfStretches(chain, [], events[1..]);
            assert [] + HitsIn(events) == HitsIn(events);
            HitsAppend(chain, current, HitsIn(events));
          } else {
            HitsOfStretches(chain, current, events[1..]);
          }
      }
    }
  }

  lemma NoCounts(chain: AttackChain)
    ensures Sum(CountsOf(chain, [])) == 0
  {}

  /** In any run that keeps the definition such a chain and an untracked key raise an incident for each hit
      on a branch, whatever expires, when the leading ordered stages share no rule with a branch. */
  lemma IncidentsAreBranchHits(es: EngineState, j: nat, p: nat, k: string, ops: seq<Op>)
    requires DistinctIds(es.defs) && j < |es.defs| && k != UNKNOWN && KeepsDefinition(es.defs[j], ops)
    requires WellFormed(es.defs[j]) && Branching(es.defs[j], p) && BranchesApart(es.defs[j], p) && (es.defs[j].id, k) !in es.chains
    ensures CountFor(es.defs[j], k, Run(es, ops).1) == BranchHits(es.defs[j], Rules(HitsIn(EventsFor(es.defs[j], k, ops))))
  {
    var chain := es.defs[j];
    var events := EventsFor(chain, k, ops);
    EveryBranchHitCountsIff(chain, p);
    IncidentsAddUp(es, j, k, ops);
    HitsOfStretches(chain, [], events);
    assert [] + HitsIn(events) == HitsIn(events);
  }

  /** For any such chain, with `SparedHits` of each stretch between expiries. */
  lemma IncidentsAreSparedHits(es: EngineState, j: nat, p: nat, k: string, ops: seq<Op>) returns (counts: seq<nat>)
    requires DistinctIds(es.defs) && j < |es.defs| && k != UNKNOWN && KeepsDefinition(es.defs[j], ops)
    requires WellFormed(es.defs[j]) && Branching(es.defs[j], p) && (es.defs[j].id, k) !in es.chains
    ensures var chain := es.defs[j];
            var stretches := Stretches(chain, [], EventsFor(chain, k, ops));
      && CountFor(chain, k, Run(es, ops).1) == Sum(counts) && |counts| == |stretches|
      && forall i | 0 <= i < |stretches| :: counts[i] == SparedHits(chain, p, 0, Rules(stretches[i]))
  {
    var chain := es.defs[j];
    var stretches := Stretches(chain, [], EventsFor(chain, k, ops));
    IncidentsAddUp(es, j, k, ops);
    counts := CountsOf(chain, stretches);
    forall i | 0 <= i < |stretches| ensures counts[i] == SparedHits(chain, p, 0, Rules(stretches[i])) {
      CompletionsAreSparedHits(chain, p, None, stretches[i]);
    }
  }

  // ----- all kinds of chains -----

  /** The number of leading ordered stages. */
  function Leading(chain: AttackChain, i: nat): (p: nat)
    requires i <= |chain.stages|
    ensures i <= p <= |chain.stages|
    ensures forall n | i <= n < p :: chain.stages[n].stageType.Ordered?
    ensures p < |chain.stages| ==> !chain.stages[p].stageType.Ordered?
    decreases |chain.stages| - i
  {
    if i < |chain.stages| && chain.stages[i].stageType.Ordered? then Leading(chain, i + 1) else i
  }

  /** Every chain is all ordered, ordered and then unordered or optional, has a branch, or has no branch and
      an ordered stage behind another kind, so that it never completes. */
  lemma EveryChainIsCounted(chain: AttackChain)
    requires WellFormed(chain)
    ensures var p := Leading(chain, 0);
      || AllOrdered(chain) || Mixed(chain, p) || Branching(chain, p)
      || (Stranded(chain) && forall i | 0 <= i < |chain.stages| :: !chain.stages[i].stageType.Branch?)
  {
    var p := Leading(chain, 0);
    if p < |chain.stages| && !Branching(chain, p) && !Mixed(chain, p) {
      var q :| p <= q < |chain.stages| && chain.stages[q].stageType.Ordered?;
      assert Stranded(chain);
    }
  }
}
