/** Chains of ordered stages: the one-pass matcher finds as many complete attacks in a stream
    as any choice of hits could. */
module OrderedChains {
  import opened Wrappers
  import opened Sequences
  import opened CorrelationModel
  import opened ChainInvariant
  import opened ChainProjection

  predicate AllOrdered(chain: AttackChain) {
    forall i | 0 <= i < |chain.stages| :: chain.stages[i].stageType.Ordered?
  }

  function Rules(hits: seq<LocalHit>): seq<string> {
    seq(|hits|, i requires 0 <= i < |hits| => hits[i].rule)
  }

  /** `f` picks, in order, one position of the stream for each stage of the pattern. */
  ghost predicate EmbedsAt(pattern: seq<ChainStage>, rules: seq<string>, f: seq<nat>) {
    && |f| == |pattern|
    && (forall i, j | 0 <= i < j < |f| :: f[i] < f[j])
    && (forall i | 0 <= i < |f| :: f[i] < |rules| && rules[f[i]] in pattern[i].ruleIds)
  }

  /** The pattern occurs as a subsequence of the stream. */
  ghost predicate Embeds(pattern: seq<ChainStage>, rules: seq<string>) {
    exists f :: EmbedsAt(pattern, rules, f)
  }

  /** `m` times `size`. */
  function Rounds(m: nat, size: nat): nat {
    if m == 0 then 0 else size + Rounds(m - 1, size)
  }

  function Repeated(stages: seq<ChainStage>, m: nat): seq<ChainStage> {
    if m == 0 then [] else stages + Repeated(stages, m - 1)
  }

  // ----- the greedy count over the endlessly repeated stage list -----

  function Next(stages: seq<ChainStage>, cur: nat): nat
    requires cur < |stages|
  {
    if cur + 1 == |stages| then 0 else cur + 1
  }

  /** The first `t` stages of the repeated list, from position `cur` on. */
  function Cycle(stages: seq<ChainStage>, cur: nat, t: nat): seq<ChainStage>
    requires cur < |stages|
    decreases t
  {
    if t == 0 then [] else [stages[cur]] + Cycle(stages, Next(stages, cur), t - 1)
  }

  /** How many stages the matcher passes. */
  function Greedy(stages: seq<ChainStage>, cur: nat, rules: seq<string>): nat
    requires cur < |stages|
    decreases rules
  {
    if rules == [] then 0
    else if rules[0] in stages[cur].ruleIds then 1 + Greedy(stages, Next(stages, cur), rules[1..])
    else Greedy(stages, cur, rules[1..])
  }

  function Shift(f: seq<nat>): seq<nat> { seq(|f|, i requires 0 <= i < |f| => f[i] + 1) }

  function Unshift(f: seq<nat>): seq<nat>
    requires forall i | 0 <= i < |f| :: 0 < f[i]
  {
    seq(|f|, i requires 0 <= i < |f| => f[i] - 1)
  }

  lemma EmbedsInLonger(pattern: seq<ChainStage>, rules: seq<string>)
    requires rules != [] && Embeds(pattern, rules[1..])
    ensures Embeds(pattern, rules)
  {
    var f :| EmbedsAt(pattern, rules[1..], f);
    assert EmbedsAt(pattern, rules, Shift(f));
  }

  lemma EmbedsWithHead(pattern: seq<ChainStage>, rules: seq<string>)
    requires pattern != [] && rules != []
    requires rules[0] in pattern[0].ruleIds && Embeds(pattern[1..], rules[1..])
    ensures Embeds(pattern, rules)
  {
    var f :| EmbedsAt(pattern[1..], rules[1..], f);
    assert EmbedsAt(pattern, rules, [0] + Shift(f));
  }

  /** Whatever the embedding does with the first hit, the rest of the stream holds the rest. */
  lemma EmbedsWithoutHead(pattern: seq<ChainStage>, rules: seq<string>)
    requires pattern != [] && rules != [] && Embeds(pattern, rules)
    ensures Embeds(pattern[1..], rules[1..])
    ensures rules[0] !in pattern[0].ruleIds ==> Embeds(pattern, rules[1..])
  {
    var f :| EmbedsAt(pattern, rules, f);
    assert forall i | 0 < i < |f| :: f[0] < f[i];
    assert EmbedsAt(pattern[1..], rules[1..], Unshift(f[1..]));
    if rules[0] !in pattern[0].ruleIds {
      assert f[0] != 0;
      assert EmbedsAt(pattern, rules[1..], Unshift(f));
    }
  }

  /** Exactly the first `Greedy` stages of the repeated list occur as a subsequence. */
  lemma {:induction false} GreedyIsOptimal(stages: seq<ChainStage>, cur: nat, rules: seq<string>, t: nat)
    requires cur < |stages|
    ensures Embeds(Cycle(stages, cur, t), rules) <==> t <= Greedy(stages, cur, rules)
    decreases rules
  {
    var pattern := Cycle(stages, cur, t);
    if t == 0 {
      assert EmbedsAt(pattern, rules, []);
    } else if rules == [] {
      forall f: seq<nat> ensures !EmbedsAt(pattern, rules, f) {
        assert |f| == |pattern| ==> 0 < |f| && f[0] >= |rules|;
      }
    } else {
      assert pattern[1..] == Cycle(stages, Next(stages, cur), t - 1);
      GreedyIsOptimal(stages, Next(stages, cur), rules[1..], t - 1);
      GreedyIsOptimal(stages, cur, rules[1..], t);
      if Embeds(pattern, rules) {
        EmbedsWithoutHead(pattern, rules);
      }
      if rules[0] in stages[cur].ruleIds {
        if Embeds(pattern[1..], rules[1..]) {
          EmbedsWithHead(pattern, rules);
        }
      } else if Embeds(pattern, rules[1..]) {
        EmbedsInLonger(pattern, rules);
      }
    }
  }

  lemma {:induction false} CycleFromMiddle(stages: seq<ChainStage>, cur: nat, t: nat)
    requires cur < |stages|
    ensures Cycle(stages, cur, |stages| - cur + t) == stages[cur..] + Cycle(stages, 0, t)
    decreases |stages| - cur
  {
    if cur + 1 < |stages| {
      CycleFromMiddle(stages, cur + 1, t);
    } else {
      assert Cycle(stages, cur, 1 + t) == [stages[cur]] + Cycle(stages, 0, t);
    }
  }

  lemma {:induction false} RepeatedIsCycle(stages: seq<ChainStage>, m: nat)
    requires stages != []
    ensures Repeated(stages, m) == Cycle(stages, 0, Rounds(m, |stages|))
  {
    if m > 0 {
      RepeatedIsCycle(stages, m - 1);
      CycleFromMiddle(stages, 0, Rounds(m - 1, |stages|));
    }
  }

  // ----- the matcher is that greedy count -----

  function Current(o: Option<ChainState>): nat { if o.Some? then o.value.current else 0 }

  ghost predicate ComponentOk(chain: AttackChain, o: Option<ChainState>) {
    o.Some? ==> ChainOk(chain, o.value)
  }

  /** One step of an all-ordered chain: the expected stage or nothing. */
  lemma OrderedStep(chain: AttackChain, o: Option<ChainState>, h: LocalHit)
    requires WellFormed(chain) && AllOrdered(chain) && ComponentOk(chain, o)
    ensures var (next, completed) := LocalStep(chain, o, h);
            && ComponentOk(chain, next)
            && Current(o) < |chain.stages|
            && (h.rule in chain.stages[Current(o)].ruleIds ==>
                  Current(next) == Next(chain.stages, Current(o)) && (completed <==> Current(o) + 1 == |chain.stages|))
            && (h.rule !in chain.stages[Current(o)].ruleIds ==> Current(next) == Current(o) && !completed)
  {
    StartedChainIsOk(chain, 0, h.now);
    var st := if o.Some? then o.value else Start(chain, 0, h.now);
    AdvanceKeepsInvariant(chain, st, h.rule, h.event, h.now);
    AdvanceByTaker(chain, Touched(st, h.now), h.rule, h.event, h.now, 0);
  }

  lemma {:induction false} MatcherIsGreedy(chain: AttackChain, o: Option<ChainState>, hits: seq<LocalHit>)
    requires WellFormed(chain) && AllOrdered(chain) && ComponentOk(chain, o)
    ensures Current(o) < |chain.stages|
    ensures var passed := Current(o) + Greedy(chain.stages, Current(o), Rules(hits));
            var n := LocalCount(chain, o, hits);
            Rounds(n, |chain.stages|) <= passed < Rounds(n + 1, |chain.stages|)
    decreases hits
  {
    hide LocalStep, WellFormed, ChainOk;
    CurrentInRange(chain, o);
    if hits != [] {
      OrderedStep(chain, o, hits[0]);
      var (next, completed) := LocalStep(chain, o, hits[0]);
      MatcherIsGreedy(chain, next, hits[1..]);
      GreedyStep(chain.stages, Current(o), hits);
      CountStep(chain, o, hits);
    }
  }

  lemma CurrentInRange(chain: AttackChain, o: Option<ChainState>)
    requires WellFormed(chain) && ComponentOk(chain, o)
    ensures Current(o) < |chain.stages|
  {
  }

  lemma GreedyStep(stages: seq<ChainStage>, cur: nat, hits: seq<LocalHit>)
    requires cur < |stages| && hits != []
    ensures Greedy(stages, cur, Rules(hits)) ==
            if hits[0].rule in stages[cur].ruleIds then 1 + Greedy(stages, Next(stages, cur), Rules(hits[1..]))
            else Greedy(stages, cur, Rules(hits[1..]))
  {
    assert Rules(hits)[1..] == Rules(hits[1..]);
    assert Rules(hits)[0] == hits[0].rule;
  }

  lemma CountStep(chain: AttackChain, o: Option<ChainState>, hits: seq<LocalHit>)
    requires hits != []
    ensures var (next, completed) := LocalStep(chain, o, hits[0]);
            LocalCount(chain, o, hits) == (if completed then 1 else 0) + LocalCount(chain, next, hits[1..])
  {
  }

  lemma {:induction false} RoundsGrow(a: nat, b: nat, size: nat)
    requires a <= b
    ensures Rounds(a, size) <= Rounds(b, size)
  {
    if a < b {
      RoundsGrow(a, b - 1, size);
    }
  }

  lemma RoundsBelow(m: nat, k: nat, size: nat, passed: nat)
    requires Rounds(k, size) <= passed < Rounds(k + 1, size)
    ensures Rounds(m, size) <= passed <==> m <= k
  {
    if m <= k {
      RoundsGrow(m, k, size);
    } else {
      RoundsGrow(k + 1, m, size);
    }
  }

  /** The local theorem: a fresh all-ordered chain completes exactly as often as its stage
      list, repeated, occurs as a subsequence of the hits. */
  lemma CompletionsAreOptimal(chain: AttackChain, hits: seq<LocalHit>, m: nat)
    requires WellFormed(chain) && AllOrdered(chain)
    ensures Embeds(Repeated(chain.stages, m), Rules(hits)) <==> m <= LocalCount(chain, None, hits)
  {
    MatcherIsGreedy(chain, None, hits);
    RepeatedIsCycle(chain.stages, m);
    GreedyIsOptimal(chain.stages, 0, Rules(hits), Rounds(m, |chain.stages|));
    RoundsBelow(m, LocalCount(chain, None, hits), |chain.stages|, Greedy(chain.stages, 0, Rules(hits)));
  }

  /** In any run that does not replace the definition, whatever other chains, keys and definitions come
      and go, the incidents of an all-ordered chain and an untracked key are a sum over the stretches
      between expiries: for each stretch the largest m such that the stage list repeated m times occurs
      as a subsequence of the key's hits. */
  lemma IncidentsAreOptimal(es: EngineState, j: nat, k: string, ops: seq<Op>) returns (counts: seq<nat>)
    requires DistinctIds(es.defs) && j < |es.defs| && k != UNKNOWN && KeepsDefinition(es.defs[j], ops)
    requires WellFormed(es.defs[j]) && AllOrdered(es.defs[j]) && (es.defs[j].id, k) !in es.chains
    ensures var chain := es.defs[j];
            var stretches := Stretches(chain, [], EventsFor(chain, k, ops));
      && CountFor(chain, k, Run(es, ops).1) == Sum(counts) && |counts| == |stretches|
      && forall i, m: nat | 0 <= i < |stretches| ::
           Embeds(Repeated(chain.stages, m), Rules(stretches[i])) <==> m <= counts[i]
  {
    var chain := es.defs[j];
    var stretches := Stretches(chain, [], EventsFor(chain, k, ops));
    IncidentsAddUp(es, j, k, ops);
    counts := CountsOf(chain, stretches);
    forall i, m: nat | 0 <= i < |stretches|
      ensures Embeds(Repeated(chain.stages, m), Rules(stretches[i])) <==> m <= counts[i]
    {
      CompletionsAreOptimal(chain, stretches[i], m);
    }
  }
}
