/** What holds of every active chain between calls of `advance`, and which chains can
    complete at all. */
module ChainInvariant {
  import opened Values
  import opened CorrelationModel

  /** What the chain validator is to ensure of a definition before it is loaded; when it does is the
      matter of ChainLoading. */
  ghost predicate WellFormed(chain: AttackChain) {
    && 0 < |chain.stages|
    && (forall i, j | 0 <= i < j < |chain.stages| :: chain.stages[i].stageId != chain.stages[j].stageId)
    && (forall i | 0 <= i < |chain.stages| :: chain.stages[i].ruleIds != [])
  }

  function ProgressOf(chain: AttackChain, st: ChainState, i: nat): StageProgress
    requires i < |chain.stages|
  {
    var id := chain.stages[i].stageId;
    if id in st.progress then st.progress[id] else UNMATCHED
  }

  /** Modifier times number of recorded rules, summed over the first `n` stages. */
  ghost function ConfidenceSum(chain: AttackChain, st: ChainState, n: nat): int
    requires n <= |chain.stages|
  {
    if n == 0 then 0
    else ConfidenceSum(chain, st, n - 1)
         + chain.stages[n - 1].confidenceModifier * |ProgressOf(chain, st, n - 1).matchedRules|
  }

  /** The part of the invariant that also holds of a chain at the moment it completes. */
  ghost predicate ProgressOk(chain: AttackChain, st: ChainState) {
    && st.progress.Keys == StageIds(chain)
    && st.current <= |chain.stages|
    && (forall i | 0 <= i < st.current ::
          chain.stages[i].stageType.Ordered? && ProgressOf(chain, st, i).matched)
    && (forall i | st.current <= i < |chain.stages| ::
          chain.stages[i].stageType.Ordered? ==> !ProgressOf(chain, st, i).matched)
    && (forall i | 0 <= i < |chain.stages| ::
          && (ProgressOf(chain, st, i).matched <==> ProgressOf(chain, st, i).matchedRules != [])
          && |ProgressOf(chain, st, i).matchedRules| == |ProgressOf(chain, st, i).matchedEvents|)
    && st.confidence == chain.confidenceModifier + ConfidenceSum(chain, st, |chain.stages|)
  }

  /** What holds of a chain that is still being tracked. */
  ghost predicate ChainOk(chain: AttackChain, st: ChainState) {
    && ProgressOk(chain, st)
    && st.current < |chain.stages|
    && (forall i | 0 <= i < |chain.stages| ::
          chain.stages[i].stageType.Branch? ==> !ProgressOf(chain, st, i).matched)
  }

  lemma StartedChainIsOk(chain: AttackChain, uid: nat, now: real)
    requires WellFormed(chain)
    ensures ChainOk(chain, Start(chain, uid, now))
  {
    NothingRecorded(chain, Start(chain, uid, now), |chain.stages|);
  }

  lemma {:induction false} NothingRecorded(chain: AttackChain, st: ChainState, n: nat)
    requires n <= |chain.stages|
    requires forall i | 0 <= i < n :: ProgressOf(chain, st, i).matchedRules == []
    ensures ConfidenceSum(chain, st, n) == 0
  {
    if n > 0 {
      NothingRecorded(chain, st, n - 1);
    }
  }

  /** Recording one rule at stage `j` adds that stage's modifier once. */
  lemma {:induction false} MarkAddsModifier(chain: AttackChain, st: ChainState, j: nat, rule: string, event: Value, now: real, n: nat)
    requires WellFormed(chain) && j < |chain.stages| && n <= |chain.stages|
    requires chain.stages[j].stageId in st.progress
    ensures ConfidenceSum(chain, Mark(st, chain.stages[j], rule, event, now), n)
         == ConfidenceSum(chain, st, n) + (if j < n then chain.stages[j].confidenceModifier else 0)
  {
    var marked := Mark(st, chain.stages[j], rule, event, now);
    if n > 0 {
      MarkAddsModifier(chain, st, j, rule, event, now, n - 1);
      if n - 1 == j {
        var k := |ProgressOf(chain, st, j).matchedRules|;
        assert |ProgressOf(chain, marked, j).matchedRules| == k + 1;
        assert chain.stages[j].confidenceModifier * (k + 1) == chain.stages[j].confidenceModifier * k + chain.stages[j].confidenceModifier;
      } else {
        assert ProgressOf(chain, marked, n - 1) == ProgressOf(chain, st, n - 1);
      }
    }
  }

  /** ConfidenceSum looks at nothing but the progress entries. */
  lemma {:induction false} SumReadsProgressOnly(chain: AttackChain, a: ChainState, b: ChainState, n: nat)
    requires n <= |chain.stages| && a.progress == b.progress
    ensures ConfidenceSum(chain, a, n) == ConfidenceSum(chain, b, n)
  {
    if n > 0 {
      SumReadsProgressOnly(chain, a, b, n - 1);
    }
  }

  lemma TakenAddsModifier(chain: AttackChain, st: ChainState, j: nat, rule: string, event: Value, now: real)
    requires WellFormed(chain) && j < |chain.stages| && chain.stages[j].stageId in st.progress
    ensures ConfidenceSum(chain, Taken(chain, st, j, rule, event, now), |chain.stages|)
         == ConfidenceSum(chain, st, |chain.stages|) + chain.stages[j].confidenceModifier
  {
    MarkAddsModifier(chain, st, j, rule, event, now, |chain.stages|);
    SumReadsProgressOnly(chain, Mark(st, chain.stages[j], rule, event, now),
                         Taken(chain, st, j, rule, event, now), |chain.stages|);
  }

  lemma MarkKeepsProgress(chain: AttackChain, st: ChainState, j: nat, rule: string, event: Value, now: real)
    requires WellFormed(chain) && ProgressOk(chain, st) && j < |chain.stages|
    requires chain.stages[j].stageType.Ordered? ==> j == st.current
    ensures chain.stages[j].stageId in st.progress
    ensures ProgressOk(chain, Taken(chain, st, j, rule, event, now))
  {
    var after := Taken(chain, st, j, rule, event, now);
    forall i | 0 <= i < |chain.stages|
      ensures ProgressOf(chain, after, i)
           == if i == j then Record(ProgressOf(chain, st, j), rule, event, now) else ProgressOf(chain, st, i)
    {
    }
    TakenAddsModifier(chain, st, j, rule, event, now);
    assert after.progress.Keys == st.progress.Keys;
    assert after.confidence == st.confidence + chain.stages[j].confidenceModifier;
    hide WellFormed, ConfidenceSum, ProgressOf, ProgressOk, StageIds;
    RecordedIsProgress(chain, st, after, j, rule, event, now);
  }

  lemma RecordedIsProgress(chain: AttackChain, st: ChainState, after: ChainState, j: nat, rule: string, event: Value, now: real)
    requires ProgressOk(chain, st) && j < |chain.stages| && after.progress.Keys == st.progress.Keys
    requires forall i | 0 <= i < |chain.stages| ::
      ProgressOf(chain, after, i) == if i == j then Record(ProgressOf(chain, st, j), rule, event, now) else ProgressOf(chain, st, i)
    requires chain.stages[j].stageType.Ordered? ==> j == st.current
    requires after.current == if chain.stages[j].stageType.Ordered? then j + 1 else st.current
    requires ConfidenceSum(chain, after, |chain.stages|) - after.confidence == ConfidenceSum(chain, st, |chain.stages|) - st.confidence
    ensures ProgressOk(chain, after)
  {
    hide ProgressOf, ConfidenceSum, StageIds;
  }

  /** The first stage from `idx` on that takes the rule; the number of stages when none does. */
  function Taker(chain: AttackChain, st: ChainState, rule: string, idx: nat): (j: nat)
    requires idx <= |chain.stages|
    ensures idx <= j <= |chain.stages|
    ensures j < |chain.stages| ==> rule in chain.stages[j].ruleIds && (chain.stages[j].stageType.Ordered? ==> j == st.current)
    ensures forall i | idx <= i < j :: rule in chain.stages[i].ruleIds ==> chain.stages[i].stageType.Ordered? && i != st.current
    decreases |chain.stages| - idx
  {
    if idx == |chain.stages| then idx
    else if rule !in chain.stages[idx].ruleIds || (chain.stages[idx].stageType.Ordered? && idx != st.current) then
      Taker(chain, st, rule, idx + 1)
    else idx
  }

  /** The state after stage `j` took the rule. */
  function Taken(chain: AttackChain, st: ChainState, j: nat, rule: string, event: Value, now: real): ChainState
    requires j < |chain.stages| && chain.stages[j].stageId in st.progress
  {
    var marked := Mark(st, chain.stages[j], rule, event, now);
    if chain.stages[j].stageType.Ordered? then marked.(current := j + 1) else marked
  }

  /** What `advance` decides, in terms of the stage that took the rule. */
  lemma {:induction false} AdvanceByTaker(chain: AttackChain, st: ChainState, rule: string, event: Value, now: real, idx: nat)
    requires idx <= |chain.stages| && st.progress.Keys == StageIds(chain)
    ensures var j := Taker(chain, st, rule, idx);
            AdvanceFrom(chain, st, rule, event, now, idx) ==
            if j == |chain.stages| then Advanced(st, false)
            else
              var next := Taken(chain, st, j, rule, event, now);
              Advanced(next, match chain.stages[j].stageType
                             case Ordered => j + 1 == |chain.stages|
                             case Branch => true
                             case _ => AllRequiredMatched(chain, next))
    decreases |chain.stages| - idx
  {
    if idx < |chain.stages| {
      assert chain.stages[idx].stageId in StageIds(chain);
      AdvanceByTaker(chain, st, rule, event, now, idx + 1);
    }
  }

  ghost function Touched(st: ChainState, now: real): ChainState {
    st.(lastMatchAt := now, updatedAt := now)
  }

  /** Only the timestamps of a chain change before a stage takes the rule. */
  lemma TouchedIsOk(chain: AttackChain, st: ChainState, now: real)
    requires ChainOk(chain, st)
    ensures ChainOk(chain, Touched(st, now))
  {
    SumReadsProgressOnly(chain, st, Touched(st, now), |chain.stages|);
    assert forall i | 0 <= i < |chain.stages| :: ProgressOf(chain, Touched(st, now), i) == ProgressOf(chain, st, i);
  }

  /** `advance` never fails on a chain started from the same definition, keeps the invariant,
      and leaves a chain that did not complete fit to be tracked. */
  lemma AdvanceKeepsInvariant(chain: AttackChain, st: ChainState, rule: string, event: Value, now: real)
    requires WellFormed(chain) && ChainOk(chain, st)
    ensures var r := Advance(chain, st, rule, event, now);
            && r.Advanced?
            && ProgressOk(chain, r.state)
            && (!r.completed ==> ChainOk(chain, r.state))
  {
    var touched := Touched(st, now);
    TouchedIsOk(chain, st, now);
    AdvanceByTaker(chain, touched, rule, event, now, 0);
    var j := Taker(chain, touched, rule, 0);
    hide WellFormed, ConfidenceSum, AdvanceFrom;
    if j < |chain.stages| {
      MarkKeepsProgress(chain, touched, j, rule, event, now);
      if !chain.stages[j].stageType.Branch? {
        TakenLeavesBranchesAlone(chain, touched, j, rule, event, now);
      }
    }
  }

  lemma TakenLeavesBranchesAlone(chain: AttackChain, st: ChainState, j: nat, rule: string, event: Value, now: real)
    requires WellFormed(chain) && j < |chain.stages| && chain.stages[j].stageId in st.progress
    ensures forall i | 0 <= i < |chain.stages| && i != j ::
              ProgressOf(chain, Taken(chain, st, j, rule, event, now), i) == ProgressOf(chain, st, i)
    ensures ProgressOf(chain, Taken(chain, st, j, rule, event, now), j) == Record(st.progress[chain.stages[j].stageId], rule, event, now)
  {
  }

  /** An ordered stage behind a stage that is not ordered can never be reached. */
  ghost predicate Stranded(chain: AttackChain) {
    exists p, q :: 0 <= p < q < |chain.stages|
      && !chain.stages[p].stageType.Ordered? && chain.stages[q].stageType.Ordered?
  }

  lemma StrandedIsIncomplete(chain: AttackChain, st: ChainState)
    requires ProgressOk(chain, st) && Stranded(chain)
    ensures st.current < |chain.stages| && !AllRequiredMatched(chain, st)
  {}
}
