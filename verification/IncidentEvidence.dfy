/** What the evidence of an incident shows. */
module IncidentEvidence {
  import opened Values
  import opened Wrappers
  import opened CorrelationModel
  import opened ChainInvariant
  import opened ChainProjection
  import opened OrderedChains

  /** The progress entries are those of the stages, in order, each with rules of its stage, an ordered
      stage with at most one. */
  ghost predicate EvidenceOk(chain: AttackChain, st: ChainState) {
    && |st.order| == |chain.stages|
    && (forall i | 0 <= i < |chain.stages| :: st.order[i] == chain.stages[i].stageId)
    && (forall i | 0 <= i < |chain.stages| :: StageEvidenceOk(chain.stages[i], ProgressOf(chain, st, i)))
  }

  ghost predicate StageEvidenceOk(stage: ChainStage, p: StageProgress) {
    && (forall r | r in p.matchedRules :: r in stage.ruleIds)
    && (stage.stageType.Ordered? ==> |p.matchedRules| <= 1)
  }

  lemma {:induction false} OrderOfDistinctIds(chain: AttackChain, n: nat)
    requires WellFormed(chain) && n <= |chain.stages|
    ensures |IdsInOrder(chain, n)| == n
    ensures forall i | 0 <= i < n :: IdsInOrder(chain, n)[i] == chain.stages[i].stageId
  {
    if n > 0 {
      OrderOfDistinctIds(chain, n - 1);
    }
  }

  lemma StartedHasEvidence(chain: AttackChain, uid: nat, now: real)
    requires WellFormed(chain)
    ensures EvidenceOk(chain, Start(chain, uid, now))
  {
    OrderOfDistinctIds(chain, |chain.stages|);
  }

  lemma {:induction false} AdvanceKeepsOrder(chain: AttackChain, st: ChainState, rule: string, event: Value, now: real, idx: nat)
    requires idx <= |chain.stages|
    ensures AdvanceFrom(chain, st, rule, event, now, idx).state.order == st.order
    decreases |chain.stages| - idx
  {
    if idx < |chain.stages| {
      AdvanceKeepsOrder(chain, st, rule, event, now, idx + 1);
    }
  }

  lemma AdvanceKeepsEvidence(chain: AttackChain, st: ChainState, rule: string, event: Value, now: real)
    requires WellFormed(chain) && ChainOk(chain, st) && EvidenceOk(chain, st)
    ensures EvidenceOk(chain, Advance(chain, st, rule, event, now).state)
  {
    var touched := Touched(st, now);
    var after := Advance(chain, st, rule, event, now).state;
    AdvanceKeepsOrder(chain, touched, rule, event, now, 0);
    AdvanceByTaker(chain, touched, rule, event, now, 0);
    var j := Taker(chain, touched, rule, 0);
    assert forall i | 0 <= i < |chain.stages| :: ProgressOf(chain, touched, i) == ProgressOf(chain, st, i);
    if j < |chain.stages| {
      assert chain.stages[j].stageId in StageIds(chain);
      TakenLeavesBranchesAlone(chain, touched, j, rule, event, now);
      RecordKeepsEvidence(chain.stages[j], ProgressOf(chain, st, j), rule, event, now);
    }
    hide WellFormed, StageEvidenceOk, Taken, Mark, ChainOk, EvidenceOk, ProgressOf, Record, AdvanceFrom;
    OneRecordKeepsEvidence(chain, st, after, j);
  }

  lemma OneRecordKeepsEvidence(chain: AttackChain, st: ChainState, after: ChainState, j: nat)
    requires EvidenceOk(chain, st) && after.order == st.order
    requires forall i | 0 <= i < |chain.stages| && i != j :: ProgressOf(chain, after, i) == ProgressOf(chain, st, i)
    requires j < |chain.stages| ==> StageEvidenceOk(chain.stages[j], ProgressOf(chain, after, j))
    ensures EvidenceOk(chain, after)
  {
    hide ProgressOf, StageEvidenceOk;
  }

  lemma RecordKeepsEvidence(stage: ChainStage, p: StageProgress, rule: string, event: Value, now: real)
    requires StageEvidenceOk(stage, p) && rule in stage.ruleIds
    requires stage.stageType.Ordered? ==> p.matchedRules == []
    ensures StageEvidenceOk(stage, Record(p, rule, event, now))
  {}

  lemma EntryOfStage(chain: AttackChain, st: ChainState, i: nat)
    requires EvidenceOk(chain, st) && i < |chain.stages|
    ensures i < |st.order| && EntryOf(st.progress, st.order[i]) == ProgressOf(chain, st, i)
  {}

  ghost predicate RuleOfChain(chain: AttackChain, rule: string) {
    exists i :: 0 <= i < |chain.stages| && rule in chain.stages[i].ruleIds
  }

  lemma {:induction false} RecordedBelong(chain: AttackChain, st: ChainState, n: nat)
    requires EvidenceOk(chain, st) && ProgressOk(chain, st) && n <= |chain.stages|
    ensures |RulesRecorded(st, n)| == |EventsRecorded(st, n)|
    ensures forall r | r in RulesRecorded(st, n) :: RuleOfChain(chain, r)
  {
    if n > 0 {
      RecordedBelong(chain, st, n - 1);
      EntryOfStage(chain, st, n - 1);
      assert StageEvidenceOk(chain.stages[n - 1], ProgressOf(chain, st, n - 1));
    }
  }

  /** With the first stages all ordered and matched, their entries show one rule each. */
  lemma {:induction false} RecordedInOrder(chain: AttackChain, st: ChainState, n: nat)
    requires EvidenceOk(chain, st) && n <= |chain.stages|
    requires forall i | 0 <= i < n :: chain.stages[i].stageType.Ordered? && ProgressOf(chain, st, i).matchedRules != []
    requires forall i | 0 <= i < n :: ProgressOf(chain, st, i).matched
    ensures |RulesRecorded(st, n)| == n && MatchedEntries(st, n) == n
    ensures forall i | 0 <= i < n :: RulesRecorded(st, n)[i] in chain.stages[i].ruleIds
  {
    if n > 0 {
      RecordedInOrder(chain, st, n - 1);
      EntryOfStage(chain, st, n - 1);
      assert StageEvidenceOk(chain.stages[n - 1], ProgressOf(chain, st, n - 1));
    }
  }

  /** The recorded rules belong to the chain, with one event each; those of an all-ordered chain are one
      for each stage, in order: an occurrence of the whole chain. */
  ghost predicate Supported(chain: AttackChain, incident: SecurityIncident) {
    && incident.attackChainId == chain.id && incident.state == Completed
    && |incident.matchedRules| == |incident.matchedEvents|
    && (forall r | r in incident.matchedRules :: RuleOfChain(chain, r))
    && (AllOrdered(chain) ==> OccursOnce(chain, incident))
  }

  ghost predicate OccursOnce(chain: AttackChain, incident: SecurityIncident) {
    && |incident.matchedRules| == |chain.stages|
    && (forall i | 0 <= i < |chain.stages| :: incident.matchedRules[i] in chain.stages[i].ruleIds)
    && incident.evidence == ChainCompleted(|chain.stages|, |chain.stages|, |chain.stages|)
  }

  lemma CompletionIsSupported(chain: AttackChain, keyValue: string, st: ChainState, rule: string, event: Value, now: real)
    requires WellFormed(chain) && ChainOk(chain, st) && EvidenceOk(chain, st)
    requires Advance(chain, st, rule, event, now).Advanced? && Advance(chain, st, rule, event, now).completed
    ensures Supported(chain, CompletedIncident(chain, keyValue, Advance(chain, st, rule, event, now).state))
  {
    var after := Advance(chain, st, rule, event, now).state;
    AdvanceKeepsInvariant(chain, st, rule, event, now);
    AdvanceKeepsEvidence(chain, st, rule, event, now);
    if AllOrdered(chain) {
      CompletionReachesEnd(chain, st, rule, event, now);
    }
    hide ChainOk, Advance, Supported;
    EvidenceSupports(chain, keyValue, after);
  }

  lemma CompletionReachesEnd(chain: AttackChain, st: ChainState, rule: string, event: Value, now: real)
    requires ChainOk(chain, st) && AllOrdered(chain)
    requires Advance(chain, st, rule, event, now).Advanced? && Advance(chain, st, rule, event, now).completed
    ensures Advance(chain, st, rule, event, now).state.current == |chain.stages|
  {
    AdvanceByTaker(chain, Touched(st, now), rule, event, now, 0);
    hide AllRequiredMatched, ConfidenceSum, AdvanceFrom, Mark;
  }

  lemma EvidenceSupports(chain: AttackChain, keyValue: string, after: ChainState)
    requires EvidenceOk(chain, after) && ProgressOk(chain, after)
    requires AllOrdered(chain) ==> after.current == |chain.stages|
    ensures Supported(chain, CompletedIncident(chain, keyValue, after))
  {
    RecordedBelong(chain, after, |chain.stages|);
    if AllOrdered(chain) {
      RecordedInOrder(chain, after, |chain.stages|);
    }
    hide ProgressOk, RuleOfChain, RulesRecorded, EventsRecorded, MatchedEntries;
  }

  // ----- the evidence is the hits, in the order of their arrival -----

  /** The hits that stage `i` takes, up to a completion. */
  ghost function TakenBy(chain: AttackChain, st: ChainState, hits: seq<LocalHit>, i: nat): seq<LocalHit>
    decreases |hits|
  {
    if hits == [] then []
    else
      var h := hits[0];
      var next := LocalStep(chain, Some(st), h).0;
      (if Taker(chain, Touched(st, h.now), h.rule, 0) == i then [h] else [])
      + if next.Some? then TakenBy(chain, next.value, hits[1..], i) else []
  }

  function EventsOf(hits: seq<LocalHit>): seq<Value> {
    seq(|hits|, i requires 0 <= i < |hits| => hits[i].event)
  }

  /** The entry shows these hits more, in order. */
  ghost predicate ShowsMore(before: StageProgress, after: StageProgress, hits: seq<LocalHit>) {
    && after.matchedRules == before.matchedRules + Rules(hits)
    && after.matchedEvents == before.matchedEvents + EventsOf(hits)
  }

  lemma ShowsBoth(a: StageProgress, b: StageProgress, c: StageProgress, first: seq<LocalHit>, rest: seq<LocalHit>)
    requires ShowsMore(a, b, first) && ShowsMore(b, c, rest)
    ensures ShowsMore(a, c, first + rest)
  {
    assert Rules(first + rest) == Rules(first) + Rules(rest) && EventsOf(first + rest) == EventsOf(first) + EventsOf(rest);
  }

  /** What one hit adds to a stage. */
  lemma HitAddsItself(chain: AttackChain, st: ChainState, h: LocalHit, i: nat)
    requires WellFormed(chain) && ChainOk(chain, st) && i < |chain.stages|
    ensures var taken := Taker(chain, Touched(st, h.now), h.rule, 0) == i;
            var before, after := ProgressOf(chain, st, i), ProgressOf(chain, Advance(chain, st, h.rule, h.event, h.now).state, i);
      && ShowsMore(before, after, if taken then [h] else [])
      && (taken ==> after.matched && after.matchedAt == h.now)
  {
    var touched := Touched(st, h.now);
    AdvanceByTaker(chain, touched, h.rule, h.event, h.now, 0);
    var j := Taker(chain, touched, h.rule, 0);
    assert ProgressOf(chain, touched, i) == ProgressOf(chain, st, i);
    if j < |chain.stages| {
      assert chain.stages[j].stageId in StageIds(chain);
      TakenLeavesBranchesAlone(chain, touched, j, h.rule, h.event, h.now);
    }
    assert Rules([h]) == [h.rule] && EventsOf([h]) == [h.event] && Rules([]) == [] && EventsOf([]) == [];
    hide WellFormed, ChainOk, Taken, AdvanceFrom;
  }

  /** Each stage of a chain that is still tracked shows exactly the rules and events of the hits that it
      took, in the order in which they arrived. */
  lemma {:induction false} EvidenceIsTheHits(chain: AttackChain, st: ChainState, hits: seq<LocalHit>, i: nat)
    requires WellFormed(chain) && ChainOk(chain, st) && i < |chain.stages| && LocalCount(chain, Some(st), hits) == 0
    ensures var end := After(chain, Some(st), hits);
      && end.Some? && ChainOk(chain, end.value)
      && ShowsMore(ProgressOf(chain, st, i), ProgressOf(chain, end.value, i), TakenBy(chain, st, hits, i))
    decreases |hits|
  {
    if hits != [] {
      var h := hits[0];
      var next := Advance(chain, st, h.rule, h.event, h.now).state;
      AdvanceKeepsInvariant(chain, st, h.rule, h.event, h.now);
      FirstHit(chain, st, hits, i);
      HitAddsItself(chain, st, h, i);
      var one, rest := if Taker(chain, Touched(st, h.now), h.rule, 0) == i then [h] else [], TakenBy(chain, next, hits[1..], i);
      hide *;
      EvidenceIsTheHits(chain, next, hits[1..], i);
      ShowsBoth(ProgressOf(chain, st, i), ProgressOf(chain, next, i),
                ProgressOf(chain, After(chain, Some(next), hits[1..]).value, i), one, rest);
    }
  }

  lemma FirstHit(chain: AttackChain, st: ChainState, hits: seq<LocalHit>, i: nat)
    requires WellFormed(chain) && ChainOk(chain, st) && hits != [] && LocalCount(chain, Some(st), hits) == 0
    ensures var h := hits[0];
            var r := Advance(chain, st, h.rule, h.event, h.now);
      && r.Advanced? && !r.completed && LocalCount(chain, Some(r.state), hits[1..]) == 0
      && After(chain, Some(st), hits) == After(chain, Some(r.state), hits[1..])
      && TakenBy(chain, st, hits, i) ==
         (if Taker(chain, Touched(st, h.now), h.rule, 0) == i then [h] else []) + TakenBy(chain, r.state, hits[1..], i)
  {
    AdvanceKeepsInvariant(chain, st, hits[0].rule, hits[0].event, hits[0].now);
    hide WellFormed, ChainOk, ProgressOk, Advance, Touched, Taker;
  }
}
