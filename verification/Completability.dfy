/** Which chains can complete at all. */
module Completability {
  import opened Wrappers
  import opened Values
  import opened CorrelationModel
  import opened ChainInvariant
  import opened ChainProjection
  import opened OrderedChains

  /** No stage before `i` that is not ordered lists the rule, so only stage `i` can take it when the
      ordered stages before it are done. */
  predicate FreeRule(chain: AttackChain, i: nat, rule: string)
    requires i < |chain.stages|
  {
    rule in chain.stages[i].ruleIds &&
    forall j | 0 <= j < i && !chain.stages[j].stageType.Ordered? :: rule !in chain.stages[j].ruleIds
  }

  ghost predicate Free(chain: AttackChain, i: nat)
    requires i < |chain.stages|
  {
    exists rule :: FreeRule(chain, i, rule)
  }

  /** The stages that a completion without a branch waits for, apart from the ordered ones. */
  predicate Awaited(stage: ChainStage) { stage.stageType.Unordered? || stage.stageType.Branch? }

  ghost predicate FreeBranch(chain: AttackChain) {
    exists i: nat :: i < |chain.stages| && chain.stages[i].stageType.Branch? && Free(chain, i)
  }

  ghost predicate AwaitedAreFree(chain: AttackChain) {
    forall i: nat | i < |chain.stages| && Awaited(chain.stages[i]) :: Free(chain, i)
  }

  /** Stage `i` can be taken at all: an ordered stage only with nothing but ordered ones before it. */
  ghost predicate Reachable(chain: AttackChain, i: nat)
    requires i < |chain.stages|
  {
    Free(chain, i) && (chain.stages[i].stageType.Ordered? ==> OrderedBefore(chain, i))
  }

  predicate OrderedBefore(chain: AttackChain, i: nat)
    requires i <= |chain.stages|
  {
    forall j | 0 <= j < i :: chain.stages[j].stageType.Ordered?
  }

  /** A stage that can be taken shares the progress entry of stage `i`. */
  ghost predicate Matchable(chain: AttackChain, i: nat)
    requires i < |chain.stages|
  {
    exists j: nat :: j < |chain.stages| && Reachable(chain, j) && chain.stages[j].stageId == chain.stages[i].stageId
  }

  ghost predicate RequiredAreMatchable(chain: AttackChain) {
    forall i: nat | i < |chain.stages| && !chain.stages[i].stageType.Optional? :: Matchable(chain, i)
  }

  /** What the chain validator guarantees of every definition that is loaded, apart from distinct stage ids. */
  ghost predicate HasRules(chain: AttackChain) {
    chain.stages != [] && forall i | 0 <= i < |chain.stages| :: chain.stages[i].ruleIds != []
  }

  // ----- only such stages are ever matched -----

  lemma {:induction false} TakerIsFree(chain: AttackChain, st: ChainState, rule: string, idx: nat)
    requires idx <= |chain.stages|
    requires forall j | 0 <= j < idx && !chain.stages[j].stageType.Ordered? :: rule !in chain.stages[j].ruleIds
    ensures var i := Taker(chain, st, rule, idx); i < |chain.stages| ==> FreeRule(chain, i, rule)
    decreases |chain.stages| - idx
  {
    if idx < |chain.stages| {
      var stage := chain.stages[idx];
      if rule !in stage.ruleIds || (stage.stageType.Ordered? && idx != st.current) {
        TakerIsFree(chain, st, rule, idx + 1);
      }
    }
  }

  /** What holds of every tracked chain, also when stages share an id. */
  ghost predicate Traced(chain: AttackChain, st: ChainState) {
    && st.progress.Keys == StageIds(chain)
    && st.current <= |chain.stages| && OrderedBefore(chain, st.current)
    && forall i: nat | i < |chain.stages| && ProgressOf(chain, st, i).matched :: Matchable(chain, i)
  }

  lemma StartedIsTraced(chain: AttackChain, now: real)
    ensures Traced(chain, Start(chain, 0, now))
  {}

  lemma TakenIsTraced(chain: AttackChain, st: ChainState, j: nat, h: LocalHit)
    requires Traced(chain, st) && j < |chain.stages| && Reachable(chain, j)
    ensures chain.stages[j].stageId in st.progress
    ensures Traced(chain, Taken(chain, st, j, h.rule, h.event, h.now))
  {
    assert chain.stages[j].stageId in StageIds(chain);
    var next := Taken(chain, st, j, h.rule, h.event, h.now);
    assert next.progress.Keys == StageIds(chain);
    hide Reachable;
    forall i: nat | i < |chain.stages| && ProgressOf(chain, next, i).matched ensures Matchable(chain, i) {
      if chain.stages[i].stageId != chain.stages[j].stageId {
        assert ProgressOf(chain, next, i) == ProgressOf(chain, st, i);
      }
    }
  }

  lemma AllOrderedAreMatchable(chain: AttackChain)
    requires HasRules(chain) && OrderedBefore(chain, |chain.stages|)
    ensures RequiredAreMatchable(chain)
  {
    forall i: nat | i < |chain.stages| ensures Matchable(chain, i) {
      assert FreeRule(chain, i, chain.stages[i].ruleIds[0]);
      assert Reachable(chain, i);
    }
  }

  /** One hit on a chain that is not completable. */
  lemma BlockedStep(chain: AttackChain, o: Option<ChainState>, h: LocalHit)
    requires HasRules(chain) && !FreeBranch(chain) && !RequiredAreMatchable(chain)
    requires o.Some? ==> Traced(chain, o.value)
    ensures var (next, completed) := LocalStep(chain, o, h);
            !completed && next.Some? && Traced(chain, next.value)
  {
    StartedIsTraced(chain, h.now);
    var st := if o.Some? then o.value else Start(chain, 0, h.now);
    var touched := Touched(st, h.now);
    assert forall i | 0 <= i < |chain.stages| :: ProgressOf(chain, touched, i) == ProgressOf(chain, st, i);
    assert Traced(chain, touched);
    AdvanceByTaker(chain, touched, h.rule, h.event, h.now, 0);
    TakerIsFree(chain, touched, h.rule, 0);
    var j := Taker(chain, touched, h.rule, 0);
    if j < |chain.stages| {
      assert Reachable(chain, j);
      TakenIsTraced(chain, touched, j, h);
      var next := Taken(chain, touched, j, h.rule, h.event, h.now);
      if chain.stages[j].stageType.Ordered? && j + 1 == |chain.stages| {
        AllOrderedAreMatchable(chain);
      }
      UnmatchableIsIncomplete(chain, next);
    }
    hide AllRequiredMatched, Taken, FreeRule, AdvanceFrom, Traced, RequiredAreMatchable, Reachable;
  }

  lemma UnmatchableIsIncomplete(chain: AttackChain, st: ChainState)
    requires Traced(chain, st) && !RequiredAreMatchable(chain)
    ensures !AllRequiredMatched(chain, st)
  {
    hide Matchable;
    var i: nat :| i < |chain.stages| && !chain.stages[i].stageType.Optional? && !Matchable(chain, i);
    assert !ProgressOf(chain, st, i).matched;
  }

  lemma {:induction false} BlockedCountsNothing(chain: AttackChain, o: Option<ChainState>, hits: seq<LocalHit>)
    requires HasRules(chain) && !FreeBranch(chain) && !RequiredAreMatchable(chain)
    requires o.Some? ==> Traced(chain, o.value)
    ensures LocalCount(chain, o, hits) == 0
    decreases |hits|
  {
    hide LocalStep, Traced, FreeBranch, RequiredAreMatchable;
    if hits != [] {
      BlockedStep(chain, o, hits[0]);
      BlockedCountsNothing(chain, LocalStep(chain, o, hits[0]).0, hits[1..]);
    }
  }

  lemma StrandedStep(chain: AttackChain, o: Option<ChainState>, h: LocalHit)
    requires WellFormed(chain) && ComponentOk(chain, o) && !FreeBranch(chain) && Stranded(chain)
    ensures !LocalStep(chain, o, h).1 && ComponentOk(chain, LocalStep(chain, o, h).0)
  {
    StartedChainIsOk(chain, 0, h.now);
    var st := if o.Some? then o.value else Start(chain, 0, h.now);
    AdvanceKeepsInvariant(chain, st, h.rule, h.event, h.now);
    TouchedIsOk(chain, st, h.now);
    AdvanceByTaker(chain, Touched(st, h.now), h.rule, h.event, h.now, 0);
    TakerIsFree(chain, Touched(st, h.now), h.rule, 0);
    hide WellFormed, ChainOk, AllRequiredMatched, Taken, FreeRule, AdvanceFrom, StageIds, Stranded;
    StrandedIsIncomplete(chain, Advance(chain, st, h.rule, h.event, h.now).state);
  }

  /** A chain without free branches that has an ordered stage behind another kind of stage never
      completes, whatever is matched. */
  lemma {:induction false} StrandedNeverCompletes(chain: AttackChain, o: Option<ChainState>, hits: seq<LocalHit>)
    requires WellFormed(chain) && ComponentOk(chain, o) && !FreeBranch(chain) && Stranded(chain)
    ensures LocalCount(chain, o, hits) == 0
    decreases |hits|
  {
    hide LocalStep, ComponentOk, WellFormed, FreeBranch, Stranded;
    if hits != [] {
      StrandedStep(chain, o, hits[0]);
      StrandedNeverCompletes(chain, LocalStep(chain, o, hits[0]).0, hits[1..]);
    }
  }

  // ----- feeding a chain its stages -----

  lemma {:induction false} FreeStageTakes(chain: AttackChain, st: ChainState, i: nat, rule: string, idx: nat)
    requires idx <= i < |chain.stages| && FreeRule(chain, i, rule)
    requires if chain.stages[i].stageType.Ordered? then st.current == i
             else forall j | 0 <= j < i && chain.stages[j].stageType.Ordered? :: j != st.current
    ensures Taker(chain, st, rule, idx) == i
    decreases i - idx
  {
    if idx < i {
      FreeStageTakes(chain, st, i, rule, idx + 1);
    }
  }

  ghost predicate Matched(chain: AttackChain, st: ChainState, i: nat)
    requires i < |chain.stages|
  {
    ProgressOf(chain, st, i).matched
  }

  ghost predicate NothingUnmatched(chain: AttackChain, st: ChainState, next: ChainState) {
    forall x: nat | x < |chain.stages| && Matched(chain, st, x) :: Matched(chain, next, x)
  }

  /** Hits the tracked chain at stage `i`, at time 0. */
  lemma FeedStage(chain: AttackChain, st: ChainState, i: nat, rule: string) returns (h: LocalHit, next: ChainState)
    requires st.progress.Keys == StageIds(chain) && i < |chain.stages| && FreeRule(chain, i, rule)
    requires if chain.stages[i].stageType.Ordered? then st.current == i
             else forall j | 0 <= j < i && chain.stages[j].stageType.Ordered? :: j != st.current
    ensures h.now == 0.0 && next.progress.Keys == StageIds(chain)
    ensures next.current == if chain.stages[i].stageType.Ordered? then i + 1 else st.current
    ensures NothingUnmatched(chain, st, next) && Matched(chain, next, i)
    ensures LocalStep(chain, Some(st), h).1 <==>
            match chain.stages[i].stageType
            case Ordered => i + 1 == |chain.stages|
            case Branch => true
            case _ => AllRequiredMatched(chain, next)
    ensures !LocalStep(chain, Some(st), h).1 ==> LocalStep(chain, Some(st), h).0 == Some(next)
  {
    h := LocalHit(rule, Null, 0.0);
    var touched := Touched(st, 0.0);
    AdvanceByTaker(chain, touched, rule, Null, 0.0, 0);
    FreeStageTakes(chain, touched, i, rule, 0);
    assert chain.stages[i].stageId in StageIds(chain);
    next := Taken(chain, touched, i, rule, Null, 0.0);
    TakenUnmatchesNothing(chain, st, i, rule);
    hide Taken, AllRequiredMatched, FreeRule, AdvanceFrom, Taker, NothingUnmatched, Matched;
  }

  lemma TakenUnmatchesNothing(chain: AttackChain, st: ChainState, i: nat, rule: string)
    requires st.progress.Keys == StageIds(chain) && i < |chain.stages| && chain.stages[i].stageId in st.progress
    ensures var next := Taken(chain, Touched(st, 0.0), i, rule, Null, 0.0);
      && next.progress.Keys == StageIds(chain) && NothingUnmatched(chain, st, next) && Matched(chain, next, i)
      && next.current == if chain.stages[i].stageType.Ordered? then i + 1 else st.current
  {}

  lemma CountFirst(chain: AttackChain, o: Option<ChainState>, h: LocalHit, rest: seq<LocalHit>)
    ensures LocalCount(chain, o, [h] + rest)
         == (if LocalStep(chain, o, h).1 then 1 else 0) + LocalCount(chain, LocalStep(chain, o, h).0, rest)
  {
    assert ([h] + rest)[1..] == rest;
  }

  /** All that can be taken among the first `n` stages has been. */
  ghost predicate ReachedUpTo(chain: AttackChain, st: ChainState, n: nat)
    requires n <= |chain.stages|
  {
    forall x: nat | x < n && Reachable(chain, x) :: Matched(chain, st, x)
  }

  lemma OneMoreReached(chain: AttackChain, st: ChainState, next: ChainState, i: nat)
    requires i < |chain.stages| && ReachedUpTo(chain, st, i) && NothingUnmatched(chain, st, next)
    requires Reachable(chain, i) ==> Matched(chain, next, i)
    ensures ReachedUpTo(chain, next, i + 1)
  {
    hide Reachable, Matched;
  }

  /** With everything matched that can be, the required stages are. */
  lemma AllReachedIsEnough(chain: AttackChain, st: ChainState)
    requires RequiredAreMatchable(chain) && st.progress.Keys == StageIds(chain) && ReachedUpTo(chain, st, |chain.stages|)
    ensures AllRequiredMatched(chain, st)
  {
    hide Reachable;
    forall i: nat | i < |chain.stages| && !chain.stages[i].stageType.Optional?
      ensures chain.stages[i].stageId in st.progress && st.progress[chain.stages[i].stageId].matched
    {
      assert chain.stages[i].stageId in StageIds(chain);
      var j: nat :| j < |chain.stages| && Reachable(chain, j) && chain.stages[j].stageId == chain.stages[i].stageId;
      assert Matched(chain, st, j);
    }
  }

  lemma MatchedStayRequired(chain: AttackChain, st: ChainState, next: ChainState)
    requires AllRequiredMatched(chain, st) && st.progress.Keys == next.progress.Keys && NothingUnmatched(chain, st, next)
    ensures AllRequiredMatched(chain, next)
  {
    forall i: nat | i < |chain.stages| && !chain.stages[i].stageType.Optional?
      ensures chain.stages[i].stageId in next.progress && next.progress[chain.stages[i].stageId].matched
    {
      assert Matched(chain, st, i);
    }
  }

  /** Stage `p` is the first that is not ordered, all before it are done, and so is what can be taken of
      the stages before `i`: hitting the others that can be taken, and `p` once more, completes the chain. */
  lemma {:induction false} FeedOthers(chain: AttackChain, st: ChainState, p: nat, i: nat) returns (hits: seq<LocalHit>)
    requires HasRules(chain) && RequiredAreMatchable(chain) && st.progress.Keys == StageIds(chain)
    requires st.current == p < |chain.stages| && OrderedBefore(chain, p) && !chain.stages[p].stageType.Ordered?
    requires p <= i <= |chain.stages| && ReachedUpTo(chain, st, i)
    ensures 0 < LocalCount(chain, Some(st), hits) && hits != [] && hits[0].now == 0.0
    decreases |chain.stages| - i
  {
    if i == |chain.stages| {
      var rule := chain.stages[p].ruleIds[0];
      var h, next := FeedStage(chain, st, p, rule);
      AllReachedIsEnough(chain, st);
      MatchedStayRequired(chain, st, next);
      hits := [h] + [];
      CountFirst(chain, Some(st), h, []);
    } else if chain.stages[i].stageType.Ordered? || !Reachable(chain, i) {
      assert !Reachable(chain, i);
      hide Reachable;
      OneMoreReached(chain, st, st, i);
      hits := FeedOthers(chain, st, p, i + 1);
    } else {
      var rule :| FreeRule(chain, i, rule);
      hide HasRules, RequiredAreMatchable, AllRequiredMatched, LocalStep, LocalCount, FreeRule, ReachedUpTo, Matched;
      var h, next := FeedStage(chain, st, i, rule);
      OneMoreReached(chain, st, next, i);
      var rest := [];
      if !LocalStep(chain, Some(st), h).1 {
        rest := FeedOthers(chain, next, p, i + 1);
      }
      hits := [h] + rest;
      CountFirst(chain, Some(st), h, rest);
    }
  }

  /** The ordered stages before `i` are done; hitting the following ones, then the others, completes the
      chain. */
  lemma {:induction false} FeedOrdered(chain: AttackChain, st: ChainState, i: nat) returns (hits: seq<LocalHit>)
    requires HasRules(chain) && (FreeBranch(chain) || RequiredAreMatchable(chain)) && st.progress.Keys == StageIds(chain)
    requires st.current == i < |chain.stages| && OrderedBefore(chain, i) && ReachedUpTo(chain, st, i)
    ensures 0 < LocalCount(chain, Some(st), hits) && hits != [] && hits[0].now == 0.0
    decreases |chain.stages| - i
  {
    if chain.stages[i].stageType.Ordered? {
      var rule := chain.stages[i].ruleIds[0];
      assert FreeRule(chain, i, rule);
      assert OrderedBefore(chain, i + 1);
      hide OrderedBefore;
      var h, next := FeedStage(chain, st, i, rule);
      hide HasRules, RequiredAreMatchable, FreeBranch, LocalStep, LocalCount, FreeRule, ReachedUpTo, Matched, Reachable;
      OneMoreReached(chain, st, next, i);
      var rest := [];
      if !LocalStep(chain, Some(st), h).1 {
        rest := FeedOrdered(chain, next, i + 1);
      }
      hits := [h] + rest;
      CountFirst(chain, Some(st), h, rest);
    } else if FreeBranch(chain) {
      hits := FeedBranch(chain, st);
    } else {
      hits := FeedOthers(chain, st, i, i);
    }
  }

  lemma FeedBranch(chain: AttackChain, st: ChainState) returns (hits: seq<LocalHit>)
    requires FreeBranch(chain) && st.progress.Keys == StageIds(chain)
    requires st.current < |chain.stages| && !chain.stages[st.current].stageType.Ordered?
    ensures 0 < LocalCount(chain, Some(st), hits) && hits != [] && hits[0].now == 0.0
  {
    var b: nat :| b < |chain.stages| && chain.stages[b].stageType.Branch? && Free(chain, b);
    var rule :| FreeRule(chain, b, rule);
    hide FreeRule, LocalStep, LocalCount, Free, FreeBranch;
    var h, next := FeedStage(chain, st, b, rule);
    hits := [h] + [];
    CountFirst(chain, Some(st), h, []);
  }

  /** A fresh chain counts like one started at the time of its first hit. */
  lemma CountFromStart(chain: AttackChain, hits: seq<LocalHit>)
    requires hits != [] && hits[0].now == 0.0
    ensures LocalCount(chain, None, hits) == LocalCount(chain, Some(Start(chain, 0, 0.0)), hits)
  {}

  ghost predicate Completable(chain: AttackChain) {
    exists hits :: 0 < LocalCount(chain, None, hits)
  }

  /** Exactly which definitions can complete, whether or not their stages share rules or ids: those with
      a branch stage that is free, and those in which every stage that must be matched shares its
      progress entry with a stage that can be taken. */
  lemma CompletableIff(chain: AttackChain)
    requires HasRules(chain)
    ensures Completable(chain) <==> FreeBranch(chain) || RequiredAreMatchable(chain)
  {
    if FreeBranch(chain) || RequiredAreMatchable(chain) {
      hide FreeBranch, RequiredAreMatchable, LocalCount;
      var hits := FeedOrdered(chain, Start(chain, 0, 0.0), 0);
      CountFromStart(chain, hits);
    } else {
      forall hits ensures LocalCount(chain, None, hits) == 0 {
        BlockedCountsNothing(chain, None, hits);
      }
    }
  }

  /** With distinct stage ids: no ordered stage stands behind another kind of stage, and every stage to be
      waited for is free. */
  lemma DistinctIdsCompletableIff(chain: AttackChain)
    requires WellFormed(chain)
    ensures Completable(chain) <==> FreeBranch(chain) || (!Stranded(chain) && AwaitedAreFree(chain))
  {
    CompletableIff(chain);
    hide Completable, Free;
    forall i: nat | i < |chain.stages| ensures Matchable(chain, i) <==> Reachable(chain, i) {
      MatchableIsReachable(chain, i);
    }
    hide Matchable, FreeRule, FreeBranch;
    if !Stranded(chain) && AwaitedAreFree(chain) {
      forall i: nat | i < |chain.stages| && !chain.stages[i].stageType.Optional? ensures Reachable(chain, i) {
        FirstRuleIsFree(chain, i);
      }
    }
    if RequiredAreMatchable(chain) {
      forall p, q | 0 <= p < q < |chain.stages| && chain.stages[q].stageType.Ordered?
        ensures chain.stages[p].stageType.Ordered?
      {
        assert Reachable(chain, q);
      }
    }
  }

  lemma MatchableIsReachable(chain: AttackChain, i: nat)
    requires WellFormed(chain) && i < |chain.stages|
    ensures Matchable(chain, i) <==> Reachable(chain, i)
  {
    hide Reachable;
    if Matchable(chain, i) {
      var j: nat :| j < |chain.stages| && Reachable(chain, j) && chain.stages[j].stageId == chain.stages[i].stageId;
      assert j == i;
    }
  }

  lemma FirstRuleIsFree(chain: AttackChain, i: nat)
    requires WellFormed(chain) && i < |chain.stages|
    ensures OrderedBefore(chain, i) ==> Free(chain, i)
  {
    if OrderedBefore(chain, i) {
      assert FreeRule(chain, i, chain.stages[i].ruleIds[0]);
    }
  }

  /** Two unordered stages with the same single rule: the second is never matched, so the chain, which
      the chain validator accepts, never completes. */
  lemma SharedRuleNeverCompletes(id: string, rule: string, timeout: int, hits: seq<LocalHit>)
    ensures var a, b := ChainStage("a", Unordered, [rule], 0), ChainStage("b", Unordered, [rule], 0);
            var chain := AttackChain(id, true, SourceIp, timeout, [a, b], 0);
            WellFormed(chain) && LocalCount(chain, None, hits) == 0
  {
    var a, b := ChainStage("a", Unordered, [rule], 0), ChainStage("b", Unordered, [rule], 0);
    var chain := AttackChain(id, true, SourceIp, timeout, [a, b], 0);
    assert chain.stages[0] == a && chain.stages[1] == b && rule in a.ruleIds;
    assert !Free(chain, 1);
    assert !Matchable(chain, 1);
    assert !RequiredAreMatchable(chain);
    BlockedCountsNothing(chain, None, hits);
  }
}
