/** Loading another definition under an id whose chain is tracked: the tracked chain keeps the progress
    entries of the old definition. */
module Redefinition {
  import opened Wrappers
  import opened Values
  import opened CorrelationModel
  import opened ChainInvariant
  import opened ChainProjection
  import opened Completability

  /** Over these hits advancing the tracked chain by the definition fails, before any completion. */
  ghost predicate Fails(chain: AttackChain, st: ChainState, hits: seq<LocalHit>)
    decreases |hits|
  {
    hits != [] &&
    match Advance(chain, st, hits[0].rule, hits[0].event, hits[0].now)
    case MissingStage(_) => true
    case Advanced(next, completed) => !completed && Fails(chain, next, hits[1..])
  }

  ghost predicate CanFail(chain: AttackChain, st: ChainState) {
    exists hits :: Fails(chain, st, hits)
  }

  /** A stage that is free has no progress entry. */
  ghost predicate LacksFreeStage(chain: AttackChain, st: ChainState) {
    exists i: nat :: i < |chain.stages| && Free(chain, i) && chain.stages[i].stageId !in st.progress
  }

  lemma {:induction false} AdvanceKeepsKeys(chain: AttackChain, st: ChainState, rule: string, event: Value, now: real, idx: nat)
    requires idx <= |chain.stages|
    ensures AdvanceFrom(chain, st, rule, event, now, idx).state.progress.Keys == st.progress.Keys
    decreases |chain.stages| - idx
  {
    if idx < |chain.stages| {
      AdvanceKeepsKeys(chain, st, rule, event, now, idx + 1);
    }
  }

  /** A failing hit comes to a free stage without an entry. */
  lemma {:induction false} MissingIsFree(chain: AttackChain, st: ChainState, rule: string, event: Value, now: real, idx: nat)
    requires idx <= |chain.stages| && AdvanceFrom(chain, st, rule, event, now, idx).MissingStage?
    requires forall j | 0 <= j < idx && !chain.stages[j].stageType.Ordered? :: rule !in chain.stages[j].ruleIds
    ensures LacksFreeStage(chain, st)
    decreases |chain.stages| - idx
  {
    var stage := chain.stages[idx];
    if rule in stage.ruleIds && stage.stageId !in st.progress {
      assert FreeRule(chain, idx, rule);
    } else {
      MissingIsFree(chain, st, rule, event, now, idx + 1);
    }
  }

  lemma {:induction false} FailureNeedsStage(chain: AttackChain, st: ChainState, hits: seq<LocalHit>)
    requires Fails(chain, st, hits)
    ensures LacksFreeStage(chain, st)
    decreases |hits|
  {
    var h := hits[0];
    var touched := st.(lastMatchAt := h.now, updatedAt := h.now);
    if Advance(chain, st, h.rule, h.event, h.now).MissingStage? {
      MissingIsFree(chain, touched, h.rule, h.event, h.now, 0);
    } else {
      AdvanceKeepsKeys(chain, touched, h.rule, h.event, h.now, 0);
      FailureNeedsStage(chain, Advance(chain, st, h.rule, h.event, h.now).state, hits[1..]);
    }
  }

  /** A hit with a rule of a free stage without an entry fails, or an ordered stage before it is due and
      takes the hit. */
  lemma {:induction false} HitOnMissing(chain: AttackChain, st: ChainState, i: nat, rule: string, idx: nat)
    requires idx <= i < |chain.stages| && FreeRule(chain, i, rule) && chain.stages[i].stageId !in st.progress
    ensures var r := AdvanceFrom(chain, st, rule, Null, 0.0, idx);
            r.Advanced? ==> !r.completed && st.current < i && r.state.current == st.current + 1
    decreases i - idx
  {
    if idx < i {
      HitOnMissing(chain, st, i, rule, idx + 1);
    }
  }

  lemma {:induction false} HitUntilFailure(chain: AttackChain, st: ChainState, i: nat, rule: string) returns (hits: seq<LocalHit>)
    requires i < |chain.stages| && FreeRule(chain, i, rule) && chain.stages[i].stageId !in st.progress
    ensures Fails(chain, st, hits)
    decreases i - st.current
  {
    var touched := st.(lastMatchAt := 0.0, updatedAt := 0.0);
    var h := LocalHit(rule, Null, 0.0);
    HitOnMissing(chain, touched, i, rule, 0);
    AdvanceKeepsKeys(chain, touched, rule, Null, 0.0, 0);
    var r := Advance(chain, st, rule, Null, 0.0);
    if r.MissingStage? {
      hits := [h];
    } else {
      var rest := HitUntilFailure(chain, r.state, i, rule);
      hits := [h] + rest;
      assert hits[1..] == rest;
    }
  }

  /** Exactly when a definition can fail on a chain that is tracked already, whatever its state. */
  lemma FailsIffLacksFreeStage(chain: AttackChain, st: ChainState)
    ensures CanFail(chain, st) <==> LacksFreeStage(chain, st)
  {
    if CanFail(chain, st) {
      var hits :| Fails(chain, st, hits);
      FailureNeedsStage(chain, st, hits);
    }
    if LacksFreeStage(chain, st) {
      var i: nat :| i < |chain.stages| && Free(chain, i) && chain.stages[i].stageId !in st.progress;
      var rule :| FreeRule(chain, i, rule);
      var hits := HitUntilFailure(chain, st, i, rule);
      hide Fails;
      assert CanFail(chain, st);
    }
  }

  /** In terms of the two definitions: a stage of the new one is free and its id is not among the old ones. */
  lemma RedefinitionFailsIff(before: AttackChain, chain: AttackChain, st: ChainState)
    requires ChainOk(before, st)
    ensures CanFail(chain, st) <==>
            exists i: nat :: i < |chain.stages| && Free(chain, i) && chain.stages[i].stageId !in StageIds(before)
  {
    FailsIffLacksFreeStage(chain, st);
    hide CanFail, Free;
  }

  // ----- a failing run -----

  const SAMPLE_MATCH := RuleMatch("first", "", Str("event"), "key", 0, 0, 0, "")

  function SampleChain(stages: seq<ChainStage>): AttackChain {
    AttackChain("chain", true, CorrelationKey.CorrelationId, 3600, stages, 0)
  }

  const OLD := SampleChain([ChainStage("a", Ordered, ["first"], 0), ChainStage("b", Ordered, ["second"], 0)])
  const NEW := SampleChain([ChainStage("c", Unordered, ["second"], 0)])

  /** Loading another definition under an id whose chain is tracked: the tracked chain has no progress
      entry for the new stage, so the next hit on it fails. Both definitions are well formed. */
  lemma RedefinitionFails()
    ensures WellFormed(OLD) && WellFormed(NEW)
    ensures var before := Run(INITIAL, [Load([OLD]), Hit(SAMPLE_MATCH, None, 0.0)]).0;
            before.metrics.errors == 0 &&
            Run(before, [Load([NEW]), Hit(SAMPLE_MATCH.(ruleId := "second"), None, 1.0)]).0.metrics.errors == 1
  {
    var key := ("chain", "key");
    var loaded := Step(INITIAL, Load([OLD])).0;
    LoadOne([], OLD);
    assert loaded == INITIAL.(defs := [OLD]);
    FirstHitTracks(loaded);
    var before := Step(loaded, Hit(SAMPLE_MATCH, None, 0.0)).0;
    RunTwo(INITIAL, Load([OLD]), Hit(SAMPLE_MATCH, None, 0.0));
    var changed := Step(before, Load([NEW])).0;
    LoadOne([OLD], NEW);
    assert Define([OLD], NEW) == [NEW] + [OLD][1..] == [NEW];
    assert changed == before.(defs := [NEW]);
    NewStageIsMissing(changed);
    RunTwo(before, Load([NEW]), Hit(SAMPLE_MATCH.(ruleId := "second"), None, 1.0));
  }

  lemma LoadOne(defs: seq<AttackChain>, chain: AttackChain)
    requires chain.enabled
    ensures LoadChains(defs, [chain]) == Define(defs, chain)
  {
    assert [chain][1..] == [];
    assert LoadChains(Define(defs, chain), []) == Define(defs, chain);
  }

  lemma RunTwo(es: EngineState, first: Op, second: Op)
    ensures Run(es, [first, second]).0 == Step(Step(es, first).0, second).0
  {
    assert [first, second][1..] == [second] && [second][1..] == [];
    var s := Step(es, first).0;
    assert Run(s, [second]).0 == Run(Step(s, second).0, []).0;
    hide Step;
  }

  lemma FirstHitTracks(es: EngineState)
    requires es == INITIAL.(defs := [OLD])
    ensures var after := Step(es, Hit(SAMPLE_MATCH, None, 0.0)).0;
            var key := ("chain", "key");
      && after.defs == [OLD] && after.metrics.errors == 0 && key in after.chains
      && after.chains[key].progress.Keys == {"a", "b"}
  {
    OneDefinition(es, OLD, SAMPLE_MATCH, 0.0);
    SettlesAfterStart(es, OLD, SAMPLE_MATCH, None, 0.0);
    var st := Start(OLD, 0, 0.0);
    assert OLD.stages[0].stageId == "a" && OLD.stages[1].stageId == "b" && |OLD.stages| == 2;
    assert StageIds(OLD) == {"a", "b"};
    assert "first" in OLD.stages[0].ruleIds;
    assert Advance(OLD, st, "first", Str("event"), 0.0).Advanced? && !Advance(OLD, st, "first", Str("event"), 0.0).completed;
  }

  lemma OneDefinition(es: EngineState, chain: AttackChain, m: RuleMatch, now: real)
    requires es.defs == [chain]
    ensures Step(es, Hit(m, None, now)).0 == CorrelateChain(es, chain, m, None, now).0
  {
    assert CorrelateUpTo(es, 0, m, None, now) == (es, []);
  }

  lemma NewStageIsMissing(es: EngineState)
    requires es.defs == [NEW] && es.metrics.errors == 0 && ("chain", "key") in es.chains
    requires es.chains[("chain", "key")].progress.Keys == {"a", "b"}
    ensures Step(es, Hit(SAMPLE_MATCH.(ruleId := "second"), None, 1.0)).0.metrics.errors == 1
  {
    var m := SAMPLE_MATCH.(ruleId := "second");
    OneDefinition(es, NEW, m, 1.0);
    SettlesAfterStart(es, NEW, m, None, 1.0);
    assert NEW.stages[0].stageId == "c" && "second" in NEW.stages[0].ruleIds;
    assert Advance(NEW, es.chains[("chain", "key")], "second", Str("event"), 1.0).MissingStage?;
  }
}
