/** The correlation engine with its mutable parts. Every method is proved against the step
    function of CorrelationModel that it implements. */
module CorrelationEngine {
  import opened Wrappers
  import opened Sequences
  import opened Values
  import opened CorrelationModel
  import opened ChainProjection

  class ActiveChain {
    const incidentId: nat
    const chainId: string
    const keyValue: string
    const createdAt: real
    var updatedAt: real
    var lastMatchAt: real
    var stageProgress: map<string, StageProgress>
    /** The keys of `stageProgress` in the order of their insertion. */
    const stageOrder: seq<string>
    var currentStageIndex: nat
    var confidence: int
    var expired: bool

    ghost function View(): ChainState
      reads this
    {
      ChainState(incidentId, createdAt, updatedAt, lastMatchAt, stageProgress, stageOrder, currentStageIndex, confidence, expired)
    }

    constructor (chain: AttackChain, key: string, uid: nat, now: real)
      ensures View() == Start(chain, uid, now) && chainId == chain.id && keyValue == key
    {
      incidentId, chainId, keyValue := uid, chain.id, key;
      createdAt, updatedAt, lastMatchAt := now, now, now;
      stageProgress := map id | id in StageIds(chain) :: UNMATCHED;
      stageOrder := IdsInOrder(chain, |chain.stages|);
      currentStageIndex, confidence, expired := 0, chain.confidenceModifier, false;
    }

    /** The four updates that every matching branch of `advance` makes. */
    method RecordMatch(stage: ChainStage, rule: string, event: Value, now: real)
      requires stage.stageId in stageProgress
      modifies this
      ensures View() == Mark(old(View()), stage, rule, event, now)
    {
      stageProgress := stageProgress[stage.stageId := Record(stageProgress[stage.stageId], rule, event, now)];
      confidence := confidence + stage.confidenceModifier;
    }
  }

  class ChainTracker {
    var chains: map<ChainKey, ActiveChain>
    /** The values of the tracked chains. */
    ghost var contents: map<ChainKey, ChainState>
    /** The active chains started so far. */
    ghost var objects: set<ActiveChain>

    /** Every active chain is filed under its own chain id and key value, so no two keys share
        one, and `contents` is up to date. */
    ghost predicate Valid()
      reads this, objects
    {
      && chains.Keys == contents.Keys
      && (forall key | key in chains :: chains[key] in objects)
      && (forall key | key in chains :: key == (chains[key].chainId, chains[key].keyValue))
      && (forall key | key in chains :: chains[key].View() == contents[key])
    }

    constructor ()
      ensures Valid() && chains == map[] && contents == map[] && objects == {}
    {
      chains, contents, objects := map[], map[], {};
    }

    method StartChain(chain: AttackChain, keyValue: string, uid: nat, now: real) returns (active: ActiveChain)
      requires Valid()
      modifies this
      ensures Valid() && fresh(active)
      ensures chains == old(chains)[(chain.id, keyValue) := active]
      ensures contents == old(contents)[(chain.id, keyValue) := Start(chain, uid, now)]
      ensures objects == old(objects) + {active}
    {
      active := new ActiveChain(chain, keyValue, uid, now);
      chains := chains[(chain.id, keyValue) := active];
      contents := contents[(chain.id, keyValue) := active.View()];
      objects := objects + {active};
    }

    method AllRequiredMatched(chain: AttackChain, active: ActiveChain) returns (all: bool)
      ensures all == CorrelationModel.AllRequiredMatched(chain, active.View())
    {
      for i := 0 to |chain.stages|
        invariant forall x | 0 <= x < i && !chain.stages[x].stageType.Optional? ::
          chain.stages[x].stageId in active.stageProgress && active.stageProgress[chain.stages[x].stageId].matched
      {
        var stage := chain.stages[i];
        if !stage.stageType.Optional? {
          if stage.stageId !in active.stageProgress || !active.stageProgress[stage.stageId].matched {
            return false;
          }
        }
      }
      return true;
    }

    /** The scan of `advance`. Returns whether the chain completed; None when a stage has no
        progress entry. */
    method AdvanceChain(chain: AttackChain, active: ActiveChain, rule: string, event: Value, now: real) returns (r: Option<bool>)
      modifies active
      ensures var outcome := CorrelationModel.Advance(chain, old(active.View()), rule, event, now);
              && active.View() == outcome.state
              && r == if outcome.Advanced? then Some(outcome.completed) else None
    {
      active.lastMatchAt := now;
      active.updatedAt := now;
      ghost var touched := active.View();
      for i := 0 to |chain.stages|
        invariant active.View() == touched
        invariant AdvanceFrom(chain, touched, rule, event, now, i) == AdvanceFrom(chain, touched, rule, event, now, 0)
      {
        var stage := chain.stages[i];
        if rule !in stage.ruleIds {
          continue;
        }
        if stage.stageId !in active.stageProgress {
          return None;
        }
        match stage.stageType {
          case Ordered =>
            if i != active.currentStageIndex {
              continue;
            }
            active.RecordMatch(stage, rule, event, now);
            active.currentStageIndex := i + 1;
            return Some(active.currentStageIndex >= |chain.stages|);
          case Branch =>
            active.RecordMatch(stage, rule, event, now);
            return Some(true);
          case _ =>
            active.RecordMatch(stage, rule, event, now);
            var all := AllRequiredMatched(chain, active);
            return Some(all);
        }
      }
      return Some(false);
    }

    /** `advance` on the tracked chain `key`. */
    method Advance(chain: AttackChain, key: ChainKey, rule: string, event: Value, now: real) returns (r: Option<bool>)
      requires Valid() && key in chains
      modifies this, chains[key]
      ensures Valid() && chains == old(chains) && objects == old(objects)
      ensures var outcome := CorrelationModel.Advance(chain, old(contents)[key], rule, event, now);
              && contents == old(contents)[key := outcome.state]
              && r == if outcome.Advanced? then Some(outcome.completed) else None
    {
      r := AdvanceChain(chain, chains[key], rule, event, now);
      contents := contents[key := chains[key].View()];
    }

    method Remove(key: ChainKey)
      requires Valid()
      modifies this
      ensures Valid() && chains == old(chains) - {key} && contents == old(contents) - {key} && objects == old(objects)
    {
      chains := chains - {key};
      contents := contents - {key};
    }

    method FindDef(defs: seq<AttackChain>, id: string) returns (r: Option<AttackChain>)
      ensures r.Some? ==> r.value in defs && r.value.id == id
      ensures r.None? ==> forall d | d in defs :: d.id != id
    {
      for i := 0 to |defs|
        invariant forall x | 0 <= x < i :: defs[x].id != id
      {
        if defs[i].id == id {
          return Some(defs[i]);
        }
      }
      return None;
    }

    /** Lists the keys of the chains whose last match is too long ago. */
    method OldKeys(defs: seq<AttackChain>, now: real) returns (keys: seq<ChainKey>)
      requires Valid() && DistinctIds(defs)
      ensures forall key :: key in keys <==> key in ExpiredAmong(defs, contents, now)
      ensures Distinct(keys)
    {
      keys := [];
      var rest := chains.Keys;
      while rest != {}
        invariant rest <= chains.Keys && Distinct(keys)
        invariant forall key :: key in keys <==> key !in rest && key in ExpiredAmong(defs, contents, now)
        decreases |rest|
      {
        var key :| key in rest;
        rest := rest - {key};
        var def := FindDef(defs, key.0);
        OnlyDefinition(defs, key, def);
        if def.Some? && now - chains[key].lastMatchAt > def.value.timeout as real {
          keys := keys + [key];
        }
      }
    }

    lemma OnlyDefinition(defs: seq<AttackChain>, key: ChainKey, def: Option<AttackChain>)
      requires DistinctIds(defs)
      requires def.Some? ==> def.value in defs && def.value.id == key.0
      requires def.None? ==> forall d | d in defs :: d.id != key.0
      ensures forall chains: map<ChainKey, ChainState>, now: real | key in chains ::
                KeyExpired(defs, chains, key, now) <==> def.Some? && IsExpired(def.value, chains[key], now)
    {}

    /** Marks one tracked chain as expired and drops it. */
    method Expire(key: ChainKey) returns (active: ActiveChain)
      requires Valid() && key in contents
      modifies this, objects
      ensures Valid() && active.incidentId == old(contents)[key].incidentId
      ensures chains == old(chains) - {key} && contents == old(contents) - {key} && objects == old(objects)
    {
      active := chains[key];
      active.expired := true;
      chains := chains - {key};
      contents := contents - {key};
    }

    /** Marks and drops the chains under the listed keys. */
    method ExpireAll(keys: seq<ChainKey>) returns (gone: seq<ActiveChain>, ghost done: set<ChainKey>)
      requires Valid() && Distinct(keys) && forall x | 0 <= x < |keys| :: keys[x] in contents
      modifies this, objects
      ensures Valid() && objects == old(objects)
      ensures forall key :: key in done <==> key in keys
      ensures |gone| == |keys| && forall i | 0 <= i < |keys| :: gone[i].incidentId == old(contents)[keys[i]].incidentId
      ensures chains == old(chains) - done && contents == old(contents) - done
    {
      hide Valid;
      gone, done := [], {};
      for i := 0 to |keys|
        invariant Valid() && objects == old(objects)
        invariant contents == old(contents) - done && chains == old(chains) - done
        invariant forall x | 0 <= x < |keys| :: keys[x] in done <==> x < i
        invariant forall key | key in done :: key in keys
        invariant |gone| == i && forall x | 0 <= x < i :: gone[x].incidentId == old(contents)[keys[x]].incidentId
      {
        var active := Expire(keys[i]);
        gone := gone + [active];
        done := done + {keys[i]};
      }
    }

    /** Removes the chains whose last match is too long ago and returns them with their keys. */
    method ExpireOld(defs: seq<AttackChain>, now: real) returns (gone: seq<ActiveChain>, keys: seq<ChainKey>)
      requires Valid() && DistinctIds(defs)
      modifies this, objects
      ensures Valid() && objects == old(objects)
      ensures Distinct(keys) && forall key :: key in keys <==> key in ExpiredAmong(defs, old(contents), now)
      ensures |gone| == |keys|
      ensures forall i | 0 <= i < |keys| :: keys[i] in old(contents) && gone[i].incidentId == old(contents)[keys[i]].incidentId
      ensures chains == old(chains) - ExpiredAmong(defs, old(contents), now)
      ensures contents == old(contents) - ExpiredAmong(defs, old(contents), now)
    {
      keys := OldKeys(defs, now);
      ghost var expired := ExpiredAmong(defs, contents, now);
      assert forall x | 0 <= x < |keys| :: keys[x] in keys;
      ghost var done;
      gone, done := ExpireAll(keys);
      assert done == expired;
    }
  }

  class IncidentManager {
    var incidents: map<nat, SecurityIncident>

    constructor ()
      ensures incidents == map[]
    {
      incidents := map[];
    }

    method CreateIncident(chain: AttackChain, active: ActiveChain) returns (incident: SecurityIncident)
      modifies this
      ensures incident == CompletedIncident(chain, active.keyValue, active.View())
      ensures incidents == old(incidents)[incident.incidentId := incident]
    {
      var rules, events, matched := [], [], 0;
      for i := 0 to |active.stageOrder|
        invariant rules == RulesRecorded(active.View(), i) && events == EventsRecorded(active.View(), i)
        invariant matched == MatchedEntries(active.View(), i)
        invariant incidents == old(incidents)
      {
        var sp := EntryOf(active.stageProgress, active.stageOrder[i]);
        rules := rules + sp.matchedRules;
        events := events + sp.matchedEvents;
        if sp.matched {
          matched := matched + 1;
        }
      }
      incident := SecurityIncident(active.incidentId, chain.id, CorrelationIdOf(active.keyValue), Completed, rules, events,
                                   active.confidence, ChainCompleted(matched, |chain.stages|, |rules|));
      incidents := incidents[incident.incidentId := incident];
    }

    method ExpireIncidents(gone: seq<ActiveChain>) returns (raised: seq<SecurityIncident>)
      modifies this
      ensures |raised| == |gone| && forall i | 0 <= i < |gone| :: raised[i] == ExpiredIncident(gone[i].incidentId)
      ensures incidents == WithExpired(old(incidents), raised)
    {
      raised := [];
      for i := 0 to |gone|
        invariant |raised| == i && forall x | 0 <= x < i :: raised[x] == ExpiredIncident(gone[x].incidentId)
        invariant incidents == WithExpired(old(incidents), raised)
      {
        var incident := SecurityIncident(gone[i].incidentId, "", "", Expired, [], [], 0, ChainExpired);
        incidents := incidents[incident.incidentId := incident];
        assert (raised + [incident])[..i] == raised;
        raised := raised + [incident];
      }
    }
  }

  /** The incidents filed under their ids, one after the other. */
  function WithExpired(incidents: map<nat, SecurityIncident>, raised: seq<SecurityIncident>): map<nat, SecurityIncident> {
    if raised == [] then incidents
    else
      var last := raised[|raised| - 1];
      WithExpired(incidents, raised[..|raised| - 1])[last.incidentId := last]
  }

  class MetricsCollector {
    var active: nat
    var started: nat
    var advanced: nat
    var completed: nat
    var expired: nat
    var errors: nat

    ghost function View(): Metrics
      reads this
    {
      Metrics(active, started, advanced, completed, expired, errors)
    }

    constructor ()
      ensures View() == Metrics(0, 0, 0, 0, 0, 0)
    {
      active, started, advanced, completed, expired, errors := 0, 0, 0, 0, 0, 0;
    }

    method ChainStarted()
      modifies this
      ensures View() == old(View()).(started := old(started) + 1, active := old(active) + 1)
    {
      started := started + 1;
      active := active + 1;
    }

    method ChainAdvanced()
      modifies this
      ensures View() == old(View()).(advanced := old(advanced) + 1)
    {
      advanced := advanced + 1;
    }

    method ChainCompleted()
      modifies this
      ensures View() == old(View()).(completed := old(completed) + 1, active := Decremented(old(active), 1))
    {
      active := if active >= 1 then active - 1 else 0;
      completed := completed + 1;
    }

    method ChainExpired()
      modifies this
      ensures View() == old(View()).(expired := old(expired) + 1, active := Decremented(old(active), 1))
    {
      active := if active >= 1 then active - 1 else 0;
      expired := expired + 1;
    }

    /** One expiry after the other. */
    method ChainsExpired(n: nat)
      modifies this
      ensures View() == old(View()).(expired := old(expired) + n, active := Decremented(old(active), n))
    {
      for i := 0 to n
        invariant View() == old(View()).(expired := old(expired) + i, active := Decremented(old(active), i))
      {
        ChainExpired();
      }
    }

    method Error()
      modifies this
      ensures View() == old(View()).(errors := old(errors) + 1)
    {
      errors := errors + 1;
    }
  }

  class CorrelationEngine {
    var defs: seq<AttackChain>
    const tracker: ChainTracker
    const incidents: IncidentManager
    const metrics: MetricsCollector
    /** Stands for the source of fresh incident ids. */
    var nextUid: nat

    ghost predicate Valid()
      reads this, tracker, tracker.objects
    {
      tracker.Valid() && DistinctIds(defs)
    }

    ghost function View(): EngineState
      reads this, tracker, incidents, metrics
    {
      EngineState(defs, tracker.contents, incidents.incidents, metrics.View(), nextUid)
    }

    constructor ()
      ensures Valid() && fresh(tracker) && fresh(incidents) && fresh(metrics) && View() == INITIAL && tracker.objects == {}
    {
      defs, nextUid := [], 0;
      tracker := new ChainTracker();
      incidents := new IncidentManager();
      metrics := new MetricsCollector();
    }

    method LoadChains(chains: seq<AttackChain>)
      requires Valid()
      modifies this
      ensures Valid() && tracker.objects == old(tracker.objects)
      ensures View() == Step(old(View()), Load(chains)).0
    {
      var loaded := defs;
      for i := 0 to |chains|
        invariant CorrelationModel.LoadChains(loaded, chains[i..]) == CorrelationModel.LoadChains(defs, chains)
      {
        if chains[i].enabled {
          loaded := Define(loaded, chains[i]);
        }
        assert chains[i..][1..] == chains[i + 1..];
      }
      LoadedIdsAreDistinct(defs, chains);
      defs := loaded;
    }

    /** The active chain for a key is started when there is none. */
    method EnsureStarted(chain: AttackChain, key: ChainKey, now: real)
      requires Valid() && key.0 == chain.id
      modifies this, tracker, metrics
      ensures Valid() && fresh(tracker.objects - old(tracker.objects)) && key in tracker.chains && defs == old(defs)
      ensures View() == CorrelationModel.EnsureStarted(old(View()), chain, key, now)
    {
      hide DistinctIds, Start;
      assert key in tracker.chains <==> key in tracker.contents;
      hide ChainTracker.Valid;
      if key !in tracker.chains {
        metrics.ChainStarted();
        var active := tracker.StartChain(chain, key.1, nextUid, now);
        nextUid := nextUid + 1;
      }
    }

    /** What `correlate` does with the result of `advance`. */
    method Settle(chain: AttackChain, key: ChainKey, completed: Option<bool>) returns (raised: seq<SecurityIncident>)
      requires Valid() && key in tracker.chains
      modifies tracker, incidents, metrics
      ensures Valid() && tracker.objects == old(tracker.objects)
      ensures var st := old(tracker.contents)[key];
              (View(), raised) == CorrelationModel.Settle(old(View()), chain, key,
                                    if completed.None? then MissingStage(st) else Advanced(st, completed.value))
    {
      raised := [];
      assert tracker.contents[key := tracker.contents[key]] == tracker.contents;
      assert tracker.chains[key].View() == tracker.contents[key] && tracker.chains[key].keyValue == key.1;
      hide DistinctIds, ChainTracker.Valid, CompletedIncident;
      match completed {
        case None =>
          metrics.Error();
        case Some(done) =>
          if done {
            var incident := incidents.CreateIncident(chain, tracker.chains[key]);
            raised := [incident];
            metrics.ChainCompleted();
            tracker.Remove(key);
          }
      }
    }

    /** Advances the tracked chain `key` and acts on the result. */
    method AdvanceAndSettle(chain: AttackChain, key: ChainKey, m: RuleMatch, now: real) returns (raised: seq<SecurityIncident>)
      requires Valid() && key in tracker.chains
      modifies tracker, incidents, metrics, tracker.objects
      ensures Valid() && tracker.objects == old(tracker.objects)
      ensures (View(), raised) == CorrelationModel.Settle(old(View()), chain, key,
                CorrelationModel.Advance(chain, old(tracker.contents)[key], m.ruleId, EventIdOf(m), now))
    {
      ghost var before := View();
      var completed := tracker.Advance(chain, key, m.ruleId, EventIdOf(m), now);
      raised := Settle(chain, key, completed);
      SettleAgain(before, chain, key, CorrelationModel.Advance(chain, before.chains[key], m.ruleId, EventIdOf(m), now));
    }

    /** The body of the loop of `correlate`, for one definition. */
    method CorrelateChain(chain: AttackChain, m: RuleMatch, event: Option<Event>, now: real) returns (raised: seq<SecurityIncident>)
      requires Valid()
      modifies this, tracker, incidents, metrics, tracker.objects
      ensures Valid() && fresh(tracker.objects - old(tracker.objects))
      ensures (View(), raised) == CorrelationModel.CorrelateChain(old(View()), chain, m, event, now)
      ensures defs == old(defs)
    {
      hide DistinctIds, CorrelationModel.Settle, CorrelationModel.Advance, ExtractKeyValue, CorrelationModel.EnsureStarted,
        CorrelationModel.CorrelateChain;
      SettlesAfterStart(View(), chain, m, event, now);
      raised := [];
      var keyValue := ExtractKeyValue(chain.correlationKey, m, event);
      if keyValue != UNKNOWN {
        var key := (chain.id, keyValue);
        EnsureStarted(chain, key, now);
        metrics.ChainAdvanced();
        raised := AdvanceAndSettle(chain, key, m, now);
      }
    }

    /** Writing the advanced chain back before settling changes nothing. */
    lemma SettleAgain(es: EngineState, chain: AttackChain, key: ChainKey, outcome: Outcome)
      requires key in es.chains
      ensures CorrelationModel.Settle(es.(chains := es.chains[key := outcome.state]), chain, key, outcome)
           == CorrelationModel.Settle(es, chain, key, outcome)
    {
      assert es.chains[key := outcome.state][key := outcome.state] == es.chains[key := outcome.state];
      assert es.chains[key := outcome.state] - {key} == es.chains - {key};
    }

    method Correlate(m: RuleMatch, event: Option<Event>, now: real) returns (raised: seq<SecurityIncident>)
      requires Valid()
      modifies this, tracker, incidents, metrics, tracker.objects
      ensures Valid() && fresh(tracker.objects - old(tracker.objects))
      ensures (View(), raised) == Step(old(View()), Hit(m, event, now))
    {
      hide CorrelationModel.CorrelateChain, DistinctIds, ChainTracker.Valid;
      raised := [];
      ghost var start := View();
      for i := 0 to |defs|
        invariant Valid() && fresh(tracker.objects - old(tracker.objects))
        invariant defs == start.defs
        invariant CorrelateUpTo(start, i, m, event, now) == (View(), raised)
      {
        var more := CorrelateChain(defs[i], m, event, now);
        raised := raised + more;
      }
    }

    /** What `cleanup_expired` does, in terms of the parts of the engine. */
    method Sweep(now: real) returns (raised: seq<SecurityIncident>, ghost order: seq<ChainKey>)
      requires Valid()
      modifies this, tracker, incidents, metrics, tracker.objects
      ensures Valid() && tracker.objects == old(tracker.objects)
      ensures Distinct(order) && forall key :: key in order <==> key in ExpiredAmong(defs, old(tracker.contents), now)
      ensures |raised| == |order|
      ensures forall i | 0 <= i < |order| ::
                order[i] in old(tracker.contents) && raised[i] == ExpiredIncident(old(tracker.contents)[order[i]].incidentId)
      ensures defs == old(defs) && nextUid == old(nextUid)
      ensures tracker.contents == old(tracker.contents) - ExpiredAmong(defs, old(tracker.contents), now)
      ensures incidents.incidents == WithExpired(old(incidents.incidents), raised)
      ensures metrics.View() == old(metrics.View()).(expired := old(metrics.expired) + |raised|,
                                                     active := Decremented(old(metrics.active), |raised|))
    {
      hide ExpiredAmong, WithExpired, Distinct, DistinctIds, ChainTracker.Valid, Decremented;
      var gone, keys := tracker.ExpireOld(defs, now);
      raised := incidents.ExpireIncidents(gone);
      metrics.ChainsExpired(|gone|);
      order := keys;
    }

    /** Expires old chains and returns one incident for each, in the order in which they are visited. */
    method CleanupExpired(now: real) returns (raised: seq<SecurityIncident>, ghost order: seq<ChainKey>)
      requires Valid()
      modifies this, tracker, incidents, metrics, tracker.objects
      ensures Valid() && tracker.objects == old(tracker.objects)
      ensures View() == Cleanup(old(View()), now)
      ensures Distinct(order) && forall key :: key in order <==> key in ExpiredKeys(old(View()), now)
      ensures |raised| == |order|
      ensures forall i | 0 <= i < |order| ::
                order[i] in old(tracker.contents) && raised[i] == ExpiredIncident(old(tracker.contents)[order[i]].incidentId)
    {
      ghost var before := View();
      ghost var expired := ExpiredKeys(before, now);
      assert expired <= before.chains.Keys && expired == ExpiredAmong(defs, tracker.contents, now);
      hide ExpiredKeys, ExpiredAmong, ExpiredIncidents, WithExpired, Distinct, Valid;
      raised, order := Sweep(now);
      DistinctCount(order, expired);
      FiledIncidents(before, order, raised, expired);
    }

    lemma {:induction false} DistinctCount(keys: seq<ChainKey>, keySet: set<ChainKey>)
      requires Distinct(keys) && forall key :: key in keys <==> key in keySet
      ensures |keySet| == |keys|
    {
      if keys != [] {
        DistinctCount(keys[1..], keySet - {keys[0]});
      } else {
        assert keySet == {};
      }
    }

    lemma FiledIncidents(es: EngineState, keys: seq<ChainKey>, raised: seq<SecurityIncident>, expired: set<ChainKey>)
      requires expired <= es.chains.Keys && forall key :: key in keys <==> key in expired
      requires |raised| == |keys|
      requires forall i | 0 <= i < |keys| :: keys[i] in es.chains && raised[i] == ExpiredIncident(es.chains[keys[i]].incidentId)
      ensures WithExpired(es.incidents, raised) == es.incidents + ExpiredIncidents(es.chains, expired)
    {
      var filed := ExpiredIncidents(es.chains, expired);
      forall i | 0 <= i < |raised|
        ensures raised[i].incidentId in filed && raised[i] == filed[raised[i].incidentId]
      {
        assert keys[i] in expired;
      }
      forall id | id in filed ensures id in IdsOf(raised) {
        var key :| key in expired && es.chains[key].incidentId == id;
        var i :| 0 <= i < |keys| && keys[i] == key;
        assert raised[i].incidentId == id;
      }
      forall id | id in IdsOf(raised) ensures id in filed {}
      FiledAll(es.incidents, raised, filed);
      hide *;
    }

    lemma FiledAll(incidents: map<nat, SecurityIncident>, raised: seq<SecurityIncident>, filed: map<nat, SecurityIncident>)
      requires forall i | 0 <= i < |raised| :: raised[i].incidentId in filed && raised[i] == filed[raised[i].incidentId]
      requires IdsOf(raised) == filed.Keys
      ensures WithExpired(incidents, raised) == incidents + filed
    {
      FiledAt(incidents, raised, filed);
      hide WithExpired, IdsOf;
    }

    function IdsOf(raised: seq<SecurityIncident>): set<nat> {
      set i | 0 <= i < |raised| :: raised[i].incidentId
    }

    /** Filing incidents that agree with `filed` gives what `filed` says of their ids. */
    lemma {:induction false} FiledAt(incidents: map<nat, SecurityIncident>, raised: seq<SecurityIncident>, filed: map<nat, SecurityIncident>)
      requires forall i | 0 <= i < |raised| :: raised[i].incidentId in filed && raised[i] == filed[raised[i].incidentId]
      ensures WithExpired(incidents, raised).Keys == incidents.Keys + IdsOf(raised)
      ensures forall id | id in WithExpired(incidents, raised) ::
                WithExpired(incidents, raised)[id] == if id in IdsOf(raised) then filed[id] else incidents[id]
      decreases |raised|
    {
      if raised != [] {
        var front, last := raised[..|raised| - 1], raised[|raised| - 1];
        FiledAt(incidents, front, filed);
        assert IdsOf(raised) == IdsOf(front) + {last.incidentId};
        hide IdsOf;
      }
    }
  }
}
