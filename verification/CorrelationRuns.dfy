/** What holds in every run of the correlation engine: its books balance, and every chain it
    tracks is consistent with its definition. */
module CorrelationRuns {
  import opened Wrappers
  import opened Values
  import opened CorrelationModel
  import opened ChainInvariant
  import opened ChainProjection
  import opened OrderedChains
  import opened IncidentEvidence

  /** Every incident and every tracked chain has an id of its own, handed out before. */
  ghost predicate IdsOk(chains: map<ChainKey, ChainState>, incidents: map<nat, SecurityIncident>, nextUid: nat) {
    && (forall id | id in incidents :: id < nextUid)
    && (forall key | key in chains :: chains[key].incidentId < nextUid)
    && (forall key | key in chains :: chains[key].incidentId !in incidents)
    && (forall a, b | a in chains && b in chains && a != b :: chains[a].incidentId != chains[b].incidentId)
  }

  /** Started chains are completed, expired or tracked, the gauge counts the tracked ones, and
      there is one incident for each completion and each expiry. */
  ghost predicate BooksOk(metrics: Metrics, tracked: nat, incidents: nat) {
    && metrics.started == metrics.completed + metrics.expired + tracked
    && metrics.active == tracked
    && incidents == metrics.completed + metrics.expired
  }

  ghost predicate Balanced(es: EngineState) {
    BooksOk(es.metrics, |es.chains|, |es.incidents|) && IdsOk(es.chains, es.incidents, es.nextUid)
  }

  lemma {:induction false} AdvanceKeepsId(chain: AttackChain, st: ChainState, rule: string, event: Value, now: real, idx: nat)
    requires idx <= |chain.stages|
    ensures AdvanceFrom(chain, st, rule, event, now, idx).state.incidentId == st.incidentId
    decreases |chain.stages| - idx
  {
    if idx < |chain.stages| {
      AdvanceKeepsId(chain, st, rule, event, now, idx + 1);
    }
  }

  lemma StartKeepsBalance(es: EngineState, chain: AttackChain, key: ChainKey, now: real)
    requires Balanced(es)
    ensures Balanced(EnsureStarted(es, chain, key, now)) && key in EnsureStarted(es, chain, key, now).chains
  {}

  lemma AdditionSize<K, V>(m: map<K, V>, key: K, value: V)
    ensures |m[key := value]| == |m| + if key in m then 0 else 1
  {}

  lemma RemovalSize<K, V>(m: map<K, V>, gone: set<K>)
    requires gone <= m.Keys
    ensures |m - gone| == |m| - |gone|
  {}

  lemma SettleKeepsBalance(es: EngineState, chain: AttackChain, key: ChainKey, outcome: Outcome)
    requires Balanced(es) && key in es.chains && outcome.state.incidentId == es.chains[key].incidentId
    ensures Balanced(Settle(es, chain, key, outcome).0)
  {
    var st := outcome.state;
    AdditionSize(es.chains, key, st);
    RemovalSize(es.chains, {key});
    AdditionSize(es.incidents, st.incidentId, CompletedIncident(chain, key.1, st));
    IdsAfterStep(es, key, st, CompletedIncident(chain, key.1, st));
  }

  lemma IdsAfterStep(s: EngineState, key: ChainKey, st: ChainState, incident: SecurityIncident)
    requires IdsOk(s.chains, s.incidents, s.nextUid) && key in s.chains
    requires st.incidentId == s.chains[key].incidentId
    ensures IdsOk(s.chains[key := st], s.incidents, s.nextUid)
    ensures IdsOk(s.chains - {key}, s.incidents[st.incidentId := incident], s.nextUid)
  {
  }

  lemma CorrelateChainKeepsBalance(es: EngineState, chain: AttackChain, m: RuleMatch, event: Option<Event>, now: real)
    requires Balanced(es)
    ensures Balanced(CorrelateChain(es, chain, m, event, now).0)
  {
    var kv := ExtractKeyValue(chain.correlationKey, m, event);
    var key := (chain.id, kv);
    if kv != UNKNOWN {
      StartKeepsBalance(es, chain, key, now);
      var s := EnsureStarted(es, chain, key, now);
      SettleAdvanceKeepsBalance(s, chain, key, m, now);
      assert CorrelateChain(es, chain, m, event, now) ==
             Settle(s.(metrics := s.metrics.(advanced := s.metrics.advanced + 1)), chain, key,
                    Advance(chain, s.chains[key], m.ruleId, EventIdOf(m), now));
    }
  }

  lemma SettleAdvanceKeepsBalance(s: EngineState, chain: AttackChain, key: ChainKey, m: RuleMatch, now: real)
    requires Balanced(s) && key in s.chains
    ensures Balanced(Settle(s.(metrics := s.metrics.(advanced := s.metrics.advanced + 1)), chain, key,
                            Advance(chain, s.chains[key], m.ruleId, EventIdOf(m), now)).0)
  {
    AdvanceKeepsId(chain, Touched(s.chains[key], now), m.ruleId, EventIdOf(m), now, 0);
    var outcome := Advance(chain, s.chains[key], m.ruleId, EventIdOf(m), now);
    SettleKeepsBalance(s.(metrics := s.metrics.(advanced := s.metrics.advanced + 1)), chain, key, outcome);
  }

  lemma {:induction false} CorrelateKeepsBalance(es: EngineState, n: nat, m: RuleMatch, event: Option<Event>, now: real)
    requires Balanced(es) && n <= |es.defs|
    ensures Balanced(CorrelateUpTo(es, n, m, event, now).0)
  {
    hide Balanced, CorrelateChain;
    if n > 0 {
      CorrelateKeepsBalance(es, n - 1, m, event, now);
      CorrelateChainKeepsBalance(CorrelateUpTo(es, n - 1, m, event, now).0, es.defs[n - 1], m, event, now);
    }
  }

  /** The ids of chains with distinct ids are as many as the chains. */
  lemma {:induction false} DistinctIdCount(chains: map<ChainKey, ChainState>, keys: set<ChainKey>)
    requires keys <= chains.Keys
    requires forall a, b | a in keys && b in keys && a != b :: chains[a].incidentId != chains[b].incidentId
    ensures |set key | key in keys :: chains[key].incidentId| == |keys|
  {
    var ids := set key | key in keys :: chains[key].incidentId;
    if keys == {} {
      assert ids == {};
    } else {
      var key :| key in keys;
      DistinctIdCount(chains, keys - {key});
      assert ids == (set other | other in keys - {key} :: chains[other].incidentId) + {chains[key].incidentId};
    }
  }

  lemma ExpiredIncidentCount(chains: map<ChainKey, ChainState>, gone: set<ChainKey>)
    requires gone <= chains.Keys
    requires forall a, b | a in gone && b in gone && a != b :: chains[a].incidentId != chains[b].incidentId
    ensures |ExpiredIncidents(chains, gone).Keys| == |gone|
  {
    DistinctIdCount(chains, gone);
    assert ExpiredIncidents(chains, gone).Keys == set key | key in gone :: chains[key].incidentId;
  }

  lemma ExpiredIncidentsAreNew(es: EngineState, gone: set<ChainKey>)
    requires IdsOk(es.chains, es.incidents, es.nextUid) && gone <= es.chains.Keys
    ensures es.incidents.Keys !! ExpiredIncidents(es.chains, gone).Keys
  {
  }

  lemma SweepSizes(es: EngineState, gone: set<ChainKey>)
    requires IdsOk(es.chains, es.incidents, es.nextUid) && gone <= es.chains.Keys
    ensures |es.chains - gone| == |es.chains| - |gone|
    ensures |es.incidents + ExpiredIncidents(es.chains, gone)| == |es.incidents| + |gone|
  {
    RemovalSize(es.chains, gone);
    ExpiredIncidentCount(es.chains, gone);
    ExpiredIncidentsAreNew(es, gone);
    UnionSize(es.incidents, ExpiredIncidents(es.chains, gone));
  }

  lemma SweepKeepsBalance(es: EngineState, at: real)
    requires Balanced(es)
    ensures Balanced(Cleanup(es, at)) && |ExpiredKeys(es, at)| <= es.metrics.active
  {
    var gone := ExpiredKeys(es, at);
    SweepSizes(es, gone);
    IdsAfterSweep(es, gone);
    assert Cleanup(es, at).chains == es.chains - gone;
    assert Cleanup(es, at).incidents == es.incidents + ExpiredIncidents(es.chains, gone);
  }

  lemma UnionSize<K, V>(a: map<K, V>, b: map<K, V>)
    requires a.Keys !! b.Keys
    ensures |a + b| == |a| + |b.Keys|
  {}

  lemma IdsAfterSweep(es: EngineState, gone: set<ChainKey>)
    requires IdsOk(es.chains, es.incidents, es.nextUid) && gone <= es.chains.Keys
    ensures IdsOk(es.chains - gone, es.incidents + ExpiredIncidents(es.chains, gone), es.nextUid)
  {
  }

  /** In every run of correlate, cleanup and load, whatever errors occur on the way, the books
      stay balanced. */
  lemma {:induction false} EveryRunIsBalanced(es: EngineState, ops: seq<Op>)
    requires Balanced(es)
    ensures Balanced(Run(es, ops).0)
    decreases ops
  {
    hide Cleanup, CorrelateUpTo;
    if ops != [] {
      match ops[0] {
        case Hit(m, event, now) => CorrelateKeepsBalance(es, |es.defs|, m, event, now);
        case Sweep(at) => SweepKeepsBalance(es, at);
        case Load(chains) =>
      }
      EveryRunIsBalanced(Step(es, ops[0]).0, ops[1..]);
    }
  }

  // ----- reachable chains are consistent -----

  ghost predicate KeyOk(defs: seq<AttackChain>, key: ChainKey, st: ChainState) {
    exists i :: 0 <= i < |defs| && defs[i].id == key.0 && ChainOk(defs[i], st) && EvidenceOk(defs[i], st)
  }

  /** Every tracked chain satisfies the invariant of its definition. */
  ghost predicate Consistent(es: EngineState) {
    && DistinctIds(es.defs)
    && (forall d | d in es.defs :: WellFormed(d))
    && (forall key | key in es.chains :: KeyOk(es.defs, key, es.chains[key]))
  }

  ghost predicate AllSupported(defs: seq<AttackChain>, raised: seq<SecurityIncident>) {
    forall incident | incident in raised :: exists d :: d in defs && Supported(d, incident)
  }

  /** The tracked chain for one definition, started if need be, is consistent. */
  lemma TrackedIsConsistent(es: EngineState, i: nat, kv: string, now: real)
    requires Consistent(es) && i < |es.defs|
    ensures var chain, key := es.defs[i], (es.defs[i].id, kv);
            var st := EnsureStarted(es, chain, key, now).chains[key];
            WellFormed(chain) && ChainOk(chain, st) && EvidenceOk(chain, st)
  {
    var chain, key := es.defs[i], (es.defs[i].id, kv);
    assert chain in es.defs;
    if key in es.chains {
      var j :| 0 <= j < |es.defs| && es.defs[j].id == key.0 && ChainOk(es.defs[j], es.chains[key]) && EvidenceOk(es.defs[j], es.chains[key]);
      assert j == i;
    } else {
      StartedChainIsOk(chain, es.nextUid, now);
      StartedHasEvidence(chain, es.nextUid, now);
    }
  }

  lemma CorrelateChainKeepsConsistent(es: EngineState, i: nat, m: RuleMatch, event: Option<Event>, now: real)
    requires Consistent(es) && i < |es.defs|
    ensures var (after, raised) := CorrelateChain(es, es.defs[i], m, event, now);
            && Consistent(after) && after.defs == es.defs && after.metrics.errors == es.metrics.errors
            && AllSupported(es.defs, raised)
  {
    var chain := es.defs[i];
    var kv := ExtractKeyValue(chain.correlationKey, m, event);
    var key := (chain.id, kv);
    if kv != UNKNOWN {
      var begun := EnsureStarted(es, chain, key, now);
      var s := begun.(metrics := begun.metrics.(advanced := begun.metrics.advanced + 1));
      var outcome := Advance(chain, begun.chains[key], m.ruleId, EventIdOf(m), now);
      TrackedIsConsistent(es, i, kv, now);
      OutcomeIsSound(chain, kv, begun.chains[key], m.ruleId, EventIdOf(m), now);
      hide *;
      SettlesAfterStart(es, chain, m, event, now);
      StartIsLocal(es, chain, key, now);
      StepKeepsConsistent(es, s, i, kv, outcome);
    }
  }

  lemma StartIsLocal(es: EngineState, chain: AttackChain, key: ChainKey, now: real)
    ensures var s := EnsureStarted(es, chain, key, now);
      && s.defs == es.defs && s.metrics.errors == es.metrics.errors && key in s.chains
      && forall other | other in s.chains && other != key :: other in es.chains && s.chains[other] == es.chains[other]
  {}

  ghost predicate Sound(chain: AttackChain, kv: string, outcome: Outcome) {
    && outcome.Advanced?
    && if outcome.completed then Supported(chain, CompletedIncident(chain, kv, outcome.state))
       else ChainOk(chain, outcome.state) && EvidenceOk(chain, outcome.state)
  }

  lemma OutcomeIsSound(chain: AttackChain, kv: string, st: ChainState, rule: string, event: Value, now: real)
    requires WellFormed(chain) && ChainOk(chain, st) && EvidenceOk(chain, st)
    ensures Sound(chain, kv, Advance(chain, st, rule, event, now))
  {
    AdvanceKeepsInvariant(chain, st, rule, event, now);
    AdvanceKeepsEvidence(chain, st, rule, event, now);
    hide ChainOk, EvidenceOk, Advance, Supported;
    if Advance(chain, st, rule, event, now).completed {
      CompletionIsSupported(chain, kv, st, rule, event, now);
    }
  }

  /** Settling a sound outcome for the chain of one definition. */
  lemma StepKeepsConsistent(es: EngineState, s: EngineState, i: nat, kv: string, outcome: Outcome)
    requires Consistent(es) && i < |es.defs| && s.defs == es.defs && Sound(es.defs[i], kv, outcome)
    requires (es.defs[i].id, kv) in s.chains
    requires forall other | other in s.chains && other != (es.defs[i].id, kv) ::
      other in es.chains && s.chains[other] == es.chains[other]
    ensures var (after, raised) := Settle(s, es.defs[i], (es.defs[i].id, kv), outcome);
      && Consistent(after) && after.defs == es.defs && after.metrics.errors == s.metrics.errors
      && AllSupported(es.defs, raised)
  {
    hide ChainOk, EvidenceOk, Supported, WellFormed, DistinctIds, CompletedIncident;
    var chain, key := es.defs[i], (es.defs[i].id, kv);
    var (after, raised) := Settle(s, chain, key, outcome);
    forall other | other in after.chains ensures KeyOk(after.defs, other, after.chains[other]) {
      if other == key {
        assert ChainOk(es.defs[i], after.chains[key]);
      } else {
        assert after.chains[other] == es.chains[other];
      }
    }
    if outcome.completed {
      assert forall incident | incident in raised :: incident == raised[0] && chain in es.defs && Supported(chain, incident);
    }
  }

  lemma {:induction false} CorrelateKeepsConsistent(es: EngineState, n: nat, m: RuleMatch, event: Option<Event>, now: real)
    requires Consistent(es) && n <= |es.defs|
    ensures var (after, raised) := CorrelateUpTo(es, n, m, event, now);
            && Consistent(after) && after.metrics.errors == es.metrics.errors && AllSupported(es.defs, raised)
  {
    hide Consistent, CorrelateChain;
    if n > 0 {
      CorrelateKeepsConsistent(es, n - 1, m, event, now);
      CorrelateChainKeepsConsistent(CorrelateUpTo(es, n - 1, m, event, now).0, n - 1, m, event, now);
    }
  }

  lemma SweepKeepsConsistent(es: EngineState, at: real)
    requires Consistent(es)
    ensures Consistent(Cleanup(es, at))
  {
    hide ChainOk, EvidenceOk, WellFormed, DistinctIds;
  }

  /** The run loads well-formed definitions only, and never two different ones under one id. */
  ghost predicate LoadsAgree(ops: seq<Op>) {
    forall op, c | op in ops && op.Load? && c in op.chains && c.enabled :: WellFormed(c) && KeepsDefinition(c, ops)
  }

  ghost predicate DefinitionsStay(defs: seq<AttackChain>, ops: seq<Op>) {
    forall d | d in defs :: KeepsDefinition(d, ops)
  }

  /** The definition is in force already or loaded by the run. */
  ghost predicate Given(defs: seq<AttackChain>, ops: seq<Op>, d: AttackChain) {
    d in defs || exists op :: op in ops && op.Load? && d in op.chains && d.enabled
  }

  lemma PlacesStay(es: EngineState, chains: seq<AttackChain>)
    requires DistinctIds(es.defs) && DefinitionsStay(es.defs, [Load(chains)])
    ensures |es.defs| <= |LoadChains(es.defs, chains)|
    ensures forall i | 0 <= i < |es.defs| :: LoadChains(es.defs, chains)[i] == es.defs[i]
  {
    LoadedIdsAreDistinct(es.defs, chains);
    var op := Load(chains);
    assert op in [op];
    hide LoadChains, DistinctIds;
    forall i | 0 <= i < |es.defs| ensures LoadChains(es.defs, chains)[i] == es.defs[i] {
      assert KeepsDefinition(es.defs[i], [op]);
    }
  }

  lemma LoadKeepsConsistent(es: EngineState, chains: seq<AttackChain>)
    requires Consistent(es) && LoadsAgree([Load(chains)]) && DefinitionsStay(es.defs, [Load(chains)])
    ensures var after := Step(es, Load(chains)).0;
      && Consistent(after) && after.metrics == es.metrics
      && (forall d | d in es.defs :: d in after.defs)
      && forall d | d in after.defs :: d in es.defs || (d in chains && d.enabled)
  {
    var more := LoadChains(es.defs, chains);
    assert Step(es, Load(chains)).0 == es.(defs := more);
    LoadedIdsAreDistinct(es.defs, chains);
    PlacesStay(es, chains);
    LoadedAreWellFormed(chains);
    hide WellFormed, LoadChains, Step, DistinctIds, KeyOk, LoadsAgree, DefinitionsStay;
    forall key | key in es.chains ensures KeyOk(more, key, es.chains[key]) {
      KeyStaysOk(es.defs, more, key, es.chains[key]);
    }
  }

  lemma LoadedAreWellFormed(chains: seq<AttackChain>)
    requires LoadsAgree([Load(chains)])
    ensures forall d | d in chains && d.enabled :: WellFormed(d)
  {
    var op := Load(chains);
    assert op in [op];
    hide WellFormed;
  }

  lemma KeyStaysOk(defs: seq<AttackChain>, more: seq<AttackChain>, key: ChainKey, st: ChainState)
    requires KeyOk(defs, key, st) && |defs| <= |more| && forall i | 0 <= i < |defs| :: more[i] == defs[i]
    ensures KeyOk(more, key, st)
  {
    hide ChainOk, EvidenceOk;
    var i :| 0 <= i < |defs| && defs[i].id == key.0 && ChainOk(defs[i], st) && EvidenceOk(defs[i], st);
    assert more[i] == defs[i];
  }

  lemma SupportedByMore(defs: seq<AttackChain>, more: seq<AttackChain>, raised: seq<SecurityIncident>)
    requires AllSupported(defs, raised) && forall d | d in defs :: d in more
    ensures AllSupported(more, raised)
  {
    hide Supported;
  }

  /** What one operation keeps. */
  lemma StepKeepsConsistency(es: EngineState, op: Op)
    requires Consistent(es) && LoadsAgree([op]) && DefinitionsStay(es.defs, [op])
    ensures var (after, raised) := Step(es, op);
      && Consistent(after) && after.metrics.errors == es.metrics.errors && AllSupported(es.defs, raised)
      && (forall d | d in es.defs :: d in after.defs)
      && forall d | d in after.defs :: d in es.defs || (op.Load? && d in op.chains && d.enabled)
  {
    hide Consistent, CorrelateUpTo, Cleanup, LoadsAgree, DefinitionsStay;
    match op {
      case Hit(m, event, now) => CorrelateKeepsConsistent(es, |es.defs|, m, event, now);
      case Sweep(at) =>
        SweepKeepsConsistent(es, at);
        SweepKeepsDefinitions(es, at);
      case Load(chains) => LoadKeepsConsistent(es, chains);
    }
  }

  lemma OneAtATime(es: EngineState, ops: seq<Op>)
    requires ops != [] && LoadsAgree(ops) && DefinitionsStay(es.defs, ops)
    ensures LoadsAgree([ops[0]]) && DefinitionsStay(es.defs, [ops[0]])
    ensures LoadsAgree(ops[1..])
    ensures forall defs | forall d | d in defs :: d in es.defs || (ops[0].Load? && d in ops[0].chains && d.enabled) ::
              DefinitionsStay(defs, ops[1..])
  {
    hide WellFormed;
    assert ops[0] in ops;
    forall op | op in ops[1..] || op in [ops[0]] ensures op in ops {}
  }

  /** In every run that never gives an id a second, different definition, every tracked chain satisfies its
      invariant, correlation never fails, and the evidence of every incident that `correlate` returns
      supports it. */
  lemma {:induction false} EveryTrackedChainIsConsistent(es: EngineState, ops: seq<Op>)
    requires Consistent(es) && LoadsAgree(ops) && DefinitionsStay(es.defs, ops)
    ensures var (after, raised) := Run(es, ops);
            && Consistent(after) && after.metrics.errors == es.metrics.errors && AllSupported(after.defs, raised)
            && (forall d | d in es.defs :: d in after.defs)
            && (forall d | d in after.defs :: Given(es.defs, ops, d))
    decreases |ops|
  {
    if ops != [] {
      hide Consistent, LoadsAgree, DefinitionsStay, AllSupported, Step, Given;
      var (next, first) := Step(es, ops[0]);
      OneAtATime(es, ops);
      StepKeepsConsistency(es, ops[0]);
      EveryTrackedChainIsConsistent(next, ops[1..]);
      var (after, rest) := Run(next, ops[1..]);
      forall d | d in after.defs ensures Given(es.defs, ops, d) {
        GivenBefore(es.defs, next.defs, ops, d);
      }
      SupportedByMore(es.defs, after.defs, first);
      BothSupported(after.defs, first, rest);
    }
  }

  lemma GivenBefore(defs: seq<AttackChain>, next: seq<AttackChain>, ops: seq<Op>, d: AttackChain)
    requires ops != [] && Given(next, ops[1..], d)
    requires d in next ==> d in defs || (ops[0].Load? && d in ops[0].chains && d.enabled)
    ensures Given(defs, ops, d)
  {
    assert ops[0] in ops;
  }

  lemma BothSupported(defs: seq<AttackChain>, first: seq<SecurityIncident>, rest: seq<SecurityIncident>)
    requires AllSupported(defs, first) && AllSupported(defs, rest)
    ensures AllSupported(defs, first + rest)
  {
    hide Supported;
  }

  lemma SweepKeepsDefinitions(es: EngineState, at: real)
    ensures Cleanup(es, at).defs == es.defs && Cleanup(es, at).metrics.errors == es.metrics.errors
  {}
}
