/** The incidents that an engine run raises for one chain and one key depend on nothing but
    the hits of that chain and key: other chains and keys may be interleaved in any way. */
module ChainProjection {
  import opened Wrappers
  import opened Sequences
  import opened Values
  import opened CorrelationModel
  import opened ChainInvariant

  datatype LocalHit = LocalHit(rule: string, event: Value, now: real)

  /** One chain and key on its own; the incident id is fixed at 0. */
  function LocalStep(chain: AttackChain, o: Option<ChainState>, h: LocalHit): (Option<ChainState>, bool) {
    var st := if o.Some? then o.value else Start(chain, 0, h.now);
    match Advance(chain, st, h.rule, h.event, h.now)
    case MissingStage(next) => (Some(next), false)
    case Advanced(next, completed) => (if completed then None else Some(next), completed)
  }

  /** How often the chain completes over a stream of its hits. */
  function LocalCount(chain: AttackChain, o: Option<ChainState>, hits: seq<LocalHit>): nat
    decreases hits
  {
    if hits == [] then 0
    else
      var (next, completed) := LocalStep(chain, o, hits[0]);
      (if completed then 1 else 0) + LocalCount(chain, next, hits[1..])
  }

  /** What the engine tracks for one chain and key, up to the incident id. */
  function Component(chains: map<ChainKey, ChainState>, key: ChainKey): Option<ChainState> {
    if key in chains then Some(chains[key].(incidentId := 0)) else None
  }

  function KeyOf(chain: AttackChain, op: Op): string {
    if op.Hit? then ExtractKeyValue(chain.correlationKey, op.m, op.event) else UNKNOWN
  }

  /** What a run holds for one chain and key: its hits, and the sweeps. */
  datatype LocalOp = LocalMatch(hit: LocalHit) | LocalSweep(at: real)

  function EventsFor(chain: AttackChain, k: string, ops: seq<Op>): seq<LocalOp>
    decreases |ops|
  {
    if ops == [] then []
    else
      (match ops[0]
       case Hit(m, event, now) =>
         if KeyOf(chain, ops[0]) == k then [LocalMatch(LocalHit(m.ruleId, EventIdOf(m), now))] else []
       case Sweep(at) => [LocalSweep(at)]
       case Load(_) => [])
      + EventsFor(chain, k, ops[1..])
  }

  /** A sweep drops the chain when its last hit is too long ago. */
  function AfterSweep(chain: AttackChain, o: Option<ChainState>, at: real): Option<ChainState> {
    if o.Some? && IsExpired(chain, o.value, at) then None else o
  }

  /** Of the operations that are not hits only sweeps matter. */
  function AfterQuiet(chain: AttackChain, o: Option<ChainState>, op: Op): Option<ChainState> {
    if op.Sweep? then AfterSweep(chain, o, op.at) else o
  }

  /** How often the chain completes over hits and sweeps. */
  function LocalRun(chain: AttackChain, o: Option<ChainState>, events: seq<LocalOp>): nat
    decreases |events|
  {
    if events == [] then 0
    else
      match events[0]
      case LocalMatch(h) =>
        var (next, completed) := LocalStep(chain, o, h);
        (if completed then 1 else 0) + LocalRun(chain, next, events[1..])
      case LocalSweep(at) => LocalRun(chain, AfterSweep(chain, o, at), events[1..])
  }

  predicate IsFor(chain: AttackChain, k: string, incident: SecurityIncident) {
    incident.attackChainId == chain.id && incident.correlationId == CorrelationIdOf(k)
  }

  /** Incidents raised for one chain and key. */
  function CountFor(chain: AttackChain, k: string, incidents: seq<SecurityIncident>): nat
    decreases incidents
  {
    if incidents == [] then 0
    else (if IsFor(chain, k, incidents[0]) then 1 else 0) + CountFor(chain, k, incidents[1..])
  }

  ghost predicate DistinctIds(defs: seq<AttackChain>) {
    forall i, j | 0 <= i < j < |defs| :: defs[i].id != defs[j].id
  }

  /** No load of the run replaces this definition by another one. */
  ghost predicate KeepsDefinition(chain: AttackChain, ops: seq<Op>) {
    forall op, c | op in ops && op.Load? && c in op.chains :: c.enabled && c.id == chain.id ==> c == chain
  }

  lemma {:induction false} CountForAppend(chain: AttackChain, k: string, a: seq<SecurityIncident>, b: seq<SecurityIncident>)
    ensures CountFor(chain, k, a + b) == CountFor(chain, k, a) + CountFor(chain, k, b)
    decreases a
  {
    if a == [] {
      assert a + b == b;
    } else {
      assert (a + b)[1..] == a[1..] + b;
      CountForAppend(chain, k, a[1..], b);
    }
  }

  /** `advance` never looks at the incident id. */
  lemma {:induction false} AdvanceIgnoresIdFrom(chain: AttackChain, st: ChainState, uid: nat, rule: string, event: Value, now: real, idx: nat)
    requires idx <= |chain.stages|
    ensures var r := AdvanceFrom(chain, st, rule, event, now, idx);
            var s := AdvanceFrom(chain, st.(incidentId := uid), rule, event, now, idx);
            && s.Advanced? == r.Advanced?
            && s.state == r.state.(incidentId := uid)
            && (r.Advanced? ==> s.completed == r.completed)
    decreases |chain.stages| - idx
  {
    if idx < |chain.stages| {
      var stage := chain.stages[idx];
      AdvanceIgnoresIdFrom(chain, st, uid, rule, event, now, idx + 1);
      if stage.stageId in st.progress {
        MarkIgnoresId(chain, st, uid, stage, rule, event, now);
      }
      hide Mark, AllRequiredMatched;
    }
  }

  lemma MarkIgnoresId(chain: AttackChain, st: ChainState, uid: nat, stage: ChainStage, rule: string, event: Value, now: real)
    requires stage.stageId in st.progress
    ensures var marked := Mark(st, stage, rule, event, now);
      && Mark(st.(incidentId := uid), stage, rule, event, now) == marked.(incidentId := uid)
      && AllRequiredMatched(chain, marked.(incidentId := uid)) == AllRequiredMatched(chain, marked)
  {}

  lemma CorrelationIdsDiffer(a: string, b: string)
    ensures CorrelationIdOf(a) == CorrelationIdOf(b) <==> a == b
  {
    assert CorrelationIdOf(a)[5..] == a && CorrelationIdOf(b)[5..] == b;
  }

  /** From state `before` to state `after`, the chain and key made one local step, or none. */
  ghost predicate LocalEffect(chain: AttackChain, k: string, hit: Option<LocalHit>,
                              before: map<ChainKey, ChainState>, after: map<ChainKey, ChainState>, raised: seq<SecurityIncident>)
  {
    var key := (chain.id, k);
    if hit.None? then
      Component(after, key) == Component(before, key) && CountFor(chain, k, raised) == 0
    else
      var (next, completed) := LocalStep(chain, Component(before, key), hit.value);
      Component(after, key) == next && CountFor(chain, k, raised) == (if completed then 1 else 0)
  }

  /** The hit that a rule match is for this chain and key, if it is one. */
  function HitOf(chain: AttackChain, k: string, m: RuleMatch, event: Option<Event>, now: real): Option<LocalHit> {
    if ExtractKeyValue(chain.correlationKey, m, event) == k then Some(LocalHit(m.ruleId, EventIdOf(m), now)) else None
  }

  /** One definition, seen from one chain and key. */
  lemma CorrelateChainLocally(es: EngineState, def: AttackChain, chain: AttackChain, k: string, m: RuleMatch, event: Option<Event>, now: real)
    requires (def.id == chain.id ==> def == chain) && k != UNKNOWN
    ensures LocalEffect(chain, k, if def == chain then HitOf(chain, k, m, event, now) else None,
                        es.chains, CorrelateChain(es, def, m, event, now).0.chains, CorrelateChain(es, def, m, event, now).1)
  {
    var kv := ExtractKeyValue(def.correlationKey, m, event);
    CorrelationIdsDiffer(kv, k);
    if def == chain && kv == k {
      var st := EnsureStarted(es, def, (def.id, kv), now).chains[(def.id, kv)];
      AdvanceIgnoresIdFrom(chain, Touched(st, now), 0, m.ruleId, EventIdOf(m), now, 0);
    }
  }

  lemma EffectsCompose(chain: AttackChain, k: string, h1: Option<LocalHit>, h2: Option<LocalHit>,
                       a: map<ChainKey, ChainState>, b: map<ChainKey, ChainState>, c: map<ChainKey, ChainState>,
                       first: seq<SecurityIncident>, last: seq<SecurityIncident>)
    requires LocalEffect(chain, k, h1, a, b, first) && LocalEffect(chain, k, h2, b, c, last)
    requires h1.None? || h2.None?
    ensures LocalEffect(chain, k, if h1.Some? then h1 else h2, a, c, first + last)
  {
    CountForAppend(chain, k, first, last);
  }

  lemma NoEffect(es: EngineState, j: nat, k: string)
    requires j < |es.defs|
    ensures LocalEffect(es.defs[j], k, None, es.chains, es.chains, [])
  {}

  /** The first `n` definitions of one call of `correlate`, seen from one chain and key. */
  lemma {:induction false} CorrelateLocally(es: EngineState, n: nat, j: nat, k: string, m: RuleMatch, event: Option<Event>, now: real)
    requires DistinctIds(es.defs) && n <= |es.defs| && j < |es.defs| && k != UNKNOWN
    ensures LocalEffect(es.defs[j], k, if j < n then HitOf(es.defs[j], k, m, event, now) else None,
                        es.chains, CorrelateUpTo(es, n, m, event, now).0.chains, CorrelateUpTo(es, n, m, event, now).1)
  {
    hide LocalEffect, HitOf, CorrelateChain;
    if n == 0 {
      NoEffect(es, j, k);
    } else {
      var chain := es.defs[j];
      CorrelateLocally(es, n - 1, j, k, m, event, now);
      var (s, first) := CorrelateUpTo(es, n - 1, m, event, now);
      CorrelateChainLocally(s, es.defs[n - 1], chain, k, m, event, now);
      var (t, last) := CorrelateChain(s, es.defs[n - 1], m, event, now);
      EffectsCompose(chain, k, if j < n - 1 then HitOf(chain, k, m, event, now) else None,
                     if j == n - 1 then HitOf(chain, k, m, event, now) else None, es.chains, s.chains, t.chains, first, last);
      assert CorrelateUpTo(es, n, m, event, now) == (t, first + last);
    }
  }

  lemma SweepLocally(es: EngineState, j: nat, k: string, at: real)
    requires DistinctIds(es.defs) && j < |es.defs|
    ensures var key := (es.defs[j].id, k);
            Component(Cleanup(es, at).chains, key) == AfterSweep(es.defs[j], Component(es.chains, key), at)
  {
    var key := (es.defs[j].id, k);
    if key in es.chains {
      assert KeyExpired(es.defs, es.chains, key, at) <==> IsExpired(es.defs[j], es.chains[key], at);
    }
  }

  // ----- loading other definitions -----

  lemma {:induction false} DefineIds(defs: seq<AttackChain>, chain: AttackChain)
    requires DistinctIds(defs)
    ensures DistinctIds(Define(defs, chain))
    ensures forall d | d in Define(defs, chain) :: d == chain || (d in defs && d.id != chain.id)
  {
    if defs != [] && defs[0].id != chain.id {
      DefineIds(defs[1..], chain);
    }
  }

  /** A definition keeps its place unless it is replaced by another one. */
  lemma {:induction false} DefinePlaces(defs: seq<AttackChain>, chain: AttackChain)
    ensures |defs| <= |Define(defs, chain)|
    ensures forall j | 0 <= j < |defs| && (defs[j].id == chain.id ==> defs[j] == chain) :: Define(defs, chain)[j] == defs[j]
  {
    if defs != [] && defs[0].id != chain.id {
      DefinePlaces(defs[1..], chain);
    }
  }

  /** Loading keeps the ids of the definitions distinct, loads nothing that is disabled and leaves the
      definitions that it does not change in their places. */
  lemma {:induction false} LoadedIdsAreDistinct(defs: seq<AttackChain>, chains: seq<AttackChain>)
    requires DistinctIds(defs)
    ensures DistinctIds(LoadChains(defs, chains))
    ensures forall d | d in LoadChains(defs, chains) :: d in defs || (d in chains && d.enabled)
    ensures |defs| <= |LoadChains(defs, chains)|
    ensures forall j | 0 <= j < |defs| && (forall c | c in chains && c.enabled && c.id == defs[j].id :: c == defs[j]) ::
              LoadChains(defs, chains)[j] == defs[j]
    decreases chains
  {
    if chains != [] {
      DefineIds(defs, chains[0]);
      DefinePlaces(defs, chains[0]);
      LoadedIdsAreDistinct(if chains[0].enabled then Define(defs, chains[0]) else defs, chains[1..]);
    }
  }

  /** One operation, seen from one chain and key. */
  lemma StepLocally(es: EngineState, j: nat, k: string, op: Op)
    requires DistinctIds(es.defs) && j < |es.defs| && k != UNKNOWN && KeepsDefinition(es.defs[j], [op])
    ensures DistinctIds(Step(es, op).0.defs) && j < |Step(es, op).0.defs| && Step(es, op).0.defs[j] == es.defs[j]
    ensures op.Hit? ==> LocalEffect(es.defs[j], k, HitOf(es.defs[j], k, op.m, op.event, op.now),
                                    es.chains, Step(es, op).0.chains, Step(es, op).1)
    ensures !op.Hit? ==> Step(es, op).1 == []
    ensures var key := (es.defs[j].id, k);
            op.Hit? || Component(Step(es, op).0.chains, key) == AfterQuiet(es.defs[j], Component(es.chains, key), op)
  {
    match op {
      case Hit(m, event, now) => CorrelateLocally(es, |es.defs|, j, k, m, event, now);
      case Sweep(at) => SweepLocally(es, j, k, at);
      case Load(chains) =>
        LoadedIdsAreDistinct(es.defs, chains);
        assert op in [op];
    }
  }

  /** Over any run that does not replace its definition, whatever other chains, keys and definitions
      come and go, a chain and key raise exactly the incidents that they would raise alone on their
      own hits and the sweeps. */
  lemma {:induction false} RunProjects(es: EngineState, j: nat, k: string, ops: seq<Op>)
    requires DistinctIds(es.defs) && j < |es.defs| && k != UNKNOWN && KeepsDefinition(es.defs[j], ops)
    ensures CountFor(es.defs[j], k, Run(es, ops).1)
         == LocalRun(es.defs[j], Component(es.chains, (es.defs[j].id, k)), EventsFor(es.defs[j], k, ops))
    decreases |ops|
  {
    if ops != [] {
      var chain, op := es.defs[j], ops[0];
      var (s, first) := Step(es, op);
      var rest := Run(s, ops[1..]).1;
      CountForAppend(chain, k, first, rest);
      assert op in ops && ops == [op] + ops[1..];
      StepLocally(es, j, k, op);
      RunProjects(s, j, k, ops[1..]);
      EventsStep(chain, k, Component(es.chains, (chain.id, k)), ops);
    }
  }

  lemma EventsStep(chain: AttackChain, k: string, o: Option<ChainState>, ops: seq<Op>)
    requires ops != []
    ensures var op, rest := ops[0], EventsFor(chain, k, ops[1..]);
      LocalRun(chain, o, EventsFor(chain, k, ops)) ==
      if op.Sweep? then LocalRun(chain, AfterSweep(chain, o, op.at), rest)
      else if op.Load? || HitOf(chain, k, op.m, op.event, op.now).None? then LocalRun(chain, o, rest)
      else
        var step := LocalStep(chain, o, HitOf(chain, k, op.m, op.event, op.now).value);
        (if step.1 then 1 else 0) + LocalRun(chain, step.0, rest)
  {
    var events, rest := EventsFor(chain, k, ops), EventsFor(chain, k, ops[1..]);
    if ops[0].Sweep? || (ops[0].Hit? && KeyOf(chain, ops[0]) == k) {
      assert events[1..] == rest;
    } else {
      assert events == rest;
    }
  }

  // ----- a run falls into stretches between expiries -----

  /** The hits of a run, cut at each sweep that comes too long after the hit before it. */
  function Stretches(chain: AttackChain, current: seq<LocalHit>, events: seq<LocalOp>): (s: seq<seq<LocalHit>>)
    ensures s != []
    decreases |events|
  {
    if events == [] then [current]
    else
      match events[0]
      case LocalMatch(h) => Stretches(chain, current + [h], events[1..])
      case LocalSweep(at) =>
        if current != [] && at - current[|current| - 1].now > chain.timeout as real then
          [current] + Stretches(chain, [], events[1..])
        else Stretches(chain, current, events[1..])
  }

  function CountsOf(chain: AttackChain, stretches: seq<seq<LocalHit>>): seq<nat> {
    seq(|stretches|, i requires 0 <= i < |stretches| => LocalCount(chain, None, stretches[i]))
  }

  function After(chain: AttackChain, o: Option<ChainState>, hits: seq<LocalHit>): Option<ChainState>
    decreases |hits|
  {
    if hits == [] then o else After(chain, LocalStep(chain, o, hits[0]).0, hits[1..])
  }

  lemma {:induction false} OneMoreHit(chain: AttackChain, o: Option<ChainState>, hits: seq<LocalHit>, h: LocalHit)
    ensures var (next, completed) := LocalStep(chain, After(chain, o, hits), h);
      && After(chain, o, hits + [h]) == next
      && LocalCount(chain, o, hits + [h]) == LocalCount(chain, o, hits) + if completed then 1 else 0
    decreases |hits|
  {
    if hits == [] {
      assert [] + [h] == [h] && [h][1..] == [];
    } else {
      assert (hits + [h])[1..] == hits[1..] + [h];
      OneMoreHit(chain, LocalStep(chain, o, hits[0]).0, hits[1..], h);
    }
  }

  /** `advance` leaves the time of the hit. */
  lemma {:induction false} AdvanceKeepsTimes(chain: AttackChain, st: ChainState, rule: string, event: Value, now: real, idx: nat)
    requires idx <= |chain.stages|
    ensures AdvanceFrom(chain, st, rule, event, now, idx).state.lastMatchAt == st.lastMatchAt
    decreases |chain.stages| - idx
  {
    if idx < |chain.stages| {
      AdvanceKeepsTimes(chain, st, rule, event, now, idx + 1);
    }
  }

  lemma StepLeavesTime(chain: AttackChain, o: Option<ChainState>, h: LocalHit)
    ensures var next := LocalStep(chain, o, h).0; next.Some? ==> next.value.lastMatchAt == h.now
  {
    var st := if o.Some? then o.value else Start(chain, 0, h.now);
    AdvanceKeepsTimes(chain, Touched(st, h.now), h.rule, h.event, h.now, 0);
  }

  /** The completions of a run are those of its stretches together, each started afresh. */
  lemma {:induction false} StretchesAddUp(chain: AttackChain, current: seq<LocalHit>, events: seq<LocalOp>)
    requires var o := After(chain, None, current);
             o.Some? ==> current != [] && o.value.lastMatchAt == current[|current| - 1].now
    ensures LocalCount(chain, None, current) + LocalRun(chain, After(chain, None, current), events)
         == Sum(CountsOf(chain, Stretches(chain, current, events)))
    decreases |events|
  {
    var o, stretches := After(chain, None, current), Stretches(chain, current, events);
    if events == [] {
      assert CountsOf(chain, stretches) == [LocalCount(chain, None, current)] + [];
      assert CountsOf(chain, stretches)[1..] == [];
    } else {
      match events[0] {
        case LocalMatch(h) =>
          OneMoreHit(chain, None, current, h);
          StepLeavesTime(chain, o, h);
          StretchesAddUp(chain, current + [h], events[1..]);
        case LocalSweep(at) =>
          if current != [] && at - current[|current| - 1].now > chain.timeout as real {
            StretchesAddUp(chain, [], events[1..]);
            assert CountsOf(chain, stretches)[1..] == CountsOf(chain, stretches[1..]);
          } else {
            StretchesAddUp(chain, current, events[1..]);
          }
      }
    }
  }

  /** The incidents of an untracked chain and key are the completions of the stretches, added up. */
  lemma IncidentsAddUp(es: EngineState, j: nat, k: string, ops: seq<Op>)
    requires DistinctIds(es.defs) && j < |es.defs| && k != UNKNOWN && KeepsDefinition(es.defs[j], ops)
    requires (es.defs[j].id, k) !in es.chains
    ensures CountFor(es.defs[j], k, Run(es, ops).1)
         == Sum(CountsOf(es.defs[j], Stretches(es.defs[j], [], EventsFor(es.defs[j], k, ops))))
  {
    RunProjects(es, j, k, ops);
    StretchesAddUp(es.defs[j], [], EventsFor(es.defs[j], k, ops));
  }
}
