/** Attack chains, their tracked instances, and one step of the correlation engine as a
    function of its state. The classes in CorrelationEngine.dfy are proved against these
    functions; the other modules on chains prove what the functions promise. */
module CorrelationModel {
  import opened Wrappers
  import opened Values

  datatype StageType = Ordered | Optional | Unordered | Branch

  datatype ChainStage = ChainStage(
    stageId: string, stageType: StageType, ruleIds: seq<string>, confidenceModifier: int)

  datatype CorrelationKey =
    SourceIp | DestIp | Username | Hostname | CorrelationId | Process | Session | ContainerId

  datatype AttackChain = AttackChain(
    id: string, enabled: bool, correlationKey: CorrelationKey, timeout: int,
    stages: seq<ChainStage>, confidenceModifier: int)

  datatype StageProgress = StageProgress(
    matched: bool, matchedAt: real, matchedRules: seq<string>, matchedEvents: seq<Value>)

  const UNMATCHED := StageProgress(false, 0.0, [], [])

  /** The value of an active chain's fields; `order` lists the keys of `progress` as they were inserted. */
  datatype ChainState = ChainState(
    incidentId: nat, createdAt: real, updatedAt: real, lastMatchAt: real,
    progress: map<string, StageProgress>, order: seq<string>, current: nat, confidence: int, expired: bool)

  /** What `advance` does: it returns whether the chain completed, or it fails on a stage
      that the active chain has no progress entry for. */
  datatype Outcome = Advanced(state: ChainState, completed: bool) | MissingStage(state: ChainState)

  function StageIds(chain: AttackChain): set<string> {
    set i | 0 <= i < |chain.stages| :: chain.stages[i].stageId
  }

  /** The distinct ids of the first `n` stages, in order. */
  function IdsInOrder(chain: AttackChain, n: nat): seq<string>
    requires n <= |chain.stages|
  {
    if n == 0 then []
    else
      var before, id := IdsInOrder(chain, n - 1), chain.stages[n - 1].stageId;
      if id in before then before else before + [id]
  }

  function Start(chain: AttackChain, uid: nat, now: real): ChainState {
    ChainState(uid, now, now, now, map id | id in StageIds(chain) :: UNMATCHED,
               IdsInOrder(chain, |chain.stages|), 0, chain.confidenceModifier, false)
  }

  function Record(p: StageProgress, rule: string, event: Value, now: real): StageProgress {
    StageProgress(true, now, p.matchedRules + [rule], p.matchedEvents + [event])
  }

  function Mark(st: ChainState, stage: ChainStage, rule: string, event: Value, now: real): ChainState
    requires stage.stageId in st.progress
  {
    st.(progress := st.progress[stage.stageId := Record(st.progress[stage.stageId], rule, event, now)],
        confidence := st.confidence + stage.confidenceModifier)
  }

  predicate AllRequiredMatched(chain: AttackChain, st: ChainState) {
    forall i | 0 <= i < |chain.stages| && !chain.stages[i].stageType.Optional? ::
      chain.stages[i].stageId in st.progress && st.progress[chain.stages[i].stageId].matched
  }

  /** The scan over the stages from `idx` on. The first stage that takes the rule decides. */
  function AdvanceFrom(chain: AttackChain, st: ChainState, rule: string, event: Value, now: real, idx: nat): Outcome
    requires idx <= |chain.stages|
    decreases |chain.stages| - idx
  {
    if idx == |chain.stages| then
      Advanced(st, false)
    else
      var stage := chain.stages[idx];
      if rule !in stage.ruleIds then
        AdvanceFrom(chain, st, rule, event, now, idx + 1)
      else if stage.stageId !in st.progress then
        MissingStage(st)
      else
        match stage.stageType
        case Ordered =>
          if idx != st.current then
            AdvanceFrom(chain, st, rule, event, now, idx + 1)
          else
            Advanced(Mark(st, stage, rule, event, now).(current := idx + 1), idx + 1 >= |chain.stages|)
        case Branch =>
          Advanced(Mark(st, stage, rule, event, now), true)
        case _ =>
          var marked := Mark(st, stage, rule, event, now);
          Advanced(marked, AllRequiredMatched(chain, marked))
  }

  function Advance(chain: AttackChain, st: ChainState, rule: string, event: Value, now: real): Outcome {
    AdvanceFrom(chain, st.(lastMatchAt := now, updatedAt := now), rule, event, now, 0)
  }

  predicate IsExpired(chain: AttackChain, st: ChainState, now: real) {
    now - st.lastMatchAt > chain.timeout as real
  }

  // ----- the engine -----

  type Event = map<string, string>

  type ChainKey = (string, string)

  datatype IncidentState = Completed | Expired

  /** The numbers in the evidence text. */
  datatype Evidence = ChainExpired | ChainCompleted(matchedStages: nat, totalStages: nat, rules: nat)

  datatype SecurityIncident = SecurityIncident(
    incidentId: nat, attackChainId: string, correlationId: string, state: IncidentState,
    matchedRules: seq<string>, matchedEvents: seq<Value>, confidenceModifier: int, evidence: Evidence)

  datatype Metrics = Metrics(
    active: nat, started: nat, advanced: nat, completed: nat, expired: nat, errors: nat)

  /** `nextUid` stands for the source of fresh incident ids. */
  datatype EngineState = EngineState(
    defs: seq<AttackChain>, chains: map<ChainKey, ChainState>, incidents: map<nat, SecurityIncident>,
    metrics: Metrics, nextUid: nat)

  const UNKNOWN := "unknown"

  /** The value under the first of two names that holds a non-empty string. */
  function FirstOf(event: Event, first: string, second: string): string {
    if first in event && event[first] != "" then event[first]
    else if second in event && event[second] != "" then event[second]
    else UNKNOWN
  }

  function ExtractKeyValue(key: CorrelationKey, m: RuleMatch, event: Option<Event>): string {
    if key.CorrelationId? then
      if m.correlationId != "" then m.correlationId else UNKNOWN
    else if event.None? then
      UNKNOWN
    else
      match key
      case SourceIp => FirstOf(event.value, "source_ip", "ip")
      case DestIp => FirstOf(event.value, "dest_ip", "dest_ip")
      case Username => FirstOf(event.value, "username", "user")
      case Hostname => FirstOf(event.value, "hostname", "hostname")
      case Process => FirstOf(event.value, "process", "exe")
      case Session => FirstOf(event.value, "session", "session_id")
      case _ => FirstOf(event.value, "container_id", "container")
  }

  /** An absent event id is read as the empty text. */
  function EventIdOf(m: RuleMatch): Value { if Truthy(m.eventId) then m.eventId else Str("") }

  function CorrelationIdOf(keyValue: string): string { "corr-" + keyValue }

  function EntryOf(progress: map<string, StageProgress>, id: string): StageProgress {
    if id in progress then progress[id] else UNMATCHED
  }

  /** The rules recorded in the first `n` progress entries, one entry after the other. */
  function RulesRecorded(st: ChainState, n: nat): seq<string>
    requires n <= |st.order|
  {
    if n == 0 then [] else RulesRecorded(st, n - 1) + EntryOf(st.progress, st.order[n - 1]).matchedRules
  }

  function EventsRecorded(st: ChainState, n: nat): seq<Value>
    requires n <= |st.order|
  {
    if n == 0 then [] else EventsRecorded(st, n - 1) + EntryOf(st.progress, st.order[n - 1]).matchedEvents
  }

  function MatchedEntries(st: ChainState, n: nat): nat
    requires n <= |st.order|
  {
    if n == 0 then 0 else MatchedEntries(st, n - 1) + if EntryOf(st.progress, st.order[n - 1]).matched then 1 else 0
  }

  function CompletedIncident(chain: AttackChain, keyValue: string, st: ChainState): SecurityIncident {
    var n := |st.order|;
    SecurityIncident(st.incidentId, chain.id, CorrelationIdOf(keyValue), Completed, RulesRecorded(st, n),
                     EventsRecorded(st, n), st.confidence,
                     ChainCompleted(MatchedEntries(st, n), |chain.stages|, |RulesRecorded(st, n)|))
  }

  function ExpiredIncident(id: nat): SecurityIncident {
    SecurityIncident(id, "", "", Expired, [], [], 0, ChainExpired)
  }

  function Decremented(n: nat, amount: nat): nat { if n >= amount then n - amount else 0 }

  /** The tracked chain for `key`, started first when there is none. */
  function EnsureStarted(es: EngineState, chain: AttackChain, key: ChainKey, now: real): EngineState {
    if key in es.chains then es
    else es.(chains := es.chains[key := Start(chain, es.nextUid, now)],
             nextUid := es.nextUid + 1,
             metrics := es.metrics.(started := es.metrics.started + 1, active := es.metrics.active + 1))
  }

  /** What follows a call of `advance` for the tracked chain `key`. */
  function Settle(es: EngineState, chain: AttackChain, key: ChainKey, outcome: Outcome)
    : (EngineState, seq<SecurityIncident>)
  {
    match outcome
    case MissingStage(st) =>
      (es.(chains := es.chains[key := st], metrics := es.metrics.(errors := es.metrics.errors + 1)), [])
    case Advanced(st, false) =>
      (es.(chains := es.chains[key := st]), [])
    case Advanced(st, true) =>
      var incident := CompletedIncident(chain, key.1, st);
      (es.(chains := es.chains - {key},
           incidents := es.incidents[incident.incidentId := incident],
           metrics := es.metrics.(completed := es.metrics.completed + 1, active := Decremented(es.metrics.active, 1))),
       [incident])
  }

  /** One chain definition against one rule match. */
  function CorrelateChain(es: EngineState, chain: AttackChain, m: RuleMatch, event: Option<Event>, now: real)
    : (EngineState, seq<SecurityIncident>)
  {
    var kv := ExtractKeyValue(chain.correlationKey, m, event);
    if kv == UNKNOWN then (es, [])
    else
      var key := (chain.id, kv);
      var s := EnsureStarted(es, chain, key, now);
      var t := s.(metrics := s.metrics.(advanced := s.metrics.advanced + 1));
      Settle(t, chain, key, Advance(chain, t.chains[key], m.ruleId, EventIdOf(m), now))
  }

  /** The two steps for a match with a key: starting, then settling what advancing says. */
  lemma SettlesAfterStart(es: EngineState, chain: AttackChain, m: RuleMatch, event: Option<Event>, now: real)
    ensures var kv := ExtractKeyValue(chain.correlationKey, m, event);
            var key := (chain.id, kv);
            var begun := EnsureStarted(es, chain, key, now);
            var s := begun.(metrics := begun.metrics.(advanced := begun.metrics.advanced + 1));
            key in begun.chains && CorrelateChain(es, chain, m, event, now) ==
            if kv == UNKNOWN then (es, [])
            else Settle(s, chain, key, Advance(chain, begun.chains[key], m.ruleId, EventIdOf(m), now))
  {}

  /** The first `n` chain definitions, in load order. */
  function CorrelateUpTo(es: EngineState, n: nat, m: RuleMatch, event: Option<Event>, now: real)
    : (r: (EngineState, seq<SecurityIncident>))
    requires n <= |es.defs|
    ensures r.0.defs == es.defs
  {
    if n == 0 then (es, [])
    else
      var (s, first) := CorrelateUpTo(es, n - 1, m, event, now);
      var (t, last) := CorrelateChain(s, es.defs[n - 1], m, event, now);
      (t, first + last)
  }

  function Correlate(es: EngineState, m: RuleMatch, event: Option<Event>, now: real): (EngineState, seq<SecurityIncident>) {
    CorrelateUpTo(es, |es.defs|, m, event, now)
  }

  predicate KeyExpired(defs: seq<AttackChain>, chains: map<ChainKey, ChainState>, key: ChainKey, now: real)
    requires key in chains
  {
    exists i | 0 <= i < |defs| :: defs[i].id == key.0 && IsExpired(defs[i], chains[key], now)
  }

  function ExpiredAmong(defs: seq<AttackChain>, chains: map<ChainKey, ChainState>, now: real): set<ChainKey> {
    set key | key in chains && KeyExpired(defs, chains, key, now)
  }

  function ExpiredKeys(es: EngineState, now: real): set<ChainKey> {
    ExpiredAmong(es.defs, es.chains, now)
  }

  /** The incidents of expired chains, by incident id. */
  function ExpiredIncidents(chains: map<ChainKey, ChainState>, gone: set<ChainKey>): map<nat, SecurityIncident>
    requires gone <= chains.Keys
  {
    var ids := set key | key in gone :: chains[key].incidentId;
    map id | id in ids :: ExpiredIncident(id)
  }

  function Cleanup(es: EngineState, now: real): EngineState {
    var gone := ExpiredKeys(es, now);
    es.(chains := es.chains - gone,
        incidents := es.incidents + ExpiredIncidents(es.chains, gone),
        metrics := es.metrics.(expired := es.metrics.expired + |gone|,
                               active := Decremented(es.metrics.active, |gone|)))
  }

  /** Inserting into an insertion-ordered dictionary: an existing id keeps its place. */
  function Define(defs: seq<AttackChain>, chain: AttackChain): seq<AttackChain> {
    if defs == [] then [chain]
    else if defs[0].id == chain.id then [chain] + defs[1..]
    else [defs[0]] + Define(defs[1..], chain)
  }

  function LoadChains(defs: seq<AttackChain>, chains: seq<AttackChain>): seq<AttackChain>
    decreases chains
  {
    if chains == [] then defs
    else LoadChains(if chains[0].enabled then Define(defs, chains[0]) else defs, chains[1..])
  }

  datatype Op =
    | Hit(m: RuleMatch, event: Option<Event>, now: real)
    | Sweep(at: real)
    | Load(chains: seq<AttackChain>)

  function Step(es: EngineState, op: Op): (EngineState, seq<SecurityIncident>) {
    match op
    case Hit(m, event, now) => Correlate(es, m, event, now)
    case Sweep(at) => (Cleanup(es, at), [])
    case Load(chains) => (es.(defs := LoadChains(es.defs, chains)), [])
  }

  /** A whole run, with the incidents that `correlate` returned along it, in order. */
  function Run(es: EngineState, ops: seq<Op>): (EngineState, seq<SecurityIncident>)
    decreases ops
  {
    if ops == [] then (es, [])
    else
      var (s, first) := Step(es, ops[0]);
      var (t, rest) := Run(s, ops[1..]);
      (t, first + rest)
  }

  const INITIAL := EngineState([], map[], map[], Metrics(0, 0, 0, 0, 0, 0), 0)
}
