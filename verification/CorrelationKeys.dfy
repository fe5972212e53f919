/** Whose hits are counted together: the key of a hit in terms of the event and the match, and what a hit
    and a sweep change among the tracked chains. */
module CorrelationKeys {
  import opened Wrappers
  import opened Values
  import opened CorrelationModel
  import opened ChainInvariant
  import opened ChainProjection

  /** The event holds a non-empty text under this name. */
  predicate Tells(event: Event, name: string) { name in event && event[name] != "" }

  /** `k` is the event's text under the first of the names that has one. */
  ghost predicate KeyUnder(event: Event, names: seq<string>, k: string) {
    exists i :: 0 <= i < |names| && Tells(event, names[i]) && event[names[i]] == k
      && forall j | 0 <= j < i :: !Tells(event, names[j])
  }

  ghost predicate NoKeyUnder(event: Event, names: seq<string>) {
    forall i | 0 <= i < |names| :: !Tells(event, names[i])
  }

  lemma FirstOfTwo(event: Event, first: string, second: string)
    ensures NoKeyUnder(event, [first, second]) ==> FirstOf(event, first, second) == "unknown"
    ensures forall k | KeyUnder(event, [first, second], k) :: FirstOf(event, first, second) == k
  {
    assert [first, second][0] == first && [first, second][1] == second;
  }

  /** What each kind of correlation key reads. */
  lemma KeysByKind(m: RuleMatch, event: Event)
    ensures forall k | KeyUnder(event, ["source_ip", "ip"], k) :: ExtractKeyValue(SourceIp, m, Some(event)) == k
    ensures forall k | KeyUnder(event, ["dest_ip"], k) :: ExtractKeyValue(DestIp, m, Some(event)) == k
    ensures forall k | KeyUnder(event, ["username", "user"], k) :: ExtractKeyValue(Username, m, Some(event)) == k
    ensures forall k | KeyUnder(event, ["hostname"], k) :: ExtractKeyValue(Hostname, m, Some(event)) == k
    ensures forall k | KeyUnder(event, ["process", "exe"], k) :: ExtractKeyValue(Process, m, Some(event)) == k
    ensures forall k | KeyUnder(event, ["session", "session_id"], k) :: ExtractKeyValue(Session, m, Some(event)) == k
    ensures forall k | KeyUnder(event, ["container_id", "container"], k) :: ExtractKeyValue(ContainerId, m, Some(event)) == k
    ensures NoKeyUnder(event, ["source_ip", "ip"]) ==> ExtractKeyValue(SourceIp, m, Some(event)) == "unknown"
    ensures NoKeyUnder(event, ["dest_ip"]) ==> ExtractKeyValue(DestIp, m, Some(event)) == "unknown"
    ensures NoKeyUnder(event, ["username", "user"]) ==> ExtractKeyValue(Username, m, Some(event)) == "unknown"
    ensures NoKeyUnder(event, ["hostname"]) ==> ExtractKeyValue(Hostname, m, Some(event)) == "unknown"
    ensures NoKeyUnder(event, ["process", "exe"]) ==> ExtractKeyValue(Process, m, Some(event)) == "unknown"
    ensures NoKeyUnder(event, ["session", "session_id"]) ==> ExtractKeyValue(Session, m, Some(event)) == "unknown"
    ensures NoKeyUnder(event, ["container_id", "container"]) ==> ExtractKeyValue(ContainerId, m, Some(event)) == "unknown"
  {
    FirstOfTwo(event, "source_ip", "ip");
    FirstOfTwo(event, "username", "user");
    FirstOfTwo(event, "process", "exe");
    FirstOfTwo(event, "session", "session_id");
    FirstOfTwo(event, "container_id", "container");
    OneName(event, "dest_ip");
    OneName(event, "hostname");
    hide FirstOf, Tells, KeyUnder, NoKeyUnder;
  }

  lemma OneName(event: Event, name: string)
    ensures NoKeyUnder(event, [name]) ==> FirstOf(event, name, name) == "unknown"
    ensures forall k | KeyUnder(event, [name], k) :: FirstOf(event, name, name) == k
  {
    assert [name][0] == name;
  }

  /** The correlation id is read off the match, whatever the event; the other kinds need an event. */
  lemma KeysWithoutEvent(kind: CorrelationKey, m: RuleMatch, event: Option<Event>)
    ensures kind.CorrelationId? && m.correlationId != "" ==> ExtractKeyValue(kind, m, event) == m.correlationId
    ensures kind.CorrelationId? && m.correlationId == "" ==> ExtractKeyValue(kind, m, event) == "unknown"
    ensures !kind.CorrelationId? && event == None ==> ExtractKeyValue(kind, m, event) == "unknown"
  {}

  // ----- what a hit changes -----

  /** Tracked chains under this key are the same in both. */
  ghost predicate SameAt(a: map<ChainKey, ChainState>, b: map<ChainKey, ChainState>, key: ChainKey) {
    (key in a <==> key in b) && (key in a ==> a[key] == b[key])
  }

  lemma OtherKeysStay(es: EngineState, chain: AttackChain, m: RuleMatch, event: Option<Event>, now: real, key: ChainKey)
    requires key != (chain.id, ExtractKeyValue(chain.correlationKey, m, event))
             || ExtractKeyValue(chain.correlationKey, m, event) == "unknown"
    ensures SameAt(es.chains, CorrelateChain(es, chain, m, event, now).0.chains, key)
  {
    hide ExtractKeyValue, Advance, CompletedIncident, Start;
  }

  lemma {:induction false} FirstDefinitionsStay(es: EngineState, n: nat, m: RuleMatch, event: Option<Event>, now: real, key: ChainKey)
    requires n <= |es.defs|
    requires forall d | d in es.defs && d.id == key.0 ::
      ExtractKeyValue(d.correlationKey, m, event) == "unknown" || key.1 != ExtractKeyValue(d.correlationKey, m, event)
    ensures SameAt(es.chains, CorrelateUpTo(es, n, m, event, now).0.chains, key)
  {
    hide ExtractKeyValue, CorrelateChain;
    if n > 0 {
      FirstDefinitionsStay(es, n - 1, m, event, now, key);
      assert es.defs[n - 1] in es.defs;
      OtherKeysStay(CorrelateUpTo(es, n - 1, m, event, now).0, es.defs[n - 1], m, event, now, key);
    }
  }

  /** A hit changes, among the chains tracked for a definition, only the one under the key that its own
      event or match tells; without such a key it changes none. */
  lemma HitTouchesOwnKeyOnly(es: EngineState, j: nat, m: RuleMatch, event: Option<Event>, now: real, k: string)
    requires DistinctIds(es.defs) && j < |es.defs|
    requires ExtractKeyValue(es.defs[j].correlationKey, m, event) == "unknown"
             || k != ExtractKeyValue(es.defs[j].correlationKey, m, event)
    ensures SameAt(es.chains, Correlate(es, m, event, now).0.chains, (es.defs[j].id, k))
  {
    forall d | d in es.defs && d.id == es.defs[j].id ensures d == es.defs[j] {}
    FirstDefinitionsStay(es, |es.defs|, m, event, now, (es.defs[j].id, k));
  }

  /** Hits of different sources stay apart, in a chain keyed by the source address. */
  lemma SourcesStayApart(es: EngineState, j: nat, m: RuleMatch, event: Event, now: real, source: string, other: string)
    requires DistinctIds(es.defs) && j < |es.defs| && es.defs[j].correlationKey == SourceIp
    requires Tells(event, "source_ip") && event["source_ip"] == source && other != source
    ensures SameAt(es.chains, Correlate(es, m, Some(event), now).0.chains, (es.defs[j].id, other))
  {
    var names := ["source_ip", "ip"];
    assert names[0] == "source_ip" && KeyUnder(event, names, source);
    KeysByKind(m, event);
    HitTouchesOwnKeyOnly(es, j, m, Some(event), now, other);
  }

  /** Without a source address it touches none of them. */
  lemma SourcelessTouchesNothing(es: EngineState, j: nat, m: RuleMatch, event: Option<Event>, now: real, other: string)
    requires DistinctIds(es.defs) && j < |es.defs| && es.defs[j].correlationKey == SourceIp
    requires event.Some? ==> !Tells(event.value, "source_ip") && !Tells(event.value, "ip")
    ensures SameAt(es.chains, Correlate(es, m, event, now).0.chains, (es.defs[j].id, other))
  {
    if event.Some? {
      KeysByKind(m, event.value);
      assert NoKeyUnder(event.value, ["source_ip", "ip"]);
    }
    HitTouchesOwnKeyOnly(es, j, m, event, now, other);
  }

  /** A hit with a key does advance the chain under that key, started first if need be: afterwards it is
      tracked with the time of the hit, or has completed. */
  lemma HitReachesItsChain(es: EngineState, j: nat, m: RuleMatch, event: Option<Event>, now: real)
    requires DistinctIds(es.defs) && j < |es.defs|
    requires ExtractKeyValue(es.defs[j].correlationKey, m, event) != "unknown"
    ensures var chain, k := es.defs[j], ExtractKeyValue(es.defs[j].correlationKey, m, event);
            var (after, raised) := Correlate(es, m, event, now);
            var (next, completed) := LocalStep(chain, Component(es.chains, (chain.id, k)), LocalHit(m.ruleId, EventIdOf(m), now));
            Component(after.chains, (chain.id, k)) == next && CountFor(chain, k, raised) == (if completed then 1 else 0)
  {
    CorrelateLocally(es, |es.defs|, j, ExtractKeyValue(es.defs[j].correlationKey, m, event), m, event, now);
    hide ExtractKeyValue, CorrelateUpTo, LocalStep;
  }

  /** The event id of a hit; an absent or falsy one is recorded as the empty text. */
  lemma HitCarriesEventId(m: RuleMatch)
    ensures m.eventId.Str? ==> EventIdOf(m) == m.eventId
    ensures m.eventId == Null || m.eventId == Int(0) ==> EventIdOf(m) == Str("")
    ensures m.eventId.Int? && m.eventId.i != 0 ==> EventIdOf(m) == m.eventId
  {}

  // ----- what a sweep changes -----

  /** A sweep drops exactly the chains whose last hit lies further back than their definition's timeout, and
      changes no other. */
  lemma SweepDropsTheOld(es: EngineState, j: nat, now: real, k: string)
    requires DistinctIds(es.defs) && j < |es.defs| && (es.defs[j].id, k) in es.chains
    ensures var key := (es.defs[j].id, k);
            var after := Cleanup(es, now).chains;
      && (key in after <==> now <= es.chains[key].lastMatchAt + es.defs[j].timeout as real)
      && (key in after ==> after[key] == es.chains[key])
  {
    SweepLocally(es, j, k, now);
    var key := (es.defs[j].id, k);
    assert KeyExpired(es.defs, es.chains, key, now) <==> IsExpired(es.defs[j], es.chains[key], now);
  }
}
