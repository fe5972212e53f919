/** Reputation scores: decay towards zero, the store, and the operations that change scores. */
module Reputation {
  import opened Wrappers
  import opened Sequences
  import opened Scoring

  datatype ScoreError = OutOfRange

  const SECONDS_PER_HOUR := 3600
  const DEFAULT_HOURS_PER_POINT := 24
  const DAY := 86400

  /** Entity type and value. */
  type Key = (string, string)

  /** Times are whole seconds. */
  datatype Record = Record(
    currentScore: int, previousScore: int, confidence: int, firstSeen: int, lastSeen: int,
    eventCount: nat, banCount: nat)

  function Abs(x: int): nat { if x < 0 then -x else x }

  /** A quotient cut towards zero. */
  function Truncated(n: int, d: int): int
    requires d > 0
  {
    if n >= 0 then n / d else -((-n) / d)
  }

  function CalculateDecay(score: int, lastSeen: int, now: int, rate: int, hoursPerPoint: int, permanent: bool): int
    requires hoursPerPoint > 0
  {
    if permanent then score
    else
      var points := Truncated(now - lastSeen, SECONDS_PER_HOUR * hoursPerPoint) * rate;
      if points <= 0 then score
      else if score > 0 then Clamp(score - Min(points, score))
      else if score < 0 then Clamp(score + Min(points, Abs(score)))
      else score
  }

  /** The decay that `apply_decay` asks for. */
  function Decayed(score: int, lastSeen: int, now: int): int {
    CalculateDecay(score, lastSeen, now, 1, DEFAULT_HOURS_PER_POINT, false)
  }

  /** What a new or updated record looks like; a score out of range is refused. */
  function Upserted(existing: Option<Record>, score: int, confidence: int, banCount: nat, now: int): Result<Record, ScoreError> {
    if !InRange(score) then Err(OutOfRange)
    else if existing.Some? then
      var e := existing.value;
      Ok(Record(score, e.currentScore, confidence, e.firstSeen, now, e.eventCount + 1,
                if e.banCount >= banCount then e.banCount else banCount))
    else Ok(Record(score, 0, confidence, now, now, 1, banCount))
  }

  /** One sweep, for one record: a changed score is stored and restarts the clock. */
  function Swept(r: Record, now: int): Record {
    var decayed := Decayed(r.currentScore, r.lastSeen, now);
    if decayed == r.currentScore then r
    else match Upserted(Some(r), decayed, r.confidence, r.banCount, now)
      case Ok(next) => next
      case Err(_) => r
  }

  type Records = map<Key, Record>

  function Find(store: Records, key: Key): Option<Record> {
    if key in store then Some(store[key]) else None
  }

  function Stored(store: Records, key: Key, r: Result<Record, ScoreError>): Records {
    if r.Ok? then store[key := r.value] else store
  }

  // ----- one entity under sweeps -----

  /** Decay as a step towards zero, on the absolute score. */
  function Magnitude(a: nat, elapsed: int): nat {
    var points := if elapsed >= 0 then elapsed / DAY else 0;
    if points < a then a - points else 0
  }

  /** Decay keeps the side of zero, never moves away from zero and stays in range. */
  lemma DecayIsMagnitude(score: int, lastSeen: int, now: int)
    requires InRange(score)
    ensures var d := Decayed(score, lastSeen, now);
            && Abs(d) == Magnitude(Abs(score), now - lastSeen)
            && (score >= 0 ==> 0 <= d <= score) && (score <= 0 ==> score <= d <= 0)
            && InRange(d)
  {}

  lemma SweptScore(r: Record, now: int)
    requires InRange(r.currentScore)
    ensures var next, decayed := Swept(r, now), Decayed(r.currentScore, r.lastSeen, now);
            next.currentScore == decayed && next.lastSeen == if decayed == r.currentScore then r.lastSeen else now
  {
    DecayIsMagnitude(r.currentScore, r.lastSeen, now);
  }

  function Sweeps(r: Record, times: seq<int>): Record
    decreases |times|
  {
    if times == [] then r else Sweeps(Swept(r, times[0]), times[1..])
  }

  /** How many of the sweeps change the score. */
  function EffectiveSweeps(r: Record, times: seq<int>): nat
    decreases |times|
  {
    if times == [] then 0
    else (if Swept(r, times[0]).currentScore != r.currentScore then 1 else 0)
         + EffectiveSweeps(Swept(r, times[0]), times[1..])
  }

  ghost predicate Ascending(start: int, times: seq<int>) {
    (forall i | 0 <= i < |times| :: start <= times[i])
    && forall i, j | 0 <= i < j < |times| :: times[i] <= times[j]
  }

  /** Decay over two stretches of time against decay over both together. */
  lemma TwoStretches(a: nat, x: nat, y: nat)
    ensures Magnitude(a, x + y) <= Magnitude(Magnitude(a, x), y) <= Magnitude(a, x + y) + 1
  {
    assert x / DAY + y / DAY <= (x + y) / DAY <= x / DAY + y / DAY + 1;
  }

  /** Sweeps keep a score on its side of zero and never move it away from zero. */
  lemma {:induction false} SweepsKeepSide(r: Record, times: seq<int>)
    requires InRange(r.currentScore)
    ensures var swept := Sweeps(r, times).currentScore;
            && (r.currentScore >= 0 ==> 0 <= swept <= r.currentScore)
            && (r.currentScore <= 0 ==> r.currentScore <= swept <= 0)
    decreases |times|
  {
    if times != [] {
      DecayIsMagnitude(r.currentScore, r.lastSeen, times[0]);
      SweptScore(r, times[0]);
      hide Decayed, Swept;
      SweepsKeepSide(Swept(r, times[0]), times[1..]);
    }
  }

  /** However often the sweep runs, each effective sweep costs an entity at most one point of
      decay compared with a single decay at the end, and none is ever gained; the score stays on
      its side of zero and in range. */
  lemma {:induction false} SweepsAgainstOneDecay(r: Record, times: seq<int>)
    requires InRange(r.currentScore) && times != [] && Ascending(r.lastSeen, times)
    ensures var once := Decayed(r.currentScore, r.lastSeen, times[|times| - 1]);
            var swept := Sweeps(r, times).currentScore;
            && Abs(once) <= Abs(swept) <= Abs(once) + EffectiveSweeps(r, times)
            && (r.currentScore >= 0 ==> 0 <= swept <= r.currentScore)
            && (r.currentScore <= 0 ==> r.currentScore <= swept <= 0)
    decreases |times|
  {
    SweepsKeepSide(r, times);
    var t, end := times[0], times[|times| - 1];
    SweepCostsAtMostOne(r, t, end);
    hide Decayed, Swept, Magnitude, Abs, InRange;
    if |times| > 1 {
      assert times[1..][|times| - 2] == end;
      SweepsAgainstOneDecay(Swept(r, t), times[1..]);
    } else {
      assert Sweeps(r, times) == Sweeps(Swept(r, t), []);
      assert EffectiveSweeps(Swept(r, t), []) == 0;
    }
  }

  /** One sweep before the final decay. */
  lemma SweepCostsAtMostOne(r: Record, t: int, end: int)
    requires InRange(r.currentScore) && r.lastSeen <= t <= end
    ensures var once, next := Decayed(r.currentScore, r.lastSeen, end), Swept(r, t);
            var left := Decayed(next.currentScore, next.lastSeen, end);
      && InRange(next.currentScore) && next.lastSeen in {r.lastSeen, t}
      && Abs(once) <= Abs(left) <= Abs(once) + (if next.currentScore != r.currentScore then 1 else 0)
      && (t == end ==> Abs(once) <= Abs(next.currentScore) <= Abs(once) + (if next.currentScore != r.currentScore then 1 else 0))
  {
    var next := Swept(r, t);
    DecayIsMagnitude(r.currentScore, r.lastSeen, t);
    DecayIsMagnitude(r.currentScore, r.lastSeen, end);
    SweptScore(r, t);
    DecayIsMagnitude(next.currentScore, next.lastSeen, end);
    TwoStretches(Abs(r.currentScore), t - r.lastSeen, end - t);
    hide Decayed, Swept, Magnitude, Abs;
  }

  // ----- the whole store -----

  datatype Op =
    | OnThreat(key: Key, threat: Threat, at: int)
    | Positive(key: Key, points: int, at: int)
    | Decay(at: int)

  function SweepAll(store: Records, now: int): Records {
    map key | key in store :: Swept(store[key], now)
  }

  function ThreatScore(existing: Option<Record>, scoreChange: int, now: int): int {
    if existing.Some? then
      Clamp(Decayed(existing.value.currentScore, existing.value.lastSeen, now) + scoreChange
            + PositiveChange(existing.value.eventCount))
    else Clamp(scoreChange + PositiveChange(0))
  }

  /** A new entity's points are stored without clamping, so too many are refused. */
  function PositiveScore(existing: Option<Record>, points: int): int {
    if existing.Some? then Clamp(existing.value.currentScore + points) else points
  }

  function Step(store: Records, op: Op): Records {
    match op
    case OnThreat(key, threat, at) =>
      Stored(store, key, Upserted(Find(store, key), ThreatScore(Find(store, key), ScoreChange(threat), at),
                                  threat.confidence, threat.banCount, at))
    case Positive(key, points, at) =>
      Stored(store, key, Upserted(Find(store, key), PositiveScore(Find(store, key), points), 50, 0, at))
    case Decay(at) => SweepAll(store, at)
  }

  function Run(store: Records, ops: seq<Op>): Records
    decreases |ops|
  {
    if ops == [] then store else Run(Step(store, ops[0]), ops[1..])
  }

  ghost predicate AllInRange(store: Records) {
    forall key | key in store :: InRange(store[key].currentScore)
  }

  /** Stored scores never leave the range, whatever is processed in whatever order. */
  lemma {:induction false} ScoresStayInRange(store: Records, ops: seq<Op>)
    requires AllInRange(store)
    ensures AllInRange(Run(store, ops))
    decreases |ops|
  {
    if ops != [] {
      if ops[0].Decay? {
        forall key | key in store ensures InRange(Swept(store[key], ops[0].at).currentScore) {
          DecayIsMagnitude(store[key].currentScore, store[key].lastSeen, ops[0].at);
        }
      }
      ScoresStayInRange(Step(store, ops[0]), ops[1..]);
    }
  }

  function SweepSchedule(times: seq<int>): seq<Op> {
    seq(|times|, i requires 0 <= i < |times| => Decay(times[i]))
  }

  /** Sweeping the store sweeps every entity on its own. */
  lemma {:induction false} EntitiesAreIndependent(store: Records, times: seq<int>, key: Key)
    ensures key in Run(store, SweepSchedule(times)) <==> key in store
    ensures key in store ==> Run(store, SweepSchedule(times))[key] == Sweeps(store[key], times)
    decreases |times|
  {
    if times != [] {
      assert SweepSchedule(times)[1..] == SweepSchedule(times[1..]);
      assert SweepSchedule(times)[0] == Decay(times[0]);
      EntitiesAreIndependent(SweepAll(store, times[0]), times[1..], key);
    }
  }

  /** A threat leaves a new entity at most at zero, and a known one at most at its decayed score and the
      points for its events. */
  lemma ThreatsNeverHelp(existing: Option<Record>, threat: Threat, now: int)
    requires 0 <= threat.score && 0 <= threat.confidence
    requires existing.Some? ==> InRange(existing.value.currentScore)
    ensures existing.None? ==> ThreatScore(existing, ScoreChange(threat), now) == ScoreChange(threat) <= 0
    ensures existing.Some? ==>
              var decayed := Decayed(existing.value.currentScore, existing.value.lastSeen, now);
              ThreatScore(existing, ScoreChange(threat), now) <= decayed + if existing.value.eventCount % 100 == 0 then 5 else 0
  {
    WorseThreatsCostMore(threat, threat);
    if existing.Some? {
      DecayIsMagnitude(existing.value.currentScore, existing.value.lastSeen, now);
    }
    hide ScoreChange, Decayed;
  }

  class ReputationStore {
    var store: Records

    constructor ()
      ensures store == map[]
    {
      store := map[];
    }

    method Upsert(key: Key, score: int, confidence: int, banCount: nat, now: int) returns (r: Result<Record, ScoreError>)
      modifies this
      ensures r == Upserted(Find(old(store), key), score, confidence, banCount, now)
      ensures store == Stored(old(store), key, r)
    {
      if !InRange(score) {
        return Err(OutOfRange);
      }
      var record;
      if key in store {
        var e := store[key];
        var bans := if e.banCount >= banCount then e.banCount else banCount;
        record := Record(score, e.currentScore, confidence, e.firstSeen, now, e.eventCount + 1, bans);
      } else {
        record := Record(score, 0, confidence, now, now, 1, banCount);
      }
      store := store[key := record];
      return Ok(record);
    }

    method Remove(key: Key) returns (found: bool)
      modifies this
      ensures found <==> key in old(store)
      ensures store == old(store) - {key}
    {
      found := key in store;
      store := store - {key};
    }
  }

  class ReputationManager {
    const store: ReputationStore

    constructor (store: ReputationStore)
      ensures this.store == store
    {
      this.store := store;
    }

    method ProcessThreat(key: Key, threat: Threat, now: int) returns (r: Result<Record, ScoreError>)
      modifies store
      ensures store.store == Step(old(store.store), OnThreat(key, threat, now))
      ensures r.Ok? && InRange(r.value.currentScore) && key in store.store && store.store[key] == r.value
      ensures key !in old(store.store) ==> r.value.currentScore == ScoreChange(threat)
      ensures key in old(store.store) ==>
        var e := old(store.store)[key];
        var bonus := if e.eventCount > 0 && e.eventCount % 100 == 0 then 5 else 0;
        var sum := Decayed(e.currentScore, e.lastSeen, now) + ScoreChange(threat) + bonus;
        r.value.currentScore == if sum < -100 then -100 else if sum > 100 then 100 else sum
    {
      hide ScoreChange, Decayed;
      var decayed, positive := 0, PositiveChange(0);
      if key in store.store {
        var existing := store.store[key];
        decayed := Decayed(existing.currentScore, existing.lastSeen, now);
        positive := PositiveChange(existing.eventCount);
      }
      r := store.Upsert(key, Clamp(decayed + ScoreChange(threat) + positive), threat.confidence, threat.banCount, now);
    }

    method ProcessPositive(key: Key, points: int, now: int) returns (r: Result<Record, ScoreError>)
      modifies store
      ensures store.store == Step(old(store.store), Positive(key, points, now))
      ensures r.Err? <==> key !in old(store.store) && !InRange(points)
    {
      var score := points;
      if key in store.store {
        score := Clamp(store.store[key].currentScore + points);
      }
      r := store.Upsert(key, score, 50, 0, now);
    }

    /** Sweeps all records that were there at the start and counts the changed ones. */
    method ApplyDecay(now: int) returns (count: nat)
      requires AllInRange(store.store)
      modifies store
      ensures store.store == Step(old(store.store), Decay(now))
      ensures AllInRange(store.store)
      ensures count == |set key | key in old(store.store) && store.store[key].currentScore != old(store.store)[key].currentScore|
    {
      hide Swept, Decayed, InRange;
      var rest := store.store.Keys;
      ghost var before := store.store;
      ghost var changed: set<Key> := {};
      count := 0;
      while rest != {}
        invariant rest <= before.Keys && store.store == SweptBut(before, rest, now)
        invariant forall key :: key in changed <==> key in before && key !in rest && Swept(before[key], now).currentScore != before[key].currentScore
        invariant count == |changed|
        decreases |rest|
      {
        var key :| key in rest;
        var record := store.store[key];
        OneSwept(before, rest, key, now);
        rest := rest - {key};
        var decayed := Decayed(record.currentScore, record.lastSeen, now);
        if decayed != record.currentScore {
          var r := store.Upsert(key, decayed, record.confidence, record.banCount, now);
          count := count + 1;
          changed := changed + {key};
        }
      }
      ScoresStayInRange(before, [Decay(now)]);
      AllSwept(before, now);
      assert changed == set key | key in before && store.store[key].currentScore != before[key].currentScore;
    }
  }

  /** The records of a sweep that has still to visit `rest`. */
  function SweptBut(store: Records, rest: set<Key>, now: int): Records {
    map key | key in store :: if key in rest then store[key] else Swept(store[key], now)
  }

  lemma AllSwept(store: Records, now: int)
    ensures SweptBut(store, {}, now) == Step(store, Decay(now)) == Run(store, [Decay(now)])
  {
    hide Swept;
    var ops := [Decay(now)];
    assert ops[1..] == [];
    assert SweptBut(store, {}, now) == SweepAll(store, now);
    assert Run(store, ops) == Run(SweepAll(store, now), []);
  }

  /** Visiting one more record. */
  lemma OneSwept(store: Records, rest: set<Key>, key: Key, now: int)
    requires AllInRange(store) && key in rest && rest <= store.Keys
    ensures var done, record := SweptBut(store, rest, now), store[key];
            var decayed := Decayed(record.currentScore, record.lastSeen, now);
      && done[key] == record && (Swept(record, now).currentScore != record.currentScore <==> decayed != record.currentScore)
      && SweptBut(store, rest - {key}, now) ==
         Stored(done, key, if decayed == record.currentScore then Ok(record)
                           else Upserted(Some(record), decayed, record.confidence, record.banCount, now))
  {
    var record := store[key];
    DecayIsMagnitude(record.currentScore, record.lastSeen, now);
    hide Decayed, CalculateDecay;
    SweptBySteps(record, now);
    hide Swept;
  }

  lemma SweptBySteps(r: Record, now: int)
    requires InRange(Decayed(r.currentScore, r.lastSeen, now))
    ensures var decayed := Decayed(r.currentScore, r.lastSeen, now);
      && (Swept(r, now).currentScore != r.currentScore <==> decayed != r.currentScore)
      && (if decayed == r.currentScore then Ok(r) else Upserted(Some(r), decayed, r.confidence, r.banCount, now)) == Ok(Swept(r, now))
  {
    hide Decayed;
  }
}
