/** Ban decisions: a level computed from the inputs and the entity's history, which every
    decision that is not skipped extends. */
module BanEscalation {
  import opened Wrappers
  import opened Sequences

  const PERMANENT := 7

  /** WARNING is 0, PERMANENT is 7. */
  type Level = n: nat | n <= PERMANENT

  datatype Action = Warning | TemporaryBan | PermanentBan | WhitelistSkip | ExemptionSkip

  datatype Policy = Policy(
    minThreatScore: int, minConfidence: int, escalationRate: real, maxLevel: nat,
    enableTemporaryBans: bool, enablePermanentBans: bool)

  function Policies(): map<string, Policy> {
    map[
      "aggressive" := Policy(20, 40, 2.0, 7, true, true),
      "balanced" := Policy(40, 60, 1.0, 7, true, true),
      "conservative" := Policy(60, 80, 0.5, 6, true, false),
      "learning" := Policy(80, 90, 0.0, 0, false, false),
      "custom" := Policy(40, 50, 1.0, 7, true, true)
    ]
  }

  /** An unknown name gets the balanced policy. */
  function GetPolicy(name: string): Policy {
    if name in Policies() then Policies()[name] else Policies()["balanced"]
  }

  datatype Inputs = Inputs(threatScore: int, confidence: int, reputationScore: int)

  datatype ScoreError = OutOfRange

  /** No decision can carry other scores. */
  predicate ScoresOk(inp: Inputs) {
    0 <= inp.threatScore <= 100 && 0 <= inp.confidence <= 100
  }

  /** Whether the inputs reach the thresholds of a policy that bans at all. */
  predicate Bannable(policy: Policy, inp: Inputs) {
    inp.threatScore >= policy.minThreatScore && inp.confidence >= policy.minConfidence && policy.enableTemporaryBans
  }

  function BaseLevel(threatScore: int): Level {
    if threatScore >= 90 then 7
    else if threatScore >= 80 then 6
    else if threatScore >= 70 then 4
    else if threatScore >= 60 then 3
    else if threatScore >= 50 then 2
    else 1
  }

  /** A rate above one adds half a level for each previous ban, any other rate a whole level. */
  function Escalated(base: Level, policy: Policy, previousBans: nat): Level {
    if policy.escalationRate > 1.0 then Min(base + previousBans / 2, PERMANENT)
    else if previousBans > 0 then Min(base + previousBans, PERMANENT)
    else base
  }

  function CalculateEscalation(inp: Inputs, previousBans: nat, policy: Policy): (Level, bool) {
    if !Bannable(policy, inp) then (0, false)
    else
      var escalated := Escalated(BaseLevel(inp.threatScore), policy, previousBans);
      var penalised := if inp.reputationScore < -50 then Min(escalated + 1, PERMANENT) else escalated;
      var capped := Min(penalised, policy.maxLevel);
      (capped, capped >= PERMANENT && policy.enablePermanentBans)
  }

  function Duration(level: Level): nat {
    match level
    case 1 => 1800
    case 2 => 3600
    case 3 => 10800
    case 4 => 86400
    case 5 => 172800
    case 6 => 604800
    case _ => 0
  }

  /** Entity type and entity. */
  type Key = (string, string)

  datatype BanRecord = BanRecord(
    firstBan: int, lastBan: int, totalBans: nat, permanentlyBanned: bool, activeLevel: Level, expires: int)

  datatype Decision = Decision(action: Action, level: Level, duration: nat, permanent: bool, previousBans: nat)

  function TotalBans(record: Option<BanRecord>): nat { if record.Some? then record.value.totalBans else 0 }

  function MakeDecision(inp: Inputs, record: Option<BanRecord>, policy: Policy, whitelisted: bool, exempt: bool): Decision {
    var previous := TotalBans(record);
    if whitelisted then Decision(WhitelistSkip, 0, 0, false, previous)
    else if exempt then Decision(ExemptionSkip, 0, 0, false, previous)
    else
      var (level, permanent) := CalculateEscalation(inp, previous, policy);
      var duration := Duration(level);
      var action := if level == 0 && duration == 0 then Warning
                    else if permanent || level >= PERMANENT then PermanentBan
                    else TemporaryBan;
      Decision(action, level, duration, permanent, previous)
  }

  predicate Skipped(d: Decision) { d.action.WhitelistSkip? || d.action.ExemptionSkip? }

  function Extended(record: Option<BanRecord>, level: Level, duration: nat, now: int): BanRecord {
    var expires := if duration > 0 then now + duration else 0;
    if record.Some? then
      var r := record.value;
      BanRecord(r.firstBan, now, r.totalBans + 1, r.permanentlyBanned || level >= PERMANENT, level, expires)
    else BanRecord(now, now, 1, level >= PERMANENT, level, expires)
  }

  type History = map<Key, BanRecord>

  function Find(history: History, key: Key): Option<BanRecord> {
    if key in history then Some(history[key]) else None
  }

  datatype EngineState = EngineState(history: History, whitelist: set<Key>, exemptions: set<Key>)

  datatype Op =
    | Decide(key: Key, inp: Inputs, policy: Policy, now: int)
    | WhitelistAdd(key: Key)
    | WhitelistRemove(key: Key)
    | ExemptionAdd(key: Key)
    | ExemptionRemove(key: Key)

  function DecisionOf(st: EngineState, op: Op): Decision
    requires op.Decide?
  {
    MakeDecision(op.inp, Find(st.history, op.key), op.policy, op.key in st.whitelist, op.key in st.exemptions)
  }

  /** Whether a decision is made and enters the history. */
  predicate Recorded(st: EngineState, op: Op) {
    op.Decide? && ScoresOk(op.inp) && !Skipped(DecisionOf(st, op))
  }

  function Step(st: EngineState, op: Op): EngineState {
    match op
    case Decide(key, inp, policy, now) =>
      var d := DecisionOf(st, op);
      if !Recorded(st, op) then st
      else st.(history := st.history[key := Extended(Find(st.history, key), d.level, d.duration, now)])
    case WhitelistAdd(key) => st.(whitelist := st.whitelist + {key})
    case WhitelistRemove(key) => st.(whitelist := st.whitelist - {key})
    case ExemptionAdd(key) => st.(exemptions := st.exemptions + {key})
    case ExemptionRemove(key) => st.(exemptions := st.exemptions - {key})
  }

  function Run(st: EngineState, ops: seq<Op>): EngineState
    decreases |ops|
  {
    if ops == [] then st else Run(Step(st, ops[0]), ops[1..])
  }

  /** Decisions about one entity, in a run, that were neither refused nor skipped. */
  function Decisions(st: EngineState, key: Key, ops: seq<Op>): nat
    decreases |ops|
  {
    if ops == [] then 0
    else (if Recorded(st, ops[0]) && ops[0].key == key then 1 else 0)
         + Decisions(Step(st, ops[0]), key, ops[1..])
  }

  // ----- what a decision is -----

  /** The number of thresholds that the threat score reaches, the one at 80 counted twice. */
  lemma BaseLevelCountsThresholds(threatScore: int)
    ensures BaseLevel(threatScore) as int ==
            1 + (if 50 <= threatScore then 1 else 0) + (if 60 <= threatScore then 1 else 0)
              + (if 70 <= threatScore then 1 else 0) + (if 80 <= threatScore then 2 else 0)
              + (if 90 <= threatScore then 1 else 0)
  {}

  /** Seconds of a ban, by level. A permanent ban has no end. */
  function Durations(): seq<nat> { [0, 1800, 3600, 10800, 86400, 172800, 604800, 0] }

  /** The action is read off the level alone, whatever the history, the inputs and the policy. */
  lemma ActionFollowsLevel(inp: Inputs, record: Option<BanRecord>, policy: Policy)
    ensures var d := MakeDecision(inp, record, policy, false, false);
      && (d.action.Warning? <==> d.level == 0)
      && (d.action.TemporaryBan? <==> 1 <= d.level <= 6)
      && (d.action.PermanentBan? <==> d.level == 7)
      && d.duration == Durations()[d.level]
      && (d.permanent <==> d.level == 7 && policy.enablePermanentBans)
      && d.previousBans == TotalBans(record)
  {}

  /** Who gets no more than a warning. */
  lemma WarnedIff(inp: Inputs, record: Option<BanRecord>, policy: Policy)
    ensures MakeDecision(inp, record, policy, false, false).action.Warning? <==>
            || inp.threatScore < policy.minThreatScore
            || inp.confidence < policy.minConfidence
            || !policy.enableTemporaryBans
            || policy.maxLevel == 0
  {}

  /** Who gets no more than a warning under the policies that a name selects. */
  lemma WarnedByNameIff(inp: Inputs, record: Option<BanRecord>, name: string)
    ensures MakeDecision(inp, record, GetPolicy(name), false, false).action.Warning? <==>
            match name
            case "aggressive" => inp.threatScore < 20 || inp.confidence < 40
            case "conservative" => inp.threatScore < 60 || inp.confidence < 80
            case "custom" => inp.threatScore < 40 || inp.confidence < 50
            case "learning" => true
            case _ => inp.threatScore < 40 || inp.confidence < 60
  {
    WarnedIff(inp, record, GetPolicy(name));
  }

  /** A listed entity is skipped, the whitelist first; nobody else is. */
  lemma SkippedIffListed(st: EngineState, op: Op)
    requires op.Decide?
    ensures DecisionOf(st, op).action.WhitelistSkip? <==> op.key in st.whitelist
    ensures DecisionOf(st, op).action.ExemptionSkip? <==> op.key !in st.whitelist && op.key in st.exemptions
  {}

  // ----- the lists over runs -----

  ghost predicate NeverFrom(ops: seq<Op>, start: nat, op: Op) { forall j :: start <= j < |ops| ==> ops[j] != op }

  /** The last of these two calls is the first one, or neither occurs and it was so before. */
  ghost predicate LastSays(ops: seq<Op>, add: Op, remove: Op, before: bool) {
    || (before && NeverFrom(ops, 0, remove))
    || exists i :: 0 <= i < |ops| && ops[i] == add && NeverFrom(ops, i, remove)
  }

  lemma NeverFromRest(ops: seq<Op>, start: nat, op: Op)
    requires ops != []
    ensures NeverFrom(ops[1..], start, op) <==> NeverFrom(ops, start + 1, op)
    ensures NeverFrom(ops, 0, op) <==> ops[0] != op && NeverFrom(ops[1..], 0, op)
  {
    if NeverFrom(ops[1..], start, op) {
      forall j | start + 1 <= j < |ops| ensures ops[j] != op {
        assert ops[j] == ops[1..][j - 1];
      }
    }
  }

  lemma {:induction false} LastSaysStep(ops: seq<Op>, add: Op, remove: Op, before: bool)
    requires ops != [] && add != remove
    ensures LastSays(ops, add, remove, before) <==>
            LastSays(ops[1..], add, remove, ops[0] == add || (before && ops[0] != remove))
  {
    hide NeverFrom;
    var rest := ops[1..];
    NeverFromRest(ops, 0, remove);
    forall i: nat | i < |rest| ensures NeverFrom(rest, i, remove) <==> NeverFrom(ops, i + 1, remove) {
      NeverFromRest(ops, i, remove);
    }
    if i :| 0 <= i < |ops| && ops[i] == add && NeverFrom(ops, i, remove) {
      if i > 0 {
        assert rest[i - 1] == add;
      }
    }
    if i :| 0 <= i < |rest| && rest[i] == add && NeverFrom(rest, i, remove) {
      assert ops[i + 1] == add;
    }
  }

  /** Who is listed after a run: those whose last call of the kind put them on. */
  lemma {:induction false} ListedIffAddedLast(st: EngineState, key: Key, ops: seq<Op>)
    ensures key in Run(st, ops).whitelist <==>
            LastSays(ops, WhitelistAdd(key), WhitelistRemove(key), key in st.whitelist)
    ensures key in Run(st, ops).exemptions <==>
            LastSays(ops, ExemptionAdd(key), ExemptionRemove(key), key in st.exemptions)
    decreases |ops|
  {
    if ops != [] {
      LastSaysStep(ops, WhitelistAdd(key), WhitelistRemove(key), key in st.whitelist);
      LastSaysStep(ops, ExemptionAdd(key), ExemptionRemove(key), key in st.exemptions);
      ListedIffAddedLast(Step(st, ops[0]), key, ops[1..]);
    }
  }

  /** From its addition to its next removal no decision touches the entity's record, on the
      whitelist and on the list of exemptions alike. */
  lemma {:induction false} ListedIsUntouched(st: EngineState, key: Key, ops: seq<Op>)
    requires || (key in st.whitelist && WhitelistRemove(key) !in ops)
             || (key in st.exemptions && ExemptionRemove(key) !in ops)
    ensures Find(Run(st, ops).history, key) == Find(st.history, key)
    decreases |ops|
  {
    if ops != [] {
      ListedIsUntouched(Step(st, ops[0]), key, ops[1..]);
    }
  }

  /** The decisions with scores in range that a run makes about the entity while it is on no list. */
  function Unprotected(st: EngineState, key: Key, ops: seq<Op>): nat
    decreases |ops|
  {
    if ops == [] then 0
    else
      var counts := ops[0].Decide? && ops[0].key == key && ScoresOk(ops[0].inp)
                    && key !in st.whitelist && key !in st.exemptions;
      (if counts then 1 else 0) + Unprotected(Step(st, ops[0]), key, ops[1..])
  }

  /** Each of these is a ban on record and nothing else is. */
  lemma {:induction false} BansAreUnprotectedDecisions(st: EngineState, key: Key, ops: seq<Op>)
    ensures TotalBans(Find(Run(st, ops).history, key)) == TotalBans(Find(st.history, key)) + Unprotected(st, key, ops)
    decreases |ops|
  {
    if ops != [] {
      BansAreUnprotectedDecisions(Step(st, ops[0]), key, ops[1..]);
    }
  }

  // ----- escalation over runs -----

  /** An entity's ban count grows by one for each of its own decisions and by nothing else. */
  lemma {:induction false} HistoryCountsDecisions(st: EngineState, key: Key, ops: seq<Op>)
    ensures TotalBans(Find(Run(st, ops).history, key)) == TotalBans(Find(st.history, key)) + Decisions(st, key, ops)
    decreases |ops|
  {
    if ops != [] {
      HistoryCountsDecisions(Step(st, ops[0]), key, ops[1..]);
    }
  }

  lemma MoreBansNeverLowerTheLevel(inp: Inputs, policy: Policy, fewer: nat, more: nat)
    requires fewer <= more
    ensures CalculateEscalation(inp, fewer, policy).0 <= CalculateEscalation(inp, more, policy).0
  {
  }

  /** Between two recorded decisions with the same entity, inputs and policy the level never drops, whatever other decisions and list changes come between. */
  lemma LevelsNeverDrop(st: EngineState, first: Op, between: seq<Op>, second: Op)
    requires Recorded(st, first) && Recorded(Run(Step(st, first), between), second)
    requires first.key == second.key && first.inp == second.inp && first.policy == second.policy
    ensures DecisionOf(st, first).level <= DecisionOf(Run(Step(st, first), between), second).level
  {
    var key := first.key;
    HistoryCountsDecisions(Step(st, first), key, between);
    MoreBansNeverLowerTheLevel(first.inp, first.policy, TotalBans(Find(st.history, key)),
                               TotalBans(Find(Run(Step(st, first), between).history, key)));
  }

  /** The number of decisions after which nothing can escalate further. */
  function Patience(policy: Policy): nat { if policy.escalationRate > 1.0 then 12 else 6 }

  /** After 12 recorded decisions, 6 when the rate is at most one, a bannable
      entity is at the highest level that its policy allows, and it stays there. */
  lemma LevelSaturates(st: EngineState, ops: seq<Op>, op: Op)
    requires Recorded(Run(st, ops), op) && Bannable(op.policy, op.inp)
    requires Decisions(st, op.key, ops) >= Patience(op.policy)
    ensures DecisionOf(Run(st, ops), op).level == Min(PERMANENT, op.policy.maxLevel)
  {
    HistoryCountsDecisions(st, op.key, ops);
  }

  /** The bound is reached: with the lowest base level and no reputation penalty one decision
      fewer is not enough, unless the policy caps the level below PERMANENT. */
  lemma PatienceIsExact(inp: Inputs, policy: Policy, previousBans: nat)
    requires Bannable(policy, inp) && inp.threatScore < 50 && inp.reputationScore >= -50 && policy.maxLevel >= PERMANENT
    ensures CalculateEscalation(inp, previousBans, policy).0 == PERMANENT <==> previousBans >= Patience(policy)
  {
  }

  /** One level for a reputation below -50. */
  function Penalty(inp: Inputs): nat { if inp.reputationScore < -50 then 1 else 0 }

  /** The level of inputs that are banned, as one formula. */
  lemma LevelInClosedForm(inp: Inputs, policy: Policy, previousBans: nat)
    requires Bannable(policy, inp)
    ensures var steps := if policy.escalationRate > 1.0 then previousBans / 2 else previousBans;
            CalculateEscalation(inp, previousBans, policy).0 ==
            Min(Min(BaseLevel(inp.threatScore) + steps + Penalty(inp), PERMANENT), policy.maxLevel)
  {}

  /** A rate above one, which is described as the fast one, against a rate of at most one, of the level
      that is returned: exactly when it is lower, under any two policies that ban the inputs. It is
      higher only where the other policy's cap makes it so. */
  lemma HigherRateEscalatesSlower(inp: Inputs, fast: Policy, slow: Policy, previousBans: nat)
    requires fast.escalationRate > 1.0 >= slow.escalationRate && Bannable(fast, inp) && Bannable(slow, inp)
    ensures var start, top := BaseLevel(inp.threatScore) + Penalty(inp), Min(PERMANENT, slow.maxLevel);
            CalculateEscalation(inp, previousBans, fast).0 < CalculateEscalation(inp, previousBans, slow).0
            <==> (previousBans > 0 && start + previousBans / 2 < top)
                 || fast.maxLevel < Min(start + previousBans, top)
    ensures CalculateEscalation(inp, previousBans, fast).0 > CalculateEscalation(inp, previousBans, slow).0
            ==> slow.maxLevel < CalculateEscalation(inp, previousBans, fast).0
  {
    LevelInClosedForm(inp, fast, previousBans);
    LevelInClosedForm(inp, slow, previousBans);
    hide CalculateEscalation, BaseLevel, Penalty;
  }

  /** The policy described as escalating fast gives the lower level than the one described as slow, for
      exactly these of the inputs that both ban. */
  lemma AggressiveIsSlowerThanConservative(inp: Inputs, previousBans: nat)
    requires Bannable(GetPolicy("aggressive"), inp) && Bannable(GetPolicy("conservative"), inp)
    ensures CalculateEscalation(inp, previousBans, GetPolicy("aggressive")).0
          < CalculateEscalation(inp, previousBans, GetPolicy("conservative")).0
       <==> previousBans > 0 && BaseLevel(inp.threatScore) + previousBans / 2 + Penalty(inp) < 6
  {
    LevelInClosedForm(inp, GetPolicy("aggressive"), previousBans);
    LevelInClosedForm(inp, GetPolicy("conservative"), previousBans);
    hide CalculateEscalation, BaseLevel, Penalty;
  }

  /** The level of inputs that are banned under the policies that a name selects: aggressive counts every other
      previous ban, conservative stops short of a permanent ban. */
  lemma LevelByName(inp: Inputs, previousBans: nat, name: string)
    requires Bannable(GetPolicy(name), inp)
    ensures var start := BaseLevel(inp.threatScore) + if inp.reputationScore < -50 then 1 else 0;
            CalculateEscalation(inp, previousBans, GetPolicy(name)).0 as int ==
            match name
            case "aggressive" => Min(start + previousBans / 2, 7)
            case "conservative" => Min(start + previousBans, 6)
            case _ => Min(start + previousBans, 7)
  {
    LevelInClosedForm(inp, GetPolicy(name), previousBans);
    hide CalculateEscalation, BaseLevel;
  }

  /** After two bans the aggressive policy bans for a day, the conservative one for two. */
  lemma SecondOffenceExample(record: BanRecord)
    requires record.totalBans == 2
    ensures var inp := Inputs(60, 80, 0);
            var fast := MakeDecision(inp, Some(record), GetPolicy("aggressive"), false, false);
            var slow := MakeDecision(inp, Some(record), GetPolicy("conservative"), false, false);
            fast.level == 4 && fast.duration == 86400 && slow.level == 5 && slow.duration == 172800
  {}

  // ----- the switch for permanent bans -----

  /** No input gets a permanent ban under a policy that turns permanent bans off. */
  ghost predicate RespectsSwitch(policy: Policy) {
    forall inp, record | ScoresOk(inp) ::
      MakeDecision(inp, record, policy, false, false).action.PermanentBan? ==> policy.enablePermanentBans
  }

  /** What a policy with the switch off needs so that no ban is permanent: the action looks at the
      level alone, so the level must stay out of reach. */
  lemma SwitchRespectedIff(policy: Policy)
    ensures RespectsSwitch(policy) <==>
            || policy.enablePermanentBans || !policy.enableTemporaryBans || policy.maxLevel < PERMANENT
            || policy.minThreatScore > 100 || policy.minConfidence > 100
  {
    var worst := Inputs(100, 100, 0);
    if !policy.enablePermanentBans && Bannable(policy, worst) && policy.maxLevel >= PERMANENT {
      assert ScoresOk(worst) && MakeDecision(worst, None, policy, false, false).action.PermanentBan?;
    }
  }

  /** All policies that a name can select respect it, and learning bans nobody. */
  lemma NamedPoliciesRespectSwitch(name: string)
    ensures RespectsSwitch(GetPolicy(name))
    ensures forall inp, record :: MakeDecision(inp, record, GetPolicy("learning"), false, false).action.Warning?
  {
    SwitchRespectedIff(GetPolicy(name));
  }

  /** A decision that bans nobody. */
  predicate IsSkip(d: Decision, action: Action) {
    d.action == action && d.level == 0 && d.duration == 0 && !d.permanent
  }

  /** The ban that a decision leaves on record: since when the entity is banned, and until when. */
  predicate IsLatest(after: BanRecord, d: Decision, now: int) {
    && after.lastBan == now
    && after.activeLevel == d.level
    && after.expires == (if 1 <= d.level <= 6 then now + d.duration else 0)
  }

  /** One more ban on a record. */
  predicate Extends(after: BanRecord, before: BanRecord, d: Decision, now: int) {
    && IsLatest(after, d, now)
    && after.firstBan == before.firstBan
    && after.totalBans == before.totalBans + 1
    && (after.permanentlyBanned <==> before.permanentlyBanned || d.level == 7)
  }

  predicate IsFirst(after: BanRecord, d: Decision, now: int) {
    && IsLatest(after, d, now)
    && after.firstBan == now
    && after.totalBans == 1
    && (after.permanentlyBanned <==> d.level == 7)
  }

  class BanHistory {
    var records: History

    constructor ()
      ensures records == map[]
    {
      records := map[];
    }

    method RecordBan(key: Key, level: Level, duration: nat, now: int)
      modifies this
      ensures records == old(records)[key := Extended(Find(old(records), key), level, duration, now)]
    {
      if key in records {
        var r := records[key];
        r := r.(lastBan := now, totalBans := r.totalBans + 1, activeLevel := level);
        r := r.(expires := if duration > 0 then now + duration else 0);
        if level >= PERMANENT {
          r := r.(permanentlyBanned := true);
        }
        records := records[key := r];
      } else {
        records := records[key := BanRecord(now, now, 1, level >= PERMANENT, level, if duration > 0 then now + duration else 0)];
      }
    }
  }

  class BanEngine {
    const history: BanHistory
    var whitelist: set<Key>
    var exemptions: set<Key>

    ghost function View(): EngineState
      reads this, history
    {
      EngineState(history.records, whitelist, exemptions)
    }

    constructor ()
      ensures fresh(history) && View() == EngineState(map[], {}, {})
    {
      history := new BanHistory();
      whitelist, exemptions := {}, {};
    }

    /** The scores are checked when the decision is built, before anything is recorded. */
    method DecideBan(key: Key, inp: Inputs, policyName: string, now: int) returns (r: Result<Decision, ScoreError>)
      modifies history
      ensures var op := Decide(key, inp, GetPolicy(policyName), now);
        && View() == Step(old(View()), op)
        && r == if ScoresOk(inp) then Ok(DecisionOf(old(View()), op)) else Err(OutOfRange)
      ensures r.Ok? <==> 0 <= inp.threatScore <= 100 && 0 <= inp.confidence <= 100
      ensures r.Err? || key in whitelist || key in exemptions ==> history.records == old(history.records)
      ensures r.Ok? && key in whitelist ==> IsSkip(r.value, WhitelistSkip)
      ensures r.Ok? && key !in whitelist && key in exemptions ==> IsSkip(r.value, ExemptionSkip)
      ensures r.Ok? && key !in whitelist && key !in exemptions ==>
        && !r.value.action.WhitelistSkip? && !r.value.action.ExemptionSkip?
        && history.records == old(history.records)[key := history.records[key]]
        && (key in old(history.records) ==> Extends(history.records[key], old(history.records[key]), r.value, now))
        && (key !in old(history.records) ==> IsFirst(history.records[key], r.value, now))
    {
      var record := Find(history.records, key);
      var d := MakeDecision(inp, record, GetPolicy(policyName), key in whitelist, key in exemptions);
      if !(0 <= inp.threatScore <= 100) || !(0 <= inp.confidence <= 100) {
        return Err(OutOfRange);
      }
      if d.action.TemporaryBan? || d.action.PermanentBan? || d.action.Warning? {
        history.RecordBan(key, d.level, d.duration, now);
      }
      return Ok(d);
    }

    method AddToWhitelist(key: Key)
      modifies this
      ensures View() == Step(old(View()), WhitelistAdd(key))
    {
      whitelist := whitelist + {key};
    }

    method RemoveFromWhitelist(key: Key)
      modifies this
      ensures View() == Step(old(View()), WhitelistRemove(key))
    {
      whitelist := whitelist - {key};
    }

    method AddExemption(key: Key)
      modifies this
      ensures View() == Step(old(View()), ExemptionAdd(key))
    {
      exemptions := exemptions + {key};
    }

    method RemoveExemption(key: Key)
      modifies this
      ensures View() == Step(old(View()), ExemptionRemove(key))
    {
      exemptions := exemptions - {key};
    }
  }
}
