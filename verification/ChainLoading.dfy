/** From raw chain definitions to the ones that the engine tracks: what validation accepts, and what
    loading makes of it. */
module ChainLoading {
  import opened Wrappers
  import opened Values
  import opened CorrelationModel
  import opened ChainInvariant
  import opened ChainProjection
  import opened Completability

  /** A stage as the file has it; None stands for a missing id, other defaults are filled in. */
  datatype RawStage = RawStage(
    stageId: Option<string>, stageType: string, ruleIds: seq<string>, timeout: int, confidenceModifier: int)

  /** None stands for a missing correlation key. */
  datatype RawChain = RawChain(
    id: string, name: string, enabled: bool, correlationKey: Option<string>, timeout: int,
    stages: seq<RawStage>, confidenceModifier: int)

  datatype Complaint =
    | IdRequired | DuplicateChain(id: string) | NameRequired | InvalidKey | NoStages
    | DuplicateStage(stageId: string) | InvalidType | NoRules | BadTimeout

  const KEYS: map<string, CorrelationKey> := map[
    "source_ip" := SourceIp, "dest_ip" := DestIp, "username" := Username, "hostname" := Hostname,
    "correlation_id" := CorrelationId, "process" := Process, "session" := Session, "container_id" := ContainerId]

  const TYPES: map<string, StageType> := map[
    "ordered" := Ordered, "optional" := Optional, "unordered" := Unordered, "branch" := Branch]

  /** A stage type goes by its lower-case name. */
  function TypeName(t: StageType): string {
    match t
    case Ordered => "ordered"
    case Optional => "optional"
    case Unordered => "unordered"
    case Branch => "branch"
  }

  lemma TypesByName(name: string, t: StageType)
    ensures name in TYPES && TYPES[name] == t <==> name == TypeName(t)
  {}

  /** A correlation key goes by the name of the field that it reads. */
  lemma KeyReadsItsField(name: string, m: RuleMatch, event: Event)
    requires name in KEYS
    ensures name != "correlation_id" && name in event && event[name] != ""
            ==> ExtractKeyValue(KEYS[name], m, Some(event)) == event[name]
    ensures name == "correlation_id" && m.correlationId != "" ==> ExtractKeyValue(KEYS[name], m, Some(event)) == m.correlationId
  {}

  function Decimal(n: nat): string {
    (if n < 10 then "" else Decimal(n / 10)) + ["0123456789"[n % 10]]
  }

  /** What a numeral stands for. */
  function ValueOf(numeral: string): nat {
    if numeral == "" then 0
    else
      var last := |numeral| - 1;
      10 * ValueOf(numeral[..last]) + if '0' <= numeral[last] <= '9' then numeral[last] as nat - '0' as nat else 0
  }

  lemma DigitStandsFor(d: nat)
    requires d < 10
    ensures '0' <= "0123456789"[d] <= '9' && "0123456789"[d] as nat == '0' as nat + d
  {}

  lemma NothingIsZero()
    ensures ValueOf("") == 0
  {}

  lemma ValueOfLonger(front: string, last: char)
    ensures ValueOf(front + [last]) == 10 * ValueOf(front) + if '0' <= last <= '9' then last as nat - '0' as nat else 0
  {
    assert (front + [last])[..|front|] == front;
  }

  /** The usual numeral of a position, without zeros in front. */
  lemma {:induction false} DecimalIsNumeral(n: nat)
    ensures ValueOf(Decimal(n)) == n
    ensures n > 0 ==> Decimal(n)[0] != '0'
  {
    var last := "0123456789"[n % 10];
    DigitStandsFor(n % 10);
    ValueOfLonger(if n < 10 then "" else Decimal(n / 10), last);
    hide ValueOf;
    if n >= 10 {
      DecimalIsNumeral(n / 10);
    } else {
      NothingIsZero();
    }
  }

  /** Validation takes the stage's position for a missing id, loading the empty text. */
  function ValidatedId(stages: seq<RawStage>, i: nat): string
    requires i < |stages|
  {
    if stages[i].stageId.Some? then stages[i].stageId.value else "stage_" + Decimal(i)
  }

  function LoadedId(stage: RawStage): string { if stage.stageId.Some? then stage.stageId.value else "" }

  predicate StageAcceptable(stages: seq<RawStage>, i: nat)
    requires i < |stages|
  {
    && (forall j | 0 <= j < i :: ValidatedId(stages, j) != ValidatedId(stages, i))
    && stages[i].stageType in TYPES && stages[i].ruleIds != [] && stages[i].timeout >= 1
  }

  predicate KeyAcceptable(chain: RawChain) {
    chain.correlationKey.None? || chain.correlationKey.value == "" || chain.correlationKey.value in KEYS
  }

  predicate ChainAcceptable(chain: RawChain) {
    && chain.id != "" && chain.name != "" && KeyAcceptable(chain) && chain.stages != []
    && forall i: nat | i < |chain.stages| :: StageAcceptable(chain.stages, i)
  }

  /** The ids that validation has seen in the first `n` stages. */
  function SeenIds(stages: seq<RawStage>, n: nat): set<string>
    requires n <= |stages|
  {
    set i: nat | i < n :: ValidatedId(stages, i)
  }

  method ValidateStages(stages: seq<RawStage>) returns (errors: seq<Complaint>)
    ensures errors == [] <==> forall i: nat | i < |stages| :: StageAcceptable(stages, i)
  {
    hide Decimal, ValidatedId;
    errors := [];
    var seen: set<string> := {};
    for i := 0 to |stages|
      invariant seen == SeenIds(stages, i)
      invariant errors == [] <==> forall j: nat | j < i :: StageAcceptable(stages, j)
    {
      var stage, id := stages[i], ValidatedId(stages, i);
      assert id in seen <==> exists j: nat :: j < i && ValidatedId(stages, j) == id;
      assert StageAcceptable(stages, i) <==>
             id !in seen && stage.stageType in TYPES && stage.ruleIds != [] && stage.timeout >= 1;
      if id in seen {
        errors := errors + [DuplicateStage(id)];
      }
      seen := seen + {id};
      if stage.stageType !in TYPES {
        errors := errors + [InvalidType];
      }
      if stage.ruleIds == [] {
        errors := errors + [NoRules];
      }
      if stage.timeout < 1 {
        errors := errors + [BadTimeout];
      }
    }
  }

  /** Validation accepts a list of chains iff each is acceptable and no id occurs twice. */
  method ValidateChains(chains: seq<RawChain>) returns (errors: seq<Complaint>)
    ensures errors == [] <==>
            && (forall i | 0 <= i < |chains| :: ChainAcceptable(chains[i]))
            && (forall i, j | 0 <= i < j < |chains| :: chains[i].id != chains[j].id)
  {
    errors := [];
    var seen: set<string> := {};
    for n := 0 to |chains|
      invariant forall id :: id in seen <==> id != "" && exists i :: 0 <= i < n && chains[i].id == id
      invariant errors == [] <==>
                && (forall i | 0 <= i < n :: ChainAcceptable(chains[i]))
                && (forall i, j | 0 <= i < j < n :: chains[i].id != chains[j].id)
    {
      var chain := chains[n];
      var before := errors;
      if chain.id == "" {
        errors := errors + [IdRequired];
      } else {
        if chain.id in seen {
          errors := errors + [DuplicateChain(chain.id)];
        }
        seen := seen + {chain.id};
      }
      if chain.name == "" {
        errors := errors + [NameRequired];
      }
      if !KeyAcceptable(chain) {
        errors := errors + [InvalidKey];
      }
      if chain.stages == [] {
        errors := errors + [NoStages];
        continue;
      }
      var more := ValidateStages(chain.stages);
      errors := errors + more;
    }
  }

  function LoadedStage(stage: RawStage): ChainStage
    requires stage.stageType in TYPES
  {
    ChainStage(LoadedId(stage), TYPES[stage.stageType], stage.ruleIds, stage.confidenceModifier)
  }

  /** None is a correlation key that the enumeration refuses. */
  function LoadedChain(chain: RawChain): Option<AttackChain>
    requires forall i | 0 <= i < |chain.stages| :: chain.stages[i].stageType in TYPES
  {
    var key := if chain.correlationKey.Some? then chain.correlationKey.value else "source_ip";
    if key !in KEYS then None
    else Some(AttackChain(chain.id, chain.enabled, KEYS[key], chain.timeout,
                          seq(|chain.stages|, i requires 0 <= i < |chain.stages| => LoadedStage(chain.stages[i])),
                          chain.confidenceModifier))
  }

  /** An empty correlation key passes validation and then makes loading fail; nothing else does. */
  lemma AcceptedLoadsIff(chain: RawChain)
    requires ChainAcceptable(chain)
    ensures forall i | 0 <= i < |chain.stages| :: chain.stages[i].stageType in TYPES
    ensures LoadedChain(chain).Some? <==> chain.correlationKey != Some("")
  {
    TypesAreKnown(chain);
  }

  lemma TypesAreKnown(chain: RawChain)
    requires ChainAcceptable(chain)
    ensures forall i | 0 <= i < |chain.stages| :: chain.stages[i].stageType in TYPES
  {
    forall i: nat | i < |chain.stages| ensures chain.stages[i].stageType in TYPES {
      assert StageAcceptable(chain.stages, i);
    }
  }

  /** What is loaded is what was written; a chain without a correlation key goes by the source address. */
  lemma LoadedAsWritten(chain: RawChain)
    requires ChainAcceptable(chain) && chain.correlationKey != Some("")
    ensures forall i | 0 <= i < |chain.stages| :: chain.stages[i].stageType in TYPES
    ensures LoadedChain(chain).Some?
    ensures var loaded := LoadedChain(chain).value;
      && loaded.id == chain.id && loaded.enabled == chain.enabled && loaded.timeout == chain.timeout
      && (chain.correlationKey == None ==> loaded.correlationKey == SourceIp)
      && |loaded.stages| == |chain.stages|
      && forall i | 0 <= i < |chain.stages| ::
           && TypeName(loaded.stages[i].stageType) == chain.stages[i].stageType
           && loaded.stages[i].ruleIds == chain.stages[i].ruleIds
           && (chain.stages[i].stageId.Some? ==> loaded.stages[i].stageId == chain.stages[i].stageId.value)
  {
    TypesAreKnown(chain);
  }

  /** What is accepted and loads has stages with rules, and distinct stage ids exactly when at most one
      stage has no id or an empty one. */
  lemma LoadedIsWellFormedIff(chain: RawChain)
    requires ChainAcceptable(chain) && chain.correlationKey != Some("")
    ensures forall i | 0 <= i < |chain.stages| :: chain.stages[i].stageType in TYPES
    ensures LoadedChain(chain).Some? && HasRules(LoadedChain(chain).value)
    ensures WellFormed(LoadedChain(chain).value) <==>
            forall i, j | 0 <= i < j < |chain.stages| :: !(LoadedId(chain.stages[i]) == "" && LoadedId(chain.stages[j]) == "")
  {
    TypesAreKnown(chain);
    var stages, loaded := chain.stages, LoadedChain(chain).value.stages;
    forall i: nat | i < |stages| ensures loaded[i].ruleIds != [] && loaded[i].stageId == LoadedId(stages[i]) {
      assert StageAcceptable(stages, i);
    }
    forall i, j | 0 <= i < j < |stages| && LoadedId(stages[i]) == LoadedId(stages[j])
      ensures LoadedId(stages[i]) == "" && LoadedId(stages[j]) == ""
    {
      SameIdIsEmpty(stages, i, j);
    }
  }

  lemma SameIdIsEmpty(stages: seq<RawStage>, i: nat, j: nat)
    requires i < j < |stages| && LoadedId(stages[i]) == LoadedId(stages[j])
    requires forall x: nat | x < |stages| :: StageAcceptable(stages, x)
    ensures LoadedId(stages[i]) == ""
  {
    var given := ValidatedId(stages, i);
    assert StageAcceptable(stages, j);
  }

  /** Two unordered stages without ids: validation accepts them, they are loaded under one id and share a
      progress entry, and a hit on the first completes the chain before the second is hit. */
  lemma UnnamedStagesCompleteEarly(chain: RawChain, hit: LocalHit)
    requires ChainAcceptable(chain) && chain.correlationKey != Some("") && |chain.stages| == 2
    requires forall i | 0 <= i < 2 :: chain.stages[i].stageId == None && chain.stages[i].stageType == "unordered"
    requires hit.rule in chain.stages[0].ruleIds
    ensures forall i | 0 <= i < 2 :: chain.stages[i].stageType in TYPES
    ensures LoadedChain(chain).Some? && LocalCount(LoadedChain(chain).value, None, [hit]) == 1
  {
    var loaded := LoadedChain(chain).value;
    assert loaded.stages[0].stageId == loaded.stages[1].stageId == "";
    var st := Start(loaded, 0, hit.now);
    assert loaded.stages[0].stageId in StageIds(loaded);
    AdvanceByTaker(loaded, Touched(st, hit.now), hit.rule, hit.event, hit.now, 0);
    assert Taker(loaded, Touched(st, hit.now), hit.rule, 0) == 0;
    assert LocalStep(loaded, None, hit) == (None, true);
    assert LocalCount(loaded, None, []) == 0;
  }

  /** Such definitions are accepted. */
  lemma UnnamedStagesAreAccepted(first: string, second: string) returns (chain: RawChain)
    ensures ChainAcceptable(chain) && chain.correlationKey == None && |chain.stages| == 2
    ensures forall i | 0 <= i < 2 :: chain.stages[i].stageId == None && chain.stages[i].stageType == "unordered"
    ensures chain.stages[0].ruleIds == [first] && chain.stages[1].ruleIds == [second]
  {
    var a, b := RawStage(None, "unordered", [first], 300, 0), RawStage(None, "unordered", [second], 300, 0);
    chain := RawChain("chain", "name", true, None, 3600, [a, b], 0);
    assert ValidatedId(chain.stages, 0) == "stage_" + Decimal(0) == "stage_" + "0";
    assert ValidatedId(chain.stages, 1) == "stage_" + Decimal(1) == "stage_" + "1";
    assert ValidatedId(chain.stages, 0)[6] != ValidatedId(chain.stages, 1)[6];
    assert StageAcceptable(chain.stages, 0) && StageAcceptable(chain.stages, 1);
  }
}
