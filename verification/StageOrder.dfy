/** The registry of pipeline stages: which stages exist, in which order they run, which are enabled. */
module StageOrder {
  import opened Wrappers
  import opened Sequences

  /** A stage; `handle` stands for the object that the engine calls. */
  datatype Stage = Stage(name: string, handle: nat)

  datatype RegistryError = Duplicate | BothGiven | AnchorMissing | AnchorUnlisted | NotFound

  datatype Registry = Registry(stages: map<string, Stage>, order: seq<string>, enabled: map<string, bool>)

  const EMPTY := Registry(map[], [], map[])

  /** The names in the run order are registered stages, each once, and every registered stage has an
      enabled flag. */
  ghost predicate Sound(r: Registry) {
    && Distinct(r.order)
    && (forall n | n in r.order :: n in r.stages)
    && (forall n | n in r.stages :: r.stages[n].name == n)
    && r.enabled.Keys == r.stages.Keys
  }

  /** Every registered stage has a place in the run order. */
  ghost predicate Complete(r: Registry) {
    forall n | n in r.stages :: n in r.order
  }

  function IndexOf(names: seq<string>, name: string): (i: nat)
    requires name in names
    ensures i < |names| && names[i] == name && name !in names[..i]
  {
    if names[0] == name then 0
    else
      assert names == [names[0]] + names[1..];
      1 + IndexOf(names[1..], name)
  }

  function InsertAt(names: seq<string>, i: nat, name: string): seq<string>
    requires i <= |names|
  {
    names[..i] + [name] + names[i..]
  }

  /** Deletes the first occurrence. */
  function Remove(names: seq<string>, name: string): seq<string> {
    if name in names then names[..IndexOf(names, name)] + names[IndexOf(names, name) + 1..] else names
  }

  /** The place of a new stage; an empty anchor is one that was not given. */
  function Place(order: seq<string>, after: string, before: string): Option<nat> {
    if after != "" then (if after in order then Some(IndexOf(order, after) + 1) else None)
    else if before != "" then (if before in order then Some(IndexOf(order, before)) else None)
    else Some(|order|)
  }

  function Anchor(after: string, before: string): string {
    if after != "" then after else before
  }

  /** A stage anchored at itself passes the existence check, because it has just been added, and then
      is not found in the run order; the stage stays registered without a place. */
  function Register(r: Registry, stage: Stage, after: string, before: string): (Registry, Option<RegistryError>) {
    if stage.name in r.stages then (r, Some(Duplicate))
    else if after != "" && before != "" then (r, Some(BothGiven))
    else
      var stages, enabled := r.stages[stage.name := stage], r.enabled[stage.name := true];
      if Anchor(after, before) != "" && Anchor(after, before) !in stages then (r, Some(AnchorMissing))
      else match Place(r.order, after, before)
        case None => (Registry(stages, r.order, enabled), Some(AnchorUnlisted))
        case Some(i) => (Registry(stages, InsertAt(r.order, i, stage.name), enabled), None)
  }

  function Unregister(r: Registry, name: string): (Registry, Option<RegistryError>) {
    if name !in r.stages then (r, Some(NotFound))
    else (Registry(r.stages - {name}, Remove(r.order, name), r.enabled - {name}), None)
  }

  function SetEnabled(r: Registry, name: string, on: bool): (Registry, Option<RegistryError>) {
    if name !in r.stages then (r, Some(NotFound)) else (r.(enabled := r.enabled[name := on]), None)
  }

  function EnabledStages(r: Registry, order: seq<string>): seq<Stage>
    requires forall n | n in order :: n in r.stages
  {
    if order == [] then []
    else
      (if order[0] in r.enabled && r.enabled[order[0]] then [r.stages[order[0]]] else []) +
      EnabledStages(r, order[1..])
  }

  datatype Op =
    | RegisterOp(stage: Stage, after: string, before: string)
    | UnregisterOp(name: string)
    | SetEnabledOp(name: string, on: bool)

  function Apply(r: Registry, op: Op): Registry {
    match op
    case RegisterOp(stage, after, before) => Register(r, stage, after, before).0
    case UnregisterOp(name) => Unregister(r, name).0
    case SetEnabledOp(name, on) => SetEnabled(r, name, on).0
  }

  function Run(r: Registry, ops: seq<Op>): Registry
    decreases |ops|
  {
    if ops == [] then r else Run(Apply(r, ops[0]), ops[1..])
  }

  lemma InsertKeepsDistinct(names: seq<string>, i: nat, name: string)
    requires Distinct(names) && name !in names && i <= |names|
    ensures Distinct(InsertAt(names, i, name))
    ensures forall n :: n in InsertAt(names, i, name) <==> n == name || n in names
    ensures Remove(InsertAt(names, i, name), name) == names
  {}

  lemma RemoveKeepsDistinct(names: seq<string>, name: string)
    requires Distinct(names)
    ensures Distinct(Remove(names, name))
    ensures forall n :: n in Remove(names, name) <==> n != name && n in names
  {}

  lemma RemoveAbsent(names: seq<string>, name: string)
    requires name !in names
    ensures Remove(names, name) == names
  {}

  lemma RegisterKeepsSound(r: Registry, stage: Stage, after: string, before: string)
    requires Sound(r)
    ensures Sound(Register(r, stage, after, before).0)
  {
    var (next, err) := Register(r, stage, after, before);
    if err == None {
      InsertKeepsDistinct(r.order, Place(r.order, after, before).value, stage.name);
    }
    hide Distinct, InsertAt, Place;
    forall n | n in next.stages ensures next.stages[n].name == n {}
    assert next.enabled.Keys == next.stages.Keys;
  }

  lemma UnregisterKeepsSound(r: Registry, name: string)
    requires Sound(r)
    ensures Sound(Unregister(r, name).0)
  {}

  lemma ApplyKeepsSound(r: Registry, op: Op)
    requires Sound(r)
    ensures Sound(Apply(r, op))
  {
    match op {
      case RegisterOp(stage, after, before) =>
        RegisterKeepsSound(r, stage, after, before);
      case UnregisterOp(name) =>
        UnregisterKeepsSound(r, name);
      case SetEnabledOp(name, on) =>
        hide Distinct;
    }
  }

  /** Whatever is registered, removed, enabled or disabled, the run order lists registered stages,
      each once. */
  lemma {:induction false} EveryRunIsSound(r: Registry, ops: seq<Op>)
    requires Sound(r)
    ensures Sound(Run(r, ops))
    decreases |ops|
  {
    if ops != [] {
      ApplyKeepsSound(r, ops[0]);
      EveryRunIsSound(Apply(r, ops[0]), ops[1..]);
    }
  }

  /** A stage that is not yet registered and is anchored at its own name. */
  predicate SelfAnchored(r: Registry, op: Op) {
    && op.RegisterOp?
    && op.stage.name !in r.stages
    && (op.after == "" || op.before == "")
    && op.stage.name != ""
    && Anchor(op.after, op.before) == op.stage.name
  }

  /** A complete run order stays complete exactly when no stage is anchored at itself. */
  lemma CompleteUnlessSelfAnchored(r: Registry, op: Op)
    requires Sound(r) && Complete(r)
    ensures Complete(Apply(r, op)) <==> !SelfAnchored(r, op)
  {
    match op {
      case RegisterOp(stage, after, before) =>
        var (next, err) := Register(r, stage, after, before);
        if err == None {
          InsertKeepsDistinct(r.order, Place(r.order, after, before).value, stage.name);
        } else if err == Some(AnchorUnlisted) {
          assert stage.name in next.stages && stage.name !in next.order;
        }
      case UnregisterOp(name) => RemoveKeepsDistinct(r.order, name);
      case SetEnabledOp(name, on) =>
    }
  }

  ghost predicate NeverSelfAnchored(ops: seq<Op>) {
    forall op | op in ops && op.RegisterOp? :: op.stage.name == "" || Anchor(op.after, op.before) != op.stage.name
  }

  lemma {:induction false} RunsWithoutSelfAnchorsAreComplete(r: Registry, ops: seq<Op>)
    requires Sound(r) && Complete(r) && NeverSelfAnchored(ops)
    ensures Complete(Run(r, ops))
    decreases |ops|
  {
    if ops != [] {
      assert ops[0] in ops;
      ApplyKeepsSound(r, ops[0]);
      CompleteUnlessSelfAnchored(r, ops[0]);
      RunsWithoutSelfAnchorsAreComplete(Apply(r, ops[0]), ops[1..]);
    }
  }

  /** A refused registration changes nothing, unless its anchor has no place in the run order. */
  lemma RefusedRegistrationChangesNothing(r: Registry, stage: Stage, after: string, before: string)
    requires Sound(r) && Complete(r)
    ensures Register(r, stage, after, before).1.Some? ==> (Register(r, stage, after, before).0 == r <==>
            !SelfAnchored(r, RegisterOp(stage, after, before)))
  {}

  /** A registered stage stands right after, or right before, its anchor or else last, and the other
      stages keep their order. */
  lemma RegisteredStageIsInPlace(r: Registry, stage: Stage, after: string, before: string)
    requires Sound(r) && Register(r, stage, after, before).1.None?
    ensures var order := Register(r, stage, after, before).0.order;
      && Remove(order, stage.name) == r.order
      && (after != "" ==> exists i :: 0 < i < |order| && order[i] == stage.name && order[i - 1] == after)
      && (before != "" ==> exists i :: 0 < i < |order| && order[i - 1] == stage.name && order[i] == before)
      && (after == before == "" ==> order == r.order + [stage.name])
  {
    var order, i := Register(r, stage, after, before).0.order, Place(r.order, after, before).value;
    InsertKeepsDistinct(r.order, i, stage.name);
    if after != "" {
      assert order[i] == stage.name && order[i - 1] == after;
    } else if before != "" {
      assert order[(i + 1) - 1] == stage.name && order[i + 1] == before;
    }
  }

  /** Removing a stage undoes its registration. */
  lemma UnregisterUndoesRegister(r: Registry, stage: Stage, after: string, before: string)
    requires Sound(r) && stage.name !in r.stages && Register(r, stage, after, before).1 in {None, Some(AnchorUnlisted)}
    ensures Unregister(Register(r, stage, after, before).0, stage.name) == (r, None)
  {
    hide Distinct, InsertAt, Remove;
    var (next, err) := Register(r, stage, after, before);
    var order := if err == None then InsertAt(r.order, Place(r.order, after, before).value, stage.name) else r.order;
    assert next == Registry(r.stages[stage.name := stage], order, r.enabled[stage.name := true]);
    assert stage.name !in r.order && stage.name !in r.enabled;
    hide Register, Place;
    if err == None {
      InsertKeepsDistinct(r.order, Place(r.order, after, before).value, stage.name);
    } else {
      RemoveAbsent(r.order, stage.name);
    }
    assert next.stages - {stage.name} == r.stages;
    assert next.enabled - {stage.name} == r.enabled;
  }

  predicate IsEnabled(r: Registry, name: string) { name in r.enabled && r.enabled[name] }

  ghost predicate Listed(r: Registry, order: seq<string>) {
    forall n | n in order :: n in r.stages && r.stages[n].name == n
  }

  /** The enabled stages keep the run order: the stages of a first part all come before those of the
      second. */
  lemma {:induction false} EnabledStagesFollowOrder(r: Registry, first: seq<string>, second: seq<string>)
    requires Listed(r, first + second)
    ensures forall n | n in first || n in second :: n in first + second
    ensures EnabledStages(r, first + second) == EnabledStages(r, first) + EnabledStages(r, second)
  {
    if first == [] {
      assert first + second == second;
    } else {
      assert (first + second)[1..] == first[1..] + second && (first + second)[0] == first[0];
      EnabledStagesFollowOrder(r, first[1..], second);
      var head := if IsEnabled(r, first[0]) then [r.stages[first[0]]] else [];
      assert EnabledStages(r, first) == head + EnabledStages(r, first[1..]);
      assert EnabledStages(r, first + second) == head + EnabledStages(r, first[1..] + second);
      hide EnabledStages;
      assert head + (EnabledStages(r, first[1..]) + EnabledStages(r, second))
          == head + EnabledStages(r, first[1..]) + EnabledStages(r, second);
    }
  }

  /** No stage is run twice for one event; those run are the enabled ones that have a place. */
  lemma {:induction false} EnabledStagesAreDistinct(r: Registry, order: seq<string>)
    requires Listed(r, order) && Distinct(order)
    ensures var stages := EnabledStages(r, order);
      && (forall i, j | 0 <= i < j < |stages| :: stages[i].name != stages[j].name)
      && (forall s: Stage :: s in stages <==> s.name in order && IsEnabled(r, s.name) && r.stages[s.name] == s)
  {
    if order != [] {
      var rest := order[1..];
      EnabledStagesAreDistinct(r, rest);
      assert order == [order[0]] + rest;
      var stages, later := EnabledStages(r, order), EnabledStages(r, rest);
      assert order[0] !in rest;
      assert forall i | 0 <= i < |later| :: later[i] in later && later[i].name in rest;
    }
  }

  class StageRegistry {
    var stages: map<string, Stage>
    var order: seq<string>
    var enabled: map<string, bool>

    ghost function View(): Registry
      reads this
    {
      Registry(stages, order, enabled)
    }

    constructor ()
      ensures View() == EMPTY && Sound(View())
    {
      stages, order, enabled := map[], [], map[];
    }

    method RegisterStage(stage: Stage, after: string, before: string) returns (err: Option<RegistryError>)
      requires Sound(View())
      modifies this
      ensures Sound(View()) && (View(), err) == Register(old(View()), stage, after, before)
    {
      ApplyKeepsSound(View(), RegisterOp(stage, after, before));
      if stage.name in stages {
        return Some(Duplicate);
      }
      if after != "" && before != "" {
        return Some(BothGiven);
      }
      ghost var was := View();
      stages := stages[stage.name := stage];
      enabled := enabled[stage.name := true];
      if after != "" {
        if after !in stages {
          stages, enabled := stages - {stage.name}, enabled - {stage.name};
          assert stages == was.stages && enabled == was.enabled;
          return Some(AnchorMissing);
        }
        if after !in order {
          return Some(AnchorUnlisted);
        }
        order := InsertAt(order, IndexOf(order, after) + 1, stage.name);
      } else if before != "" {
        if before !in stages {
          stages, enabled := stages - {stage.name}, enabled - {stage.name};
          assert stages == was.stages && enabled == was.enabled;
          return Some(AnchorMissing);
        }
        if before !in order {
          return Some(AnchorUnlisted);
        }
        order := InsertAt(order, IndexOf(order, before), stage.name);
      } else {
        assert order + [stage.name] == InsertAt(order, |order|, stage.name);
        order := order + [stage.name];
      }
      err := None;
    }

    method UnregisterStage(name: string) returns (err: Option<RegistryError>)
      requires Sound(View())
      modifies this
      ensures Sound(View()) && (View(), err) == Unregister(old(View()), name)
    {
      ApplyKeepsSound(View(), UnregisterOp(name));
      if name !in stages {
        return Some(NotFound);
      }
      stages := stages - {name};
      enabled := enabled - {name};
      order := Remove(order, name);
      err := None;
    }

    method Enable(name: string) returns (err: Option<RegistryError>)
      requires Sound(View())
      modifies this
      ensures Sound(View()) && (View(), err) == SetEnabled(old(View()), name, true)
    {
      if name !in stages {
        return Some(NotFound);
      }
      enabled := enabled[name := true];
      err := None;
    }

    method Disable(name: string) returns (err: Option<RegistryError>)
      requires Sound(View())
      modifies this
      ensures Sound(View()) && (View(), err) == SetEnabled(old(View()), name, false)
    {
      if name !in stages {
        return Some(NotFound);
      }
      enabled := enabled[name := false];
      err := None;
    }

    function GetEnabledStages(): seq<Stage>
      requires Sound(View())
      reads this
    {
      EnabledStages(Registry(stages, order, enabled), order)
    }
  }
}
