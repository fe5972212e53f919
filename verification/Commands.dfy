/** Remote commands: a table of legal transitions, a table of commands, and a log to which every state
    change is appended. */
module Commands {
  import opened Wrappers

  datatype CommandState =
    | CREATED | QUEUED | AUTHORIZED | READY | DELIVERED | ACKNOWLEDGED | RUNNING
    | SUCCESS | FAILED | CANCELLED | EXPIRED

  const LEGAL_TRANSITIONS: set<(CommandState, CommandState)> := {
    (CREATED, QUEUED), (QUEUED, AUTHORIZED), (QUEUED, CANCELLED), (QUEUED, EXPIRED),
    (AUTHORIZED, READY), (AUTHORIZED, CANCELLED), (READY, DELIVERED), (READY, CANCELLED),
    (READY, EXPIRED), (DELIVERED, ACKNOWLEDGED), (ACKNOWLEDGED, RUNNING), (RUNNING, SUCCESS),
    (RUNNING, FAILED), (CREATED, CANCELLED), (CREATED, EXPIRED)
  }

  predicate IsLegal(before: CommandState, after: CommandState) {
    (before, after) in LEGAL_TRANSITIONS
  }

  /** Where a command can go from each state; the last four states are final. */
  lemma SuccessorsByState(before: CommandState, after: CommandState)
    ensures IsLegal(before, after) <==>
            match before
            case CREATED => after in [QUEUED, CANCELLED, EXPIRED]
            case QUEUED => after in [AUTHORIZED, CANCELLED, EXPIRED]
            case AUTHORIZED => after in [READY, CANCELLED]
            case READY => after in [DELIVERED, CANCELLED, EXPIRED]
            case DELIVERED => after == ACKNOWLEDGED
            case ACKNOWLEDGED => after == RUNNING
            case RUNNING => after in [SUCCESS, FAILED]
            case _ => false
  {}

  datatype CommandError = Invalid | DuplicateId | NotFound | InvalidTransition(before: CommandState, after: CommandState)

  datatype LifecycleRecord = LifecycleRecord(id: string, toState: CommandState, triggeredBy: string, reason: string)

  datatype Store = Store(commands: map<string, CommandState>, log: seq<LifecycleRecord>)

  /** The states in the log of one command, oldest first. */
  function LogOf(log: seq<LifecycleRecord>, id: string): seq<CommandState> {
    if log == [] then []
    else
      var last := log[|log| - 1];
      LogOf(log[..|log| - 1], id) + if last.id == id then [last.toState] else []
  }

  ghost predicate LegalPath(path: seq<CommandState>) {
    && path != [] && path[0] == CREATED
    && forall i | 0 < i < |path| :: IsLegal(path[i - 1], path[i])
  }

  function Rank(s: CommandState): nat {
    match s
    case CREATED => 0
    case QUEUED => 1
    case AUTHORIZED => 2
    case READY => 3
    case DELIVERED => 4
    case ACKNOWLEDGED => 5
    case RUNNING => 6
    case _ => 7
  }

  lemma LegalRaisesRank(before: CommandState, after: CommandState)
    requires IsLegal(before, after)
    ensures Rank(before) < Rank(after)
  {}

  lemma {:induction false} RankGrowsAlongPath(path: seq<CommandState>, i: nat, j: nat)
    requires LegalPath(path) && i < j < |path|
    ensures Rank(path[i]) + (j - i) <= Rank(path[j])
    decreases j
  {
    LegalRaisesRank(path[j - 1], path[j]);
    if i < j - 1 {
      RankGrowsAlongPath(path, i, j - 1);
    }
  }

  /** Following the table, no command passes through a state twice, and no log exceeds eight entries. */
  lemma LegalPathsAreShort(path: seq<CommandState>)
    requires LegalPath(path)
    ensures |path| <= 8
    ensures forall i, j | 0 <= i < j < |path| :: path[i] != path[j]
  {
    if |path| > 1 {
      RankGrowsAlongPath(path, 0, |path| - 1);
    }
    forall i, j | 0 <= i < j < |path| ensures path[i] != path[j] {
      RankGrowsAlongPath(path, i, j);
    }
  }

  /** Eight entries are reached. */
  lemma EightEntriesAreReached() returns (path: seq<CommandState>)
    ensures LegalPath(path) && |path| == 8
  {
    path := [CREATED, QUEUED, AUTHORIZED, READY, DELIVERED, ACKNOWLEDGED, RUNNING, SUCCESS];
  }

  /** The log of a stored command is a legal path to its state; other ids have none. */
  ghost predicate LogOk(s: Store, id: string) {
    var path := LogOf(s.log, id);
    if id in s.commands then LegalPath(path) && path[|path| - 1] == s.commands[id] else path == []
  }

  ghost predicate Consistent(s: Store) { forall id :: LogOk(s, id) }

  /** The identifier column is unique. */
  function Insert(s: Store, id: string): (Store, Option<CommandError>) {
    if id in s.commands then (s, Some(DuplicateId))
    else (Store(s.commands[id := CREATED], s.log + [LifecycleRecord(id, CREATED, "created", "")]), None)
  }

  /** Updates the row if there is one, and logs in any case. */
  function Update(s: Store, id: string, target: CommandState, agent: string, reason: string): (Store, Option<CommandError>) {
    var log := s.log + [LifecycleRecord(id, target, agent, reason)];
    if id in s.commands then (Store(s.commands[id := target], log), None) else (Store(s.commands, log), Some(NotFound))
  }

  function Transition(s: Store, id: string, target: CommandState, agent: string, reason: string): (Store, Option<CommandError>) {
    if id !in s.commands then (s, Some(NotFound))
    else if !IsLegal(s.commands[id], target) then (s, Some(InvalidTransition(s.commands[id], target)))
    else Update(s, id, target, agent, reason)
  }

  /** `valid` is the verdict of the request validator on machine, type, parameters and priority. */
  function Create(s: Store, id: string, valid: bool): (Store, Option<CommandError>) {
    if !valid then (s, Some(Invalid))
    else
      var (inserted, err) := Insert(s, id);
      if err.Some? then (s, err) else Transition(inserted, id, QUEUED, "system", "")
  }

  function Authorize(s: Store, id: string, agent: string, reason: string): (Store, Option<CommandError>) {
    var (next, err) := Transition(s, id, AUTHORIZED, agent, reason);
    if err.Some? then (next, err) else Update(next, id, READY, agent, "")
  }

  function Cancel(s: Store, id: string, agent: string, reason: string): (Store, Option<CommandError>) {
    Transition(s, id, CANCELLED, agent, reason)
  }

  datatype Op =
    | CreateOp(id: string, valid: bool)
    | AuthorizeOp(id: string, agent: string, reason: string)
    | CancelOp(id: string, agent: string, reason: string)
    | TransitionOp(id: string, target: CommandState, agent: string, reason: string)

  function Apply(s: Store, op: Op): (Store, Option<CommandError>) {
    match op
    case CreateOp(id, valid) => Create(s, id, valid)
    case AuthorizeOp(id, agent, reason) => Authorize(s, id, agent, reason)
    case CancelOp(id, agent, reason) => Cancel(s, id, agent, reason)
    case TransitionOp(id, target, agent, reason) => Transition(s, id, target, agent, reason)
  }

  function Run(s: Store, ops: seq<Op>): Store
    decreases |ops|
  {
    if ops == [] then s else Run(Apply(s, ops[0]).0, ops[1..])
  }

  const EMPTY := Store(map[], [])

  lemma AppendIsLegalIff(path: seq<CommandState>, target: CommandState)
    requires LegalPath(path)
    ensures LegalPath(path + [target]) <==> IsLegal(path[|path| - 1], target)
  {
    var longer := path + [target];
    if LegalPath(longer) {
      assert IsLegal(longer[|path| - 1], longer[|path|]);
    }
    if IsLegal(path[|path| - 1], target) {
      forall i | 0 < i < |longer| ensures IsLegal(longer[i - 1], longer[i]) {}
    }
  }

  lemma OthersKeepTheirLog(s: Store, row: LifecycleRecord)
    ensures forall id | id != row.id :: LogOf(s.log + [row], id) == LogOf(s.log, id)
    ensures LogOf(s.log + [row], row.id) == LogOf(s.log, row.id) + [row.toState]
  {}

  /** The repository itself checks nothing: a state update keeps the log consistent exactly when the
      command exists and the table allows the step. */
  lemma UpdateIsConsistentIffLegal(s: Store, id: string, target: CommandState, agent: string, reason: string)
    requires Consistent(s)
    ensures Consistent(Update(s, id, target, agent, reason).0) <==> id in s.commands && IsLegal(s.commands[id], target)
  {
    var next := Update(s, id, target, agent, reason).0;
    OwnLogOkIff(s, id, target, agent, reason);
    forall other | other != id ensures LogOk(next, other) {
      OtherLogOk(s, id, target, agent, reason, other);
    }
    hide LogOk;
  }

  lemma OwnLogOkIff(s: Store, id: string, target: CommandState, agent: string, reason: string)
    requires LogOk(s, id)
    ensures LogOk(Update(s, id, target, agent, reason).0, id) <==> id in s.commands && IsLegal(s.commands[id], target)
  {
    OthersKeepTheirLog(s, LifecycleRecord(id, target, agent, reason));
    if id in s.commands {
      AppendIsLegalIff(LogOf(s.log, id), target);
    }
    hide LogOf, LegalPath, IsLegal;
  }

  lemma OtherLogOk(s: Store, id: string, target: CommandState, agent: string, reason: string, other: string)
    requires LogOk(s, other) && other != id
    ensures LogOk(Update(s, id, target, agent, reason).0, other)
  {
    OthersKeepTheirLog(s, LifecycleRecord(id, target, agent, reason));
    hide LogOf, LegalPath;
  }

  lemma InsertIsConsistent(s: Store, id: string)
    requires Consistent(s)
    ensures Consistent(Insert(s, id).0)
  {
    assert LogOk(s, id);
    assert LegalPath([CREATED]);
    OthersKeepTheirLog(s, LifecycleRecord(id, CREATED, "created", ""));
    hide LogOf, LegalPath;
    forall other ensures LogOk(Insert(s, id).0, other) {
      assert LogOk(s, other);
    }
  }

  lemma ApplyIsConsistent(s: Store, op: Op)
    requires Consistent(s)
    ensures Consistent(Apply(s, op).0)
  {
    hide Consistent;
    match op {
      case CreateOp(id, valid) =>
        InsertIsConsistent(s, id);
        UpdateIsConsistentIffLegal(Insert(s, id).0, id, QUEUED, "system", "");
      case AuthorizeOp(id, agent, reason) =>
        UpdateIsConsistentIffLegal(s, id, AUTHORIZED, agent, reason);
        if Transition(s, id, AUTHORIZED, agent, reason).1.None? {
          UpdateIsConsistentIffLegal(Transition(s, id, AUTHORIZED, agent, reason).0, id, READY, agent, "");
        }
      case CancelOp(id, agent, reason) =>
        UpdateIsConsistentIffLegal(s, id, CANCELLED, agent, reason);
      case TransitionOp(id, target, agent, reason) =>
        UpdateIsConsistentIffLegal(s, id, target, agent, reason);
    }
  }

  /** In every run each command's log is a legal path from CREATED to its stored state, of at most
      eight entries. */
  lemma {:induction false} EveryRunIsConsistent(s: Store, ops: seq<Op>)
    requires Consistent(s)
    ensures Consistent(Run(s, ops))
    ensures forall id | id in Run(s, ops).commands :: |LogOf(Run(s, ops).log, id)| <= 8
    decreases |ops|
  {
    if ops == [] {
      forall id | id in s.commands ensures |LogOf(s.log, id)| <= 8 {
        assert LogOk(s, id);
        LegalPathsAreShort(LogOf(s.log, id));
      }
    } else {
      ApplyIsConsistent(s, ops[0]);
      EveryRunIsConsistent(Apply(s, ops[0]).0, ops[1..]);
    }
  }

  /** A refused operation changes nothing, and an operation is refused exactly for its stated reason. */
  lemma RefusedChangesNothing(s: Store, op: Op)
    ensures Apply(s, op).1.Some? ==> Apply(s, op).0 == s
    ensures op.CreateOp? ==> (Apply(s, op).1.None? <==> op.valid && op.id !in s.commands)
    ensures op.AuthorizeOp? ==> (Apply(s, op).1.None? <==> op.id in s.commands && s.commands[op.id] == QUEUED)
    ensures op.CancelOp? ==> (Apply(s, op).1.None? <==>
            op.id in s.commands && s.commands[op.id] in {CREATED, QUEUED, AUTHORIZED, READY})
  {}

  /** An operation touches one command: the others keep their state and their log. */
  lemma OtherCommandsAreUntouched(s: Store, op: Op, id: string)
    requires id != op.id
    ensures id in Apply(s, op).0.commands <==> id in s.commands
    ensures id in s.commands ==> Apply(s, op).0.commands[id] == s.commands[id]
    ensures LogOf(Apply(s, op).0.log, id) == LogOf(s.log, id)
  {
    hide LogOf, IsLegal;
    match op {
      case CreateOp(_, valid) =>
        OthersKeepTheirLog(s, LifecycleRecord(op.id, CREATED, "created", ""));
        OthersKeepTheirLog(Insert(s, op.id).0, LifecycleRecord(op.id, QUEUED, "system", ""));
      case AuthorizeOp(_, agent, reason) =>
        OthersKeepTheirLog(s, LifecycleRecord(op.id, AUTHORIZED, agent, reason));
        OthersKeepTheirLog(Transition(s, op.id, AUTHORIZED, agent, reason).0, LifecycleRecord(op.id, READY, agent, ""));
      case CancelOp(_, agent, reason) =>
        OthersKeepTheirLog(s, LifecycleRecord(op.id, CANCELLED, agent, reason));
      case TransitionOp(_, target, agent, reason) =>
        OthersKeepTheirLog(s, LifecycleRecord(op.id, target, agent, reason));
    }
  }

  const QUEUED_LOG := [CREATED, QUEUED]
  const READY_LOG := [CREATED, QUEUED, AUTHORIZED, READY]

  /** The logs that the public operations leave behind. */
  predicate PublicLog(path: seq<CommandState>) {
    path in [QUEUED_LOG, READY_LOG, QUEUED_LOG + [CANCELLED], READY_LOG + [CANCELLED]]
  }

  ghost predicate PublicStore(s: Store) {
    Consistent(s) && forall id | id in s.commands :: PublicLog(LogOf(s.log, id))
  }

  lemma PublicOpKeepsLogs(s: Store, op: Op)
    requires PublicStore(s) && !op.TransitionOp?
    ensures PublicStore(Apply(s, op).0)
  {
    var next := Apply(s, op).0;
    ApplyIsConsistent(s, op);
    forall id | id in next.commands ensures PublicLog(LogOf(next.log, id)) {
      if id != op.id {
        OtherCommandsAreUntouched(s, op, id);
      } else if Apply(s, op).1.None? {
        OwnLog(s, op);
      } else {
        RefusedChangesNothing(s, op);
      }
    }
  }

  lemma OwnLog(s: Store, op: Op)
    requires PublicStore(s) && !op.TransitionOp? && Apply(s, op).1.None?
    ensures PublicLog(LogOf(Apply(s, op).0.log, op.id))
  {
    RefusedChangesNothing(s, op);
    assert LogOk(s, op.id);
    hide LogOf, LegalPath, Consistent, Apply;
    match op {
      case CreateOp(id, valid) => CreatedLog(s, id);
      case AuthorizeOp(id, agent, reason) => AuthorizedLog(s, id, agent, reason);
      case CancelOp(id, agent, reason) => CancelledLog(s, id, agent, reason);
    }
  }

  lemma CreatedLog(s: Store, id: string)
    requires LogOf(s.log, id) == [] && id !in s.commands
    ensures LogOf(Apply(s, CreateOp(id, true)).0.log, id) == QUEUED_LOG
  {
    assert IsLegal(CREATED, QUEUED);
    hide LogOf, IsLegal;
    var first, second := LifecycleRecord(id, CREATED, "created", ""), LifecycleRecord(id, QUEUED, "system", "");
    var inserted := Insert(s, id).0;
    OthersKeepTheirLog(s, first);
    OthersKeepTheirLog(inserted, second);
    assert Apply(s, CreateOp(id, true)).0.log == s.log + [first] + [second];
    assert [] + [CREATED] + [QUEUED] == QUEUED_LOG;
  }

  lemma AuthorizedLog(s: Store, id: string, agent: string, reason: string)
    requires LogOk(s, id) && id in s.commands && s.commands[id] == QUEUED && PublicLog(LogOf(s.log, id))
    ensures LogOf(Apply(s, AuthorizeOp(id, agent, reason)).0.log, id) == READY_LOG
  {
    OthersKeepTheirLog(s, LifecycleRecord(id, AUTHORIZED, agent, reason));
    OthersKeepTheirLog(Update(s, id, AUTHORIZED, agent, reason).0, LifecycleRecord(id, READY, agent, ""));
    LastOfPublicLog(LogOf(s.log, id));
    assert QUEUED_LOG + [AUTHORIZED] + [READY] == READY_LOG;
    hide LogOf, PublicLog, LegalPath;
  }

  lemma CancelledLog(s: Store, id: string, agent: string, reason: string)
    requires LogOk(s, id) && id in s.commands && IsLegal(s.commands[id], CANCELLED) && PublicLog(LogOf(s.log, id))
    ensures PublicLog(LogOf(Apply(s, CancelOp(id, agent, reason)).0.log, id))
  {
    OthersKeepTheirLog(s, LifecycleRecord(id, CANCELLED, agent, reason));
    LastOfPublicLog(LogOf(s.log, id));
    hide LogOf, LegalPath;
  }

  lemma LastOfPublicLog(path: seq<CommandState>)
    requires PublicLog(path)
    ensures path[|path| - 1] == QUEUED <==> path == QUEUED_LOG
    ensures path[|path| - 1] == READY <==> path == READY_LOG
    ensures path[|path| - 1] in {QUEUED, READY, CANCELLED}
  {}

  /** Creating, authorizing and cancelling alone leave exactly four kinds of log, so that no command is
      ever seen CREATED or AUTHORIZED. */
  lemma {:induction false} PublicRunsLeaveFourLogs(s: Store, ops: seq<Op>)
    requires PublicStore(s) && forall op | op in ops :: !op.TransitionOp?
    ensures PublicStore(Run(s, ops))
    ensures forall id | id in Run(s, ops).commands :: Run(s, ops).commands[id] in {QUEUED, READY, CANCELLED}
    decreases |ops|
  {
    if ops == [] {
      forall id | id in s.commands ensures s.commands[id] in {QUEUED, READY, CANCELLED} {
        assert LogOk(s, id);
        LastOfPublicLog(LogOf(s.log, id));
      }
    } else {
      assert ops[0] in ops;
      PublicOpKeepsLogs(s, ops[0]);
      PublicRunsLeaveFourLogs(Apply(s, ops[0]).0, ops[1..]);
    }
  }

  class CommandRepository {
    var commands: map<string, CommandState>
    var lifecycle: seq<LifecycleRecord>

    ghost function View(): Store
      reads this
    {
      Store(commands, lifecycle)
    }

    constructor ()
      ensures View() == EMPTY
    {
      commands, lifecycle := map[], [];
    }

    method CreateCommand(id: string) returns (err: Option<CommandError>)
      modifies this
      ensures (View(), err) == Insert(old(View()), id)
    {
      if id in commands {
        return Some(DuplicateId);
      }
      commands := commands[id := CREATED];
      RecordLifecycle(id, CREATED, "created", "");
      err := None;
    }

    method GetCommand(id: string) returns (state: Option<CommandState>)
      ensures state == if id in commands then Some(commands[id]) else None
    {
      state := if id in commands then Some(commands[id]) else None;
    }

    method UpdateState(id: string, target: CommandState, agent: string, reason: string) returns (err: Option<CommandError>)
      modifies this
      ensures (View(), err) == Update(old(View()), id, target, agent, reason)
    {
      if id in commands {
        commands := commands[id := target];
      }
      RecordLifecycle(id, target, agent, reason);
      err := if id in commands then None else Some(NotFound);
    }

    method RecordLifecycle(id: string, target: CommandState, agent: string, reason: string)
      modifies this`lifecycle
      ensures lifecycle == old(lifecycle) + [LifecycleRecord(id, target, agent, reason)]
    {
      lifecycle := lifecycle + [LifecycleRecord(id, target, agent, reason)];
    }
  }

  /** How many entries of the log lead into a state. */
  function Count(log: seq<LifecycleRecord>, state: CommandState): nat {
    if log == [] then 0
    else Count(log[..|log| - 1], state) + if log[|log| - 1].toState == state then 1 else 0
  }

  class CommandService {
    const repository: CommandRepository
    var created: nat
    var authorized: nat
    var cancelled: nat

    /** The log is consistent and the counters agree with it. */
    ghost predicate Valid()
      reads this, repository
    {
      && Consistent(repository.View())
      && created == Count(repository.lifecycle, CREATED)
      && authorized == Count(repository.lifecycle, AUTHORIZED)
      && cancelled == Count(repository.lifecycle, CANCELLED)
    }

    constructor (repository: CommandRepository)
      requires repository.View() == EMPTY
      ensures this.repository == repository && Valid()
    {
      this.repository := repository;
      created, authorized, cancelled := 0, 0, 0;
    }

    method CreateCommand(id: string, valid: bool) returns (err: Option<CommandError>)
      requires Valid()
      modifies this, repository
      ensures Valid() && (repository.View(), err) == Create(old(repository.View()), id, valid)
    {
      ghost var was := repository.View();
      ApplyIsConsistent(was, CreateOp(id, valid));
      hide Consistent, Count, IsLegal;
      if !valid {
        return Some(Invalid);
      }
      err := repository.CreateCommand(id);
      if err.Some? {
        return;
      }
      created := created + 1;
      CountsOneMore(was.log, LifecycleRecord(id, CREATED, "created", ""));
      CountsOneMore(repository.lifecycle, LifecycleRecord(id, QUEUED, "system", ""));
      err := ToState(id, QUEUED, "system", "");
    }

    method AuthorizeCommand(id: string, agent: string, reason: string) returns (err: Option<CommandError>)
      requires Valid()
      modifies this, repository
      ensures Valid() && (repository.View(), err) == Authorize(old(repository.View()), id, agent, reason)
    {
      ghost var was := repository.View();
      ApplyIsConsistent(was, AuthorizeOp(id, agent, reason));
      hide Consistent, Count, IsLegal;
      var state := repository.GetCommand(id);
      if state == None {
        return Some(NotFound);
      }
      if !IsLegal(state.value, AUTHORIZED) {
        return Some(InvalidTransition(state.value, AUTHORIZED));
      }
      CountsOneMore(was.log, LifecycleRecord(id, AUTHORIZED, agent, reason));
      err := repository.UpdateState(id, AUTHORIZED, agent, reason);
      authorized := authorized + 1;
      CountsOneMore(repository.lifecycle, LifecycleRecord(id, READY, agent, ""));
      err := repository.UpdateState(id, READY, agent, "");
    }

    method CancelCommand(id: string, agent: string, reason: string) returns (err: Option<CommandError>)
      requires Valid()
      modifies this, repository
      ensures Valid() && (repository.View(), err) == Cancel(old(repository.View()), id, agent, reason)
    {
      ghost var was := repository.View();
      ApplyIsConsistent(was, CancelOp(id, agent, reason));
      hide Consistent, Count, IsLegal;
      var state := repository.GetCommand(id);
      if state == None {
        return Some(NotFound);
      }
      if !IsLegal(state.value, CANCELLED) {
        return Some(InvalidTransition(state.value, CANCELLED));
      }
      CountsOneMore(was.log, LifecycleRecord(id, CANCELLED, agent, reason));
      err := repository.UpdateState(id, CANCELLED, agent, reason);
      cancelled := cancelled + 1;
    }

    method ToState(id: string, target: CommandState, agent: string, reason: string) returns (err: Option<CommandError>)
      modifies repository
      ensures (repository.View(), err) == Transition(old(repository.View()), id, target, agent, reason)
    {
      var state := repository.GetCommand(id);
      if state == None {
        return Some(NotFound);
      }
      if !IsLegal(state.value, target) {
        return Some(InvalidTransition(state.value, target));
      }
      err := repository.UpdateState(id, target, agent, reason);
    }
  }

  lemma CountsOneMore(log: seq<LifecycleRecord>, row: LifecycleRecord)
    ensures forall state :: Count(log + [row], state) == Count(log, state) + if row.toState == state then 1 else 0
  {}
}
