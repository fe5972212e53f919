/** Heartbeats and the sweeps that detect machines which stopped sending them. */
module Heartbeat {
  import opened Wrappers

  datatype MachineStatus = Healthy | Delayed | Offline | Recovered | Unknown

  /** Timeouts in seconds; times are whole seconds. */
  datatype TimeoutConfig = TimeoutConfig(healthy: int, delayed: int, offline: int)

  /** The status that the time since the last heartbeat calls for. */
  function GetStatus(config: TimeoutConfig, elapsed: int): MachineStatus {
    if elapsed <= config.healthy then Healthy
    else if elapsed <= config.delayed then Delayed
    else Offline
  }

  datatype Row = Row(status: MachineStatus, lastHeartbeat: int, lastSequence: int, updatedAt: int)

  type Table = map<string, Row>

  /** A row of the heartbeats table. */
  datatype Received = Received(machine: string, version: string, sequence: int, at: int)

  /** The status table and the heartbeats received, in order. */
  datatype Store = Store(machines: Table, received: seq<Received>)

  const EMPTY := Store(map[], [])

  datatype Change = Change(machine: string, oldStatus: MachineStatus, newStatus: MachineStatus)

  /** A heartbeat that was accepted. */
  function Beat(store: Store, machine: string, version: string, sequence: int, now: int): Store {
    Store(store.machines[machine := Row(Healthy, now, sequence, now)],
          store.received + [Received(machine, version, sequence, now)])
  }

  predicate Fires(r: Row, from: MachineStatus, timeout: int, now: int) {
    r.status == from && r.lastHeartbeat < now - timeout
  }

  predicate Found(c: Change, table: Table, from: MachineStatus, to: MachineStatus, timeout: int, now: int) {
    c.oldStatus == from && c.newStatus == to && c.machine in table && Fires(table[c.machine], from, timeout, now)
  }

  /** One UPDATE: rows in status `from` that are older than the timeout go to status `to`. */
  function Moved(r: Row, from: MachineStatus, to: MachineStatus, timeout: int, now: int): Row {
    if Fires(r, from, timeout, now) then r.(status := to, updatedAt := now) else r
  }

  function SweptRow(config: TimeoutConfig, r: Row, now: int): Row {
    Moved(Moved(r, Healthy, Delayed, config.healthy, now), Delayed, Offline, config.delayed, now)
  }

  /** After the first of the two updates of a sweep. */
  function HalfSwept(config: TimeoutConfig, table: Table, now: int): Table {
    map m | m in table :: Moved(table[m], Healthy, Delayed, config.healthy, now)
  }

  function Sweep(config: TimeoutConfig, table: Table, now: int): Table {
    map m | m in table :: SweptRow(config, table[m], now)
  }

  /** The changes that a sweep lists: those of its two updates. */
  predicate Lists(config: TimeoutConfig, table: Table, now: int, c: Change) {
    || Found(c, table, Healthy, Delayed, config.healthy, now)
    || Found(c, HalfSwept(config, table, now), Delayed, Offline, config.delayed, now)
  }

  const SUPPORTED_VERSIONS := ["1.0"]
  const LATEST_VERSION := "1.0"

  /** An unsupported version is answered with the latest one. */
  function Negotiated(version: string): string {
    if version in SUPPORTED_VERSIONS then version else LATEST_VERSION
  }

  datatype HeartbeatError = BadRequest | NotRegistered | Replayed

  /** Why a heartbeat is turned away, if it is; a sequence number must be larger than the last one. */
  function Objection(table: Table, machine: string, version: string, sequence: int, registered: bool): Option<HeartbeatError> {
    if machine == "" || version == "" || sequence < 0 then Some(BadRequest)
    else if !registered then Some(NotRegistered)
    else if machine in table && sequence <= table[machine].lastSequence then Some(Replayed)
    else None
  }

  datatype Op =
    | Heartbeat(machine: string, version: string, sequence: int, registered: bool, at: int)
    | DetectTimeouts(first: int, second: int)

  /** Detecting timeouts sweeps twice, reading the clock each time. */
  function Step(config: TimeoutConfig, store: Store, op: Op): Store {
    match op
    case Heartbeat(machine, version, sequence, registered, at) =>
      if Objection(store.machines, machine, version, sequence, registered).None? then
        Beat(store, machine, Negotiated(version), sequence, at)
      else store
    case DetectTimeouts(first, second) =>
      store.(machines := Sweep(config, Sweep(config, store.machines, first), second))
  }

  function Run(config: TimeoutConfig, store: Store, ops: seq<Op>): Store
    decreases |ops|
  {
    if ops == [] then store else Run(config, Step(config, store, ops[0]), ops[1..])
  }

  function End(op: Op): int { if op.Heartbeat? then op.at else op.second }

  /** The clock never goes back. */
  ghost predicate ClockOk(start: int, ops: seq<Op>)
    decreases |ops|
  {
    ops == [] ||
    (&& (if ops[0].Heartbeat? then start <= ops[0].at else start <= ops[0].first <= ops[0].second)
     && ClockOk(End(ops[0]), ops[1..]))
  }

  function Final(start: int, ops: seq<Op>): int
    decreases |ops|
  {
    if ops == [] then start else Final(End(ops[0]), ops[1..])
  }

  // ----- the stored status and the time since the last heartbeat -----

  function Rank(s: MachineStatus): int {
    match s
    case Healthy => 0
    case Delayed => 1
    case _ => 2
  }

  /** The stored status is one the sweeps know and is never ahead of the clock. */
  ghost predicate NotAhead(config: TimeoutConfig, table: Table, now: int) {
    forall m | m in table ::
      && table[m].lastHeartbeat <= now
      && (table[m].status.Healthy? || table[m].status.Delayed? || table[m].status.Offline?)
      && Rank(table[m].status) <= Rank(GetStatus(config, now - table[m].lastHeartbeat))
      && (table[m].status.Delayed? ==> now - table[m].lastHeartbeat > config.healthy)
  }

  ghost predicate UpToDate(config: TimeoutConfig, table: Table, now: int) {
    forall m | m in table :: table[m].status == GetStatus(config, now - table[m].lastHeartbeat)
  }

  lemma SweepBringsUpToDate(config: TimeoutConfig, table: Table, before: int, now: int)
    requires NotAhead(config, table, before) && before <= now
    ensures UpToDate(config, Sweep(config, table, now), now) && NotAhead(config, Sweep(config, table, now), now)
  {
  }

  /** A sweep at the same instant finds nothing to do. */
  lemma SecondSweepIsIdle(config: TimeoutConfig, table: Table, now: int)
    requires UpToDate(config, table, now)
    ensures Sweep(config, table, now) == table
  {}

  /** In every run of heartbeats and sweeps under a clock that never goes back, the stored status
      is never ahead of the clock. No order of the timeouts is needed. */
  lemma {:induction false} EveryRunIsNotAhead(config: TimeoutConfig, store: Store, start: int, ops: seq<Op>)
    requires NotAhead(config, store.machines, start) && ClockOk(start, ops)
    ensures NotAhead(config, Run(config, store, ops).machines, Final(start, ops))
    decreases |ops|
  {
    if ops != [] {
      var table := store.machines;
      match ops[0] {
        case Heartbeat(machine, version, sequence, registered, at) =>
          LaterIsFine(config, table, start, at);
        case DetectTimeouts(first, second) =>
          SweepBringsUpToDate(config, table, start, first);
          SweepBringsUpToDate(config, Sweep(config, table, first), first, second);
      }
      EveryRunIsNotAhead(config, Step(config, store, ops[0]), End(ops[0]), ops[1..]);
    }
  }

  lemma LaterIsFine(config: TimeoutConfig, table: Table, before: int, now: int)
    requires NotAhead(config, table, before) && before <= now
    ensures NotAhead(config, table, now)
  {}

  /** After any run that ends in a sweep, every stored status is the one that the time since the
      machine's last heartbeat calls for, and another sweep at that instant changes nothing. */
  lemma SweepAgreesWithGetStatus(config: TimeoutConfig, start: int, ops: seq<Op>, first: int, second: int)
    requires ClockOk(start, ops) && Final(start, ops) <= first <= second
    ensures var table := Run(config, Run(config, EMPTY, ops), [DetectTimeouts(first, second)]).machines;
            UpToDate(config, table, second) && Sweep(config, table, second) == table
  {
    EveryRunIsNotAhead(config, EMPTY, start, ops);
    var before := Run(config, EMPTY, ops);
    SweepBringsUpToDate(config, before.machines, Final(start, ops), first);
    SweepBringsUpToDate(config, Sweep(config, before.machines, first), first, second);
    var after := Step(config, before, DetectTimeouts(first, second));
    assert Run(config, before, [DetectTimeouts(first, second)]) == Run(config, after, []);
    SecondSweepIsIdle(config, after.machines, second);
  }

  // ----- the status table and the heartbeats received -----

  /** The i-th heartbeat received is the machine's last one. */
  ghost predicate LastOf(received: seq<Received>, machine: string, i: nat) {
    && i < |received| && received[i].machine == machine
    && forall j | i < j < |received| :: received[j].machine != machine
  }

  /** The machine's row shows its last heartbeat, the i-th received. */
  ghost predicate Shows(store: Store, machine: string, i: nat)
    requires machine in store.machines
  {
    && LastOf(store.received, machine, i)
    && store.machines[machine].lastSequence == store.received[i].sequence
    && store.machines[machine].lastHeartbeat == store.received[i].at
  }

  ghost predicate Increasing(received: seq<Received>) {
    forall i, j | 0 <= i < j < |received| && received[i].machine == received[j].machine ::
      received[i].sequence < received[j].sequence
  }

  /** Each machine's sequence numbers increase, and its row shows its last heartbeat. */
  ghost predicate RowsMatch(store: Store) {
    && Increasing(store.received)
    && (forall r | r in store.received :: r.machine in store.machines)
    && (forall m | m in store.machines :: exists i: nat :: Shows(store, m, i))
  }

  lemma LaterIsLarger(store: Store, machine: string, r: Received)
    requires RowsMatch(store) && r in store.received && r.machine == machine
    ensures machine in store.machines && r.sequence <= store.machines[machine].lastSequence
  {
    var last: nat :| Shows(store, machine, last);
    var i: nat :| i < |store.received| && store.received[i] == r;
    assert i <= last;
  }

  lemma BeatKeepsRows(store: Store, machine: string, version: string, sequence: int, now: int)
    requires RowsMatch(store) && (machine in store.machines ==> sequence > store.machines[machine].lastSequence)
    ensures RowsMatch(Beat(store, machine, version, sequence, now))
  {
    var next, n := Beat(store, machine, version, sequence, now), |store.received|;
    assert forall i | 0 <= i < n :: next.received[i] == store.received[i];
    forall i | 0 <= i < n && store.received[i].machine == machine ensures store.received[i].sequence < sequence {
      LaterIsLarger(store, machine, store.received[i]);
    }
    forall m | m in next.machines ensures exists i: nat :: Shows(next, m, i) {
      if m == machine {
        assert Shows(next, m, n);
      } else {
        var i: nat :| Shows(store, m, i);
        assert Shows(next, m, i);
      }
    }
    hide Shows;
  }

  lemma SweepKeepsRows(config: TimeoutConfig, store: Store, now: int)
    requires RowsMatch(store)
    ensures RowsMatch(store.(machines := Sweep(config, store.machines, now)))
  {
    hide Increasing;
    var next := store.(machines := Sweep(config, store.machines, now));
    forall m | m in next.machines ensures exists i: nat :: Shows(next, m, i) {
      var i: nat :| Shows(store, m, i);
      assert Shows(next, m, i);
    }
  }

  /** In every run the heartbeats of one machine are received with increasing sequence numbers, and
      the status table shows the last one of each machine. */
  lemma {:induction false} EveryRunMatchesReceived(config: TimeoutConfig, store: Store, ops: seq<Op>)
    requires RowsMatch(store)
    ensures RowsMatch(Run(config, store, ops))
    ensures store.received <= Run(config, store, ops).received
    decreases |ops|
  {
    if ops != [] {
      hide RowsMatch, Beat, Sweep;
      match ops[0] {
        case Heartbeat(machine, version, sequence, registered, at) =>
          if Objection(store.machines, machine, version, sequence, registered).None? {
            BeatKeepsRows(store, machine, Negotiated(version), sequence, at);
            BeatAppends(store, machine, Negotiated(version), sequence, at);
          }
        case DetectTimeouts(first, second) =>
          SweepKeepsRows(config, store, first);
          SweepKeepsRows(config, store.(machines := Sweep(config, store.machines, first)), second);
      }
      EveryRunMatchesReceived(config, Step(config, store, ops[0]), ops[1..]);
    }
  }

  lemma BeatAppends(store: Store, machine: string, version: string, sequence: int, now: int)
    ensures store.received <= Beat(store, machine, version, sequence, now).received
  {}

  // ----- which changes are reported -----

  /** Every machine whose status changes is in the list that detecting timeouts returns. */
  ghost predicate AllReported(config: TimeoutConfig, table: Table, first: int, second: int) {
    var swept := Sweep(config, table, first);
    forall m | m in table && Sweep(config, swept, second)[m].status != table[m].status ::
      exists c :: Lists(config, swept, second, c) && c.machine == m
  }

  /** The first sweep finds nothing to change in the row, or the second one changes it again. */
  predicate Noticed(config: TimeoutConfig, r: Row, first: int, second: int) {
    || r.status == GetStatus(config, first - r.lastHeartbeat)
    || GetStatus(config, second - r.lastHeartbeat) != GetStatus(config, first - r.lastHeartbeat)
  }

  /** A sweep over an up-to-date table lists exactly the machines whose status changes. */
  lemma ListedIffChanged(config: TimeoutConfig, table: Table, before: int, now: int, m: string)
    requires UpToDate(config, table, before) && NotAhead(config, table, before) && before <= now && m in table
    ensures (exists c :: Lists(config, table, now, c) && c.machine == m) <==> Sweep(config, table, now)[m].status != table[m].status
  {
    if table[m].status.Healthy? && Fires(table[m], Healthy, config.healthy, now) {
      assert Lists(config, table, now, Change(m, Healthy, Delayed));
    } else if Fires(table[m], Delayed, config.delayed, now) {
      assert Lists(config, table, now, Change(m, Delayed, Offline));
    }
  }

  /** Since only the second sweep's list is returned, this is exactly when all changes are reported. */
  lemma AllReportedIffNoticed(config: TimeoutConfig, table: Table, start: int, first: int, second: int)
    requires NotAhead(config, table, start) && start <= first <= second
    ensures AllReported(config, table, first, second) <==> forall m | m in table :: Noticed(config, table[m], first, second)
  {
    var swept := Sweep(config, table, first);
    SweepBringsUpToDate(config, table, start, first);
    SweepBringsUpToDate(config, swept, first, second);
    hide Lists, NotAhead, GetStatus;
    forall m | m in table
      ensures Noticed(config, table[m], first, second) <==>
              (Sweep(config, swept, second)[m].status == table[m].status
               || exists c :: Lists(config, swept, second, c) && c.machine == m)
    {
      ListedIffChanged(config, swept, first, second, m);
      assert swept[m].lastHeartbeat == table[m].lastHeartbeat;
    }
  }

  /** A machine that falls silent: its status changes, and no list ever says so. */
  lemma SilenceGoesUnreported(machine: string, gap: int, config: TimeoutConfig)
    requires machine != "" && config.healthy < gap
    ensures var before := Run(config, EMPTY, [Heartbeat(machine, "1.0", 0, true, 0)]);
            var after := Run(config, before, [DetectTimeouts(gap, gap)]);
      && machine in before.machines && before.machines[machine].status == Healthy
      && machine in after.machines && after.machines[machine].status != Healthy
      && forall c :: !Lists(config, Sweep(config, before.machines, gap), gap, c)
  {
    var before := Step(config, EMPTY, Heartbeat(machine, "1.0", 0, true, 0));
    assert Run(config, EMPTY, [Heartbeat(machine, "1.0", 0, true, 0)]) == Run(config, before, []) == before;
    var after := Step(config, before, DetectTimeouts(gap, gap));
    assert Run(config, before, [DetectTimeouts(gap, gap)]) == Run(config, after, []) == after;
    assert before.machines[machine] == Row(Healthy, 0, 0, 0);
  }

  // ----- the repository and the service -----

  class HeartbeatRepository {
    var machines: Table
    var heartbeats: seq<Received>

    ghost function View(): Store
      reads this
    {
      Store(machines, heartbeats)
    }

    constructor ()
      ensures View() == EMPTY
    {
      machines, heartbeats := map[], [];
    }

    method RecordHeartbeat(machine: string, version: string, sequence: int, now: int)
      modifies this
      ensures View() == Beat(old(View()), machine, version, sequence, now)
    {
      heartbeats := heartbeats + [Received(machine, version, sequence, now)];
      machines := machines[machine := Row(Healthy, now, sequence, now)];
    }

    /** One UPDATE ... RETURNING: the rows it touches, each once, in some order. */
    method Update(from: MachineStatus, to: MachineStatus, timeout: int, now: int) returns (moved: seq<Change>)
      requires from != to
      modifies this`machines
      ensures machines == map m | m in old(machines) :: Moved(old(machines)[m], from, to, timeout, now)
      ensures forall c :: c in moved <==> Found(c, old(machines), from, to, timeout, now)
      ensures forall i, j | 0 <= i < j < |moved| :: moved[i].machine != moved[j].machine
    {
      hide Fires;
      moved := [];
      var rest := machines.Keys;
      while rest != {}
        invariant rest <= old(machines).Keys && machines.Keys == old(machines).Keys
        invariant forall m | m in machines :: machines[m] == if m in rest then old(machines)[m] else Moved(old(machines)[m], from, to, timeout, now)
        invariant forall c | c in moved :: c.machine !in rest && Found(c, old(machines), from, to, timeout, now)
        invariant forall m | m in old(machines) && m !in rest && Fires(old(machines)[m], from, timeout, now) :: Change(m, from, to) in moved
        invariant forall i, j | 0 <= i < j < |moved| :: moved[i].machine != moved[j].machine
        decreases |rest|
      {
        var m :| m in rest;
        rest := rest - {m};
        var r := machines[m];
        if Fires(r, from, timeout, now) {
          machines := machines[m := r.(status := to, updatedAt := now)];
          moved := moved + [Change(m, from, to)];
        }
      }
    }

    method DetectOfflineMachines(config: TimeoutConfig, now: int) returns (changes: seq<Change>)
      modifies this`machines
      ensures machines == Sweep(config, old(machines), now)
      ensures forall c :: c in changes <==> Lists(config, old(machines), now, c)
    {
      ghost var before := machines;
      var delayed := Update(Healthy, Delayed, config.healthy, now);
      assert machines == HalfSwept(config, before, now);
      var offline := Update(Delayed, Offline, config.delayed, now);
      changes := delayed + offline;
      assert machines == Sweep(config, before, now);
    }
  }

  class HeartbeatService {
    const repository: HeartbeatRepository
    const config: TimeoutConfig
    var received: nat
    var rejected: nat
    var missed: nat

    constructor (repository: HeartbeatRepository, config: TimeoutConfig)
      ensures this.repository == repository && this.config == config && received == rejected == missed == 0
    {
      this.repository := repository;
      this.config := config;
      received, rejected, missed := 0, 0, 0;
    }

    /** A replay is counted twice as a protocol error, where it is found and where it is caught. */
    method ProcessHeartbeat(machine: string, version: string, sequence: int, registered: bool, now: int)
      returns (r: Result<string, HeartbeatError>)
      modifies this`received, this`rejected, repository
      ensures repository.View() == Step(config, old(repository.View()), Heartbeat(machine, version, sequence, registered, now))
      ensures var objection := Objection(old(repository.machines), machine, version, sequence, registered);
              r == if objection.None? then Ok(Negotiated(version)) else Err(objection.value)
      ensures r.Ok? <==> && machine != "" && version != "" && 0 <= sequence && registered
                         && (machine in old(repository.machines) ==> old(repository.machines)[machine].lastSequence < sequence)
      ensures r == Err(BadRequest) <==> machine == "" || version == "" || sequence < 0
      ensures r == Err(NotRegistered) <==> machine != "" && version != "" && 0 <= sequence && !registered
      ensures r.Ok? ==>
        && r.value == "1.0"
        && repository.machines == old(repository.machines)[machine := Row(Healthy, now, sequence, now)]
        && repository.heartbeats == old(repository.heartbeats) + [Received(machine, "1.0", sequence, now)]
      ensures r.Err? ==> repository.View() == old(repository.View())
      ensures received == old(received) + (if r.Ok? then 1 else 0)
      ensures rejected == old(rejected) + (if r.Ok? then 0 else if r.error == Replayed then 2 else 1)
    {
      if machine == "" || version == "" || sequence < 0 {
        rejected := rejected + 1;
        return Err(BadRequest);
      }
      if !registered {
        rejected := rejected + 1;
        return Err(NotRegistered);
      }
      var negotiated := Negotiated(version);
      if machine in repository.machines && sequence <= repository.machines[machine].lastSequence {
        rejected := rejected + 2;
        return Err(Replayed);
      }
      repository.RecordHeartbeat(machine, negotiated, sequence, now);
      received := received + 1;
      return Ok(negotiated);
    }

    /** Sweeps and counts the changes, sweeps again and returns only what the second sweep found. */
    method DetectTimeouts(first: int, second: int) returns (changes: seq<Change>)
      modifies this`missed, repository`machines
      ensures repository.View() == Step(config, old(repository.View()), Op.DetectTimeouts(first, second))
      ensures forall c :: c in changes <==> Lists(config, Sweep(config, old(repository.machines), first), second, c)
    {
      var found := repository.DetectOfflineMachines(config, first);
      missed := missed + |found|;
      changes := repository.DetectOfflineMachines(config, second);
    }
  }
}
