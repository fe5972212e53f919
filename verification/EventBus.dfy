/** The event bus as a state machine. Between two awaits a task runs alone, so one action is
    what one task does up to its next await: a publisher's attempt to put, a worker that takes
    an envelope, the end of one handler call, the shutdown up to its next handler call. */
module EventBus {
  import opened PriorityQueue

  type Subscription = string

  /** One finished call of a handler; the bus treats a handler that raises like one that returns. */
  datatype Call = Call(sub: Subscription, raised: bool)

  /** The worker task of one event type. Waiting means waiting in `get`. */
  datatype Worker =
    | NoWorker
    | Fresh
    | Waiting
    | Delivering(env: Envelope, subs: seq<Subscription>, calls: seq<Call>)
    | Stopped

  /** A delivery that is over: who was subscribed when it began and the calls that were made. */
  datatype Delivery = Delivery(env: Envelope, subs: seq<Subscription>, calls: seq<Call>)

  /** Everything about one event type. `blocked` are the publishers waiting for room, `drained`
      is what the shutdown took off the queue and has not delivered yet. */
  datatype Lane = Lane(
    queue: seq<Envelope>, subs: seq<Subscription>, worker: Worker, blocked: seq<Envelope>,
    accepted: seq<Envelope>, finished: seq<Delivery>, drained: seq<Envelope>, lost: seq<Envelope>)

  const NEW_LANE := Lane([], [], NoWorker, [], [], [], [], [])

  /** The shutdown task; Draining means in a handler call for the first drained envelope of `at`, whose
      delivery goes to `subs`; `grew` says that a queue was added since the loop over the queues began.
      Failed is a shutdown that was ended by an exception. */
  datatype Shutdown =
    | Running
    | Draining(todo: seq<EventType>, at: EventType, subs: seq<Subscription>, calls: seq<Call>, grew: bool)
    | Closed
    | Failed

  /** `order` lists the event types in the order in which their queues were created. */
  datatype Bus = Bus(started: bool, maxsize: int, order: seq<EventType>, lanes: map<EventType, Lane>, stop: Shutdown)

  datatype Action =
    | Start
    | Subscribe(t: EventType, sub: Subscription)
    | Unsubscribe(t: EventType, sub: Subscription)
    | Publish(env: Envelope)
    | RetryPut(t: EventType, i: nat)
    | WorkerStart(t: EventType)
    | WorkerTake(t: EventType)
    | WorkerCallDone(t: EventType, raised: bool)
    | BeginShutdown
    | ShutdownCallDone(raised: bool)

  function SubsOf(calls: seq<Call>): seq<Subscription> {
    seq(|calls|, i requires 0 <= i < |calls| => calls[i].sub)
  }

  function EnvsOf(finished: seq<Delivery>): seq<Envelope> {
    seq(|finished|, i requires 0 <= i < |finished| => finished[i].env)
  }

  predicate HasRoom(maxsize: int, l: Lane) {
    maxsize <= 0 || |l.queue| < maxsize
  }

  function Accept(l: Lane, e: Envelope): Lane {
    l.(queue := StableInsert(l.queue, e), accepted := l.accepted + [e])
  }

  function Without<T(==)>(s: seq<T>, x: T): seq<T> {
    if s == [] then [] else (if s[0] == x then [] else [s[0]]) + Without(s[1..], x)
  }

  /** Back at the head of the worker loop. */
  function LoopHead(running: bool): Worker { if running then Waiting else Stopped }

  /** The waiting worker gets the most urgent envelope; without subscribers its delivery is over
      at once. */
  function Take(l: Lane, running: bool): Lane
    requires l.queue != []
  {
    var e := l.queue[0];
    if l.subs == [] then
      l.(queue := l.queue[1..], worker := LoopHead(running), finished := l.finished + [Delivery(e, [], [])])
    else
      l.(queue := l.queue[1..], worker := Delivering(e, l.subs, []))
  }

  function EndCall(l: Lane, running: bool, raised: bool): Lane
    requires l.worker.Delivering? && |l.worker.calls| < |l.worker.subs|
  {
    var w := l.worker;
    var calls := w.calls + [Call(w.subs[|w.calls|], raised)];
    if |calls| < |w.subs| then l.(worker := w.(calls := calls))
    else l.(worker := LoopHead(running), finished := l.finished + [Delivery(w.env, w.subs, calls)])
  }

  /** Cancelling a worker in the middle of a delivery abandons the envelope. */
  function Cancelled(l: Lane): Lane {
    match l.worker
    case NoWorker => l
    case Delivering(e, _, _) => l.(worker := Stopped, lost := l.lost + [e])
    case _ => l.(worker := Stopped)
  }

  function Cancel(b: Bus): Bus {
    b.(lanes := map t | t in b.lanes :: Cancelled(b.lanes[t]), stop := Closed)
  }

  function Undelivered(envs: seq<Envelope>): seq<Delivery> {
    seq(|envs|, i requires 0 <= i < |envs| => Delivery(envs[i], [], []))
  }

  /** Without subscribers the deliveries of all drained envelopes are over at once. */
  function Skip(l: Lane): Lane {
    if l.subs == [] then l.(finished := l.finished + Undelivered(l.drained), drained := []) else l
  }

  /** The shutdown takes a whole queue. */
  function Drain(l: Lane): Lane {
    Skip(l.(queue := [], drained := l.queue))
  }

  /** The shutdown from one queue to the next, up to its next handler call or to the end. */
  function Continue(b: Bus, todo: seq<EventType>): Bus
    requires forall t | t in todo :: t in b.lanes
    decreases |todo|
  {
    if todo == [] then Cancel(b)
    else
      var t := todo[0];
      var l := Drain(b.lanes[t]);
      var next := b.(lanes := b.lanes[t := l]);
      if l.drained != [] then next.(stop := Draining(todo[1..], t, l.subs, [], false)) else Continue(next, todo[1..])
  }

  /** The shutdown finished the delivery of its first drained envelope. */
  function EndDrained(l: Lane, subs: seq<Subscription>, calls: seq<Call>): Lane
    requires l.drained != []
  {
    l.(finished := l.finished + [Delivery(l.drained[0], subs, calls)], drained := l.drained[1..])
  }

  /** One handler call of the shutdown ends. Each delivery goes to those subscribed when it begins. After
      the last envelope the loop goes on to the next queue; a dictionary that grew makes it raise. */
  function EndShutdownCall(b: Bus, raised: bool): Bus
    requires b.stop.Draining? && b.stop.at in b.lanes && forall t | t in b.stop.todo :: t in b.lanes
    requires b.lanes[b.stop.at].drained != [] && |b.stop.calls| < |b.stop.subs|
  {
    var calls := b.stop.calls + [Call(b.stop.subs[|b.stop.calls|], raised)];
    if |calls| < |b.stop.subs| then
      b.(stop := b.stop.(calls := calls))
    else
      var done := Skip(EndDrained(b.lanes[b.stop.at], b.stop.subs, calls));
      var next := b.(lanes := b.lanes[b.stop.at := done]);
      if done.drained != [] then next.(stop := b.stop.(subs := done.subs, calls := []))
      else if b.stop.grew then next.(stop := Failed)
      else Continue(next, b.stop.todo)
  }

  function SetLane(b: Bus, t: EventType, l: Lane): Bus {
    b.(lanes := b.lanes[t := l])
  }

  /** A new event type gets a queue, also while the shutdown loops over the queues. */
  function DoSubscribe(b: Bus, t: EventType, sub: Subscription): Bus {
    var known := t in b.lanes;
    var l := if known then b.lanes[t] else NEW_LANE;
    var w := if l.worker.NoWorker? && b.started then Fresh else l.worker;
    var next := SetLane(b, t, l.(subs := l.subs + [sub], worker := w));
    if known then next
    else next.(order := b.order + [t], stop := if b.stop.Draining? then b.stop.(grew := true) else b.stop)
  }

  predicate Enabled(b: Bus, a: Action) {
    match a
    case Start => true
    // Subscription tokens are fresh.
    case Subscribe(t, sub) => t in b.lanes ==> sub !in b.lanes[t].subs
    case Unsubscribe(t, sub) => t in b.lanes
    // After the shutdown began, publish raises; without a queue the event is dropped.
    case Publish(e) => b.stop.Running? && e.eventType in b.lanes && 0 <= e.priority < LEVELS
    case RetryPut(t, i) => t in b.lanes && i < |b.lanes[t].blocked| && HasRoom(b.maxsize, b.lanes[t])
    case WorkerStart(t) => t in b.lanes && b.lanes[t].worker.Fresh?
    case WorkerTake(t) => t in b.lanes && b.lanes[t].worker.Waiting? && b.lanes[t].queue != []
    case WorkerCallDone(t, _) =>
      t in b.lanes && b.lanes[t].worker.Delivering? && |b.lanes[t].worker.calls| < |b.lanes[t].worker.subs|
    case BeginShutdown => b.stop.Running? && forall t | t in b.order :: t in b.lanes
    case ShutdownCallDone(_) =>
      && b.stop.Draining? && b.stop.at in b.lanes && (forall t | t in b.stop.todo :: t in b.lanes)
      && b.lanes[b.stop.at].drained != [] && |b.stop.calls| < |b.stop.subs|
  }

  /** An action that is not enabled changes nothing. */
  function Step(b: Bus, a: Action): Bus {
    if !Enabled(b, a) then b
    else
      match a
      case Start => b.(started := true)
      case Subscribe(t, sub) => DoSubscribe(b, t, sub)
      case Unsubscribe(t, sub) => SetLane(b, t, b.lanes[t].(subs := Without(b.lanes[t].subs, sub)))
      case Publish(e) =>
        var l := b.lanes[e.eventType];
        SetLane(b, e.eventType, if HasRoom(b.maxsize, l) then Accept(l, e) else l.(blocked := l.blocked + [e]))
      case RetryPut(t, i) =>
        var l := b.lanes[t];
        SetLane(b, t, Accept(l, l.blocked[i]).(blocked := l.blocked[..i] + l.blocked[i + 1..]))
      case WorkerStart(t) => SetLane(b, t, b.lanes[t].(worker := LoopHead(b.stop.Running?)))
      case WorkerTake(t) => SetLane(b, t, Take(b.lanes[t], b.stop.Running?))
      case WorkerCallDone(t, raised) => SetLane(b, t, EndCall(b.lanes[t], b.stop.Running?, raised))
      case BeginShutdown => Continue(b, b.order)
      case ShutdownCallDone(raised) => EndShutdownCall(b, raised)
  }

  function Run(b: Bus, actions: seq<Action>): Bus
    decreases actions
  {
    if actions == [] then b else Run(Step(b, actions[0]), actions[1..])
  }

  function NewBus(maxsize: int): Bus { Bus(false, maxsize, [], map[], Running) }
}
