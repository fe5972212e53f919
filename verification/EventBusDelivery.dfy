/** From publish to delivery: what is published enters the bus, and a worker delivers what its queue holds. */
module EventBusDelivery {
  import opened Sequences
  import opened PriorityQueue
  import opened EventBus
  import opened EventBusSafety
  import opened EventBusShutdown

  // ----- what publishing does -----

  /** The envelope stands at place `i`, behind all that is at least as urgent and in front of all that is
      less urgent; the others keep their order. */
  ghost predicate StandsAt(queue: seq<Envelope>, e: Envelope, next: seq<Envelope>, i: nat) {
    && i <= |queue| && next == queue[..i] + [e] + queue[i..]
    && (forall j | 0 <= j < i :: queue[j].priority <= e.priority)
    && (forall j | i <= j < |queue| :: e.priority < queue[j].priority)
  }

  ghost predicate StandsIn(queue: seq<Envelope>, e: Envelope, next: seq<Envelope>) {
    exists i: nat :: StandsAt(queue, e, next, i)
  }

  lemma StandsOneOn(queue: seq<Envelope>, e: Envelope, next: seq<Envelope>, i: nat)
    requires queue != [] && queue[0].priority <= e.priority && StandsAt(queue[1..], e, next, i)
    ensures StandsAt(queue, e, [queue[0]] + next, i + 1)
  {
    var rest := queue[1..];
    assert [queue[0]] + next == queue[..i + 1] + [e] + queue[i + 1..];
    assert forall j | 0 < j < |queue| :: queue[j] == rest[j - 1];
  }

  lemma {:induction false} InsertStandsIn(queue: seq<Envelope>, e: Envelope)
    requires SortedByPriority(queue)
    ensures StandsIn(queue, e, StableInsert(queue, e))
  {
    if queue == [] || e.priority < queue[0].priority {
      assert queue[..0] + [e] + queue[0..] == [e] + queue;
      assert forall j | 0 < j < |queue| :: queue[0].priority <= queue[j].priority;
      assert StandsAt(queue, e, StableInsert(queue, e), 0);
    } else {
      InsertStandsIn(queue[1..], e);
      var i: nat :| StandsAt(queue[1..], e, StableInsert(queue[1..], e), i);
      StandsOneOn(queue, e, StableInsert(queue[1..], e), i);
      hide StandsAt;
      assert StandsIn(queue, e, StableInsert(queue, e));
    }
  }

  /** There is room for one more. */
  predicate Open(b: Bus, t: EventType)
    requires t in b.lanes
  {
    b.maxsize <= 0 || |b.lanes[t].queue| < b.maxsize
  }

  /** Nothing changes but this lane; the order of the queues and the shutdown stay, too. */
  ghost predicate OnlyLane(b: Bus, after: Bus, t: EventType) {
    && after == b.(lanes := after.lanes) && after.lanes.Keys == b.lanes.Keys
    && forall x | x in b.lanes && x != t :: after.lanes[x] == b.lanes[x]
  }

  lemma SetLaneIsOnly(b: Bus, t: EventType, l: Lane)
    requires t in b.lanes
    ensures OnlyLane(b, SetLane(b, t, l), t) && t in SetLane(b, t, l).lanes && SetLane(b, t, l).lanes[t] == l
  {
    assert SetLane(b, t, l).lanes.Keys == b.lanes.Keys;
  }

  /** The envelope is accepted and stands at its place in the queue; nothing else in the lane changes. */
  ghost predicate TakesIn(l: Lane, e: Envelope, next: Lane) {
    StandsIn(l.queue, e, next.queue) && next == l.(queue := next.queue, accepted := l.accepted + [e])
  }

  lemma AcceptStands(b: Bus, t: EventType, e: Envelope)
    requires BusOk(b) && t in b.lanes
    ensures TakesIn(b.lanes[t], e, Accept(b.lanes[t], e))
  {
    assert LaneOk(b.lanes[t], b.maxsize);
    InsertStandsIn(b.lanes[t].queue, e);
    hide BusOk, StandsIn, StableInsert, LaneOk;
  }

  /** Every event of a known type, with any of the five priorities, is stored at its place in the queue or
      makes its publisher wait. */
  lemma PublishEnters(b: Bus, e: Envelope)
    requires BusOk(b) && b.stop.Running? && e.eventType in b.lanes && 0 <= e.priority <= 4
    ensures var t, after := e.eventType, Step(b, Publish(e));
            OnlyLane(b, after, t) && t in after.lanes &&
            if Open(b, t) then TakesIn(b.lanes[t], e, after.lanes[t])
            else after.lanes[t] == b.lanes[t].(blocked := b.lanes[t].blocked + [e])
  {
    var t := e.eventType;
    var next := if Open(b, t) then Accept(b.lanes[t], e) else b.lanes[t].(blocked := b.lanes[t].blocked + [e]);
    PublishSetsLane(b, e);
    hide *;
    AcceptStands(b, t, e);
    SetLaneIsOnly(b, t, next);
  }

  lemma PublishSetsLane(b: Bus, e: Envelope)
    requires b.stop.Running? && e.eventType in b.lanes && 0 <= e.priority <= 4
    ensures var t, l := e.eventType, b.lanes[e.eventType];
            Step(b, Publish(e)) == SetLane(b, t, if Open(b, t) then Accept(l, e) else l.(blocked := l.blocked + [e]))
  {
    hide Accept, SetLane;
  }

  /** A publisher that waits stores its event as soon as it finds room, and waits no longer. */
  lemma RetryEnters(b: Bus, t: EventType, i: nat)
    requires BusOk(b) && t in b.lanes && i < |b.lanes[t].blocked| && Open(b, t)
    ensures var after, blocked := Step(b, RetryPut(t, i)), b.lanes[t].blocked;
            OnlyLane(b, after, t) && t in after.lanes &&
            TakesIn(b.lanes[t].(blocked := blocked[..i] + blocked[i + 1..]), blocked[i], after.lanes[t])
  {
    var l := b.lanes[t];
    var next := Accept(l, l.blocked[i]).(blocked := l.blocked[..i] + l.blocked[i + 1..]);
    AcceptStands(b, t, l.blocked[i]);
    SetLaneIsOnly(b, t, next);
    RetrySetsLane(b, t, i);
    hide Step, SetLane, StandsIn, BusOk, OnlyLane, Open;
  }

  lemma RetrySetsLane(b: Bus, t: EventType, i: nat)
    requires t in b.lanes && i < |b.lanes[t].blocked| && Open(b, t)
    ensures var l := b.lanes[t];
            Step(b, RetryPut(t, i)) ==
            SetLane(b, t, Accept(l, l.blocked[i]).(blocked := l.blocked[..i] + l.blocked[i + 1..]))
  {
    hide Accept, SetLane;
  }

  /** After the shutdown has begun, without a queue for the type, or with a priority that is none of the
      five, nothing is published. */
  lemma PublishRefused(b: Bus, e: Envelope)
    requires !b.stop.Running? || e.eventType !in b.lanes || !(0 <= e.priority <= 4)
    ensures Step(b, Publish(e)) == b
  {}

  // ----- over runs -----

  /** Published, for one type, in the course of a run. */
  function Published(b: Bus, actions: seq<Action>, t: EventType): seq<Envelope>
    decreases |actions|
  {
    if actions == [] then []
    else PublishedBy(b, actions[0], t) + Published(Step(b, actions[0]), actions[1..], t)
  }

  /** What the type has taken in, and what waits to be. */
  function Entered(b: Bus, t: EventType): multiset<Envelope> {
    if t in b.lanes then multiset(b.lanes[t].accepted) + multiset(b.lanes[t].blocked) else multiset{}
  }

  /** From one state to the next nothing more enters and nothing is forgotten. */
  ghost predicate SameEntries(l: Lane, next: Lane) {
    next.accepted == l.accepted && next.blocked == l.blocked
  }

  ghost predicate AllSameEntries(b: Bus, after: Bus) {
    && b.lanes.Keys <= after.lanes.Keys
    && (forall t | t in b.lanes :: SameEntries(b.lanes[t], after.lanes[t]))
    && (forall t | t in after.lanes && t !in b.lanes :: after.lanes[t].accepted == [] && after.lanes[t].blocked == [])
  }

  lemma {:induction false} ContinueKeepsEntries(b: Bus, todo: seq<EventType>)
    requires forall t | t in todo :: t in b.lanes
    ensures AllSameEntries(b, Continue(b, todo))
    decreases |todo|
  {
    if todo != [] {
      var l := Drain(b.lanes[todo[0]]);
      if l.drained == [] {
        var next := b.(lanes := b.lanes[todo[0] := l]);
        ContinueKeepsEntries(next, todo[1..]);
        assert AllSameEntries(b, next);
      }
    }
  }

  lemma EndCallKeepsEntries(b: Bus, raised: bool)
    requires Enabled(b, ShutdownCallDone(raised))
    ensures AllSameEntries(b, Step(b, ShutdownCallDone(raised)))
  {
    if |b.stop.calls| + 1 == |b.stop.subs| {
      EndsAsServed(b, raised);
      var next := Served(b, b.stop.calls + [Call(b.stop.subs[|b.stop.calls|], raised)]);
      assert next.lanes.Keys == b.lanes.Keys && AllSameEntries(b, next);
      hide Step, Served;
      if next.lanes[b.stop.at].drained == [] && !b.stop.grew {
        ContinueKeepsEntries(next, b.stop.todo);
      }
    }
  }

  lemma OtherActionsKeepEntries(b: Bus, a: Action)
    requires !a.Publish? && !a.RetryPut?
    ensures AllSameEntries(b, Step(b, a))
  {
    if Enabled(b, a) {
      match a {
        case BeginShutdown => ContinueKeepsEntries(b, b.order);
        case ShutdownCallDone(raised) => EndCallKeepsEntries(b, raised);
        case _ => hide Continue, EndShutdownCall;
      }
    }
  }

  lemma SamePerType(b: Bus, after: Bus, t: EventType)
    requires AllSameEntries(b, after)
    ensures Entered(after, t) == Entered(b, t)
  {}

  lemma RetryKeepsEntered(l: Lane, i: nat)
    requires i < |l.blocked|
    ensures multiset(l.accepted + [l.blocked[i]]) + multiset(l.blocked[..i] + l.blocked[i + 1..])
         == multiset(l.accepted) + multiset(l.blocked)
  {
    assert l.blocked == l.blocked[..i] + [l.blocked[i]] + l.blocked[i + 1..];
  }

  /** What one action publishes under the type. */
  function PublishedBy(b: Bus, a: Action, t: EventType): seq<Envelope> {
    if a.Publish? && a.env.eventType == t && b.stop.Running? && t in b.lanes && 0 <= a.env.priority <= 4 then [a.env] else []
  }

  lemma EnteredAfter(b: Bus, after: Bus, u: EventType, t: EventType)
    requires OnlyLane(b, after, u) && u in b.lanes
    ensures t != u ==> Entered(after, t) == Entered(b, t)
    ensures u in after.lanes && Entered(after, u) == multiset(after.lanes[u].accepted) + multiset(after.lanes[u].blocked)
    ensures Entered(b, u) == multiset(b.lanes[u].accepted) + multiset(b.lanes[u].blocked)
  {}

  lemma PublishStep(b: Bus, e: Envelope, t: EventType)
    requires BusOk(b)
    ensures Entered(Step(b, Publish(e)), t) == Entered(b, t) + multiset(PublishedBy(b, Publish(e), t))
  {
    hide BusOk, Step, StandsIn;
    if b.stop.Running? && e.eventType in b.lanes && 0 <= e.priority <= 4 {
      hide OnlyLane, TakesIn, Entered, Open;
      var u := e.eventType;
      PublishEnters(b, e);
      if Open(b, u) {
        TakenInHolds(b.lanes[u], e, Step(b, Publish(e)).lanes[u]);
      }
      EnteredAfter(b, Step(b, Publish(e)), u, t);
    } else {
      PublishRefused(b, e);
    }
  }

  lemma TakenInHolds(l: Lane, e: Envelope, next: Lane)
    requires TakesIn(l, e, next)
    ensures next.accepted == l.accepted + [e] && next.blocked == l.blocked
  {}

  lemma RetryHolds(l: Lane, i: nat, next: Lane)
    requires i < |l.blocked| && TakesIn(l.(blocked := l.blocked[..i] + l.blocked[i + 1..]), l.blocked[i], next)
    ensures multiset(next.accepted) + multiset(next.blocked) == multiset(l.accepted) + multiset(l.blocked)
  {
    TakenInHolds(l.(blocked := l.blocked[..i] + l.blocked[i + 1..]), l.blocked[i], next);
    RetryKeepsEntered(l, i);
    hide TakesIn;
  }

  lemma RetryStep(b: Bus, u: EventType, i: nat, t: EventType)
    requires BusOk(b)
    ensures Entered(Step(b, RetryPut(u, i)), t) == Entered(b, t)
  {
    hide *;
    if u in b.lanes && i < |b.lanes[u].blocked| && Open(b, u) {
      RetryTaken(b, u, i, t);
    } else {
      RetryRefused(b, u, i);
    }
  }

  lemma RetryRefused(b: Bus, u: EventType, i: nat)
    requires !(u in b.lanes && i < |b.lanes[u].blocked| && Open(b, u))
    ensures Step(b, RetryPut(u, i)) == b
  {
    assert !Enabled(b, RetryPut(u, i));
  }

  lemma RetryTaken(b: Bus, u: EventType, i: nat, t: EventType)
    requires BusOk(b) && u in b.lanes && i < |b.lanes[u].blocked| && Open(b, u)
    ensures Entered(Step(b, RetryPut(u, i)), t) == Entered(b, t)
  {
    hide *;
    var after := Step(b, RetryPut(u, i));
    RetryEnters(b, u, i);
    RetryHolds(b.lanes[u], i, after.lanes[u]);
    EnteredAfter(b, after, u, t);
  }

  lemma StepEnters(b: Bus, a: Action, t: EventType)
    requires BusOk(b)
    ensures Entered(Step(b, a), t) == Entered(b, t) + multiset(PublishedBy(b, a, t))
  {
    hide BusOk, Step, Entered;
    match a {
      case Publish(e) => PublishStep(b, e, t);
      case RetryPut(u, i) => RetryStep(b, u, i, t);
      case _ =>
        OtherActionsKeepEntries(b, a);
        SamePerType(b, Step(b, a), t);
    }
  }

  /** In every run what is published under a type is exactly what that type has accepted or still makes wait,
      each event once. */
  lemma {:induction false} PublishedIsEntered(b: Bus, actions: seq<Action>, t: EventType)
    requires BusOk(b)
    ensures Entered(Run(b, actions), t) == Entered(b, t) + multiset(Published(b, actions, t))
    decreases |actions|
  {
    if actions != [] {
      var a := actions[0];
      StepEnters(b, a, t);
      StepOk(b, a);
      var first, rest := PublishedBy(b, a, t), Published(Step(b, a), actions[1..], t);
      assert Published(b, actions, t) == first + rest;
      assert Run(b, actions) == Run(Step(b, a), actions[1..]);
      hide *;
      PublishedIsEntered(Step(b, a), actions[1..], t);
    }
  }

  // ----- delivery -----

  /** The handler calls of one delivery end as `raised` says. */
  function CallsDone(t: EventType, raised: seq<bool>): seq<Action> {
    seq(|raised|, i requires 0 <= i < |raised| => WorkerCallDone(t, raised[i]))
  }

  function CallsOn(subs: seq<Subscription>, raised: seq<bool>): seq<Call>
    requires |subs| == |raised|
  {
    seq(|subs|, i requires 0 <= i < |subs| => Call(subs[i], raised[i]))
  }

  /** The worker calls the remaining handlers in order, whether they return or raise, and is then back
      waiting with the delivery done. */
  lemma {:induction false} CallsFinish(b: Bus, t: EventType, raised: seq<bool>)
    requires b.stop.Running? && t in b.lanes && b.lanes[t].worker.Delivering?
    requires raised != [] && |raised| + |b.lanes[t].worker.calls| == |b.lanes[t].worker.subs|
    ensures Run(b, CallsDone(t, raised)) == SetLane(b, t, Finished(b.lanes[t], raised))
    decreases |raised|
  {
    var l, w := b.lanes[t], b.lanes[t].worker;
    var next := Step(b, WorkerCallDone(t, raised[0]));
    assert CallsDone(t, raised)[0] == WorkerCallDone(t, raised[0]) && CallsDone(t, raised)[1..] == CallsDone(t, raised[1..]);
    assert Run(b, CallsDone(t, raised)) == Run(next, CallsDone(t, raised[1..]));
    OneCallOn(w.subs, w.calls, raised);
    if |raised| == 1 {
      assert CallsDone(t, raised[1..]) == [];
      assert next == SetLane(b, t, l.(worker := Waiting, finished := l.finished + [Delivery(w.env, w.subs, w.calls + [Call(w.subs[|w.calls|], raised[0])])]));
    } else {
      var onward := l.(worker := w.(calls := w.calls + [Call(w.subs[|w.calls|], raised[0])]));
      assert next == SetLane(b, t, onward);
      CallsFinish(next, t, raised[1..]);
      assert next.lanes[t] == onward && Finished(onward, raised[1..]) == Finished(l, raised);
      LaneSetTwice(b, t, onward, Finished(l, raised));
    }
  }

  /** The lane once the delivery in hand is over. */
  function Finished(l: Lane, raised: seq<bool>): Lane
    requires l.worker.Delivering? && |raised| + |l.worker.calls| == |l.worker.subs|
  {
    var w := l.worker;
    l.(worker := Waiting, finished := l.finished + [Delivery(w.env, w.subs, w.calls + CallsOn(w.subs[|w.calls|..], raised))])
  }

  lemma OneCallOn(subs: seq<Subscription>, calls: seq<Call>, raised: seq<bool>)
    requires raised != [] && |raised| + |calls| == |subs|
    ensures var first := Call(subs[|calls|], raised[0]);
            calls + CallsOn(subs[|calls|..], raised) == (calls + [first]) + CallsOn(subs[|calls| + 1..], raised[1..])
    ensures |raised| == 1 ==> calls + CallsOn(subs[|calls|..], raised) == calls + [Call(subs[|calls|], raised[0])]
  {}

  lemma LaneSetTwice(b: Bus, t: EventType, l: Lane, x: Lane)
    ensures SetLane(SetLane(b, t, l), t, x) == SetLane(b, t, x)
  {
    assert b.lanes[t := l][t := x] == b.lanes[t := x];
  }

  /** The actions by which a waiting worker delivers the head of its queue. */
  function Deliver(t: EventType, raised: seq<bool>): seq<Action> { [WorkerTake(t)] + CallsDone(t, raised) }

  /** A waiting worker can deliver the most urgent envelope of its queue to every subscriber of the moment,
      in order, whichever of them raise, and then waits again. */
  lemma HeadIsDelivered(b: Bus, t: EventType, raised: seq<bool>)
    requires b.stop.Running? && t in b.lanes && b.lanes[t].worker.Waiting? && b.lanes[t].queue != []
    requires |raised| == |b.lanes[t].subs|
    ensures var l := b.lanes[t];
            Run(b, Deliver(t, raised)) ==
            SetLane(b, t, l.(queue := l.queue[1..], finished := l.finished + [Delivery(l.queue[0], l.subs, CallsOn(l.subs, raised))]))
  {
    var l := b.lanes[t];
    var next := Step(b, WorkerTake(t));
    assert Deliver(t, raised)[1..] == CallsDone(t, raised);
    assert Run(b, Deliver(t, raised)) == Run(next, CallsDone(t, raised));
    if l.subs == [] {
      assert CallsDone(t, raised) == [] && CallsOn(l.subs, raised) == [];
      assert l.worker == Waiting;
    } else {
      var taken := l.(queue := l.queue[1..], worker := Delivering(l.queue[0], l.subs, []));
      assert next == SetLane(b, t, taken) && next.lanes[t] == taken;
      CallsFinish(next, t, raised);
      assert [] + CallsOn(l.subs[0..], raised) == CallsOn(l.subs, raised);
      LaneSetTwice(b, t, taken, Finished(taken, raised));
    }
  }

  /** So it empties its queue, in the order of the queue. */
  lemma {:induction false} QueueIsDelivered(b: Bus, t: EventType) returns (actions: seq<Action>)
    requires BusOk(b) && b.stop.Running? && t in b.lanes && b.lanes[t].worker.Waiting?
    ensures var after := Run(b, actions);
      && BusOk(after) && OnlyLane(b, after, t) && t in after.lanes
      && after.lanes[t].queue == [] && after.lanes[t].worker.Waiting? && after.lanes[t].accepted == b.lanes[t].accepted
      && EnvsOf(after.lanes[t].finished) == EnvsOf(b.lanes[t].finished) + b.lanes[t].queue
    decreases |b.lanes[t].queue|
  {
    if b.lanes[t].queue == [] {
      actions := [];
    } else {
      var first, next := HeadGoesOut(b, t);
      hide *;
      var rest := QueueIsDelivered(next, t);
      actions := first + rest;
      RunTwice(b, first, rest);
      OnlyLaneTwice(b, next, Run(next, rest), t);
    }
  }

  lemma HeadGoesOut(b: Bus, t: EventType) returns (actions: seq<Action>, after: Bus)
    requires BusOk(b) && b.stop.Running? && t in b.lanes && b.lanes[t].worker.Waiting? && b.lanes[t].queue != []
    ensures after == Run(b, actions) && BusOk(after) && OnlyLane(b, after, t) && t in after.lanes && after.stop == b.stop
    ensures var l, next := b.lanes[t], after.lanes[t];
      && next.worker.Waiting? && next.accepted == l.accepted && |next.queue| < |l.queue|
      && EnvsOf(next.finished) + next.queue == EnvsOf(l.finished) + l.queue
  {
    var l := b.lanes[t];
    var raised := seq(|l.subs|, _ => false);
    var d := Delivery(l.queue[0], l.subs, CallsOn(l.subs, raised));
    var next := l.(queue := l.queue[1..], finished := l.finished + [d]);
    actions := Deliver(t, raised);
    after := Run(b, actions);
    HeadIsDelivered(b, t, raised);
    hide *;
    EveryRunIsSafe(b, actions);
    SetLaneIsOnly(b, t, next);
    HeadMoves(l, d, next);
    assert after.lanes[t] == next;
  }

  lemma HeadMoves(l: Lane, d: Delivery, next: Lane)
    requires l.queue != [] && d.env == l.queue[0] && next == l.(queue := l.queue[1..], finished := l.finished + [d])
    ensures EnvsOf(next.finished) + next.queue == EnvsOf(l.finished) + l.queue
  {
    EnvsOfSnoc(l.finished, d);
    hide EnvsOf;
    assert l.queue == [l.queue[0]] + l.queue[1..];
    assert EnvsOf(l.finished) + [d.env] + l.queue[1..] == EnvsOf(l.finished) + ([d.env] + l.queue[1..]);
  }

  lemma OnlyLaneTwice(a: Bus, b: Bus, c: Bus, t: EventType)
    requires OnlyLane(a, b, t) && OnlyLane(b, c, t)
    ensures OnlyLane(a, c, t)
  {}

  /** From publish to delivery: an event that finds room, under a type whose worker waits, can be delivered
      to all subscribers of the moment, and the invariant says that each was called once. */
  lemma PublishedCanBeDelivered(b: Bus, e: Envelope) returns (actions: seq<Action>)
    requires BusOk(b) && b.stop.Running? && e.eventType in b.lanes && 0 <= e.priority <= 4
    requires Open(b, e.eventType) && b.lanes[e.eventType].worker.Waiting?
    ensures var t, after := e.eventType, Run(Step(b, Publish(e)), actions);
            BusOk(after) && t in after.lanes && e in EnvsOf(after.lanes[t].finished)
  {
    var t, next := e.eventType, Step(b, Publish(e));
    PublishEnters(b, e);
    StepOk(b, Publish(e));
    QueueHolds(b.lanes[t].queue, e, next.lanes[t].queue);
    hide *;
    actions := QueueIsDelivered(next, t);
  }

  lemma QueueHolds(queue: seq<Envelope>, e: Envelope, next: seq<Envelope>)
    ensures StandsIn(queue, e, next) ==> e in next
  {}

  /** On a started bus the first subscriber of a type gets it a queue and a worker, which soon waits. */
  lemma NewTypeIsServed(b: Bus, t: EventType, sub: Subscription)
    requires BusOk(b) && b.started && b.stop.Running? && t !in b.lanes
    ensures var after := Run(b, [Subscribe(t, sub), WorkerStart(t)]);
      && after.lanes == b.lanes[t := NEW_LANE.(subs := [sub], worker := Waiting)]
      && after.order == b.order + [t] && after.stop.Running? && after.maxsize == b.maxsize
  {
    var next := Step(b, Subscribe(t, sub));
    var begun, waiting := NEW_LANE.(subs := [sub], worker := Fresh), NEW_LANE.(subs := [sub], worker := Waiting);
    hide BusOk, Step, Run;
    FirstSubscriber(b, t, sub);
    WorkerStartWaits(next, t);
    TwoSteps(b, Subscribe(t, sub), WorkerStart(t));
    LaneSetTwiceIn(b.lanes, t, begun, waiting);
  }

  lemma WorkerStartWaits(b: Bus, t: EventType)
    requires b.stop.Running? && t in b.lanes && b.lanes[t].worker.Fresh?
    ensures Step(b, WorkerStart(t)) == SetLane(b, t, b.lanes[t].(worker := Waiting))
  {}

  lemma FirstSubscriber(b: Bus, t: EventType, sub: Subscription)
    requires b.started && b.stop.Running? && t !in b.lanes
    ensures var l := NEW_LANE.(subs := [sub], worker := Fresh);
            Step(b, Subscribe(t, sub)) == b.(lanes := b.lanes[t := l], order := b.order + [t])
  {
    assert NEW_LANE.subs + [sub] == [sub];
  }

  lemma LaneSetTwiceIn(lanes: map<EventType, Lane>, t: EventType, l: Lane, x: Lane)
    ensures lanes[t := l][t := x] == lanes[t := x]
  {}

  lemma TwoSteps(b: Bus, first: Action, second: Action)
    ensures Run(b, [first, second]) == Step(Step(b, first), second)
  {
    var next := Step(b, first);
    assert [first, second][1..] == [second] && [second][1..] == [];
    assert Run(next, [second]) == Run(Step(next, second), []);
    hide Step;
  }

  // ----- subscribing too early -----

  /** No worker serves the type. */
  predicate Unmanned(b: Bus, t: EventType) { t in b.lanes && b.lanes[t].worker.NoWorker? }

  lemma {:induction false} ContinueMansNothing(b: Bus, todo: seq<EventType>, t: EventType)
    requires (forall u | u in todo :: u in b.lanes) && Unmanned(b, t)
    ensures Unmanned(Continue(b, todo), t)
    decreases |todo|
  {
    if todo != [] {
      var l := Drain(b.lanes[todo[0]]);
      if l.drained == [] {
        ContinueMansNothing(b.(lanes := b.lanes[todo[0] := l]), todo[1..], t);
      }
    }
  }

  lemma EndCallMansNothing(b: Bus, raised: bool, t: EventType)
    requires Enabled(b, ShutdownCallDone(raised)) && Unmanned(b, t)
    ensures Unmanned(Step(b, ShutdownCallDone(raised)), t)
  {
    if |b.stop.calls| + 1 == |b.stop.subs| {
      EndsAsServed(b, raised);
      var next := Served(b, b.stop.calls + [Call(b.stop.subs[|b.stop.calls|], raised)]);
      assert next.lanes.Keys == b.lanes.Keys && Unmanned(next, t);
      hide Step, Served;
      if next.lanes[b.stop.at].drained == [] && !b.stop.grew {
        ContinueMansNothing(next, b.stop.todo, t);
      }
    }
  }

  lemma StepMansNothing(b: Bus, a: Action, t: EventType)
    requires Unmanned(b, t) && !(a.Subscribe? && a.t == t)
    ensures Unmanned(Step(b, a), t)
  {
    if Enabled(b, a) {
      match a {
        case BeginShutdown => ContinueMansNothing(b, b.order, t);
        case ShutdownCallDone(raised) => EndCallMansNothing(b, raised, t);
        case _ => hide Continue, EndShutdownCall;
      }
    }
  }

  /** A type without a worker gets one by subscribing to it only. */
  lemma {:induction false} StaysUnmanned(b: Bus, actions: seq<Action>, t: EventType)
    requires Unmanned(b, t) && forall a | a in actions :: !(a.Subscribe? && a.t == t)
    ensures Unmanned(Run(b, actions), t)
    decreases |actions|
  {
    if actions != [] {
      StepMansNothing(b, actions[0], t);
      hide Step;
      StaysUnmanned(Step(b, actions[0]), actions[1..], t);
    }
  }

  /** Subscribing before the start: whatever comes then, the start included, no worker serves the type until
      somebody subscribes to it again. */
  lemma EarlySubscriberIsNotServed(maxsize: int, t: EventType, sub: Subscription, actions: seq<Action>)
    requires forall a | a in actions :: !(a.Subscribe? && a.t == t)
    ensures Unmanned(Run(NewBus(maxsize), [Subscribe(t, sub)] + actions), t)
  {
    var first := Subscribe(t, sub);
    assert Unmanned(Step(NewBus(maxsize), first), t);
    assert ([first] + actions)[1..] == actions;
    hide Step;
    StaysUnmanned(Step(NewBus(maxsize), first), actions, t);
  }
}
