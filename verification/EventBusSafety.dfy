/** What holds in every run of the event bus. */
module EventBusSafety {
  import opened Sequences
  import opened PriorityQueue
  import opened EventBus

  function Held(w: Worker): seq<Envelope> { if w.Delivering? then [w.env] else [] }

  /** Every accepted envelope is in exactly one place: delivered, in its worker's hands, queued,
      in the shutdown's hands, or lost with a cancelled worker. */
  ghost predicate Conserved(l: Lane) {
    multiset(l.accepted) ==
    multiset(EnvsOf(l.finished)) + multiset(Held(l.worker)) + multiset(l.queue) + multiset(l.drained) + multiset(l.lost)
  }

  /** The calls so far went to the first subscribers of the list, each once and in order. */
  ghost predicate CallsFollow(subs: seq<Subscription>, calls: seq<Call>) {
    Distinct(subs) && |calls| <= |subs| && SubsOf(calls) == subs[..|calls|]
  }

  /** Every subscriber of the moment the delivery began was called exactly once. */
  ghost predicate DeliveryOk(d: Delivery) {
    Distinct(d.subs) && SubsOf(d.calls) == d.subs
  }

  ghost predicate CallsOk(l: Lane) {
    && Distinct(l.subs)
    && (forall d | d in l.finished :: DeliveryOk(d))
    && (l.worker.Delivering? ==> CallsFollow(l.worker.subs, l.worker.calls) && |l.worker.calls| < |l.worker.subs|)
  }

  ghost predicate QueueOk(l: Lane, maxsize: int) {
    SortedByPriority(l.queue) && (maxsize > 0 ==> |l.queue| <= maxsize)
  }

  ghost predicate LaneOk(l: Lane, maxsize: int) {
    Conserved(l) && QueueOk(l, maxsize) && CallsOk(l)
  }

  function Only(p: int, s: seq<Envelope>): seq<Envelope> {
    if s == [] then []
    else if s[0].priority == p then [s[0]] + Only(p, s[1..])
    else Only(p, s[1..])
  }

  /** Served, being served and waiting, in this order. */
  function Line(l: Lane): seq<Envelope> {
    EnvsOf(l.finished) + Held(l.worker) + l.queue
  }

  /** Envelopes of equal priority are served in the order in which they were accepted. */
  ghost predicate Fifo(l: Lane) {
    l.drained == [] && l.lost == [] && forall p :: Only(p, Line(l)) == Only(p, l.accepted)
  }

  /** What the stage of the shutdown says about one lane. */
  ghost predicate LaneStopOk(stop: Shutdown, t: EventType, l: Lane) {
    match stop
    case Running => Fifo(l)
    case Draining(_, at, subs, calls, _) =>
      if t == at then l.drained != [] && CallsFollow(subs, calls) && |calls| < |subs| else l.drained == []
    case _ => l.drained == []
  }

  /** The event types of `s` are distinct and have lanes. */
  ghost predicate Lists(s: seq<EventType>, types: set<EventType>) {
    Distinct(s) && forall t | t in s :: t in types
  }

  ghost predicate OrderOk(b: Bus) {
    && Lists(b.order, b.lanes.Keys) && (forall t | t in b.lanes :: t in b.order)
    && (b.stop.Draining? ==>
          b.stop.at in b.lanes && b.stop.at !in b.stop.todo && Lists(b.stop.todo, b.lanes.Keys))
  }

  ghost predicate LanesOk(lanes: map<EventType, Lane>, maxsize: int) {
    forall t | t in lanes :: LaneOk(lanes[t], maxsize)
  }

  ghost predicate LanesStopOk(stop: Shutdown, lanes: map<EventType, Lane>) {
    forall t | t in lanes :: LaneStopOk(stop, t, lanes[t])
  }

  ghost predicate BusOk(b: Bus) {
    OrderOk(b) && LanesOk(b.lanes, b.maxsize) && LanesStopOk(b.stop, b.lanes)
  }

  // ----- one lane at a time -----

  lemma {:induction false} InsertSorted(s: seq<Envelope>, e: Envelope)
    requires SortedByPriority(s)
    ensures SortedByPriority(StableInsert(s, e)) && |StableInsert(s, e)| == |s| + 1
    ensures forall x | x in StableInsert(s, e) :: x == e || x in s
  {
    if s != [] && s[0].priority <= e.priority {
      InsertSorted(s[1..], e);
      var t := StableInsert(s[1..], e);
      assert forall i | 0 < i < |s| :: s[0].priority <= s[i].priority;
      assert forall i | 0 <= i < |t| :: t[i] in t;
    }
  }

  lemma {:induction false} InsertAddsOne(s: seq<Envelope>, e: Envelope)
    ensures multiset(StableInsert(s, e)) == multiset(s) + multiset{e}
  {
    if s != [] && s[0].priority <= e.priority {
      InsertAddsOne(s[1..], e);
      assert s == [s[0]] + s[1..];
    }
  }

  lemma {:induction false} OnlyAppend(p: int, a: seq<Envelope>, b: seq<Envelope>)
    ensures Only(p, a + b) == Only(p, a) + Only(p, b)
  {
    if a == [] {
      assert a + b == b;
    } else {
      OnlyAppend(p, a[1..], b);
      assert (a + b)[1..] == a[1..] + b;
      Regroup([a[0]], Only(p, a[1..]), Only(p, b));
    }
  }

  /** A stable insertion puts the envelope behind all others of its priority. */
  lemma {:induction false} OnlyInsert(p: int, s: seq<Envelope>, e: Envelope)
    requires SortedByPriority(s)
    ensures Only(p, StableInsert(s, e)) == Only(p, s) + Only(p, [e])
  {
    if s == [] || e.priority < s[0].priority {
      if s != [] {
        NoneOfHigher(p, s, e);
      }
      OnlyAppend(p, [e], s);
    } else {
      OnlyInsert(p, s[1..], e);
      OnlyAppend(p, [s[0]], StableInsert(s[1..], e));
      OnlyAppend(p, [s[0]], s[1..]);
      assert s == [s[0]] + s[1..];
      Regroup(Only(p, [s[0]]), Only(p, s[1..]), Only(p, [e]));
    }
  }

  lemma {:induction false} NoneOfHigher(p: int, s: seq<Envelope>, e: Envelope)
    requires SortedByPriority(s) && s != [] && e.priority < s[0].priority
    ensures p == e.priority ==> Only(p, s) == []
  {
    if |s| > 1 {
      assert s[0].priority <= s[1].priority;
      NoneOfHigher(p, s[1..], e);
    }
  }

  lemma AcceptOk(l: Lane, e: Envelope, maxsize: int)
    requires LaneOk(l, maxsize) && HasRoom(maxsize, l)
    ensures LaneOk(Accept(l, e), maxsize)
  {
    InsertSorted(l.queue, e);
    InsertAddsOne(l.queue, e);
  }

  lemma AcceptFifo(l: Lane, e: Envelope)
    requires Fifo(l) && SortedByPriority(l.queue)
    ensures Fifo(Accept(l, e))
  {
    var next, front := Accept(l, e), EnvsOf(l.finished) + Held(l.worker);
    forall p ensures Only(p, Line(next)) == Only(p, next.accepted) {
      OnlyInsert(p, l.queue, e);
      OnlyAppend(p, front, l.queue);
      OnlyAppend(p, front, next.queue);
      OnlyAppend(p, l.accepted, [e]);
    }
  }

  lemma EnvsOfSnoc(finished: seq<Delivery>, d: Delivery)
    ensures EnvsOf(finished + [d]) == EnvsOf(finished) + [d.env]
  {
  }

  /** The head of the queue is served next: the line does not change. */
  lemma TakeLine(l: Lane, running: bool)
    requires l.queue != [] && l.worker.Waiting?
    ensures Line(Take(l, running)) == Line(l)
  {}

  lemma TakeOk(l: Lane, running: bool, maxsize: int)
    requires LaneOk(l, maxsize) && l.queue != [] && l.worker.Waiting?
    ensures LaneOk(Take(l, running), maxsize)
  {
    assert SubsOf([]) == [];
    assert Conserved(Take(l, running)) by {
      TakeConserves(l, running);
    }
  }

  lemma TakeConserves(l: Lane, running: bool)
    requires Conserved(l) && l.queue != [] && l.worker.Waiting?
    ensures Conserved(Take(l, running))
  {
    EnvsOfSnoc(l.finished, Delivery(l.queue[0], [], []));
    assert l.queue == [l.queue[0]] + l.queue[1..];
  }

  lemma CallsGrow(subs: seq<Subscription>, calls: seq<Call>, raised: bool)
    requires CallsFollow(subs, calls) && |calls| < |subs|
    ensures CallsFollow(subs, calls + [Call(subs[|calls|], raised)])
    ensures |calls| + 1 == |subs| ==> SubsOf(calls + [Call(subs[|calls|], raised)]) == subs
  {}

  lemma EndCallOk(l: Lane, running: bool, raised: bool, maxsize: int)
    requires LaneOk(l, maxsize) && l.worker.Delivering? && |l.worker.calls| < |l.worker.subs|
    ensures LaneOk(EndCall(l, running, raised), maxsize)
    ensures Line(EndCall(l, running, raised)) == Line(l)
  {
    var w := l.worker;
    CallsGrow(w.subs, w.calls, raised);
    EnvsOfSnoc(l.finished, Delivery(w.env, w.subs, w.calls + [Call(w.subs[|w.calls|], raised)]));
    hide CallsFollow, SubsOf, EnvsOf;
  }

  lemma CancelledOk(l: Lane, maxsize: int)
    requires LaneOk(l, maxsize)
    ensures LaneOk(Cancelled(l), maxsize)
  {
  }

  lemma SkipOk(l: Lane, maxsize: int)
    requires LaneOk(l, maxsize)
    ensures LaneOk(Skip(l), maxsize)
  {
    assert SubsOf([]) == [];
    assert forall d | d in Undelivered(l.drained) :: DeliveryOk(d);
    if l.subs == [] {
      assert EnvsOf(l.finished + Undelivered(l.drained)) == EnvsOf(l.finished) + l.drained;
    }
  }

  lemma DrainOk(l: Lane, maxsize: int)
    requires LaneOk(l, maxsize) && l.drained == []
    ensures LaneOk(Drain(l), maxsize)
  {
    SkipOk(l.(queue := [], drained := l.queue), maxsize);
  }

  lemma EndDrainedConserves(l: Lane, subs: seq<Subscription>, calls: seq<Call>)
    requires Conserved(l) && l.drained != []
    ensures Conserved(EndDrained(l, subs, calls))
  {
    EnvsOfSnoc(l.finished, Delivery(l.drained[0], subs, calls));
    assert l.drained == [l.drained[0]] + l.drained[1..];
    hide EnvsOf;
  }

  lemma EndDrainedOk(l: Lane, subs: seq<Subscription>, calls: seq<Call>, maxsize: int)
    requires LaneOk(l, maxsize) && l.drained != [] && SubsOf(calls) == subs && Distinct(subs)
    ensures LaneOk(EndDrained(l, subs, calls), maxsize)
  {
    EndDrainedConserves(l, subs, calls);
    hide Conserved, SubsOf, CallsFollow, Distinct;
  }

  lemma {:induction false} WithoutIsDistinct(s: seq<Subscription>, x: Subscription)
    requires Distinct(s)
    ensures Distinct(Without(s, x)) && forall y | y in Without(s, x) :: y in s
  {
    if s != [] {
      WithoutIsDistinct(s[1..], x);
      assert s == [s[0]] + s[1..];
      assert forall i | 0 < i < |s| :: s[i] != s[0];
      assert s[0] !in s[1..];
    }
  }

  // ----- the whole bus -----

  /** A change of one lane that keeps its invariants keeps those of the bus. */
  lemma SetLaneOk(b: Bus, t: EventType, l: Lane)
    requires BusOk(b) && t in b.lanes && LaneOk(l, b.maxsize) && LaneStopOk(b.stop, t, l)
    ensures BusOk(SetLane(b, t, l))
  {
    hide LaneOk, LaneStopOk;
  }

  /** Outside of a shutdown's own steps a lane keeps what it has to do with the shutdown. */
  lemma SameStop(stop: Shutdown, t: EventType, l: Lane, next: Lane)
    requires LaneStopOk(stop, t, l)
    requires next.drained == l.drained
    requires stop.Running? ==> next.lost == l.lost && Line(next) == Line(l) && next.accepted == l.accepted
    ensures LaneStopOk(stop, t, next)
  {
  }

  /** No lane is in the shutdown's hands. */
  ghost predicate NothingDrained(lanes: map<EventType, Lane>) {
    forall t | t in lanes :: lanes[t].drained == []
  }

  lemma CancelOk(b: Bus)
    requires OrderOk(b) && LanesOk(b.lanes, b.maxsize) && NothingDrained(b.lanes)
    ensures BusOk(Cancel(b))
  {
    forall t | t in b.lanes ensures LaneOk(Cancelled(b.lanes[t]), b.maxsize) {
      CancelledOk(b.lanes[t], b.maxsize);
    }
  }

  lemma {:induction false} ContinueOk(b: Bus, todo: seq<EventType>)
    requires OrderOk(b) && LanesOk(b.lanes, b.maxsize) && NothingDrained(b.lanes)
    requires Lists(todo, b.lanes.Keys)
    ensures BusOk(Continue(b, todo))
    decreases |todo|
  {
    hide LaneOk;
    if todo == [] {
      CancelOk(b);
    } else {
      var t := todo[0];
      var l := Drain(b.lanes[t]);
      var next := b.(lanes := b.lanes[t := l]);
      DrainOk(b.lanes[t], b.maxsize);
      assert next.lanes.Keys == b.lanes.Keys;
      assert Lists(todo[1..], b.lanes.Keys) && t !in todo[1..];
      if l.drained != [] {
        ToDraining(next, t, todo[1..], false);
      } else {
        ContinueOk(next, todo[1..]);
      }
    }
  }

  lemma NoCallsYet(subs: seq<Subscription>)
    requires Distinct(subs)
    ensures CallsFollow(subs, [])
  {}

  lemma ToDraining(b: Bus, t: EventType, todo: seq<EventType>, grew: bool)
    requires OrderOk(b) && LanesOk(b.lanes, b.maxsize)
    requires t in b.lanes && t !in todo && Lists(todo, b.lanes.Keys)
    requires forall x | x in b.lanes && x != t :: b.lanes[x].drained == []
    requires b.lanes[t].drained != [] && b.lanes[t].subs != []
    ensures BusOk(b.(stop := Draining(todo, t, b.lanes[t].subs, [], grew)))
  {
    NoCallsYet(b.lanes[t].subs);
    forall x | x in b.lanes ensures LaneStopOk(Draining(todo, t, b.lanes[t].subs, [], grew), x, b.lanes[x]) {
    }
  }

  lemma ToFailed(b: Bus)
    requires OrderOk(b) && LanesOk(b.lanes, b.maxsize) && NothingDrained(b.lanes)
    ensures BusOk(b.(stop := Failed))
  {
    hide LaneOk;
  }

  lemma MoreCallsOk(b: Bus, calls: seq<Call>)
    requires BusOk(b) && b.stop.Draining? && CallsFollow(b.stop.subs, calls) && |calls| < |b.stop.subs|
    ensures BusOk(b.(stop := b.stop.(calls := calls)))
  {
    hide LaneOk;
    forall x | x in b.lanes ensures LaneStopOk(b.stop.(calls := calls), x, b.lanes[x]) {
      assert LaneStopOk(b.stop, x, b.lanes[x]);
    }
  }

  /** The bus after the delivery of a drained envelope, before the shutdown goes on. */
  function Served(b: Bus, calls: seq<Call>): Bus
    requires b.stop.Draining? && b.stop.at in b.lanes && b.lanes[b.stop.at].drained != []
  {
    b.(lanes := b.lanes[b.stop.at := Skip(EndDrained(b.lanes[b.stop.at], b.stop.subs, calls))])
  }

  lemma ServedOk(b: Bus, calls: seq<Call>)
    requires BusOk(b) && b.stop.Draining? && b.lanes[b.stop.at].drained != []
    requires SubsOf(calls) == b.stop.subs && Distinct(b.stop.subs)
    ensures OrderOk(Served(b, calls)) && LanesOk(Served(b, calls).lanes, b.maxsize)
    ensures Served(b, calls).lanes.Keys == b.lanes.Keys
    ensures forall x | x in b.lanes && x != b.stop.at :: Served(b, calls).lanes[x].drained == []
    ensures Served(b, calls).lanes[b.stop.at].drained != [] ==> Served(b, calls).lanes[b.stop.at].subs != []
  {
    var l := b.lanes[b.stop.at];
    var served := EndDrained(l, b.stop.subs, calls);
    OthersUndrained(b);
    assert LaneOk(l, b.maxsize);
    EndDrainedOk(l, b.stop.subs, calls, b.maxsize);
    SkipOk(served, b.maxsize);
    assert Skip(served).drained != [] ==> Skip(served).subs != [];
    LanesStayOk(b, b.stop.at, Skip(served));
    assert Served(b, calls) == SetLane(b, b.stop.at, Skip(served));
    hide *;
  }

  lemma LanesStayOk(b: Bus, t: EventType, l: Lane)
    requires OrderOk(b) && LanesOk(b.lanes, b.maxsize) && t in b.lanes && LaneOk(l, b.maxsize)
    ensures SetLane(b, t, l).lanes.Keys == b.lanes.Keys
    ensures OrderOk(SetLane(b, t, l)) && LanesOk(SetLane(b, t, l).lanes, b.maxsize)
  {
    hide LaneOk;
    assert SetLane(b, t, l).lanes.Keys == b.lanes.Keys;
  }

  lemma EndShutdownCallOk(b: Bus, raised: bool)
    requires BusOk(b) && Enabled(b, ShutdownCallDone(raised))
    ensures BusOk(Step(b, ShutdownCallDone(raised)))
  {
    var at, subs := b.stop.at, b.stop.subs;
    CallIsEnabled(b, raised);
    var calls := b.stop.calls + [Call(subs[|b.stop.calls|], raised)];
    assert LaneStopOk(b.stop, at, b.lanes[at]) && OrderOk(b);
    CallsGrow(subs, b.stop.calls, raised);
    hide BusOk, LanesOk, LaneStopOk, Step, Enabled, CallsFollow;
    if |calls| < |subs| {
      MoreCallsFollow(b, raised);
      MoreCallsOk(b, calls);
    } else {
      ServedOk(b, calls);
      var next := Served(b, calls);
      EndsAsServed(b, raised);
      hide Served;
      if next.lanes[at].drained != [] {
        ToDraining(next, at, b.stop.todo, b.stop.grew);
      } else if b.stop.grew {
        ToFailed(next);
      } else {
        ContinueOk(next, b.stop.todo);
      }
    }
  }

  lemma CallIsEnabled(b: Bus, raised: bool)
    requires BusOk(b) && b.stop.Draining?
    ensures Enabled(b, ShutdownCallDone(raised))
    ensures b.stop.at in b.lanes && (forall t | t in b.stop.todo :: t in b.lanes)
    ensures b.lanes[b.stop.at].drained != [] && |b.stop.calls| < |b.stop.subs|
  {
    assert LaneStopOk(b.stop, b.stop.at, b.lanes[b.stop.at]) && OrderOk(b);
    hide LanesOk, LanesStopOk;
  }

  lemma MoreCallsFollow(b: Bus, raised: bool)
    requires Enabled(b, ShutdownCallDone(raised)) && |b.stop.calls| + 1 < |b.stop.subs|
    ensures Step(b, ShutdownCallDone(raised)) ==
            b.(stop := b.stop.(calls := b.stop.calls + [Call(b.stop.subs[|b.stop.calls|], raised)]))
  {
    hide Continue, Skip, EndDrained;
  }

  lemma EndsAsServed(b: Bus, raised: bool)
    requires Enabled(b, ShutdownCallDone(raised)) && |b.stop.calls| + 1 == |b.stop.subs|
    requires b.stop.at in b.lanes && forall t | t in b.stop.todo :: t in b.lanes
    ensures var next := Served(b, b.stop.calls + [Call(b.stop.subs[|b.stop.calls|], raised)]);
            Step(b, ShutdownCallDone(raised)) ==
            if next.lanes[b.stop.at].drained != [] then next.(stop := b.stop.(subs := next.lanes[b.stop.at].subs, calls := []))
            else if b.stop.grew then next.(stop := Failed)
            else Continue(next, b.stop.todo)
  {
    hide Continue, Skip, EndDrained;
  }

  lemma OthersUndrained(b: Bus)
    requires BusOk(b) && b.stop.Draining?
    ensures forall t | t in b.lanes && t != b.stop.at :: b.lanes[t].drained == []
  {
    forall t | t in b.lanes && t != b.stop.at ensures b.lanes[t].drained == [] {
      assert LaneStopOk(b.stop, t, b.lanes[t]);
    }
  }

  function Subscribed(b: Bus, t: EventType, sub: Subscription): Lane {
    var l := if t in b.lanes then b.lanes[t] else NEW_LANE;
    l.(subs := l.subs + [sub], worker := if l.worker.NoWorker? && b.started then Fresh else l.worker)
  }

  lemma SubscribedOk(b: Bus, t: EventType, sub: Subscription)
    requires BusOk(b) && Enabled(b, Subscribe(t, sub))
    ensures LaneOk(Subscribed(b, t, sub), b.maxsize)
    ensures t in b.lanes ==> LaneStopOk(b.stop, t, Subscribed(b, t, sub))
    ensures t !in b.lanes ==> Subscribed(b, t, sub).drained == [] && (b.stop.Running? ==> Fifo(Subscribed(b, t, sub)))
  {
    var l := if t in b.lanes then b.lanes[t] else NEW_LANE;
    if t in b.lanes {
      assert LaneOk(b.lanes[t], b.maxsize) && LaneStopOk(b.stop, t, b.lanes[t]);
    } else {
      NewLaneOk(b.maxsize);
    }
    MoreSubscribersOk(l, sub, Subscribed(b, t, sub).worker, b.maxsize);
    if t in b.lanes {
      SameStop(b.stop, t, l, Subscribed(b, t, sub));
    }
    hide LaneOk, LaneStopOk, BusOk, Line;
  }

  lemma NewLaneOk(maxsize: int)
    ensures LaneOk(NEW_LANE, maxsize) && Fifo(NEW_LANE)
  {}

  lemma MoreSubscribersOk(l: Lane, sub: Subscription, w: Worker, maxsize: int)
    requires LaneOk(l, maxsize) && sub !in l.subs && (w == l.worker || (l.worker.NoWorker? && w.Fresh?))
    ensures var next := l.(subs := l.subs + [sub], worker := w);
            LaneOk(next, maxsize) && Line(next) == Line(l) && (Fifo(l) ==> Fifo(next))
  {
    assert Distinct(l.subs + [sub]);
    hide CallsFollow, SortedByPriority, DeliveryOk, EnvsOf, Distinct;
  }

  lemma NewTypeOk(b: Bus, t: EventType, sub: Subscription)
    requires BusOk(b) && t !in b.lanes
    ensures BusOk(DoSubscribe(b, t, sub))
  {
    var l, next := Subscribed(b, t, sub), DoSubscribe(b, t, sub);
    SubscribedOk(b, t, sub);
    NewOrderOk(b, t);
    hide LaneOk, Fifo, CallsFollow, Lists, Subscribed, BusOk;
    assert next.lanes == b.lanes[t := l] && next.lanes.Keys == b.lanes.Keys + {t};
    assert OrderOk(next);
    OneMoreLane(b, t, l, next.stop);
  }

  lemma OneMoreLane(b: Bus, t: EventType, l: Lane, stop: Shutdown)
    requires BusOk(b) && t !in b.lanes && LaneOk(l, b.maxsize) && l.drained == [] && (stop.Running? ==> Fifo(l))
    requires stop == if b.stop.Draining? then b.stop.(grew := true) else b.stop
    ensures LanesOk(b.lanes[t := l], b.maxsize) && LanesStopOk(stop, b.lanes[t := l])
  {
    hide LaneOk, Fifo, CallsFollow, Lists;
    assert b.stop.Draining? ==> t != b.stop.at;
    var lanes := b.lanes[t := l];
    forall x | x in lanes ensures LaneStopOk(stop, x, lanes[x]) {
      if x != t {
        assert LaneStopOk(b.stop, x, b.lanes[x]);
      }
    }
  }

  lemma SubscribeOk(b: Bus, t: EventType, sub: Subscription)
    requires BusOk(b) && Enabled(b, Subscribe(t, sub))
    ensures BusOk(Step(b, Subscribe(t, sub)))
  {
    if t in b.lanes {
      SubscribedOk(b, t, sub);
      assert Step(b, Subscribe(t, sub)) == SetLane(b, t, Subscribed(b, t, sub));
      hide *;
      SetLaneOk(b, t, Subscribed(b, t, sub));
    } else {
      NewTypeOk(b, t, sub);
    }
  }

  lemma NewOrderOk(b: Bus, t: EventType)
    requires OrderOk(b) && t !in b.lanes
    ensures Lists(b.order + [t], b.lanes.Keys + {t}) && forall x | x in b.lanes.Keys + {t} :: x in b.order + [t]
    ensures b.stop.Draining? ==> Lists(b.stop.todo, b.lanes.Keys + {t})
  {}

  lemma UnsubscribeOk(b: Bus, t: EventType, sub: Subscription)
    requires BusOk(b) && Enabled(b, Unsubscribe(t, sub))
    ensures BusOk(Step(b, Unsubscribe(t, sub)))
  {
    var next := b.lanes[t].(subs := Without(b.lanes[t].subs, sub));
    WithoutIsDistinct(b.lanes[t].subs, sub);
    SameStop(b.stop, t, b.lanes[t], next);
    SetLaneOk(b, t, next);
  }

  lemma PublishOk(b: Bus, e: Envelope)
    requires BusOk(b) && Enabled(b, Publish(e))
    ensures BusOk(Step(b, Publish(e)))
  {
    var l := b.lanes[e.eventType];
    if HasRoom(b.maxsize, l) {
      AcceptOk(l, e, b.maxsize);
      AcceptFifo(l, e);
      SetLaneOk(b, e.eventType, Accept(l, e));
    } else {
      SameStop(b.stop, e.eventType, l, l.(blocked := l.blocked + [e]));
      SetLaneOk(b, e.eventType, l.(blocked := l.blocked + [e]));
    }
  }

  lemma RetryOk(b: Bus, t: EventType, i: nat)
    requires BusOk(b) && Enabled(b, RetryPut(t, i))
    ensures BusOk(Step(b, RetryPut(t, i)))
  {
    var l := b.lanes[t];
    var accepted := Accept(l, l.blocked[i]);
    AcceptOk(l, l.blocked[i], b.maxsize);
    if b.stop.Running? {
      AcceptFifo(l, l.blocked[i]);
    }
    var next := accepted.(blocked := l.blocked[..i] + l.blocked[i + 1..]);
    assert LaneOk(next, b.maxsize);
    SameStop(b.stop, t, accepted, next);
    hide *;
    SetLaneOk(b, t, next);
  }

  lemma WorkerStartOk(b: Bus, t: EventType)
    requires BusOk(b) && Enabled(b, WorkerStart(t))
    ensures BusOk(Step(b, WorkerStart(t)))
  {
    var next := b.lanes[t].(worker := LoopHead(b.stop.Running?));
    SameStop(b.stop, t, b.lanes[t], next);
    SetLaneOk(b, t, next);
  }

  lemma WorkerTakeOk(b: Bus, t: EventType)
    requires BusOk(b) && Enabled(b, WorkerTake(t))
    ensures BusOk(Step(b, WorkerTake(t)))
  {
    var next := Take(b.lanes[t], b.stop.Running?);
    TakeOk(b.lanes[t], b.stop.Running?, b.maxsize);
    TakeLine(b.lanes[t], b.stop.Running?);
    SameStop(b.stop, t, b.lanes[t], next);
    SetLaneOk(b, t, next);
  }

  lemma WorkerCallDoneOk(b: Bus, t: EventType, raised: bool)
    requires BusOk(b) && Enabled(b, WorkerCallDone(t, raised))
    ensures BusOk(Step(b, WorkerCallDone(t, raised)))
  {
    var next := EndCall(b.lanes[t], b.stop.Running?, raised);
    EndCallOk(b.lanes[t], b.stop.Running?, raised, b.maxsize);
    SameStop(b.stop, t, b.lanes[t], next);
    SetLaneOk(b, t, next);
  }

  lemma BeginShutdownOk(b: Bus)
    requires BusOk(b) && Enabled(b, BeginShutdown)
    ensures BusOk(Step(b, BeginShutdown))
  {
    ContinueOk(b, b.order);
  }

  /** Every action keeps the invariant. */
  lemma StepOk(b: Bus, a: Action)
    requires BusOk(b)
    ensures BusOk(Step(b, a))
  {
    if Enabled(b, a) {
      match a {
        case Start =>
        case Subscribe(t, sub) => SubscribeOk(b, t, sub);
        case Unsubscribe(t, sub) => UnsubscribeOk(b, t, sub);
        case Publish(e) => PublishOk(b, e);
        case RetryPut(t, i) => RetryOk(b, t, i);
        case WorkerStart(t) => WorkerStartOk(b, t);
        case WorkerTake(t) => WorkerTakeOk(b, t);
        case WorkerCallDone(t, raised) => WorkerCallDoneOk(b, t, raised);
        case BeginShutdown => BeginShutdownOk(b);
        case ShutdownCallDone(raised) => EndShutdownCallOk(b, raised);
      }
    }
  }

  /** In every run: each accepted envelope is in exactly one place, each finished delivery called
      each subscriber of its moment exactly once and in order whether or not handlers raised, the
      queues keep within their bound, and until the shutdown begins envelopes of one type and
      priority are served in the order in which they were accepted. */
  lemma {:induction false} EveryRunIsSafe(b: Bus, actions: seq<Action>)
    requires BusOk(b)
    ensures BusOk(Run(b, actions))
    decreases actions
  {
    if actions != [] {
      StepOk(b, actions[0]);
      EveryRunIsSafe(Step(b, actions[0]), actions[1..]);
    }
  }

  lemma NewBusIsOk(maxsize: int)
    ensures BusOk(NewBus(maxsize))
  {
  }
}
