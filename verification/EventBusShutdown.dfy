/** What a graceful shutdown guarantees, and exactly when. */
module EventBusShutdown {
  import opened Sequences
  import opened PriorityQueue
  import opened EventBus
  import opened EventBusSafety

  /** No publisher waits for room and no worker is in the middle of a delivery. */
  ghost predicate Calm(b: Bus) {
    forall t | t in b.lanes :: b.lanes[t].blocked == [] && !b.lanes[t].worker.Delivering?
  }

  /** Delivering what is queued here takes handler calls. */
  predicate Busy(l: Lane) { l.queue != [] && l.subs != [] }

  /** While the shutdown is still delivering the envelopes of a busy event type, no worker of a later one
      can take an envelope. */
  ghost predicate NoSteal(b: Bus) {
    forall i, j | 0 <= i < j < |b.order| && b.order[i] in b.lanes && b.order[j] in b.lanes
      && Busy(b.lanes[b.order[i]]) && b.lanes[b.order[j]].queue != [] :: !b.lanes[b.order[j]].worker.Waiting?
  }

  /** Nothing accepted is left behind: the envelopes accepted, before the shutdown or since, are exactly
      those delivered, and each delivery made since went to all subscribers of its moment, each called
      once. */
  ghost predicate LaneDelivered(before: Lane, after: Lane) {
    && before.accepted <= after.accepted
    && multiset(EnvsOf(after.finished)) == multiset(after.accepted)
    && before.finished <= after.finished
    && (forall i | |before.finished| <= i < |after.finished| :: DeliveryOk(after.finished[i]))
  }

  ghost predicate AllDelivered(before: Bus, after: Bus) {
    forall t | t in before.lanes :: t in after.lanes && LaneDelivered(before.lanes[t], after.lanes[t])
  }

  // ----- a shutdown without stealing loses nothing -----

  function Todo(stop: Shutdown): seq<EventType> { if stop.Draining? then stop.todo else [] }

  /** What holds of each lane while such a shutdown runs. */
  ghost predicate LaneQuiet(before: Lane, l: Lane, waiting: bool) {
    && l.blocked == [] && l.lost == [] && !l.worker.Delivering?
    && l.accepted == before.accepted && before.finished <= l.finished
    && (!waiting ==> l.queue == [])
    && (l.queue != [] ==> !l.worker.Waiting?)
  }

  /** A lane the shutdown has not come to yet, before it knows whether a worker may steal. */
  ghost predicate LaneUndrained(before: Lane, l: Lane) {
    && l.drained == [] && l.blocked == [] && l.lost == [] && !l.worker.Delivering?
    && l.accepted == before.accepted && before.finished <= l.finished
  }

  /** The shutdown has only lanes from before to do, and all of those are quiet. */
  ghost predicate Quiet(before: Bus, b: Bus) {
    && (b.stop.Draining? || b.stop.Closed?) && before.lanes.Keys <= b.lanes.Keys
    && (forall t | t in Todo(b.stop) :: t in before.lanes)
    && (b.stop.Draining? ==> b.stop.at in before.lanes)
    && forall t | t in before.lanes :: LaneQuiet(before.lanes[t], b.lanes[t], t in Todo(b.stop))
  }

  lemma DrainedIsQuiet(before: Lane, l: Lane)
    requires LaneUndrained(before, l)
    ensures LaneQuiet(before, Drain(l), false)
    ensures Drain(l).drained != [] ==> Busy(l)
  {}

  lemma UndrainedIsQuiet(before: Lane, l: Lane)
    requires LaneUndrained(before, l) && (l.queue != [] ==> !l.worker.Waiting?)
    ensures LaneQuiet(before, l, true)
  {}

  lemma CancelledIsQuiet(before: Lane, l: Lane)
    requires LaneQuiet(before, l, false)
    ensures LaneQuiet(before, Cancelled(l), false)
  {}

  lemma CancelIsQuiet(before: Bus, b: Bus)
    requires before.lanes.Keys <= b.lanes.Keys
    requires forall t | t in before.lanes :: LaneQuiet(before.lanes[t], b.lanes[t], false)
    ensures Quiet(before, Cancel(b))
  {
    hide LaneQuiet;
    forall t | t in before.lanes ensures LaneQuiet(before.lanes[t], Cancelled(b.lanes[t]), false) {
      CancelledIsQuiet(before.lanes[t], b.lanes[t]);
    }
  }

  /** What the walk needs of the lanes still to do. */
  ghost predicate ReadyToWalk(before: Bus, b: Bus, todo: seq<EventType>) {
    && before.lanes.Keys <= b.lanes.Keys && Lists(todo, before.lanes.Keys)
    && (forall t | t in before.lanes && t !in todo :: LaneQuiet(before.lanes[t], b.lanes[t], false))
    && (forall t | t in todo :: LaneUndrained(before.lanes[t], b.lanes[t]))
    && (forall i, j | 0 <= i < j < |todo| && Busy(b.lanes[todo[i]]) && b.lanes[todo[j]].queue != [] ::
          !b.lanes[todo[j]].worker.Waiting?)
  }

  /** The lanes behind a busy one are quiet. */
  lemma StopIsQuiet(before: Bus, b: Bus, todo: seq<EventType>)
    requires todo != [] && ReadyToWalk(before, b, todo) && Busy(b.lanes[todo[0]])
    ensures var l := Drain(b.lanes[todo[0]]);
            Quiet(before, b.(lanes := b.lanes[todo[0] := l], stop := Draining(todo[1..], todo[0], l.subs, [], false)))
  {
    var t, rest := todo[0], todo[1..];
    var next := b.(lanes := b.lanes[t := Drain(b.lanes[t])]);
    assert t in todo;
    DrainedIsQuiet(before.lanes[t], b.lanes[t]);
    hide LaneQuiet, LaneUndrained, Drain;
    assert forall x | x in rest :: x in todo;
    forall x | x in before.lanes ensures LaneQuiet(before.lanes[x], next.lanes[x], x in rest) {
      if x in rest {
        var j :| 0 <= j < |rest| && rest[j] == x;
        assert todo[j + 1] == x;
        UndrainedIsQuiet(before.lanes[x], b.lanes[x]);
      } else if x != t {
        assert x !in todo;
      }
    }
  }

  lemma WalkOn(before: Bus, b: Bus, todo: seq<EventType>)
    requires todo != [] && ReadyToWalk(before, b, todo)
    ensures ReadyToWalk(before, b.(lanes := b.lanes[todo[0] := Drain(b.lanes[todo[0]])]), todo[1..])
  {
    var t, rest := todo[0], todo[1..];
    var next := b.(lanes := b.lanes[t := Drain(b.lanes[t])]);
    assert t in todo;
    DrainedIsQuiet(before.lanes[t], b.lanes[t]);
    hide LaneQuiet, LaneUndrained, Drain;
    assert t !in rest && Lists(rest, before.lanes.Keys);
    assert forall x | x in rest :: x in todo && next.lanes[x] == b.lanes[x];
    forall x | x in before.lanes && x !in rest ensures LaneQuiet(before.lanes[x], next.lanes[x], false) {
      if x != t {
        assert x !in todo;
      }
    }
  }

  /** With no stealing among `todo`, the shutdown's own walk keeps everything quiet. */
  lemma {:induction false} ContinueIsQuiet(before: Bus, b: Bus, todo: seq<EventType>)
    requires ReadyToWalk(before, b, todo)
    ensures forall t | t in todo :: t in b.lanes
    ensures Quiet(before, Continue(b, todo))
    decreases |todo|
  {
    if todo == [] {
      CancelIsQuiet(before, b);
    } else {
      var t := todo[0];
      assert t in todo;
      var next := b.(lanes := b.lanes[t := Drain(b.lanes[t])]);
      if Drain(b.lanes[t]).drained != [] {
        DrainedIsQuiet(before.lanes[t], b.lanes[t]);
        StopIsQuiet(before, b, todo);
      } else {
        WalkOn(before, b, todo);
        hide ReadyToWalk, Quiet, LaneQuiet, LaneUndrained;
        ContinueIsQuiet(before, next, todo[1..]);
      }
    }
  }

  /** Publishers and busy workers are out of the game. */
  lemma QuietDisables(before: Bus, b: Bus, a: Action)
    requires Quiet(before, b) && Enabled(b, a)
    ensures !a.Publish? && !a.BeginShutdown?
    ensures a.RetryPut? || a.WorkerTake? || a.WorkerCallDone? ==> a.t !in before.lanes
  {}

  lemma QuietSetLane(before: Bus, b: Bus, t: EventType, l: Lane)
    requires Quiet(before, b) && t in b.lanes
    requires t in before.lanes ==> LaneQuiet(before.lanes[t], l, t in Todo(b.stop))
    ensures Quiet(before, SetLane(b, t, l))
  {
    hide LaneQuiet;
  }

  lemma QuietChanges(before: Lane, l: Lane, waiting: bool, sub: Subscription)
    requires LaneQuiet(before, l, waiting)
    ensures l.worker.Fresh? ==> LaneQuiet(before, l.(worker := Stopped), waiting)
    ensures LaneQuiet(before, l.(subs := l.subs + [sub]), waiting)
    ensures l.worker.NoWorker? ==> LaneQuiet(before, l.(subs := l.subs + [sub], worker := Fresh), waiting)
    ensures LaneQuiet(before, l.(subs := Without(l.subs, sub)), waiting)
  {}

  lemma QuietSubscribe(before: Bus, b: Bus, t: EventType, sub: Subscription)
    requires Quiet(before, b)
    ensures Quiet(before, DoSubscribe(b, t, sub))
  {
    if t in before.lanes {
      QuietChanges(before.lanes[t], b.lanes[t], t in Todo(b.stop), sub);
    }
    hide LaneQuiet;
  }

  lemma QuietEndDrained(before: Lane, l: Lane, subs: seq<Subscription>, calls: seq<Call>)
    requires LaneQuiet(before, l, false) && l.drained != []
    ensures LaneQuiet(before, Skip(EndDrained(l, subs, calls)), false)
  {}

  lemma QuietIsUndrained(before: Lane, l: Lane, waiting: bool)
    requires LaneQuiet(before, l, waiting) && l.drained == []
    ensures LaneUndrained(before, l) && (l.queue != [] ==> !l.worker.Waiting?)
  {}

  /** The walk goes on from a quiet state. */
  lemma QuietContinue(before: Bus, b: Bus)
    requires Quiet(before, b) && b.stop.Draining? && Distinct(b.stop.todo) && NothingDrained(b.lanes)
    ensures forall t | t in b.stop.todo :: t in b.lanes
    ensures Quiet(before, Continue(b, b.stop.todo))
  {
    var todo := b.stop.todo;
    hide LaneQuiet, LaneUndrained;
    forall t | t in todo ensures LaneUndrained(before.lanes[t], b.lanes[t]) && (b.lanes[t].queue != [] ==> !b.lanes[t].worker.Waiting?) {
      QuietIsUndrained(before.lanes[t], b.lanes[t], true);
    }
    assert ReadyToWalk(before, b, todo);
    ContinueIsQuiet(before, b, todo);
  }

  lemma QuietServed(before: Bus, b: Bus, calls: seq<Call>)
    requires BusOk(b) && Quiet(before, b) && b.stop.Draining? && b.lanes[b.stop.at].drained != []
    ensures Quiet(before, Served(b, calls))
    ensures Served(b, calls).lanes[b.stop.at].drained == [] ==> NothingDrained(Served(b, calls).lanes)
    ensures Served(b, calls).lanes.Keys == b.lanes.Keys && Distinct(b.stop.todo) && b.stop.at !in b.stop.todo
  {
    var at, l := b.stop.at, b.lanes[b.stop.at];
    OthersUndrained(b);
    assert OrderOk(b);
    hide BusOk, LaneQuiet, EndDrained, Skip;
    QuietEndDrained(before.lanes[at], l, b.stop.subs, calls);
    QuietSetLane(before, b, at, Skip(EndDrained(l, b.stop.subs, calls)));
    assert Served(b, calls) == SetLane(b, at, Skip(EndDrained(l, b.stop.subs, calls)));
    assert Distinct(b.stop.todo) && at !in b.stop.todo;
    hide Quiet, Distinct, OrderOk;
  }

  lemma QuietSameLanes(before: Bus, b: Bus, stop: Shutdown)
    requires Quiet(before, b) && b.stop.Draining? && stop.Draining?
    requires stop.todo == b.stop.todo && stop.at == b.stop.at
    ensures Quiet(before, b.(stop := stop))
  {
    hide LaneQuiet;
  }

  lemma QuietShutdownCall(before: Bus, b: Bus, raised: bool)
    requires BusOk(b) && Quiet(before, b) && b.stop.Draining?
    ensures var after := Step(b, ShutdownCallDone(raised)); after.stop.Failed? || Quiet(before, after)
  {
    CallIsEnabled(b, raised);
    var calls := b.stop.calls + [Call(b.stop.subs[|b.stop.calls|], raised)];
    hide BusOk, Step, Enabled, Quiet;
    if |calls| < |b.stop.subs| {
      MoreCallsFollow(b, raised);
      QuietSameLanes(before, b, b.stop.(calls := calls));
    } else {
      QuietServed(before, b, calls);
      EndsAsServed(b, raised);
      var next := Served(b, calls);
      hide *;
      if next.lanes[b.stop.at].drained != [] {
        QuietSameLanes(before, next, b.stop.(subs := next.lanes[b.stop.at].subs, calls := []));
      } else if !b.stop.grew {
        QuietContinue(before, next);
      }
    }
  }

  /** Nothing that can happen during such a shutdown disturbs it, short of ending it. */
  lemma QuietStep(before: Bus, b: Bus, a: Action)
    requires BusOk(b) && Quiet(before, b)
    ensures Step(b, a).stop.Failed? || Quiet(before, Step(b, a))
  {
    if Enabled(b, a) {
      QuietDisables(before, b, a);
      hide LaneQuiet, Take, EndCall, Accept;
      match a {
        case Start =>
        case Subscribe(t, sub) => QuietSubscribe(before, b, t, sub);
        case Unsubscribe(t, sub) =>
          if t in before.lanes {
            QuietChanges(before.lanes[t], b.lanes[t], t in Todo(b.stop), sub);
          }
          QuietSetLane(before, b, t, b.lanes[t].(subs := Without(b.lanes[t].subs, sub)));
        case RetryPut(t, i) => QuietSetLane(before, b, t, Step(b, a).lanes[t]);
        case WorkerStart(t) =>
          if t in before.lanes {
            QuietChanges(before.lanes[t], b.lanes[t], t in Todo(b.stop), "");
          }
          QuietSetLane(before, b, t, b.lanes[t].(worker := Stopped));
        case WorkerTake(t) => QuietSetLane(before, b, t, Step(b, a).lanes[t]);
        case WorkerCallDone(t, raised) => QuietSetLane(before, b, t, Step(b, a).lanes[t]);
        case ShutdownCallDone(raised) => QuietShutdownCall(before, b, raised);
      }
    }
  }

  /** A failed shutdown stays failed. */
  lemma FailedStays(b: Bus, a: Action)
    requires b.stop.Failed?
    ensures Step(b, a).stop.Failed?
  {}

  lemma {:induction false} FailedRun(b: Bus, actions: seq<Action>)
    requires b.stop.Failed?
    ensures Run(b, actions).stop.Failed?
    decreases |actions|
  {
    if actions != [] {
      FailedStays(b, actions[0]);
      FailedRun(Step(b, actions[0]), actions[1..]);
    }
  }

  lemma {:induction false} QuietRun(before: Bus, b: Bus, actions: seq<Action>)
    requires BusOk(b) && Quiet(before, b)
    ensures BusOk(Run(b, actions)) && (Run(b, actions).stop.Failed? || Quiet(before, Run(b, actions)))
    decreases |actions|
  {
    hide BusOk, Quiet, Step;
    if actions != [] {
      StepOk(b, actions[0]);
      QuietStep(before, b, actions[0]);
      if Step(b, actions[0]).stop.Failed? {
        FailedRun(Step(b, actions[0]), actions[1..]);
        EveryRunIsSafe(Step(b, actions[0]), actions[1..]);
      } else {
        QuietRun(before, Step(b, actions[0]), actions[1..]);
      }
    }
  }

  lemma QuietlyClosed(before: Lane, l: Lane, maxsize: int)
    requires LaneOk(l, maxsize) && LaneQuiet(before, l, false) && l.drained == []
    ensures LaneDelivered(before, l)
  {
    assert multiset(EnvsOf(l.finished)) == multiset(l.accepted);
    forall i | |before.finished| <= i < |l.finished| ensures DeliveryOk(l.finished[i]) {
      assert l.finished[i] in l.finished;
    }
  }

  lemma BeginIsWalk(b: Bus)
    requires BusOk(b) && b.stop.Running?
    ensures Lists(b.order, b.lanes.Keys) && (forall t | t in b.lanes :: t in b.order) && NothingDrained(b.lanes)
    ensures Step(b, BeginShutdown) == Continue(b, b.order)
  {
    forall t | t in b.lanes ensures b.lanes[t].drained == [] {
      assert LaneStopOk(b.stop, t, b.lanes[t]);
    }
    assert OrderOk(b);
    hide BusOk, LanesOk, LanesStopOk, Continue, Distinct;
  }

  lemma BeginIsQuiet(b: Bus)
    requires BusOk(b) && b.stop.Running? && Calm(b) && NoSteal(b)
    ensures Quiet(b, Step(b, BeginShutdown))
  {
    BeginIsWalk(b);
    forall t | t in b.lanes ensures LaneUndrained(b.lanes[t], b.lanes[t]) {
      assert LaneStopOk(b.stop, t, b.lanes[t]);
    }
    forall i | 0 <= i < |b.order| ensures b.order[i] in b.lanes {
      assert b.order[i] in b.order;
    }
    hide LaneUndrained, LaneQuiet, BusOk, Step, Continue;
    assert ReadyToWalk(b, b, b.order);
    ContinueIsQuiet(b, b, b.order);
  }

  /** A shutdown begun calmly, with no worker able to steal, delivers every accepted envelope to every
      subscriber of its moment exactly once, whatever handlers raise, subscribe or unsubscribe and
      however tasks interleave, if it comes to its end. */
  lemma CleanShutdown(b: Bus, actions: seq<Action>)
    requires BusOk(b) && b.stop.Running? && Calm(b) && NoSteal(b)
    ensures var after := Run(Step(b, BeginShutdown), actions);
            after.stop.Closed? ==> AllDelivered(b, after)
  {
    BeginIsQuiet(b);
    StepOk(b, BeginShutdown);
    var after := Run(Step(b, BeginShutdown), actions);
    QuietRun(b, Step(b, BeginShutdown), actions);
    if after.stop.Closed? {
      forall t | t in b.lanes ensures t in after.lanes && LaneDelivered(b.lanes[t], after.lanes[t]) {
        assert LaneOk(after.lanes[t], after.maxsize) && LaneStopOk(after.stop, t, after.lanes[t]);
        QuietlyClosed(b.lanes[t], after.lanes[t], after.maxsize);
      }
    }
  }

  // ----- the shutdown, left alone -----

  /** From `b` to `after` the workers' deliveries are in hand or lost, blocked publishers stay blocked. */
  ghost predicate Alone(b: Bus, after: Bus) {
    && b.lanes.Keys <= after.lanes.Keys && after.maxsize == b.maxsize
    && forall t | t in b.lanes :: LaneAlone(b.lanes[t], after.lanes[t], after.stop.Closed?)
  }

  ghost predicate LaneAlone(l: Lane, after: Lane, closed: bool) {
    && after.blocked == l.blocked && l.accepted <= after.accepted
    && (l.worker.Delivering? ==> if closed then after.lost != [] else after.worker.Delivering?)
  }

  /** Only the queues still to do hold anything. */
  ghost predicate Emptied(b: Bus) {
    forall t | t in b.lanes && t !in Todo(b.stop) :: b.lanes[t].queue == []
  }

  lemma AloneOnward(b: Bus, mid: Bus, after: Bus)
    requires Alone(b, mid) && !mid.stop.Closed? && Alone(mid, after)
    ensures Alone(b, after)
  {}

  lemma {:induction false} ContinueShrinks(b: Bus, todo: seq<EventType>)
    requires Lists(todo, b.lanes.Keys) && NothingDrained(b.lanes)
    ensures var after := Continue(b, todo);
      && after.lanes.Keys == b.lanes.Keys && Alone(b, after)
      && (after.stop.Closed? || (after.stop.Draining? && !after.stop.grew && |after.stop.todo| < |todo|))
      && ((forall t | t in b.lanes && t !in todo :: b.lanes[t].queue == []) ==> Emptied(after))
    decreases |todo|
  {
    if todo != [] {
      var t := todo[0];
      var l := Drain(b.lanes[t]);
      var next := b.(lanes := b.lanes[t := l]);
      assert next.lanes.Keys == b.lanes.Keys;
      assert LaneAlone(b.lanes[t], l, false);
      assert forall x | x in b.lanes && x != t :: x in todo ==> x in todo[1..];
      if l.drained == [] {
        ContinueShrinks(next, todo[1..]);
        OneMoreAlone(b, t, l, Continue(next, todo[1..]));
        hide LaneAlone, Alone, Drain;
      }
    }
  }

  lemma OneMoreAlone(b: Bus, t: EventType, l: Lane, after: Bus)
    requires t in b.lanes && LaneAlone(b.lanes[t], l, false) && Alone(SetLane(b, t, l), after)
    ensures Alone(b, after)
  {
    var next := SetLane(b, t, l);
    forall x | x in b.lanes ensures LaneAlone(b.lanes[x], after.lanes[x], after.stop.Closed?) {
      assert LaneAlone(next.lanes[x], after.lanes[x], after.stop.Closed?);
    }
  }

  // What the shutdown still has to do: queues, then envelopes, then calls.

  function QueuesLeft(b: Bus): nat { |Todo(b.stop)| }

  function EnvelopesLeft(b: Bus): nat {
    if b.stop.Draining? && b.stop.at in b.lanes then |b.lanes[b.stop.at].drained| else 0
  }

  function CallsLeft(b: Bus): int {
    if b.stop.Draining? then |b.stop.subs| - |b.stop.calls| else 0
  }

  ghost predicate Less(a: Bus, b: Bus) {
    QueuesLeft(a) < QueuesLeft(b) ||
    (QueuesLeft(a) == QueuesLeft(b) &&
     (EnvelopesLeft(a) < EnvelopesLeft(b) || (EnvelopesLeft(a) == EnvelopesLeft(b) && CallsLeft(a) < CallsLeft(b))))
  }

  /** Where one more handler call leads, when nothing else happens. */
  ghost predicate OneCallOn(b: Bus, after: Bus) {
    && after.lanes.Keys == b.lanes.Keys && Alone(b, after) && (Emptied(b) ==> after.stop.Failed? || Emptied(after))
    && if b.stop.Draining? && b.stop.grew then after.stop.Failed? || (after.stop.Draining? && after.stop.grew && Less(after, b))
       else after.stop.Closed? || (after.stop.Draining? && !after.stop.grew && Less(after, b))
  }

  lemma ServedLane(l: Lane, subs: seq<Subscription>, calls: seq<Call>)
    requires l.drained != []
    ensures var done := Skip(EndDrained(l, subs, calls));
      && LaneAlone(l, done, false) && done.queue == l.queue && |done.drained| < |l.drained|
  {}

  /** What one served envelope changes, the delivery itself aside. */
  ghost predicate OneLess(b: Bus, next: Bus) {
    && b.stop.Draining? && next.stop == b.stop && next.lanes.Keys == b.lanes.Keys
    && b.stop.at in b.lanes && b.stop.at !in b.stop.todo && Lists(b.stop.todo, b.lanes.Keys)
    && |next.lanes[b.stop.at].drained| < |b.lanes[b.stop.at].drained|
    && (next.lanes[b.stop.at].drained == [] ==> NothingDrained(next.lanes))
    && Alone(b, next) && (Emptied(b) ==> Emptied(next))
  }

  lemma ServedIsOneLess(b: Bus, at: EventType, done: Lane)
    requires b.stop.Draining? && at == b.stop.at && at in b.lanes && at !in b.stop.todo && Lists(b.stop.todo, b.lanes.Keys)
    requires forall t | t in b.lanes && t != at :: b.lanes[t].drained == []
    requires LaneAlone(b.lanes[at], done, false) && done.queue == b.lanes[at].queue && |done.drained| < |b.lanes[at].drained|
    ensures OneLess(b, SetLane(b, at, done))
  {
    hide Lists;
    var next := SetLane(b, at, done);
    assert next.lanes.Keys == b.lanes.Keys;
    assert Alone(b, next) by {
      forall t | t in b.lanes ensures LaneAlone(b.lanes[t], next.lanes[t], false) {
        assert t != at ==> next.lanes[t] == b.lanes[t];
      }
    }
  }

  lemma ServedAlone(b: Bus, calls: seq<Call>)
    requires BusOk(b) && b.stop.Draining? && b.lanes[b.stop.at].drained != []
    ensures OneLess(b, Served(b, calls))
  {
    var at := b.stop.at;
    OthersUndrained(b);
    assert OrderOk(b);
    ServedLane(b.lanes[at], b.stop.subs, calls);
    ServedIsOneLess(b, at, Skip(EndDrained(b.lanes[at], b.stop.subs, calls)));
    hide BusOk, OneLess, Skip, EndDrained;
  }

  lemma NextEnvelope(b: Bus, next: Bus, subs: seq<Subscription>)
    requires OneLess(b, next)
    ensures OneCallOn(b, next.(stop := b.stop.(subs := subs, calls := [])))
  {
    hide Lists, LaneAlone, NothingDrained;
  }

  lemma NextFails(b: Bus, next: Bus)
    requires OneLess(b, next) && b.stop.grew
    ensures OneCallOn(b, next.(stop := Failed))
  {
    hide Lists, LaneAlone, NothingDrained;
  }

  lemma NextQueue(b: Bus, next: Bus)
    requires OneLess(b, next) && next.lanes[b.stop.at].drained == [] && !b.stop.grew
    ensures forall t | t in b.stop.todo :: t in next.lanes
    ensures OneCallOn(b, Continue(next, b.stop.todo))
  {
    ContinueShrinks(next, b.stop.todo);
    AloneOnward(b, next, Continue(next, b.stop.todo));
    hide LaneAlone, NothingDrained, Continue, Alone;
  }

  lemma MoreCalls(b: Bus, calls: seq<Call>)
    requires b.stop.Draining? && |b.stop.calls| < |calls|
    ensures OneCallOn(b, b.(stop := b.stop.(calls := calls)))
  {}

  lemma ShutdownCallShrinks(b: Bus)
    requires BusOk(b) && b.stop.Draining?
    ensures Enabled(b, ShutdownCallDone(false)) && OneCallOn(b, Step(b, ShutdownCallDone(false)))
  {
    CallIsEnabled(b, false);
    var calls := b.stop.calls + [Call(b.stop.subs[|b.stop.calls|], false)];
    hide BusOk, Step, Enabled, OneCallOn;
    if |calls| < |b.stop.subs| {
      MoreCallsFollow(b, false);
      MoreCalls(b, calls);
    } else {
      ServedAlone(b, calls);
      EndsAsServed(b, false);
      var next := Served(b, calls);
      hide *;
      if next.lanes[b.stop.at].drained != [] {
        NextEnvelope(b, next, next.lanes[b.stop.at].subs);
      } else if b.stop.grew {
        NextFails(b, next);
      } else {
        NextQueue(b, next);
      }
    }
  }

  lemma CallsLeftOver(b: Bus)
    requires BusOk(b)
    ensures CallsLeft(b) >= 0
  {
    if b.stop.Draining? {
      assert LaneStopOk(b.stop, b.stop.at, b.lanes[b.stop.at]);
    }
  }

  /** Left alone, the shutdown always comes to its end: with an exception if a queue was added, else
      properly. */
  lemma {:induction false} FinishAlone(b: Bus) returns (actions: seq<Action>)
    requires BusOk(b) && b.stop.Draining?
    ensures var after := Run(b, actions);
      && BusOk(after) && Alone(b, after) && (Emptied(b) ==> after.stop.Failed? || Emptied(after))
      && if b.stop.grew then after.stop.Failed? else after.stop.Closed?
    decreases QueuesLeft(b), EnvelopesLeft(b), CallsLeft(b)
  {
    hide BusOk, Alone, Emptied, Step, Enabled;
    ShutdownCallShrinks(b);
    StepOk(b, ShutdownCallDone(false));
    var next := Step(b, ShutdownCallDone(false));
    if !next.stop.Draining? {
      actions := [ShutdownCallDone(false)];
      assert Run(b, actions) == Run(next, []);
    } else {
      CallsLeftOver(next);
      var rest := FinishAlone(next);
      actions := [ShutdownCallDone(false)] + rest;
      assert actions[1..] == rest;
      AloneOnward(b, next, Run(next, rest));
    }
  }

  /** The whole shutdown, with nothing else happening. */
  lemma ShutdownAlone(b: Bus) returns (actions: seq<Action>)
    requires BusOk(b) && b.stop.Running?
    ensures var after := Run(Step(b, BeginShutdown), actions);
            BusOk(after) && after.stop.Closed? && Alone(b, after) && Emptied(after)
  {
    BeginIsWalk(b);
    ContinueShrinks(b, b.order);
    StepOk(b, BeginShutdown);
    var begun := Step(b, BeginShutdown);
    hide BusOk, Step, Continue, NothingDrained;
    if begun.stop.Closed? {
      actions := [];
    } else {
      actions := FinishAlone(begun);
      AloneOnward(b, begun, Run(begun, actions));
    }
  }

  // ----- what can be left behind -----

  /** An envelope that is lost, or queued when nobody serves the queue, is not delivered. */
  lemma LeftIsNotDelivered(before: Lane, after: Lane, maxsize: int)
    requires LaneOk(after, maxsize) && (after.lost != [] || after.queue != [])
    ensures !LaneDelivered(before, after)
  {
    assert |multiset(after.lost)| + |multiset(after.queue)| > 0;
    assert |multiset(after.accepted)| > |multiset(EnvsOf(after.finished))|;
  }

  lemma BusyWorkerLoses(b: Bus, t: EventType) returns (actions: seq<Action>)
    requires BusOk(b) && b.stop.Running? && t in b.lanes && b.lanes[t].worker.Delivering?
    ensures var after := Run(Step(b, BeginShutdown), actions);
            after.stop.Closed? && !AllDelivered(b, after)
  {
    actions := ShutdownAlone(b);
    var after := Run(Step(b, BeginShutdown), actions);
    assert LaneAlone(b.lanes[t], after.lanes[t], true);
    LeftIsNotDelivered(b.lanes[t], after.lanes[t], after.maxsize);
  }

  lemma {:induction false} RunAppend(b: Bus, first: seq<Action>, a: Action)
    ensures Run(b, first + [a]) == Step(Run(b, first), a)
    decreases |first|
  {
    if first == [] {
      assert [] + [a] == [a] && [a][1..] == [];
    } else {
      assert (first + [a])[1..] == first[1..] + [a];
      RunAppend(Step(b, first[0]), first[1..], a);
    }
  }

  /** A blocked publisher finds room once the queue is drained, and its envelope stays there. */
  lemma BlockedPublisherLoses(b: Bus, t: EventType) returns (actions: seq<Action>)
    requires BusOk(b) && b.stop.Running? && t in b.lanes && b.lanes[t].blocked != []
    ensures var after := Run(Step(b, BeginShutdown), actions);
            after.stop.Closed? && !AllDelivered(b, after)
  {
    hide BusOk;
    var alone := ShutdownAlone(b);
    var begun := Step(b, BeginShutdown);
    var closed := Run(begun, alone);
    actions := alone + [RetryPut(t, 0)];
    RunAppend(begun, alone, RetryPut(t, 0));
    StepOk(closed, RetryPut(t, 0));
    var after := Step(closed, RetryPut(t, 0));
    hide Run;
    LatePutStays(b, closed, t);
    LaneOkOf(after, t);
    LeftIsNotDelivered(b.lanes[t], after.lanes[t], after.maxsize);
  }

  lemma LatePutStays(b: Bus, closed: Bus, t: EventType)
    requires t in b.lanes && b.lanes[t].blocked != [] && Alone(b, closed) && Emptied(closed) && closed.stop.Closed?
    ensures var after := Step(closed, RetryPut(t, 0));
            after.stop.Closed? && t in after.lanes && after.lanes[t].queue != []
  {
    assert LaneAlone(b.lanes[t], closed.lanes[t], true) && closed.lanes[t].queue == [];
  }

  /** With a busy lane before it, the walk stops before it comes to `todo[j]`. */
  lemma {:induction false} WalkStopsBefore(b: Bus, todo: seq<EventType>, i: nat, j: nat)
    requires Lists(todo, b.lanes.Keys) && i < j < |todo| && Busy(b.lanes[todo[i]])
    ensures var after := Continue(b, todo);
      && after.stop.Draining? && !after.stop.grew && after.lanes.Keys == b.lanes.Keys
      && after.lanes[todo[j]] == b.lanes[todo[j]] && todo[j] in after.stop.todo
    decreases |todo|
  {
    var l := Drain(b.lanes[todo[0]]);
    assert todo[1..][j - 1] == todo[j];
    if l.drained == [] {
      assert i != 0;
      var next := b.(lanes := b.lanes[todo[0] := l]);
      assert todo[1..][i - 1] == todo[i];
      WalkStopsBefore(next, todo[1..], i - 1, j - 1);
    }
  }

  /** Someone subscribes to the type, unless it has subscribers, and its worker takes an envelope. */
  lemma Steal(b: Bus, t: EventType) returns (actions: seq<Action>)
    requires BusOk(b) && b.stop.Draining? && !b.stop.grew
    requires t in b.lanes && b.lanes[t].queue != [] && b.lanes[t].worker.Waiting?
    ensures var after := Run(b, actions);
            BusOk(after) && after.stop.Draining? && !after.stop.grew && t in after.lanes && after.lanes[t].worker.Delivering?
  {
    hide BusOk;
    if b.lanes[t].subs == [] {
      var ready := Step(b, Subscribe(t, "subscriber"));
      StepOk(b, Subscribe(t, "subscriber"));
      StepOk(ready, WorkerTake(t));
      assert Run(b, [Subscribe(t, "subscriber")]) == Run(ready, []) == ready;
      RunAppend(b, [Subscribe(t, "subscriber")], WorkerTake(t));
      actions := [Subscribe(t, "subscriber")] + [WorkerTake(t)];
    } else {
      StepOk(b, WorkerTake(t));
      actions := [WorkerTake(t)];
      assert Run(b, actions) == Run(Step(b, WorkerTake(t)), []);
    }
  }

  lemma {:induction false} RunTwice(b: Bus, first: seq<Action>, rest: seq<Action>)
    ensures Run(b, first + rest) == Run(Run(b, first), rest)
    decreases |first|
  {
    if first == [] {
      assert [] + rest == rest;
    } else {
      assert (first + rest)[1..] == first[1..] + rest;
      RunTwice(Step(b, first[0]), first[1..], rest);
    }
  }

  /** A worker that can steal takes an envelope and is cancelled with it in hand. */
  lemma StealingLoses(b: Bus) returns (actions: seq<Action>)
    requires BusOk(b) && b.stop.Running? && !NoSteal(b)
    ensures var after := Run(Step(b, BeginShutdown), actions);
            after.stop.Closed? && !AllDelivered(b, after)
  {
    var i, j :| 0 <= i < j < |b.order| && b.order[i] in b.lanes && b.order[j] in b.lanes
      && Busy(b.lanes[b.order[i]]) && b.lanes[b.order[j]].queue != [] && b.lanes[b.order[j]].worker.Waiting?;
    var t := b.order[j];
    BeginIsWalk(b);
    WalkStopsBefore(b, b.order, i, j);
    StepOk(b, BeginShutdown);
    var begun := Step(b, BeginShutdown);
    hide BusOk, Step, Continue, NoSteal, Lists;
    var steal := Steal(begun, t);
    var stolen := Run(begun, steal);
    var rest := FinishAlone(stolen);
    actions := steal + rest;
    RunTwice(begun, steal, rest);
    var after := Run(stolen, rest);
    assert LaneAlone(stolen.lanes[t], after.lanes[t], true);
    LaneOkOf(after, t);
    LeftIsNotDelivered(b.lanes[t], after.lanes[t], after.maxsize);
  }

  lemma LaneOkOf(b: Bus, t: EventType)
    requires BusOk(b) && t in b.lanes
    ensures LaneOk(b.lanes[t], b.maxsize)
  {}

  /** Every interleaving that ends the shutdown properly delivers everything. */
  ghost predicate AlwaysDelivers(b: Bus) {
    forall actions :: Run(Step(b, BeginShutdown), actions).stop.Closed?
                      ==> AllDelivered(b, Run(Step(b, BeginShutdown), actions))
  }

  /** Exactly when a shutdown delivers everything under every interleaving. */
  lemma ShutdownDeliversIffCalmWithoutSteal(b: Bus)
    requires BusOk(b) && b.stop.Running?
    ensures AlwaysDelivers(b) <==> Calm(b) && NoSteal(b)
  {
    if Calm(b) && NoSteal(b) {
      forall actions | Run(Step(b, BeginShutdown), actions).stop.Closed?
        ensures AllDelivered(b, Run(Step(b, BeginShutdown), actions))
      {
        CleanShutdown(b, actions);
      }
    } else if !NoSteal(b) {
      var actions := StealingLoses(b);
    } else {
      var t :| t in b.lanes && (b.lanes[t].blocked != [] || b.lanes[t].worker.Delivering?);
      if b.lanes[t].blocked != [] {
        var actions := BlockedPublisherLoses(b, t);
      } else {
        var actions := BusyWorkerLoses(b, t);
      }
    }
  }

  // ----- a shutdown that raises -----

  /** Only subscribing to an event type without a queue, in the course of the shutdown, makes it fail. */
  lemma {:induction false} FailsOnlyByNewType(b: Bus, actions: seq<Action>)
    requires !b.stop.Failed? && (b.stop.Draining? ==> !b.stop.grew)
    requires forall a | a in actions && a.Subscribe? :: a.t in b.lanes
    ensures !Run(b, actions).stop.Failed?
    decreases |actions|
  {
    if actions != [] {
      var a, next := actions[0], Step(b, actions[0]);
      assert a in actions;
      OldTypesKeepGoing(b, a);
      FailsOnlyByNewType(next, actions[1..]);
    }
  }

  lemma {:induction false} ContinueNeverFails(b: Bus, todo: seq<EventType>)
    requires forall t | t in todo :: t in b.lanes
    ensures var after := Continue(b, todo);
      b.lanes.Keys <= after.lanes.Keys && (after.stop.Closed? || (after.stop.Draining? && !after.stop.grew))
    decreases |todo|
  {
    if todo != [] {
      var l := Drain(b.lanes[todo[0]]);
      if l.drained == [] {
        ContinueNeverFails(b.(lanes := b.lanes[todo[0] := l]), todo[1..]);
      }
    }
  }

  lemma OldTypesKeepGoing(b: Bus, a: Action)
    requires !b.stop.Failed? && (b.stop.Draining? ==> !b.stop.grew) && (a.Subscribe? ==> a.t in b.lanes)
    ensures var next := Step(b, a);
      !next.stop.Failed? && (next.stop.Draining? ==> !next.stop.grew) && b.lanes.Keys <= next.lanes.Keys
  {
    if Enabled(b, a) {
      if a.BeginShutdown? {
        ContinueNeverFails(b, b.order);
      } else if a.ShutdownCallDone? && |b.stop.calls| + 1 == |b.stop.subs| {
        EndsAsServed(b, a.raised);
        var next := Served(b, b.stop.calls + [Call(b.stop.subs[|b.stop.calls|], a.raised)]);
        assert next.lanes.Keys == b.lanes.Keys;
        if next.lanes[b.stop.at].drained == [] {
          ContinueNeverFails(next, b.stop.todo);
        }
      }
    }
  }

  /** A handler that subscribes to a new event type while a busy queue is being delivered ends the
      shutdown with an exception. */
  lemma NewTypeFailsShutdown(b: Bus, i: nat, t: EventType) returns (actions: seq<Action>)
    requires BusOk(b) && b.stop.Running? && t !in b.lanes
    requires i < |b.order| && b.order[i] in b.lanes && Busy(b.lanes[b.order[i]])
    ensures Run(Step(b, BeginShutdown), actions).stop.Failed?
  {
    BeginIsWalk(b);
    BusyWalkStops(b, b.order, i);
    StepOk(b, BeginShutdown);
    var begun := Step(b, BeginShutdown);
    StepOk(begun, Subscribe(t, "subscriber"));
    var grown := Step(begun, Subscribe(t, "subscriber"));
    hide BusOk, Step, Continue;
    NewTypeGrows(begun, t);
    var rest := FinishAlone(grown);
    actions := [Subscribe(t, "subscriber")] + rest;
    assert actions[1..] == rest;
  }

  lemma NewTypeGrows(b: Bus, t: EventType)
    requires b.stop.Draining? && t !in b.lanes
    ensures Step(b, Subscribe(t, "subscriber")).stop == b.stop.(grew := true)
  {}

  lemma {:induction false} BusyWalkStops(b: Bus, todo: seq<EventType>, i: nat)
    requires Lists(todo, b.lanes.Keys) && i < |todo| && Busy(b.lanes[todo[i]])
    ensures Continue(b, todo).stop.Draining? && Continue(b, todo).lanes.Keys == b.lanes.Keys
    decreases |todo|
  {
    var l := Drain(b.lanes[todo[0]]);
    if l.drained == [] {
      assert i != 0 && todo[1..][i - 1] == todo[i];
      BusyWalkStops(b.(lanes := b.lanes[todo[0] := l]), todo[1..], i - 1);
    }
  }
}
