/** Runs of a new bus in which a shutdown loses an accepted event, one for each way of losing it. */
module EventBusLosses {
  import opened PriorityQueue
  import opened EventBus
  import opened EventBusSafety
  import opened EventBusShutdown

  function NewEvent(id: string, t: EventType): Envelope { Envelope(id, t, 0) }

  /** After `before` the bus runs; from there `after` ends the shutdown, and something is not delivered. */
  ghost predicate Loses(maxsize: int, before: seq<Action>, after: seq<Action>) {
    var b := Run(NewBus(maxsize), before);
    var closed := Run(Step(b, BeginShutdown), after);
    b.stop.Running? && closed.stop.Closed? && !AllDelivered(b, closed)
  }

  /** The state after each action. */
  lemma RunByOne(b: Bus, first: seq<Action>, a: Action, next: Bus)
    requires Run(b, first) == next
    ensures Run(b, first + [a]) == Step(next, a)
  {
    RunAppend(b, first, a);
  }

  const ONE := [Start, Subscribe("a", "handler"), WorkerStart("a"), Publish(NewEvent("first", "a"))]

  lemma AfterOne(maxsize: int)
    requires maxsize > 0
    ensures Run(NewBus(maxsize), ONE) ==
            Bus(true, maxsize, ["a"],
                map["a" := NEW_LANE.(queue := [NewEvent("first", "a")], subs := ["handler"], worker := Waiting,
                                     accepted := [NewEvent("first", "a")])], Running)
  {
    var e := NewEvent("first", "a");
    var b := NewBus(maxsize);
    var b1 := Step(b, Start);
    var b2 := Step(b1, Subscribe("a", "handler"));
    var l2 := NEW_LANE.(subs := ["handler"], worker := Fresh);
    assert b2 == Bus(true, maxsize, ["a"], map["a" := l2], Running) by { assert [] + ["a"] == ["a"] && [] + ["handler"] == ["handler"]; }
    var b3 := Step(b2, WorkerStart("a"));
    assert b3 == Bus(true, maxsize, ["a"], map["a" := l2.(worker := Waiting)], Running);
    var b4 := Step(b3, Publish(e));
    assert [] + [e] == [e] && StableInsert([], e) == [e] + [] == [e];
    var l4 := NEW_LANE.(queue := [e], subs := ["handler"], worker := Waiting, accepted := [e]);
    assert Accept(l2.(worker := Waiting), e) == l4;
    assert b4 == Bus(true, maxsize, ["a"], map["a" := l4], Running);
    assert Run(b, ONE) == Run(b1, ONE[1..]) == Run(b2, ONE[1..][1..]) == Run(b3, ONE[1..][1..][1..]) == Run(b4, []);
  }

  /** The worker is in the middle of a delivery. */
  lemma LossByBusyWorker() returns (before: seq<Action>, after: seq<Action>)
    ensures Loses(1, before, after)
  {
    before := ONE + [WorkerTake("a")];
    AfterOne(1);
    RunByOne(NewBus(1), ONE, WorkerTake("a"), Run(NewBus(1), ONE));
    var b := Run(NewBus(1), before);
    assert "a" in b.lanes && b.lanes["a"].worker.Delivering? && b.stop.Running?;
    NewBusIsOk(1);
    EveryRunIsSafe(NewBus(1), before);
    after := BusyWorkerLoses(b, "a");
  }

  /** The queue is full and a publisher waits. */
  lemma LossByBlockedPublisher() returns (before: seq<Action>, after: seq<Action>)
    ensures Loses(1, before, after)
  {
    var second := Publish(NewEvent("second", "a"));
    before := ONE + [second];
    AfterOne(1);
    RunByOne(NewBus(1), ONE, second, Run(NewBus(1), ONE));
    var b := Run(NewBus(1), before);
    assert "a" in b.lanes && b.lanes["a"].blocked != [] && b.stop.Running?;
    NewBusIsOk(1);
    EveryRunIsSafe(NewBus(1), before);
    after := BlockedPublisherLoses(b, "a");
  }

  const TWO := ONE + [Subscribe("b", "handler")] + [WorkerStart("b")] + [Publish(NewEvent("second", "b"))]

  lemma AfterTwo(maxsize: int)
    requires maxsize > 0
    ensures var b := Run(NewBus(maxsize), TWO);
      && b.order == ["a", "b"] && b.stop.Running? && "a" in b.lanes && "b" in b.lanes
      && Busy(b.lanes["a"]) && b.lanes["b"].worker.Waiting? && b.lanes["b"].queue != []
  {
    var b, e := NewBus(maxsize), NewEvent("second", "b");
    AfterOne(maxsize);
    var b1 := Run(b, ONE);
    RunByOne(b, ONE, Subscribe("b", "handler"), b1);
    var b2 := Step(b1, Subscribe("b", "handler"));
    RunByOne(b, ONE + [Subscribe("b", "handler")], WorkerStart("b"), b2);
    var b3 := Step(b2, WorkerStart("b"));
    RunByOne(b, ONE + [Subscribe("b", "handler")] + [WorkerStart("b")], Publish(e), b3);
    hide Run;
    assert b3.order == ["a", "b"] && b3.lanes["a"] == b1.lanes["a"];
    assert b3.lanes["b"] == NEW_LANE.(subs := ["handler"], worker := Waiting);
  }

  /** Two events of different types are published, and the shutdown begins before the workers run. */
  lemma LossByStealing(maxsize: int) returns (before: seq<Action>, after: seq<Action>)
    requires maxsize > 0
    ensures Loses(maxsize, before, after)
  {
    before := TWO;
    AfterTwo(maxsize);
    var b := Run(NewBus(maxsize), before);
    assert !NoSteal(b) by { assert b.order[0] == "a" && b.order[1] == "b"; }
    NewBusIsOk(maxsize);
    EveryRunIsSafe(NewBus(maxsize), before);
    hide BusOk, NoSteal, Run, Step;
    after := StealingLoses(b);
  }
}
