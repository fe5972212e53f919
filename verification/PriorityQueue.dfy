/** The event bus's priority queue: five FIFO deques and a counter. It is proved to hold one
    sequence, stably sorted by priority, from which every get takes the head. */
module PriorityQueue {
  import opened Wrappers

  type EventType = string

  datatype Envelope = Envelope(eventId: string, eventType: EventType, priority: int)

  /** CRITICAL is 0, BACKGROUND is 4; lower values are served first. */
  const LEVELS := 5

  datatype PutResult = Stored | Full | UnknownPriority

  // ----- the contents of the deques -----

  type Deques = map<int, seq<Envelope>>

  ghost predicate DequesOk(q: Deques) {
    && (forall p :: p in q <==> 0 <= p < LEVELS)
    && (forall p | p in q :: forall e | e in q[p] :: e.priority == p)
  }

  /** All deques from level `p` on, the most urgent first. */
  function ContentsFrom(q: Deques, p: nat): seq<Envelope>
    requires p <= LEVELS
    decreases LEVELS - p
  {
    if p == LEVELS then [] else (if p in q then q[p] else []) + ContentsFrom(q, p + 1)
  }

  function ContentsOf(q: Deques): seq<Envelope> { ContentsFrom(q, 0) }

  /** Behind everything that is at least as urgent, before everything else. */
  function StableInsert(s: seq<Envelope>, e: Envelope): seq<Envelope> {
    if s == [] || e.priority < s[0].priority then [e] + s
    else [s[0]] + StableInsert(s[1..], e)
  }

  ghost predicate SortedByPriority(s: seq<Envelope>) {
    forall i, j | 0 <= i < j < |s| :: s[i].priority <= s[j].priority
  }

  lemma {:induction false} InsertBehind(a: seq<Envelope>, b: seq<Envelope>, e: Envelope)
    requires forall x | x in a :: x.priority <= e.priority
    ensures StableInsert(a + b, e) == a + StableInsert(b, e)
  {
    if a == [] {
      assert a + b == b;
      assert a + StableInsert(b, e) == StableInsert(b, e);
    } else {
      assert (a + b)[1..] == a[1..] + b;
      InsertBehind(a[1..], b, e);
      assert StableInsert(a + b, e) == [a[0]] + (a[1..] + StableInsert(b, e));
    }
  }

  lemma {:induction false} ContentsPriorities(q: Deques, p: nat)
    requires DequesOk(q) && p <= LEVELS
    ensures forall x | x in ContentsFrom(q, p) :: p <= x.priority
    ensures SortedByPriority(ContentsFrom(q, p))
    decreases LEVELS - p
  {
    if p < LEVELS {
      ContentsPriorities(q, p + 1);
    }
  }

  lemma InsertInFront(q: Deques, e: Envelope, p: nat)
    requires DequesOk(q) && p <= LEVELS && e.priority < p
    ensures StableInsert(ContentsFrom(q, p), e) == [e] + ContentsFrom(q, p)
  {
    ContentsPriorities(q, p);
    var rest := ContentsFrom(q, p);
    if rest != [] {
      assert rest[0] in rest;
    }
  }

  lemma Regroup(a: seq<Envelope>, b: seq<Envelope>, c: seq<Envelope>)
    ensures (a + b) + c == a + (b + c)
  {
  }

  lemma AppendHere(q: Deques, e: Envelope)
    requires DequesOk(q) && 0 <= e.priority < LEVELS
    ensures ContentsFrom(q[e.priority := q[e.priority] + [e]], e.priority) == StableInsert(ContentsFrom(q, e.priority), e)
  {
    hide StableInsert;
    var p := e.priority;
    LaterDequesSame(q, q[p := q[p] + [e]], p + 1);
    InsertBehind(q[p], ContentsFrom(q, p + 1), e);
    InsertInFront(q, e, p + 1);
    Regroup(q[p], [e], ContentsFrom(q, p + 1));
  }

  /** Appending to one deque is a stable insertion into the whole. */
  lemma {:induction false} AppendIsStableInsert(q: Deques, e: Envelope, p: nat)
    requires DequesOk(q) && p <= e.priority < LEVELS
    ensures ContentsFrom(q[e.priority := q[e.priority] + [e]], p) == StableInsert(ContentsFrom(q, p), e)
    decreases LEVELS - p
  {
    hide StableInsert;
    if p < e.priority {
      AppendIsStableInsert(q, e, p + 1);
      InsertBehind(q[p], ContentsFrom(q, p + 1), e);
    } else {
      AppendHere(q, e);
    }
  }

  lemma {:induction false} LaterDequesSame(q: Deques, r: Deques, p: nat)
    requires p <= LEVELS && forall i | p <= i < LEVELS :: i in q && i in r && q[i] == r[i]
    ensures ContentsFrom(q, p) == ContentsFrom(r, p)
    decreases LEVELS - p
  {
    if p < LEVELS {
      LaterDequesSame(q, r, p + 1);
    }
  }

  lemma EmptiedLevel(q: Deques, p: nat)
    requires DequesOk(q) && p < LEVELS
    ensures DequesOk(q[p := []]) && |ContentsFrom(q, p)| == |q[p]| + |ContentsFrom(q[p := []], p + 1)|
  {
    LaterDequesSame(q, q[p := []], p + 1);
  }

  /** Empty levels add nothing. */
  lemma {:induction false} SkipEmpty(q: Deques, p: nat)
    requires p <= LEVELS && forall i | 0 <= i < p :: i in q ==> q[i] == []
    ensures ContentsOf(q) == ContentsFrom(q, p)
  {}

  // ----- dequeuing, as the code does it -----

  /** The first non-empty level from `p` on. */
  function FirstLevel(q: Deques, p: nat): (r: nat)
    requires p <= LEVELS
    ensures p <= r <= LEVELS
    ensures r < LEVELS ==> r in q && q[r] != []
    ensures forall i | p <= i < r :: i in q ==> q[i] == []
    decreases LEVELS - p
  {
    if p == LEVELS || (p in q && q[p] != []) then p else FirstLevel(q, p + 1)
  }

  function Dequeue(q: Deques): Option<(Envelope, Deques)> {
    var p := FirstLevel(q, 0);
    if p == LEVELS then None else Some((q[p][0], q[p := q[p][1..]]))
  }

  /** A dequeue takes the head of the contents. */
  lemma DequeueTakesHead(q: Deques)
    requires DequesOk(q)
    ensures Dequeue(q).None? <==> ContentsOf(q) == []
    ensures Dequeue(q).Some? ==>
              && DequesOk(Dequeue(q).value.1)
              && ContentsOf(q) == [Dequeue(q).value.0] + ContentsOf(Dequeue(q).value.1)
  {
    var p := FirstLevel(q, 0);
    SkipEmpty(q, p);
    if p < LEVELS {
      TakeFromLevel(q, p);
      SkipEmpty(q[p := q[p][1..]], p);
    }
  }

  lemma HeadOut(a: seq<Envelope>, b: seq<Envelope>)
    requires a != []
    ensures a + b == [a[0]] + (a[1..] + b)
  {
  }

  lemma TakeKeepsLevels(q: Deques, p: int)
    requires DequesOk(q) && p in q && q[p] != []
    ensures DequesOk(q[p := q[p][1..]])
  {}

  lemma TakeFromLevel(q: Deques, p: nat)
    requires p < LEVELS && p in q && q[p] != [] && DequesOk(q)
    ensures DequesOk(q[p := q[p][1..]])
    ensures ContentsFrom(q, p) == [q[p][0]] + ContentsFrom(q[p := q[p][1..]], p)
  {
    TakeKeepsLevels(q, p);
    LaterDequesSame(q, q[p := q[p][1..]], p + 1);
    HeadOut(q[p], ContentsFrom(q, p + 1));
  }

  /** Getting without waiting until the queue is empty. */
  function RepeatedGets(q: Deques, fuel: nat): seq<Envelope> {
    if fuel == 0 || Dequeue(q).None? then []
    else [Dequeue(q).value.0] + RepeatedGets(Dequeue(q).value.1, fuel - 1)
  }

  /** Draining gives what as many gets as there are envelopes would give, in the same order,
      and one more get finds the queue empty. */
  lemma {:induction false} DrainIsRepeatedGets(q: Deques, fuel: nat)
    requires DequesOk(q) && |ContentsOf(q)| <= fuel
    ensures RepeatedGets(q, fuel) == ContentsOf(q)
    decreases fuel
  {
    hide Dequeue, ContentsOf, DequesOk;
    DequeueTakesHead(q);
    if ContentsOf(q) != [] {
      DrainIsRepeatedGets(Dequeue(q).value.1, fuel - 1);
    }
  }

  // ----- the reference: a set of stamped envelopes -----

  /** An envelope with the number of its arrival. */
  datatype Entry = Entry(envelope: Envelope, arrival: nat)

  predicate Before(a: Entry, b: Entry) {
    a.envelope.priority < b.envelope.priority || (a.envelope.priority == b.envelope.priority && a.arrival < b.arrival)
  }

  ghost predicate IsFirst(a: Entry, pending: set<Entry>) {
    a in pending && forall b | b in pending && b != a :: Before(a, b)
  }

  function Erase(s: seq<Entry>): seq<Envelope> {
    seq(|s|, i requires 0 <= i < |s| => s[i].envelope)
  }

  /** `s` is the pending set, strictly sorted by priority and arrival. */
  ghost predicate Arranges(s: seq<Entry>, pending: set<Entry>) {
    && (forall x :: x in s <==> x in pending)
    && (forall i, j | 0 <= i < j < |s| :: Before(s[i], s[j]))
  }

  function Place(s: seq<Entry>, x: Entry): seq<Entry> {
    if s == [] || x.envelope.priority < s[0].envelope.priority then [x] + s else [s[0]] + Place(s[1..], x)
  }

  lemma {:induction false} PlaceErases(s: seq<Entry>, x: Entry)
    ensures Erase(Place(s, x)) == StableInsert(Erase(s), x.envelope)
  {
    if s != [] && s[0].envelope.priority <= x.envelope.priority {
      PlaceErases(s[1..], x);
      assert Erase(s)[1..] == Erase(s[1..]);
      assert Erase([s[0]] + Place(s[1..], x)) == [s[0].envelope] + Erase(Place(s[1..], x));
    }
  }

  lemma {:induction false} PlaceArranges(s: seq<Entry>, x: Entry, pending: set<Entry>)
    requires Arranges(s, pending) && forall y | y in pending :: y.arrival < x.arrival
    ensures Arranges(Place(s, x), pending + {x})
  {
    if s != [] && s[0].envelope.priority <= x.envelope.priority {
      assert forall i | 0 < i < |s| :: Before(s[0], s[i]);
      assert Arranges(s[1..], pending - {s[0]}) by {
        assert s == [s[0]] + s[1..];
      }
      PlaceArranges(s[1..], x, pending - {s[0]});
      var t := Place(s[1..], x);
      forall y | y in t ensures Before(s[0], y) {
        assert y in pending - {s[0]} + {x};
        assert s == [s[0]] + s[1..];
      }
      assert forall i | 0 <= i < |t| :: t[i] in t;
    }
  }

  /** A run of the queue: envelopes put, or None for a get. */
  type QueueRun = seq<Option<Envelope>>

  ghost predicate AllFirst(gets: seq<(Option<Entry>, set<Entry>)>) {
    forall g | g in gets :: if g.0.None? then g.1 == {} else IsFirst(g.0.value, g.1)
  }

  /** The reference run records, for each get, the entry it takes and the set it takes it from. */
  ghost function Reference(s: seq<Entry>, pending: set<Entry>, next: nat, run: QueueRun): seq<(Option<Entry>, set<Entry>)>
    decreases run
  {
    if run == [] then []
    else if run[0].Some? then
      var x := Entry(run[0].value, next);
      Reference(Place(s, x), pending + {x}, next + 1, run[1..])
    else if s == [] then [(None, pending)] + Reference(s, pending, next, run[1..])
    else [(Some(s[0]), pending)] + Reference(s[1..], pending - {s[0]}, next, run[1..])
  }

  /** What the queue hands out over the same run. */
  function Outputs(s: seq<Envelope>, run: QueueRun): seq<Option<Envelope>>
    decreases run
  {
    if run == [] then []
    else if run[0].Some? then Outputs(StableInsert(s, run[0].value), run[1..])
    else if s == [] then [None] + Outputs(s, run[1..])
    else [Some(s[0])] + Outputs(s[1..], run[1..])
  }

  function EraseGets(gets: seq<(Option<Entry>, set<Entry>)>): seq<Option<Envelope>> {
    seq(|gets|, i requires 0 <= i < |gets| => if gets[i].0.None? then None else Some(gets[i].0.value.envelope))
  }

  lemma EmptyArrangement(pending: set<Entry>)
    requires Arranges([], pending)
    ensures pending == {}
  {
    assert forall x | x in pending :: x in [];
  }

  lemma HeadIsFirst(s: seq<Entry>, pending: set<Entry>)
    requires Arranges(s, pending) && s != []
    ensures IsFirst(s[0], pending) && Arranges(s[1..], pending - {s[0]}) && Erase(s)[1..] == Erase(s[1..])
  {}

  /** In every run, every get returns the pending envelope with the least priority value and,
      among equals, the earliest arrival; it finds nothing only when nothing is pending. */
  lemma {:induction false} EveryGetIsFirst(s: seq<Entry>, pending: set<Entry>, next: nat, run: QueueRun)
    requires Arranges(s, pending) && forall y | y in pending :: y.arrival < next
    ensures AllFirst(Reference(s, pending, next, run))
    ensures Outputs(Erase(s), run) == EraseGets(Reference(s, pending, next, run))
    decreases run
  {
    hide Place, StableInsert, Arranges;
    if run != [] {
      if run[0].Some? {
        var x := Entry(run[0].value, next);
        PlaceErases(s, x);
        PlaceArranges(s, x, pending);
        EveryGetIsFirst(Place(s, x), pending + {x}, next + 1, run[1..]);
      } else if s == [] {
        EmptyArrangement(pending);
        EveryGetIsFirst(s, pending, next, run[1..]);
      } else {
        HeadIsFirst(s, pending);
        EveryGetIsFirst(s[1..], pending - {s[0]}, next, run[1..]);
      }
    }
  }

  // ----- the class -----

  class PriorityQueue {
    const maxsize: int
    var queues: Deques
    var total: int

    ghost predicate Valid()
      reads this
    {
      && DequesOk(queues)
      && total == |ContentsOf(queues)|
      && (maxsize > 0 ==> total <= maxsize)
    }

    ghost function Contents(): seq<Envelope>
      reads this
    {
      ContentsOf(queues)
    }

    constructor (maxsize: int)
      ensures Valid() && Contents() == [] && this.maxsize == maxsize
    {
      this.maxsize := maxsize;
      queues := map[0 := [], 1 := [], 2 := [], 3 := [], 4 := []];
      total := 0;
      new;
      SkipEmpty(queues, LEVELS);
    }

    /** One attempt of `put`; the caller waits and tries again while the queue is full. It is
        also what `put_nowait` does, which raises instead of waiting. */
    method Put(e: Envelope) returns (r: PutResult)
      requires Valid()
      modifies this
      ensures Valid()
      ensures r == (if maxsize > 0 && |old(Contents())| >= maxsize then Full
                    else if 0 <= e.priority < LEVELS then Stored else UnknownPriority)
      ensures Contents() == if r.Stored? then StableInsert(old(Contents()), e) else old(Contents())
    {
      if maxsize > 0 && total >= maxsize {
        return Full;
      }
      if e.priority !in queues {
        return UnknownPriority;
      }
      AppendIsStableInsert(queues, e, 0);
      InsertLength(Contents(), e);
      queues := queues[e.priority := queues[e.priority] + [e]];
      total := total + 1;
      return Stored;
    }

    lemma {:induction false} InsertLength(s: seq<Envelope>, e: Envelope)
      ensures |StableInsert(s, e)| == |s| + 1
    {
      if s != [] {
        InsertLength(s[1..], e);
      }
    }

    /** None stands for the error of `get_nowait` on an empty queue. */
    method GetNowait() returns (r: Option<Envelope>)
      requires Valid()
      modifies this
      ensures Valid()
      ensures if old(Contents()) == [] then r == None && Contents() == []
              else r == Some(old(Contents())[0]) && Contents() == old(Contents())[1..]
    {
      if total == 0 {
        return None;
      }
      var e := DequeueHighestPriority();
      return Some(e);
    }

    /** With a positive counter the scan always finds an envelope. */
    method DequeueHighestPriority() returns (e: Envelope)
      requires Valid() && total > 0
      modifies this
      ensures Valid()
      ensures e == old(Contents())[0] && Contents() == old(Contents())[1..]
    {
      DequeueTakesHead(queues);
      for p := 0 to LEVELS
        invariant queues == old(queues) && total == old(total)
        invariant FirstLevel(queues, 0) == FirstLevel(queues, p)
      {
        if queues[p] != [] {
          e := queues[p][0];
          queues := queues[p := queues[p][1..]];
          total := total - 1;
          return;
        }
      }
      assert false;
      e := Envelope("", "", 0);
    }

    /** Empties one deque, head first. */
    method DrainLevel(p: nat, soFar: seq<Envelope>) returns (result: seq<Envelope>)
      requires DequesOk(queues) && p < LEVELS
      modifies this
      ensures result == soFar + old(queues)[p]
      ensures queues == old(queues)[p := []] && total == old(total) - |old(queues)[p]|
    {
      result := soFar;
      while queues[p] != []
        invariant p in queues && queues == old(queues)[p := queues[p]]
        invariant result + queues[p] == soFar + old(queues)[p]
        invariant total == old(total) - |old(queues)[p]| + |queues[p]|
        decreases |queues[p]|
      {
        result := result + [queues[p][0]];
        queues := queues[p := queues[p][1..]];
        total := total - 1;
      }
    }

    /** Empties the queue, most urgent first. */
    method Drain() returns (result: seq<Envelope>)
      requires Valid()
      modifies this
      ensures Valid() && Contents() == []
      ensures result == old(Contents())
    {
      result := [];
      for p := 0 to LEVELS
        invariant DequesOk(queues) && total == |ContentsFrom(queues, p)|
        invariant forall i | 0 <= i < p :: queues[i] == []
        invariant result + ContentsFrom(queues, p) == old(Contents())
      {
        LevelOut(queues, p, result);
        result := DrainLevel(p, result);
      }
      SkipEmpty(queues, LEVELS);
    }

    lemma LevelOut(q: Deques, p: nat, soFar: seq<Envelope>)
      requires DequesOk(q) && p < LEVELS
      ensures DequesOk(q[p := []])
      ensures soFar + ContentsFrom(q, p) == (soFar + q[p]) + ContentsFrom(q[p := []], p + 1)
      ensures |ContentsFrom(q, p)| == |q[p]| + |ContentsFrom(q[p := []], p + 1)|
    {
      LaterDequesSame(q, q[p := []], p + 1);
    }

    /** Throws everything away and counts it. */
    method Clear() returns (count: nat)
      requires Valid()
      modifies this
      ensures Valid() && Contents() == []
      ensures count == |old(Contents())|
    {
      count := 0;
      for p := 0 to LEVELS
        invariant DequesOk(queues)
        invariant forall i | 0 <= i < p :: queues[i] == []
        invariant count + |ContentsFrom(queues, p)| == |old(Contents())|
      {
        count := count + |queues[p]|;
        EmptiedLevel(queues, p);
        queues := queues[p := []];
      }
      total := 0;
      SkipEmpty(queues, LEVELS);
    }
  }
}
