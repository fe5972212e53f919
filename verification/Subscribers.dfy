/** The registry of subscriptions behind the bus: a handler list for each event type, and an index of
    the live tokens. */
module Subscribers {
  import opened Sequences
  import opened EventBus
  import opened EventBusSafety
  import opened PriorityQueue

  /** `owner` maps a live token to the event type that it was issued for. */
  datatype Registry = Registry(lists: map<EventType, seq<Subscription>>, owner: map<Subscription, EventType>)

  const EMPTY := Registry(map[], map[])

  function HandlersOf(r: Registry, t: EventType): seq<Subscription> {
    if t in r.lists then r.lists[t] else []
  }

  /** Exactly the live tokens are listed, each once, under its own event type. */
  ghost predicate Indexed(r: Registry) {
    && (forall t :: Distinct(HandlersOf(r, t)))
    && (forall t, s :: s in HandlersOf(r, t) <==> s in r.owner && r.owner[s] == t)
  }

  function WithToken(r: Registry, t: EventType, sub: Subscription): Registry {
    Registry(r.lists[t := HandlersOf(r, t) + [sub]], r.owner[sub := t])
  }

  /** Looks for the token under the event type that it carries. */
  function WithoutToken(r: Registry, t: EventType, sub: Subscription): (Registry, bool) {
    if sub !in r.owner then (r, false)
    else (Registry(r.lists[t := Without(HandlersOf(r, t), sub)], r.owner - {sub}), true)
  }

  lemma {:induction false} WithoutDropsOnly(s: seq<Subscription>, x: Subscription)
    ensures forall y :: y in Without(s, x) <==> y in s && y != x
  {
    if s != [] {
      WithoutDropsOnly(s[1..], x);
      assert s == [s[0]] + s[1..];
    }
  }

  lemma {:induction false} WithoutLast(s: seq<Subscription>, x: Subscription)
    requires x !in s
    ensures Without(s, x) == s && Without(s + [x], x) == s
  {
    if s == [] {
      assert Without([x], x) == [];
    } else {
      assert (s + [x])[1..] == s[1..] + [x];
      WithoutLast(s[1..], x);
    }
  }

  /** A new token is listed and indexed; the other handler lists stay as they are. */
  lemma SubscribeKeepsIndex(r: Registry, t: EventType, sub: Subscription)
    requires Indexed(r) && sub !in r.owner
    ensures Indexed(WithToken(r, t, sub))
    ensures forall u | u != t :: HandlersOf(WithToken(r, t, sub), u) == HandlersOf(r, u)
  {
    var next, list := WithToken(r, t, sub), HandlersOf(r, t);
    assert sub !in list;
    assert HandlersOf(next, t) == list + [sub];
    assert forall s :: s in list + [sub] <==> s in list || s == sub;
    assert Distinct(list + [sub]);
    hide Distinct;
    forall u ensures Distinct(HandlersOf(next, u)) {
      assert u != t ==> HandlersOf(next, u) == HandlersOf(r, u);
    }
    forall u, s ensures s in HandlersOf(next, u) <==> s in next.owner && next.owner[s] == u {
      assert u != t ==> HandlersOf(next, u) == HandlersOf(r, u);
    }
  }

  lemma OwnTokenKeepsIndex(r: Registry, t: EventType, sub: Subscription)
    requires Indexed(r) && sub in r.owner && r.owner[sub] == t
    ensures Indexed(WithoutToken(r, t, sub).0)
  {
    var next, left := WithoutToken(r, t, sub).0, Without(HandlersOf(r, t), sub);
    WithoutDropsOnly(HandlersOf(r, t), sub);
    WithoutIsDistinct(HandlersOf(r, t), sub);
    hide Distinct, Without;
    forall u ensures HandlersOf(next, u) == if u == t then left else HandlersOf(r, u) {}
    hide HandlersOf, Indexed;
    assert next.owner == r.owner - {sub};
    forall u, s ensures s in HandlersOf(next, u) <==> s in next.owner && next.owner[s] == u {
      IndexedAt(r, u, s);
      IndexedAt(r, t, s);
    }
    forall u ensures Distinct(HandlersOf(next, u)) {
      IndexedAt(r, u, sub);
    }
    assert Indexed(next) by { IndexedIfAt(next); }
  }

  lemma IndexedAt(r: Registry, t: EventType, s: Subscription)
    requires Indexed(r)
    ensures s in HandlersOf(r, t) <==> s in r.owner && r.owner[s] == t
    ensures Distinct(HandlersOf(r, t))
  {
    hide HandlersOf, Distinct;
  }

  lemma IndexedIfAt(r: Registry)
    requires forall t :: Distinct(HandlersOf(r, t))
    requires forall t, s :: s in HandlersOf(r, t) <==> s in r.owner && r.owner[s] == t
    ensures Indexed(r)
  {
    hide HandlersOf, Distinct;
  }

  /** A token with the wrong event type leaves its handler listed without an index entry; with the
      right one, or unknown, it does no harm. */
  lemma UnsubscribeKeepsIndexIff(r: Registry, t: EventType, sub: Subscription)
    requires Indexed(r)
    ensures Indexed(WithoutToken(r, t, sub).0) <==> sub !in r.owner || r.owner[sub] == t
  {
    if sub in r.owner {
      if r.owner[sub] == t {
        OwnTokenKeepsIndex(r, t, sub);
      } else {
        var next, own := WithoutToken(r, t, sub).0, r.owner[sub];
        assert sub in HandlersOf(r, own) && HandlersOf(next, own) == HandlersOf(r, own);
        assert sub in HandlersOf(next, own) && sub !in next.owner;
      }
    }
  }

  /** Unsubscribing undoes subscribing. */
  lemma UnsubscribeUndoesSubscribe(r: Registry, t: EventType, sub: Subscription)
    requires Indexed(r) && sub !in r.owner
    ensures var (next, found) := WithoutToken(WithToken(r, t, sub), t, sub);
      found && next.owner == r.owner && forall u :: HandlersOf(next, u) == HandlersOf(r, u)
  {
    assert sub !in HandlersOf(r, t);
    WithoutLast(HandlersOf(r, t), sub);
    assert r.owner[sub := t] - {sub} == r.owner;
  }

  /** The bus delivers to the handlers that the registry lists. */
  ghost predicate Agrees(b: Bus, r: Registry) {
    forall t :: HandlersOf(r, t) == if t in b.lanes then b.lanes[t].subs else []
  }

  lemma BusSubscribesAlike(b: Bus, r: Registry, t: EventType, sub: Subscription)
    requires Agrees(b, r) && Indexed(r) && sub !in r.owner
    ensures Enabled(b, Subscribe(t, sub)) && Agrees(Step(b, Subscribe(t, sub)), WithToken(r, t, sub))
  {}

  lemma BusUnsubscribesAlike(b: Bus, r: Registry, t: EventType, sub: Subscription)
    requires Agrees(b, r) && Indexed(r) && sub in r.owner && r.owner[sub] == t
    ensures Enabled(b, Unsubscribe(t, sub)) && Agrees(Step(b, Unsubscribe(t, sub)), WithoutToken(r, t, sub).0)
  {}

  class SubscriberRegistry {
    var subscribers: map<EventType, seq<Subscription>>
    var subscriptions: map<Subscription, EventType>

    ghost function View(): Registry
      reads this
    {
      Registry(subscribers, subscriptions)
    }

    constructor ()
      ensures View() == EMPTY && Indexed(View())
    {
      subscribers, subscriptions := map[], map[];
    }

    /** `sub` is the fresh token. */
    method AddSubscriber(t: EventType, sub: Subscription)
      requires Indexed(View()) && sub !in subscriptions
      modifies this
      ensures Indexed(View()) && View() == WithToken(old(View()), t, sub)
    {
      SubscribeKeepsIndex(View(), t, sub);
      ghost var was := View();
      if t !in subscribers {
        subscribers := subscribers[t := []];
      }
      subscribers := subscribers[t := subscribers[t] + [sub]];
      subscriptions := subscriptions[sub := t];
      assert subscribers == WithToken(was, t, sub).lists;
    }

    method RemoveSubscriber(t: EventType, sub: Subscription) returns (found: bool)
      modifies this
      ensures (View(), found) == WithoutToken(old(View()), t, sub)
    {
      if sub !in subscriptions {
        return false;
      }
      var subs := if t in subscribers then subscribers[t] else [];
      subscribers := subscribers[t := Without(subs, sub)];
      subscriptions := subscriptions - {sub};
      return true;
    }

    function GetHandlers(t: EventType): (subs: seq<Subscription>)
      requires Indexed(View())
      reads this
      ensures Distinct(subs) && forall s :: s in subs <==> s in subscriptions && subscriptions[s] == t
    {
      assert subscribers == View().lists && subscriptions == View().owner;
      assert HandlersOf(View(), t) == if t in subscribers then subscribers[t] else [];
      if t in subscribers then subscribers[t] else []
    }
  }
}
