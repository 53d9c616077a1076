/**
 * The in-memory event bus (hobo/core/bus.py): typed publish/subscribe, one first-in-first-out drain, a
 * guard against nested delivery and a bounded queue.  Handlers may publish while they run; what the n-th
 * handler call publishes is entry n of `script`, so any finite behaviour of any handlers is covered.
 */
module Bus {
  import opened RiskModel

  datatype Event =
    | MarkEvent(instrumentId: string, markPrice: real, tsNs: int)
    | FundingEvent(instrumentId: string, fundingRate: real, fundingTimeNs: int, tsNs: int)
    | FillEvent(orderId: string, bookId: string, instrumentId: string, side: Side, qty: real,
                fillPrice: real, fee: real, tradeId: string)
    | OrderUpdateEvent(orderId: string, bookId: string, status: string, reason: string)

  datatype EventType = MarkType | FundingType | FillType | OrderUpdateType

  function TypeOf(e: Event): EventType {
    match e
    case MarkEvent(_, _, _) => MarkType
    case FundingEvent(_, _, _, _) => FundingType
    case FillEvent(_, _, _, _, _, _, _, _) => FillType
    case OrderUpdateEvent(_, _, _, _) => OrderUpdateType
  }

  /** A book's own fills and order updates go only to that book's strategy. */
  predicate BelongsToOtherBook(e: Event, bookId: string) {
    (e.FillEvent? || e.OrderUpdateEvent?) && e.bookId != bookId
  }

  type Handler = nat
  type Subscriptions = map<EventType, seq<Handler>>
  datatype Call = Call(event: Event, handler: Handler)

  const DEFAULT_MAX_QUEUE_SIZE: nat := 10_000

  function HandlersOf(subs: Subscriptions, e: Event): seq<Handler> {
    if TypeOf(e) in subs then subs[TypeOf(e)] else []
  }

  function CallsOf(e: Event, hs: seq<Handler>): seq<Call> { seq(|hs|, i requires 0 <= i < |hs| => Call(e, hs[i])) }

  /** Events one after the other, each to all its subscribers in subscription order. */
  function Deliveries(subs: Subscriptions, es: seq<Event>): seq<Call> {
    if es == [] then []
    else Deliveries(subs, es[..|es| - 1]) + CallsOf(es[|es| - 1], HandlersOf(subs, es[|es| - 1]))
  }

  /** All calls for earlier events come before those for event i, and those before all later ones. */
  lemma {:induction false} DeliveriesInOrder(subs: Subscriptions, es: seq<Event>, i: nat)
    requires i < |es|
    ensures Deliveries(subs, es)
            == Deliveries(subs, es[..i]) + CallsOf(es[i], HandlersOf(subs, es[i])) + Deliveries(subs, es[i + 1..])
    decreases |es|
  {
    hide CallsOf, HandlersOf;
    var n, later := |es| - 1, es[i + 1..];
    if i < n {
      var mine := CallsOf(es[i], HandlersOf(subs, es[i]));
      DeliveriesInOrder(subs, es[..n], i);
      assert es[..n][..i] == es[..i] && es[..n][i + 1..] == later[..|later| - 1];
      assert Deliveries(subs, later)
          == Deliveries(subs, later[..|later| - 1]) + CallsOf(es[n], HandlersOf(subs, es[n]));
    }
  }

  /** Who is subscribed to what an event is, in the order they subscribed. */
  function SubscribersOf(subs: Subscriptions, e: Event): seq<Handler> {
    match e
    case MarkEvent(_, _, _) => if MarkType in subs then subs[MarkType] else []
    case FundingEvent(_, _, _, _) => if FundingType in subs then subs[FundingType] else []
    case FillEvent(_, _, _, _, _, _, _, _) => if FillType in subs then subs[FillType] else []
    case OrderUpdateEvent(_, _, _, _) => if OrderUpdateType in subs then subs[OrderUpdateType] else []
  }

  predicate IsCall(calls: seq<Call>, k: nat, e: Event, h: Handler) {
    k < |calls| && calls[k].event == e && calls[k].handler == h
  }

  /** From `start` on, the event reaches each of these handlers once, in this order. */
  ghost predicate CalledInOrder(calls: seq<Call>, start: nat, e: Event, hs: seq<Handler>) {
    start + |hs| <= |calls| && forall i | 0 <= i < |hs| :: IsCall(calls, start + i, e, hs[i])
  }

  ghost predicate Blocks(starts: seq<nat>, calls: seq<Call>, subs: Subscriptions, es: seq<Event>) {
    && |starts| == |es| + 1 && starts[0] == 0 && starts[|es|] == |calls|
    && (forall k | 0 <= k < |es| :: CalledInOrder(calls, starts[k], es[k], SubscribersOf(subs, es[k])))
    && (forall j, k | 0 <= j < |es| && k == j + 1 :: starts[k] == starts[j] + |SubscribersOf(subs, es[j])|)
  }

  /** Event by event and subscriber by subscriber, with no other call in between. */
  ghost predicate DeliveredInTurn(calls: seq<Call>, subs: Subscriptions, es: seq<Event>) {
    exists starts: seq<nat> :: Blocks(starts, calls, subs, es)
  }

  lemma CallsInOrder(subs: Subscriptions, e: Event, before: seq<Call>)
    ensures var hs := SubscribersOf(subs, e);
            && |CallsOf(e, HandlersOf(subs, e))| == |hs|
            && CalledInOrder(before + CallsOf(e, HandlersOf(subs, e)), |before|, e, hs)
  {
  }

  lemma {:induction false} DeliveriesInTurn(subs: Subscriptions, es: seq<Event>)
    ensures DeliveredInTurn(Deliveries(subs, es), subs, es)
  {
    hide HandlersOf, CallsOf, SubscribersOf;
    var calls := Deliveries(subs, es);
    if es == [] {
      assert Blocks([0], calls, subs, es);
    } else {
      var prior, e := es[..|es| - 1], es[|es| - 1];
      var before := Deliveries(subs, prior);
      DeliveriesInTurn(subs, prior);
      CallsInOrder(subs, e, before);
      var starts: seq<nat> :| Blocks(starts, before, subs, prior);
      OneMoreBlock(starts, subs, prior, e, before, calls);
      assert prior + [e] == es;
      assert Blocks(starts + [|calls|], calls, subs, es);
    }
  }

  lemma StillCalled(before: seq<Call>, calls: seq<Call>, start: nat, e: Event, hs: seq<Handler>)
    requires CalledInOrder(before, start, e, hs) && before <= calls
    ensures CalledInOrder(calls, start, e, hs)
  {
    forall i | 0 <= i < |hs| ensures IsCall(calls, start + i, e, hs[i]) {
      assert IsCall(before, start + i, e, hs[i]);
    }
  }

  lemma OneMoreBlock(starts: seq<nat>, subs: Subscriptions, es: seq<Event>, e: Event, before: seq<Call>, calls: seq<Call>)
    requires Blocks(starts, before, subs, es) && before <= calls
    requires CalledInOrder(calls, |before|, e, SubscribersOf(subs, e))
    requires |calls| == |before| + |SubscribersOf(subs, e)|
    ensures Blocks(starts + [|calls|], calls, subs, es + [e])
  {
    hide SubscribersOf, CalledInOrder;
    var more, all := starts + [|calls|], es + [e];
    forall k | 0 <= k < |all| ensures CalledInOrder(calls, more[k], all[k], SubscribersOf(subs, all[k])) {
      if k < |es| {
        assert more[k] == starts[k] && all[k] == es[k];
        StillCalled(before, calls, starts[k], es[k], SubscribersOf(subs, es[k]));
      } else {
        assert more[k] == |before| && all[k] == e;
      }
    }
  }

  lemma DeliveriesSnoc(subs: Subscriptions, es: seq<Event>, e: Event)
    ensures Deliveries(subs, es + [e]) == Deliveries(subs, es) + CallsOf(e, HandlersOf(subs, e))
  {
    assert (es + [e])[..|es|] == es;
  }

  lemma NothingDelivered(subs: Subscriptions)
    ensures Deliveries(subs, []) == []
  {
  }

  class EventBus {
    var handlers: Subscriptions
    var queue: seq<Event>
    var draining: bool
    var dropped: nat
    const maxQueueSize: nat

    var script: seq<seq<Event>>        // the environment: what each coming handler call publishes

    ghost var published: nat           // history: publish calls
    ghost var admitted: seq<Event>     // history: events that entered the queue, in order
    ghost var taken: seq<Event>        // history: those that have left it
    ghost var calls: seq<Call>         // history: handler calls made

    ghost predicate Valid()
      reads this
    {
      && admitted == taken + queue
      && |queue| <= maxQueueSize
      && published == |admitted| + dropped
      && (!draining ==> queue == [] && calls == Deliveries(handlers, taken))
    }

    constructor (maxQueueSize: nat)
      ensures Valid() && !draining && handlers == map[] && dropped == 0 && admitted == []
      ensures this.maxQueueSize == maxQueueSize
    {
      handlers, queue, draining, dropped := map[], [], false, 0;
      this.maxQueueSize := maxQueueSize;
      script := [];
      published, admitted, taken, calls := 0, [], [], [];
    }

    /** Appends to the subscribers of a type; done while wiring, before anything is delivered. */
    method Subscribe(t: EventType, h: Handler)
      requires Valid() && !draining && taken == []
      modifies this`handlers
      ensures Valid()
      ensures handlers == old(handlers)[t := (if t in old(handlers) then old(handlers)[t] else []) + [h]]
    {
      handlers := handlers[t := (if t in handlers then handlers[t] else []) + [h]];
    }

    /**
     * Called from inside a drain, only queues (or drops) the event.  Called from outside, also drains: on
     * return the queue is empty, the guard is clear, and every admitted event has been delivered in order.
     */
    method Publish(event: Event)
      requires Valid()
      modifies this
      ensures Valid() && handlers == old(handlers) && draining == old(draining)
      ensures old(draining) ==> calls == old(calls) && taken == old(taken) && script == old(script)
      ensures old(draining) ==> published == old(published) + 1
      ensures old(draining) ==>
        if old(|queue|) < maxQueueSize then queue == old(queue) + [event] && dropped == old(dropped)
        else queue == old(queue) && dropped == old(dropped) + 1
      ensures !old(draining) ==> queue == [] && taken == admitted
      ensures !old(draining) ==> old(admitted) + (if maxQueueSize > 0 then [event] else []) <= admitted
      ensures !old(draining) ==> calls == Deliveries(handlers, admitted)
      ensures !old(draining) ==> DeliveredInTurn(calls, handlers, admitted)
      decreases if draining then 0 else 1, 0
    {
      hide DeliveredInTurn, CalledInOrder, SubscribersOf, HandlersOf, CallsOf, Deliveries;
      NothingDelivered(handlers);
      published := published + 1;
      if |queue| >= maxQueueSize {
        dropped := dropped + 1;
        DeliveriesInTurn(handlers, admitted);
        return;
      }
      queue := queue + [event];
      admitted := admitted + [event];
      if draining {
        return;
      }
      draining := true;
      ghost var start := admitted;
      while queue != []
        invariant admitted == taken + queue && |queue| <= maxQueueSize && published == |admitted| + dropped
        invariant draining && handlers == old(handlers)
        invariant calls == Deliveries(handlers, taken)
        invariant start <= admitted
        decreases |script|, |queue|
      {
        var next := queue[0];
        ghost var before := taken;
        queue := queue[1..];
        taken := taken + [next];
        Deliver(next);
        DeliveriesSnoc(handlers, before, next);
      }
      draining := false;
      DeliveriesInTurn(handlers, admitted);
    }

    /** Calls each subscriber of the event's type once, in the order they subscribed. */
    method Deliver(event: Event)
      requires Valid() && draining
      modifies this
      ensures Valid() && draining && handlers == old(handlers) && taken == old(taken)
      ensures var hs := SubscribersOf(handlers, event);
              |calls| == |old(calls)| + |hs| && CalledInOrder(calls, |old(calls)|, event, hs)
      ensures old(calls) <= calls
      ensures calls == old(calls) + CallsOf(event, HandlersOf(handlers, event))
      ensures old(admitted) <= admitted
      ensures |script| < old(|script|) || (script == old(script) && queue == old(queue))
      decreases 0, 2
    {
      var hs := HandlersOf(handlers, event);
      for i := 0 to |hs|
        invariant Valid() && draining && handlers == old(handlers) && taken == old(taken)
        invariant calls == old(calls) + CallsOf(event, hs[..i])
        invariant old(admitted) <= admitted
        invariant |script| < old(|script|) || (script == old(script) && queue == old(queue))
      {
        assert CallsOf(event, hs[..i + 1]) == CallsOf(event, hs[..i]) + [Call(event, hs[i])];
        CallHandler(event, hs[i]);
      }
      assert hs[..|hs|] == hs;
      CallsInOrder(handlers, event, old(calls));
    }

    /** One handler runs; whatever it publishes re-enters `Publish`. */
    method CallHandler(event: Event, h: Handler)
      requires Valid() && draining
      modifies this
      ensures Valid() && draining && handlers == old(handlers) && taken == old(taken)
      ensures calls == old(calls) + [Call(event, h)]
      ensures old(admitted) <= admitted
      ensures |script| < old(|script|) || (script == old(script) && queue == old(queue))
      decreases 0, 1
    {
      calls := calls + [Call(event, h)];
      if script != [] {
        var emits := script[0];
        script := script[1..];
        for i := 0 to |emits|
          invariant Valid() && draining && handlers == old(handlers) && taken == old(taken)
          invariant calls == old(calls) + [Call(event, h)]
          invariant old(admitted) <= admitted && script == old(script)[1..]
        {
          Publish(emits[i]);
        }
      }
    }
  }
}
