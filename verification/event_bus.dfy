/** EventBus (bus/EventBus): the façade that forwards register and unregister
    to the registry, hands posted events to the dispatcher, re-posts events
    that reach nobody as DeadEvents, and passes the failures the dispatcher
    reports on to the exception handler.

    The bus's world is a class table with the DeadEvent class in it; its
    identity is a BusRef, which the DeadEvents it creates carry. The
    exception handler is a function from the failure and its context to
    what the handler itself throws, if anything. */
module Bus {
  import opened JavaLang
  import opened Types
  import opened Events
  import opened Subscribers
  import opened Strategy
  import opened Registry
  import ConcatIterator
  import opened EventDispatch
  import opened ExceptionContexts

  /** The one subscriber strategy of the model: the annotated strategy of
      module Strategy. */
  datatype SubscriberStrategy = DefaultSubscriberStrategy

  /** An exception handler: what it throws when given a failure and its context. */
  type ExceptionHandler = (Throwable, Context) -> Option<Throwable>

  /** handleException's call of the handler: the failure, its context, and
      what the handler threw, which the bus logs and swallows. */
  datatype HandlerCall = HandlerCall(exception: Throwable, context: Context, handlerFailure: Option<Throwable>)

  /** What post(e) hands to the dispatcher, given the registry's sets `m`: `e`
      with the subscribers of its class's hierarchy when there are any;
      otherwise, unless `e` is already a DeadEvent, a DeadEvent around `e` with
      the subscribers of DeadEvent's hierarchy; otherwise nothing. Events
      whose class the table does not know reach nobody. */
  function Delivery(t: ClassTable, deadClass: ClassId, m: Buckets, self: BusRef, e: Event): Option<Queued> {
    if !ValidTable(t) || deadClass !in t || ClassOfEvent(e, deadClass) !in t then None
    else
      var subs := Flat(BucketsFor(t, m, ClassOfEvent(e, deadClass)));
      if subs != [] then Some(Queued(e, subs))
      else if e.Dead? then None
      else
        var deadSubs := Flat(BucketsFor(t, m, deadClass));
        if deadSubs != [] then Some(Queued(Dead(self, e), deadSubs)) else None
  }

  /** How the dispatcher sees a post made by a subscriber on this bus. */
  function Route(t: ClassTable, deadClass: ClassId, m: Buckets, self: BusRef): Event -> Option<Queued> {
    e => Delivery(t, deadClass, m, self, e)
  }

  /** A DeadEvent is never wrapped again: what is dispatched is the posted
      event itself, or a DeadEvent of this bus around an event that is not
      one, and only when the event itself reaches nobody. */
  lemma NeverDoubleWraps(t: ClassTable, deadClass: ClassId, m: Buckets, self: BusRef, e: Event)
    ensures var d := Delivery(t, deadClass, m, self, e);
      d.Some? ==> d.value.event == e || (!e.Dead? && d.value.event == Dead(self, e))
    ensures var d := Delivery(t, deadClass, m, self, e);
      e.Dead? && d.Some? ==> d.value.event == e
    ensures var d := Delivery(t, deadClass, m, self, e);
      d.Some? && d.value.event != e ==> Flat(BucketsFor(t, m, ClassOfEvent(e, deadClass))) == []
  {
  }

  /** The subscribers an event is dispatched to are exactly those registered
      for a type of its class's hierarchy, and there is at least one. */
  lemma DeliveredToRegistered(t: ClassTable, deadClass: ClassId, m: Buckets, self: BusRef, e: Event, s: Subscriber)
    requires Delivery(t, deadClass, m, self, e).Some?
    ensures var d := Delivery(t, deadClass, m, self, e).value;
      d.subscribers != [] &&
      (s in d.subscribers <==> exists k :: k in Flatten(t, ClassOfEvent(d.event, deadClass)) && k in m && s in m[k])
  {
    var d := Delivery(t, deadClass, m, self, e).value;
    SetsOfMembers(m, Flatten(t, ClassOfEvent(d.event, deadClass)), s);
  }

  /** With a subscriber registered for a supertype of every class, such as
      Object, no event is considered dead: each is dispatched as it is. */
  lemma RootSubscriberPreventsDeadEvents(t: ClassTable, deadClass: ClassId, m: Buckets, self: BusRef,
                                         root: ClassId, e: Event)
    requires ValidTable(t) && deadClass in t && ClassOfEvent(e, deadClass) in t
    requires forall c :: c in t ==> root in Flatten(t, c)
    requires root in m && m[root] != []
    ensures Delivery(t, deadClass, m, self, e).Some? && Delivery(t, deadClass, m, self, e).value.event == e
  {
    var types := Flatten(t, ClassOfEvent(e, deadClass));
    SetsOfMembers(m, types, m[root][0]);
    assert m[root][0] in Flat(SetsOf(m, types));
  }

  /** The ordinary iterators of subscribersFor, numbered from 1 (0 is the
      empty iterator the concatenation starts with). */
  function Cursors(sets: seq<seq<Subscriber>>): (r: seq<ConcatIterator.Cursor<Subscriber>>)
    ensures |r| == |sets|
    ensures forall k :: 0 <= k < |sets| ==> r[k] == ConcatIterator.Cursor(k + 1, sets[k])
  {
    seq(|sets|, k requires 0 <= k < |sets| => ConcatIterator.Cursor(k + 1, sets[k]))
  }

  lemma {:induction false} ConcatenationSnoc<T>(cs: seq<ConcatIterator.Cursor<T>>, c: ConcatIterator.Cursor<T>)
    ensures ConcatIterator.Concatenation(cs + [c]) == ConcatIterator.Concatenation(cs) + c.rest
    decreases |cs|
  {
    if cs == [] {
      assert ([c])[1..] == [];
    } else {
      assert (cs + [c])[1..] == cs[1..] + [c];
      ConcatenationSnoc(cs[1..], c);
    }
  }

  /** The concatenated iterator over the snapshots yields their subscribers
      one set after the other. */
  lemma {:induction false} CursorsConcatenate(sets: seq<seq<Subscriber>>)
    ensures ConcatIterator.Concatenation(Cursors(sets)) == Flat(sets)
    decreases |sets|
  {
    if sets != [] {
      var init := sets[..|sets| - 1];
      var last := ConcatIterator.Cursor(|sets|, sets[|sets| - 1]);
      assert Cursors(sets) == Cursors(init) + [last];
      CursorsConcatenate(init);
      ConcatenationSnoc(Cursors(init), last);
    }
  }

  class EventBus {
    const identifier: string
    const self: BusRef
    const handler: ExceptionHandler
    const dispatcher: DefaultEventDispatcher
    const strategy: SubscriberStrategy
    const registry: SubscriberRegistry
    const table: ClassTable
    const deadClass: ClassId

    ghost predicate Valid()
      reads this, registry
    {
      ValidTable(table) && deadClass in table && registry.Valid()
    }

    constructor (identifier: string, self: BusRef, handler: ExceptionHandler, dispatcher: DefaultEventDispatcher,
                 strategy: SubscriberStrategy, registry: SubscriberRegistry, table: ClassTable, deadClass: ClassId)
      requires ValidTable(table) && deadClass in table && registry.Valid()
      ensures Valid()
      ensures this.identifier == identifier && this.self == self && this.handler == handler
      ensures this.dispatcher == dispatcher && this.strategy == strategy && this.registry == registry
      ensures this.table == table && this.deadClass == deadClass
    {
      this.identifier, this.self, this.handler := identifier, self, handler;
      this.dispatcher, this.strategy, this.registry := dispatcher, strategy, registry;
      this.table, this.deadClass := table, deadClass;
    }

    /** The full constructor: every argument must be non-null. */
    static method New(identifier: Option<string>, self: BusRef, handler: Option<ExceptionHandler>,
                      dispatcher: Option<DefaultEventDispatcher>, strategy: Option<SubscriberStrategy>,
                      registry: Option<SubscriberRegistry>, table: ClassTable, deadClass: ClassId)
      returns (r: Result<EventBus>)
      requires ValidTable(table) && deadClass in table
      requires registry.Some? ==> registry.value.Valid()
      ensures r.Ok? <==> identifier.Some? && handler.Some? && dispatcher.Some? && strategy.Some? && registry.Some?
      ensures r.Err? ==> r.error == NullPointer
      ensures r.Ok? ==> fresh(r.value) && r.value.Valid()
      ensures r.Ok? ==> r.value.identifier == identifier.value && r.value.self == self && r.value.handler == handler.value
      ensures r.Ok? ==> r.value.dispatcher == dispatcher.value && r.value.strategy == strategy.value
      ensures r.Ok? ==> r.value.registry == registry.value && r.value.table == table && r.value.deadClass == deadClass
    {
      if identifier.None? || handler.None? || dispatcher.None? || strategy.None? || registry.None? {
        return Err(NullPointer);
      }
      var bus := new EventBus(identifier.value, self, handler.value, dispatcher.value,
                              strategy.value, registry.value, table, deadClass);
      return Ok(bus);
    }

    /** register: forwarded to the registry with the bus's strategy. */
    method Register(listener: Option<Listener>) returns (r: Result<()>)
      requires Valid() && (listener.Some? ==> listener.value.cls in table)
      modifies registry
      ensures Valid()
      ensures var f := FoundSubscribers(table, listener);
        (f.Err? ==> r == Err(f.error) && registry.subscribers == old(registry.subscribers)) &&
        (f.Ok? ==> r == Ok(()) && registry.subscribers == Registered(old(registry.subscribers), f.value))
    {
      r := registry.Register(table, listener);
    }

    /** unregister: forwarded to the registry with the bus's strategy. */
    method Unregister(listener: Option<Listener>) returns (r: Result<()>)
      requires Valid() && (listener.Some? ==> listener.value.cls in table)
      modifies registry
      ensures Valid()
      ensures var f := FoundSubscribers(table, listener);
        (f.Err? ==> r == Err(f.error) && registry.subscribers == old(registry.subscribers)) &&
        (f.Ok? ==> (r.Ok? <==> Removable(old(registry.subscribers), f.value))) &&
        (f.Ok? && r.Ok? ==> registry.subscribers == Unregistered(old(registry.subscribers), f.value, f.value.Keys)) &&
        (f.Ok? && r.Err? ==> r.error == IllegalArgument)
    {
      r := registry.Unregister(table, listener);
    }

    /** What post(e) hands to the dispatcher, with the registry as it is. */
    ghost function Delivered(e: Event): Option<Queued>
      reads this, registry
    {
      Delivery(table, deadClass, registry.subscribers, self, e)
    }

    /** The iterator subscribersFor returns for these snapshots, the empty
        iterator when there are none and their concatenation otherwise, has a
        first element exactly when one of the snapshots is non-empty. */
    static method IteratorHasNext(sets: seq<seq<Subscriber>>) returns (hasNext: bool)
      ensures hasNext <==> Flat(sets) != []
    {
      if sets == [] {
        return false;
      }
      var it := ConcatIterator.ConcatenatedIterator.Concat(Some(ConcatIterator.Meta(ConcatIterator.Plains(Cursors(sets)))));
      hasNext := it.value.HasNext();
      ConcatIterator.FlatOfPlains(Cursors(sets));
      CursorsConcatenate(sets);
    }

    /** post: look the event's subscribers up; when the concatenated iterator
        has any, dispatch the event to them; otherwise re-post the event in a
        DeadEvent, unless it is one. `effect` says what each subscriber does
        when invoked, and `fuel` bounds the invocations of the drain. */
    method Post(event: Option<Event>, effect: (Subscriber, Event) -> Effect, fuel: nat)
      returns (r: Result<()>, trace: seq<Action>, complete: bool)
      requires Valid() && (event.Some? ==> WellTyped(table, deadClass, event.value))
      modifies dispatcher
      decreases if event.Some? && event.value.Dead? then 0 else 1
      ensures event.None? ==>
        r == Err(NullPointer) && trace == [] &&
        dispatcher.queue == old(dispatcher.queue) && dispatcher.dispatching == old(dispatcher.dispatching)
      ensures event.Some? ==> r == Ok(())
      ensures event.Some? && Delivered(event.value).None? ==>
        trace == [] && complete &&
        dispatcher.queue == old(dispatcher.queue) && dispatcher.dispatching == old(dispatcher.dispatching)
      ensures event.Some? && Delivered(event.value).Some? && old(dispatcher.dispatching) ==>
        dispatcher.dispatching && dispatcher.queue == old(dispatcher.queue) + [Delivered(event.value).value] &&
        trace == [] && complete
      ensures event.Some? && Delivered(event.value).Some? && !old(dispatcher.dispatching) ==>
        !dispatcher.dispatching && dispatcher.queue == [] &&
        (trace, complete) == Run(old(dispatcher.queue) + [Delivered(event.value).value], Delivered(event.value).value.event,
                                 Route(table, deadClass, registry.subscribers, self), effect, fuel)
    {
      var sets := registry.SubscribersFor(table, deadClass, event);
      if sets.Err? {
        return Err(sets.error), [], true;
      }
      var e := event.value;
      var subscribers := Flat(sets.value);
      var hasNext := IteratorHasNext(sets.value);
      if hasNext {
        trace, complete := dispatcher.Dispatch(e, subscribers, Route(table, deadClass, registry.subscribers, self), effect, fuel);
      } else if !e.Dead? {
        var dead := NewDeadEvent(Some(self), Some(e));
        r, trace, complete := Post(Some(dead.value), effect, fuel);
      } else {
        trace, complete := [], true;
      }
      r := Ok(());
    }

    /** handleException: every argument must be non-null; the handler is then
        called with a fresh context, and whatever it throws is logged and not
        propagated. */
    method HandleException(exception: Option<Throwable>, event: Option<Event>, subscriber: Option<Subscriber>)
      returns (r: Result<HandlerCall>)
      ensures r.Ok? <==> exception.Some? && event.Some? && subscriber.Some?
      ensures r.Err? ==> r.error == NullPointer
      ensures r.Ok? ==> r.value.exception == exception.value
      ensures r.Ok? ==> r.value.context == Context(self, event.value, subscriber.value)
      ensures r.Ok? ==> r.value.handlerFailure == handler(exception.value, r.value.context)
    {
      if exception.None? || event.None? || subscriber.None? {
        return Err(NullPointer);
      }
      var context := NewExceptionContext(Some(self), event, subscriber);
      var failure := handler(exception.value, context.value);
      return Ok(HandlerCall(exception.value, context.value, failure));
    }
  }
}
