/** DefaultEventDispatcher (bus/DefaultEventDispatcher) for one thread: a FIFO
    queue of (event, subscribers) entries and a `dispatching` flag. The first
    dispatch on the thread drains the queue; dispatches made while it drains,
    from inside subscribers, only append to it.

    What a subscriber does when it is invoked is a parameter: the events it
    posts on the bus, in order, and how its invocation ends. What a post made
    from inside a subscriber enqueues is given by `route`, which the bus
    supplies: the entry the nested dispatch appends, or nothing when the
    event, wrapped or not, reaches no subscriber. A fuel bound on the number
    of invocations stands in for the possibility that subscribers post
    forever. */
module EventDispatch {
  import opened JavaLang
  import opened Events
  import opened Subscribers

  /** An entry of the queue: the event and the subscribers still to receive it. */
  datatype Queued = Queued(event: Event, subscribers: seq<Subscriber>)

  /** What a subscriber does with an event: the events it posts, then how its
      invocation ends. */
  datatype Effect = Effect(posts: seq<Event>, outcome: Invocation)

  /** What the drain loop does, in order: invoke a subscriber with an event,
      or report what one threw to bus.handleException(thrown, event, subscriber). */
  datatype Action =
    | Invoked(subscriber: Subscriber, event: Event)
    | Reported(thrown: Throwable, event: Event, subscriber: Subscriber)

  /** The entries the nested posts append, in the order they are posted. */
  function Routed(posts: seq<Event>, route: Event -> Option<Queued>): (r: seq<Queued>)
    ensures |r| <= |posts|
    decreases |posts|
  {
    if posts == [] then []
    else
      var p := route(posts[|posts| - 1]);
      Routed(posts[..|posts| - 1], route) + (if p.Some? then [p.value] else [])
  }

  /** Invoking `s` with `e`: the invocation, followed by the report when
      handle throws. The report names `outer`, the event the draining call was
      given, and not `e`. */
  function Acts(outer: Event, s: Subscriber, e: Event, outcome: Invocation): seq<Action> {
    var thrown := Handle(Some(e), outcome);
    [Invoked(s, e)] + (if thrown.Some? then [Reported(thrown.value, outer, s)] else [])
  }

  /** The queue once the first subscriber of its head entry has been
      invoked: the rest of that entry stays at the head. */
  function Rest(q: seq<Queued>): seq<Queued>
    requires q != [] && q[0].subscribers != []
  {
    [Queued(q[0].event, q[0].subscribers[1..])] + q[1..]
  }

  /** The queue after the first invocation of the drain: what the subscriber
      posted is appended at the tail. */
  function Next(q: seq<Queued>, route: Event -> Option<Queued>, effect: (Subscriber, Event) -> Effect): seq<Queued>
    requires q != [] && q[0].subscribers != []
  {
    Rest(q) + Routed(effect(q[0].subscribers[0], q[0].event).posts, route)
  }

  /** The drain of queue `q` by the call that was given `outer`: the actions
      taken, and whether the queue emptied within `fuel` invocations. The entry
      being drained stays at the head of `q`, with the subscribers it has left. */
  function Run(q: seq<Queued>, outer: Event, route: Event -> Option<Queued>,
               effect: (Subscriber, Event) -> Effect, fuel: nat): (seq<Action>, bool)
    decreases fuel, |q|
  {
    if q == [] then ([], true)
    else if q[0].subscribers == [] then Run(q[1..], outer, route, effect, fuel)
    else if fuel == 0 then ([], false)
    else
      var e, s := q[0].event, q[0].subscribers[0];
      var rest := Run(Next(q, route, effect), outer, route, effect, fuel - 1);
      (Acts(outer, s, e, effect(s, e).outcome) + rest.0, rest.1)
  }

  /** Actions `acts` taken before the drain `r`. */
  function Then(acts: seq<Action>, r: (seq<Action>, bool)): (seq<Action>, bool) {
    (acts + r.0, r.1)
  }

  lemma ThenNothing(r: (seq<Action>, bool))
    ensures Then([], r) == r
  {
    assert [] + r.0 == r.0;
  }

  lemma ThenThen(a: seq<Action>, b: seq<Action>, r: (seq<Action>, bool))
    ensures Then(a, Then(b, r)) == Then(a + b, r)
  {
    assert a + (b + r.0) == (a + b) + r.0;
  }

  class DefaultEventDispatcher {
    /** The thread's queue of entries still to dispatch. */
    var queue: seq<Queued>
    /** Whether the thread is already draining the queue. */
    var dispatching: bool

    /** Both thread-locals start out at their initial values. */
    constructor ()
      ensures queue == [] && !dispatching
    {
      queue := [];
      dispatching := false;
    }

    /** dispatch(bus, event, subscribers): append the entry; a call made while
        the thread drains returns at once, and the first call drains the queue
        in FIFO order, including what is appended meanwhile, and then resets
        both thread-locals. */
    method Dispatch(outer: Event, subscribers: seq<Subscriber>, route: Event -> Option<Queued>,
                    effect: (Subscriber, Event) -> Effect, fuel: nat)
      returns (trace: seq<Action>, complete: bool)
      modifies this
      decreases if dispatching then 0 else 4
      ensures old(dispatching) ==>
        dispatching && queue == old(queue) + [Queued(outer, subscribers)] && trace == [] && complete
      ensures !old(dispatching) ==>
        !dispatching && queue == [] &&
        (trace, complete) == Run(old(queue) + [Queued(outer, subscribers)], outer, route, effect, fuel)
    {
      queue := queue + [Queued(outer, subscribers)];
      if dispatching {
        return [], true;
      }
      dispatching := true;
      trace, complete := Drain(outer, route, effect, fuel);
      dispatching, queue := false, [];
    }

    /** The outer loop of the drain: poll entries until the queue is empty. */
    method Drain(outer: Event, route: Event -> Option<Queued>,
                 effect: (Subscriber, Event) -> Effect, fuel: nat)
      returns (trace: seq<Action>, complete: bool)
      requires dispatching
      modifies this
      decreases 3
      ensures dispatching
      ensures (trace, complete) == Run(old(queue), outer, route, effect, fuel)
    {
      ghost var goal := Run(queue, outer, route, effect, fuel);
      trace := [];
      var budget := fuel;
      ThenNothing(goal);
      while queue != []
        invariant dispatching
        invariant Then(trace, Run(queue, outer, route, effect, budget)) == goal
        decreases budget, |queue|
      {
        ghost var polled := queue;
        var next := queue[0];
        queue := queue[1..];
        assert [Queued(next.event, next.subscribers)] + queue == polled;
        var acts, left, ok := Deliver(next.event, next.subscribers, outer, route, effect, budget);
        ThenThen(trace, acts, Run(queue, outer, route, effect, left));
        trace := trace + acts;
        if !ok {
          return trace, false;
        }
        budget := left;
      }
      assert Run(queue, outer, route, effect, budget) == ([], true);
      assert trace + [] == trace;
      complete := true;
    }

    /** The inner loop of the drain: hand the polled event to each of its
        subscribers, reporting what they throw. `left` is the fuel that
        remains; `complete` is false when the fuel ran out first. */
    method Deliver(e: Event, subs: seq<Subscriber>, outer: Event, route: Event -> Option<Queued>,
                   effect: (Subscriber, Event) -> Effect, budget: nat)
      returns (acts: seq<Action>, left: nat, complete: bool)
      requires dispatching
      modifies this
      decreases 2
      ensures dispatching
      ensures left <= budget && (left == budget ==> queue == old(queue))
      ensures complete ==>
        Then(acts, Run(queue, outer, route, effect, left)) == Run([Queued(e, subs)] + old(queue), outer, route, effect, budget)
      ensures !complete ==> (acts, false) == Run([Queued(e, subs)] + old(queue), outer, route, effect, budget)
    {
      ghost var goal := Run([Queued(e, subs)] + queue, outer, route, effect, budget);
      acts, left := [], budget;
      var rest := subs;
      ThenNothing(goal);
      while rest != []
        invariant dispatching
        invariant left <= budget && (left == budget ==> queue == old(queue))
        invariant Then(acts, Run([Queued(e, rest)] + queue, outer, route, effect, left)) == goal
        decreases left
      {
        if left == 0 {
          assert Run([Queued(e, rest)] + queue, outer, route, effect, left) == ([], false);
          assert acts + [] == acts;
          return acts, left, false;
        }
        var s := rest[0];
        var eff := effect(s, e);
        ghost var before, done := queue, acts;
        PostNested(eff.posts, route, effect, left);
        var thrown := Handle(Some(e), eff.outcome);
        acts := acts + [Invoked(s, e)];
        if thrown.Some? {
          acts := acts + [Reported(thrown.value, outer, s)];
        }
        assert acts == done + Acts(outer, s, e, eff.outcome);
        DrainStep(e, rest, before, outer, route, effect, left);
        ThenThen(done, Acts(outer, s, e, eff.outcome), Run([Queued(e, rest[1..])] + queue, outer, route, effect, left - 1));
        rest, left := rest[1..], left - 1;
      }
      assert Run([Queued(e, [])] + queue, outer, route, effect, left) == Run(queue, outer, route, effect, left) by {
        assert ([Queued(e, [])] + queue)[1..] == queue;
      }
      complete := true;
    }

    /** The posts a subscriber makes, each a nested post whose dispatch, while
        this thread drains, only appends its entry. */
    method PostNested(posts: seq<Event>, route: Event -> Option<Queued>,
                      effect: (Subscriber, Event) -> Effect, fuel: nat)
      requires dispatching
      decreases 1
      modifies this
      ensures dispatching && queue == old(queue) + Routed(posts, route)
    {
      for j := 0 to |posts|
        invariant dispatching && queue == old(queue) + Routed(posts[..j], route)
      {
        assert posts[..j + 1][..j] == posts[..j];
        var routed := route(posts[j]);
        if routed.Some? {
          var _, _ := Dispatch(routed.value.event, routed.value.subscribers, route, effect, fuel);
        }
      }
      assert posts[..|posts|] == posts;
    }
  }

  /** One invocation of the drain, as Run takes it. */
  lemma DrainStep(e: Event, subs: seq<Subscriber>, queue: seq<Queued>, outer: Event,
                  route: Event -> Option<Queued>, effect: (Subscriber, Event) -> Effect, fuel: nat)
    requires subs != [] && fuel > 0
    ensures Run([Queued(e, subs)] + queue, outer, route, effect, fuel) ==
      Then(Acts(outer, subs[0], e, effect(subs[0], e).outcome),
           Run([Queued(e, subs[1..])] + (queue + Routed(effect(subs[0], e).posts, route)), outer, route, effect, fuel - 1))
  {
    var q := [Queued(e, subs)] + queue;
    assert q[1..] == queue;
    assert Next(q, route, effect) == [Queued(e, subs[1..])] + (queue + Routed(effect(subs[0], e).posts, route));
  }

  /** Each subscriber of each entry, in queue order, invoked with its entry's event. */
  function Expand(q: seq<Queued>): seq<Action>
    decreases |q|
  {
    if q == [] then [] else Deliveries(q[0].event, q[0].subscribers) + Expand(q[1..])
  }

  function Deliveries(e: Event, subs: seq<Subscriber>): seq<Action>
    decreases |subs|
  {
    if subs == [] then [] else [Invoked(subs[0], e)] + Deliveries(e, subs[1..])
  }

  /** The invocations of a trace, without the reports. */
  function Invocations(trace: seq<Action>): seq<Action>
    decreases |trace|
  {
    if trace == [] then []
    else (if trace[0].Invoked? then [trace[0]] else []) + Invocations(trace[1..])
  }

  lemma {:induction false} InvocationsAppend(a: seq<Action>, b: seq<Action>)
    ensures Invocations(a + b) == Invocations(a) + Invocations(b)
    decreases |a|
  {
    if a == [] {
      assert a + b == b;
    } else {
      var h := if a[0].Invoked? then [a[0]] else [];
      assert (a + b)[0] == a[0];
      assert (a + b)[1..] == a[1..] + b;
      InvocationsAppend(a[1..], b);
      calc {
        Invocations(a + b);
        h + Invocations(a[1..] + b);
        h + (Invocations(a[1..]) + Invocations(b));
        (h + Invocations(a[1..])) + Invocations(b);
      }
    }
  }

  lemma {:induction false} ExpandAppend(a: seq<Queued>, b: seq<Queued>)
    ensures Expand(a + b) == Expand(a) + Expand(b)
    decreases |a|
  {
    if a == [] {
      assert a + b == b;
    } else {
      assert (a + b)[1..] == a[1..] + b;
      ExpandAppend(a[1..], b);
    }
  }

  /** The invocation of `s` and the one action it contributes to Invocations. */
  lemma InvocationsOfActs(outer: Event, s: Subscriber, e: Event, outcome: Invocation, rest: seq<Action>)
    ensures Invocations(Acts(outer, s, e, outcome) + rest) == [Invoked(s, e)] + Invocations(rest)
  {
    var acts := Acts(outer, s, e, outcome);
    InvocationsAppend(acts, rest);
    assert Invocations(acts) == [Invoked(s, e)] by {
      assert acts[1..] == [] || acts[1..] == [acts[1]];
      if acts[1..] != [] {
        assert acts[1..][1..] == [];
      }
    }
  }

  /** The first invocation of a drain is the head of the expansion, and
      the rest of the expansion is what remains queued. */
  lemma ExpandOfRest(q: seq<Queued>)
    requires q != [] && q[0].subscribers != []
    ensures Expand(q) == [Invoked(q[0].subscribers[0], q[0].event)] + Expand(Rest(q))
  {
    var e, subs := q[0].event, q[0].subscribers;
    var r := Rest(q);
    assert r[0] == Queued(e, subs[1..]) && r[1..] == q[1..];
    var d, x := Deliveries(e, subs[1..]), Expand(q[1..]);
    assert Expand(r) == d + x;
    assert Expand(q) == ([Invoked(subs[0], e)] + d) + x;
  }

  /** What was posted meanwhile comes after what remains queued. */
  lemma ExpandOfNext(q: seq<Queued>, route: Event -> Option<Queued>, effect: (Subscriber, Event) -> Effect)
    requires q != [] && q[0].subscribers != []
    ensures Expand(Next(q, route, effect)) == Expand(Rest(q)) + Expand(Routed(effect(q[0].subscribers[0], q[0].event).posts, route))
  {
    ExpandAppend(Rest(q), Routed(effect(q[0].subscribers[0], q[0].event).posts, route));
  }

  lemma PrefixAfter(x: Action, w: seq<Action>, n: seq<Action>, v: seq<Action>)
    requires w + n <= v
    ensures [x] + w <= [x] + v
  {
  }

  /** When the drain empties the queue, every subscriber of every entry it
      started with has been invoked, entry after entry and in each entry's
      order, before anything posted meanwhile: the queue is FIFO. */
  lemma {:induction false} RunInvokesInQueueOrder(q: seq<Queued>, outer: Event, route: Event -> Option<Queued>,
                                                 effect: (Subscriber, Event) -> Effect, fuel: nat)
    ensures Run(q, outer, route, effect, fuel).1 ==> Expand(q) <= Invocations(Run(q, outer, route, effect, fuel).0)
    decreases fuel, |q|
  {
    if q == [] {
    } else if q[0].subscribers == [] {
      RunInvokesInQueueOrder(q[1..], outer, route, effect, fuel);
      assert Expand(q) == Expand(q[1..]);
    } else if fuel > 0 {
      RunInvokesInQueueOrder(Next(q, route, effect), outer, route, effect, fuel - 1);
      InvokesInQueueOrderStep(q, outer, route, effect, fuel);
    }
  }

  /** The step of RunInvokesInQueueOrder past the first invocation. */
  lemma InvokesInQueueOrderStep(q: seq<Queued>, outer: Event, route: Event -> Option<Queued>,
                                effect: (Subscriber, Event) -> Effect, fuel: nat)
    requires q != [] && q[0].subscribers != [] && fuel > 0
    requires var rest := Run(Next(q, route, effect), outer, route, effect, fuel - 1);
      rest.1 ==> Expand(Next(q, route, effect)) <= Invocations(rest.0)
    ensures Run(q, outer, route, effect, fuel).1 ==> Expand(q) <= Invocations(Run(q, outer, route, effect, fuel).0)
  {
    var e, s := q[0].event, q[0].subscribers[0];
    var rest := Run(Next(q, route, effect), outer, route, effect, fuel - 1);
    assert Run(q, outer, route, effect, fuel) == (Acts(outer, s, e, effect(s, e).outcome) + rest.0, rest.1);
    if rest.1 {
      ExpandOfRest(q);
      ExpandOfNext(q, route, effect);
      InvocationsOfActs(outer, s, e, effect(s, e).outcome, rest.0);
      PrefixAfter(Invoked(s, e), Expand(Rest(q)), Expand(Routed(effect(s, e).posts, route)), Invocations(rest.0));
    }
  }

  /** When no subscriber's posts reach the queue and the fuel covers every
      invocation, the drain empties the queue and invokes exactly the
      subscribers it started with, in queue order. */
  lemma {:induction false} QuietRunInvokesExactly(q: seq<Queued>, outer: Event, route: Event -> Option<Queued>,
                                                 effect: (Subscriber, Event) -> Effect, fuel: nat)
    requires forall s, e :: Routed(effect(s, e).posts, route) == []
    requires |Expand(q)| <= fuel
    ensures Run(q, outer, route, effect, fuel).1
    ensures Invocations(Run(q, outer, route, effect, fuel).0) == Expand(q)
    decreases fuel, |q|
  {
    if q == [] {
    } else if q[0].subscribers == [] {
      assert Expand(q) == Expand(q[1..]);
      QuietRunInvokesExactly(q[1..], outer, route, effect, fuel);
    } else {
      var e, s := q[0].event, q[0].subscribers[0];
      var next := Next(q, route, effect);
      ExpandOfRest(q);
      ExpandOfNext(q, route, effect);
      assert Routed(effect(s, e).posts, route) == [];
      assert Expand(next) == Expand(Rest(q)) + [];
      QuietRunInvokesExactly(next, outer, route, effect, fuel - 1);
      InvocationsOfActs(outer, s, e, effect(s, e).outcome, Run(next, outer, route, effect, fuel - 1).0);
    }
  }

  /** Every report follows the invocation that threw, names that subscriber,
      what `handle` threw and the event the draining call was given; and
      every invocation that throws is followed by its report. */
  predicate FailuresReported(trace: seq<Action>, outer: Event, effect: (Subscriber, Event) -> Effect) {
    (forall i :: 0 <= i < |trace| && trace[i].Reported? ==>
       0 < i && trace[i - 1].Invoked? && trace[i - 1].subscriber == trace[i].subscriber &&
       trace[i].event == outer && Thrown(trace[i - 1], effect) == Some(trace[i].thrown)) &&
    (forall i :: 0 <= i < |trace| && trace[i].Invoked? && Thrown(trace[i], effect).Some? ==>
       i + 1 < |trace| && trace[i + 1] == Reported(Thrown(trace[i], effect).value, outer, trace[i].subscriber))
  }

  /** What `handle` throws for an invocation of the trace. */
  function Thrown(a: Action, effect: (Subscriber, Event) -> Effect): Option<Throwable>
    requires a.Invoked?
  {
    Handle(Some(a.event), effect(a.subscriber, a.event).outcome)
  }

  lemma ReportedCons(outer: Event, s: Subscriber, e: Event, effect: (Subscriber, Event) -> Effect, rest: seq<Action>)
    requires FailuresReported(rest, outer, effect)
    requires rest != [] ==> rest[0].Invoked?
    ensures FailuresReported(Acts(outer, s, e, effect(s, e).outcome) + rest, outer, effect)
  {
    var acts := Acts(outer, s, e, effect(s, e).outcome);
    var t := acts + rest;
    forall i | 0 <= i < |t| && t[i].Reported?
      ensures 0 < i && t[i - 1].Invoked? && t[i - 1].subscriber == t[i].subscriber && t[i].event == outer &&
        Thrown(t[i - 1], effect) == Some(t[i].thrown)
    {
      if i >= |acts| {
        assert t[i] == rest[i - |acts|];
        assert i - |acts| > 0;
        assert t[i - 1] == rest[i - 1 - |acts|];
      }
    }
    forall i | 0 <= i < |t| && t[i].Invoked? && Thrown(t[i], effect).Some?
      ensures i + 1 < |t| && t[i + 1] == Reported(Thrown(t[i], effect).value, outer, t[i].subscriber)
    {
      if i >= |acts| {
        assert t[i] == rest[i - |acts|];
        assert t[i + 1] == rest[i + 1 - |acts|];
      }
    }
  }

  /** A drain's trace starts with an invocation, if it has anything. */
  lemma {:induction false} RunStartsWithInvocation(q: seq<Queued>, outer: Event, route: Event -> Option<Queued>,
                                                  effect: (Subscriber, Event) -> Effect, fuel: nat)
    ensures Run(q, outer, route, effect, fuel).0 != [] ==> Run(q, outer, route, effect, fuel).0[0].Invoked?
    decreases fuel, |q|
  {
    if q != [] && q[0].subscribers == [] {
      RunStartsWithInvocation(q[1..], outer, route, effect, fuel);
    }
  }

  /** Failures are reported as they happen, each with the event the draining
      call was given, and none is lost. */
  lemma {:induction false} RunReportsEveryFailure(q: seq<Queued>, outer: Event, route: Event -> Option<Queued>,
                                                 effect: (Subscriber, Event) -> Effect, fuel: nat)
    ensures FailuresReported(Run(q, outer, route, effect, fuel).0, outer, effect)
    decreases fuel, |q|
  {
    if q == [] {
    } else if q[0].subscribers == [] {
      RunReportsEveryFailure(q[1..], outer, route, effect, fuel);
    } else if fuel > 0 {
      var e, s := q[0].event, q[0].subscribers[0];
      var next := Next(q, route, effect);
      RunReportsEveryFailure(next, outer, route, effect, fuel - 1);
      RunStartsWithInvocation(next, outer, route, effect, fuel - 1);
      ReportedCons(outer, s, e, effect, Run(next, outer, route, effect, fuel - 1).0);
    }
  }
}
