/** The in-process event bus: publishers, a bounded channel, and one dispatcher that calls a topic's handlers in turn. */
module EventBus {

  datatype Envelope<E> = Envelope(topic: string, event: E)

  /** A handler registered on a topic when `since` envelopes had been taken off the channel. */
  datatype Subscription = Subscription(topic: string, since: nat)

  /** A subscription's number stands for its handler; `called` logs the handler calls in order. */
  datatype Delivery<E> = Delivery(handler: nat, envelope: Envelope<E>)

  /** The channel, the handler table and the dispatcher's position: `todo` is what is left of the handler list it
      fetched for the last envelope of `taken`. `accepted` is the history of publications that found room. */
  datatype Bus<E> = Bus(
    capacity: nat, handlers: map<string, seq<nat>>, subscriptions: seq<Subscription>,
    buffer: seq<Envelope<E>>, closed: bool, done: bool, todo: seq<nat>,
    accepted: seq<Envelope<E>>, taken: seq<Envelope<E>>, called: seq<Delivery<E>>)

  /** The atomic steps of publishers, subscribers, the dispatcher and Close. */
  datatype Step<E> =
    | Publish(envelope: Envelope<E>)
    | Subscribe(topic: string)
    | Take
    | Call
    | CloseChannel
    | Finish

  function HandlersOf<E>(b: Bus<E>, topic: string): seq<nat> {
    if topic in b.handlers then b.handlers[topic] else []
  }

  function Start<E>(capacity: nat): Bus<E> { Bus(capacity, map[], [], [], false, false, [], [], [], []) }

  /** Publishing on a closed channel and closing it twice panic in Go; a step that cannot happen leaves the bus alone. */
  predicate Enabled<E>(b: Bus<E>, step: Step<E>) {
    match step
    case Publish(_) => !b.closed
    case Subscribe(_) => true
    case Take => b.todo == [] && b.buffer != []
    case Call => b.todo != [] && b.taken != []
    case CloseChannel => !b.closed
    case Finish => b.closed && b.buffer == [] && b.todo == [] && !b.done
  }

  function Apply<E>(b: Bus<E>, step: Step<E>): Bus<E> {
    if !Enabled(b, step) then b
    else match step
      case Publish(e) =>
        if |b.buffer| < b.capacity then b.(buffer := b.buffer + [e], accepted := b.accepted + [e]) else b
      case Subscribe(topic) =>
        b.(handlers := b.handlers[topic := HandlersOf(b, topic) + [|b.subscriptions|]],
           subscriptions := b.subscriptions + [Subscription(topic, |b.taken|)])
      case Take =>
        b.(buffer := b.buffer[1..], taken := b.taken + [b.buffer[0]], todo := HandlersOf(b, b.buffer[0].topic))
      case Call =>
        b.(called := b.called + [Delivery(b.todo[0], b.taken[|b.taken| - 1])], todo := b.todo[1..])
      case CloseChannel => b.(closed := true)
      case Finish => b.(done := true)
  }

  /** The bus after any interleaving of steps. */
  function After<E>(capacity: nat, steps: seq<Step<E>>): Bus<E> {
    if steps == [] then Start(capacity) else Apply(After(capacity, steps[..|steps| - 1]), steps[|steps| - 1])
  }

  // ----- What handlers see -----

  function OnTopic<E>(es: seq<Envelope<E>>, topic: string): seq<Envelope<E>> {
    if es == [] then []
    else OnTopic(es[..|es| - 1], topic) + if es[|es| - 1].topic == topic then [es[|es| - 1]] else []
  }

  /** The envelopes a handler was called with, in order. */
  function Seen<E>(called: seq<Delivery<E>>, handler: nat): seq<Envelope<E>> {
    if called == [] then []
    else Seen(called[..|called| - 1], handler)
         + if called[|called| - 1].handler == handler then [called[|called| - 1].envelope] else []
  }

  /** One call of each of these handlers, in this order, with the envelope taken last. */
  function Calls<E>(ids: seq<nat>, taken: seq<Envelope<E>>): seq<Delivery<E>> {
    if ids == [] || taken == [] then [] else [Delivery(ids[0], taken[|taken| - 1])] + Calls(ids[1..], taken)
  }

  lemma {:induction false} CallsStep<E>(called: seq<Delivery<E>>, ids: seq<nat>, taken: seq<Envelope<E>>)
    requires ids != [] && taken != []
    ensures called + Calls(ids, taken) == called + [Delivery(ids[0], taken[|taken| - 1])] + Calls(ids[1..], taken)
  {
  }

  lemma OnTopicSnoc<E>(es: seq<Envelope<E>>, e: Envelope<E>, topic: string)
    ensures OnTopic(es + [e], topic) == OnTopic(es, topic) + if e.topic == topic then [e] else []
  {
    assert (es + [e])[..|es|] == es;
  }

  lemma SeenSnoc<E>(called: seq<Delivery<E>>, d: Delivery<E>, handler: nat)
    ensures Seen(called + [d], handler) == Seen(called, handler) + if d.handler == handler then [d.envelope] else []
  {
    assert (called + [d])[..|called|] == called;
  }

  ghost predicate Distinct(ids: seq<nat>) { forall i, j :: 0 <= i < j < |ids| ==> ids[i] != ids[j] }

  /** The handler table lists every subscription once, under its topic, when `count` envelopes have been taken. */
  ghost predicate Listed(handlers: map<string, seq<nat>>, subscriptions: seq<Subscription>, count: nat) {
    && (forall topic :: topic in handlers ==> ListOf(handlers[topic], topic, subscriptions))
    && (forall id {:trigger Enrolled(handlers, subscriptions[id], id, count)} :: 0 <= id < |subscriptions| ==>
          Enrolled(handlers, subscriptions[id], id, count))
  }

  ghost predicate ListOf(ids: seq<nat>, topic: string, subscriptions: seq<Subscription>) {
    Distinct(ids) && forall i :: 0 <= i < |ids| ==> ids[i] < |subscriptions| && subscriptions[ids[i]].topic == topic
  }

  predicate Enrolled(handlers: map<string, seq<nat>>, sub: Subscription, id: nat, count: nat) {
    sub.since <= count && sub.topic in handlers && id in handlers[sub.topic]
  }

  /** The dispatcher owes `todo` the last envelope taken, which is on their topic. */
  ghost predicate Owed<E>(todo: seq<nat>, subscriptions: seq<Subscription>, taken: seq<Envelope<E>>) {
    && Distinct(todo)
    && (todo != [] ==> taken != [])
    && (forall i :: 0 <= i < |todo| ==>
          && todo[i] < |subscriptions|
          && subscriptions[todo[i]].topic == taken[|taken| - 1].topic
          && subscriptions[todo[i]].since < |taken|)
  }

  /** The envelope a handler is still owed. */
  function Due<E>(todo: seq<nat>, id: nat, taken: seq<Envelope<E>>): seq<Envelope<E>> {
    if id in todo && taken != [] then [taken[|taken| - 1]] else []
  }

  /** What a handler has seen, with the envelope it is still owed, is everything taken on its topic since it
      subscribed. */
  ghost predicate Served<E>(sub: Subscription, id: nat, todo: seq<nat>, taken: seq<Envelope<E>>, called: seq<Delivery<E>>) {
    sub.since <= |taken| && Seen(called, id) + Due(todo, id, taken) == OnTopic(taken[sub.since..], sub.topic)
  }

  ghost predicate Inv<E>(b: Bus<E>) {
    && |b.buffer| <= b.capacity
    && b.accepted == b.taken + b.buffer
    && (b.done ==> b.closed && b.buffer == [] && b.todo == [])
    && Listed(b.handlers, b.subscriptions, |b.taken|)
    && Owed(b.todo, b.subscriptions, b.taken)
    && CalledKnown(b.called, |b.subscriptions|)
    && AllServed(b.subscriptions, b.todo, b.taken, b.called)
  }

  /** Only handlers that have subscribed are called. */
  ghost predicate CalledKnown<E>(called: seq<Delivery<E>>, n: nat) { forall i :: 0 <= i < |called| ==> called[i].handler < n }

  ghost predicate AllServed<E>(subscriptions: seq<Subscription>, todo: seq<nat>, taken: seq<Envelope<E>>,
                               called: seq<Delivery<E>>)
  {
    forall id {:trigger Served(subscriptions[id], id, todo, taken, called)} :: 0 <= id < |subscriptions| ==>
      Served(subscriptions[id], id, todo, taken, called)
  }

  lemma {:induction false} NeverCalled<E>(called: seq<Delivery<E>>, id: nat)
    requires forall i :: 0 <= i < |called| ==> called[i].handler != id
    ensures Seen(called, id) == []
  {
    if called != [] { NeverCalled(called[..|called| - 1], id); }
  }

  lemma SubscribeLists<E>(b: Bus<E>, topic: string)
    requires Listed(b.handlers, b.subscriptions, |b.taken|)
    ensures var b' := Apply(b, Subscribe(topic));
            Listed(b'.handlers, b'.subscriptions, |b'.taken|)
  {
    var b', before, id := Apply(b, Subscribe(topic)), HandlersOf(b, topic), |b.subscriptions|;
    assert b'.handlers[topic] == before + [id];
    assert id in b'.handlers[topic] by { assert b'.handlers[topic][|before|] == id; }
    forall k | 0 <= k < |b'.subscriptions|
      ensures Enrolled(b'.handlers, b'.subscriptions[k], k, |b'.taken|)
    {
      if k < id { assert Enrolled(b.handlers, b.subscriptions[k], k, |b.taken|); }
    }
  }

  /** A handler that has just subscribed has seen nothing and is owed nothing. */
  lemma NewcomerServed<E>(b: Bus<E>, topic: string)
    requires Owed(b.todo, b.subscriptions, b.taken)
    requires CalledKnown(b.called, |b.subscriptions|)
    ensures Served(Subscription(topic, |b.taken|), |b.subscriptions|, b.todo, b.taken, b.called)
  {
    NeverCalled(b.called, |b.subscriptions|);
    assert b.taken[|b.taken|..] == [];
  }

  lemma {:induction false} SubscribeKeeps<E>(b: Bus<E>, topic: string)
    requires Inv(b)
    ensures Inv(Apply(b, Subscribe(topic)))
  {
    SubscribeLists(b, topic);
    NewcomerServed(b, topic);
    OneMoreServed(b.subscriptions, Subscription(topic, |b.taken|), b.todo, b.taken, b.called);
  }

  lemma OneMoreServed<E>(subscriptions: seq<Subscription>, sub: Subscription, todo: seq<nat>, taken: seq<Envelope<E>>,
                         called: seq<Delivery<E>>)
    requires AllServed(subscriptions, todo, taken, called) && Served(sub, |subscriptions|, todo, taken, called)
    ensures AllServed(subscriptions + [sub], todo, taken, called)
  {
    forall id | 0 <= id < |subscriptions| + 1
      ensures Served((subscriptions + [sub])[id], id, todo, taken, called)
    {
      if id < |subscriptions| { assert Served(subscriptions[id], id, todo, taken, called); }
    }
  }

  lemma MoveHead<T>(xs: seq<T>, ys: seq<T>)
    requires ys != []
    ensures xs + ys == (xs + [ys[0]]) + ys[1..]
  {
  }

  lemma TakeLists(handlers: map<string, seq<nat>>, subscriptions: seq<Subscription>, count: nat)
    requires Listed(handlers, subscriptions, count)
    ensures Listed(handlers, subscriptions, count + 1)
  {
    forall id | 0 <= id < |subscriptions|
      ensures Enrolled(handlers, subscriptions[id], id, count + 1)
    {
      assert Enrolled(handlers, subscriptions[id], id, count);
    }
  }

  /** The handlers fetched for the next envelope are owed it. */
  lemma TakeOwes<E>(b: Bus<E>, e: Envelope<E>)
    requires Listed(b.handlers, b.subscriptions, |b.taken|)
    ensures Owed(HandlersOf(b, e.topic), b.subscriptions, b.taken + [e])
  {
    var todo := HandlersOf(b, e.topic);
    if todo != [] {
      assert ListOf(todo, e.topic, b.subscriptions);
      forall i | 0 <= i < |todo|
        ensures b.subscriptions[todo[i]].since < |b.taken| + 1
      {
        assert Enrolled(b.handlers, b.subscriptions[todo[i]], todo[i], |b.taken|);
      }
    }
  }

  /** A handler that was owed nothing is served after the next envelope is taken, which it is owed on its own topic. */
  lemma TakeServes<E>(b: Bus<E>, e: Envelope<E>, id: nat)
    requires Listed(b.handlers, b.subscriptions, |b.taken|) && id < |b.subscriptions|
    requires Served(b.subscriptions[id], id, [], b.taken, b.called)
    ensures Served(b.subscriptions[id], id, HandlersOf(b, e.topic), b.taken + [e], b.called)
  {
    var sub, todo := b.subscriptions[id], HandlersOf(b, e.topic);
    assert Enrolled(b.handlers, sub, id, |b.taken|);
    assert (b.taken + [e])[sub.since..] == b.taken[sub.since..] + [e];
    OnTopicSnoc(b.taken[sub.since..], e, sub.topic);
    if id in todo {
      assert ListOf(todo, e.topic, b.subscriptions);
      assert sub.topic == e.topic;
    }
  }

  lemma TakeServesAll<E>(b: Bus<E>, e: Envelope<E>)
    requires Listed(b.handlers, b.subscriptions, |b.taken|) && AllServed(b.subscriptions, [], b.taken, b.called)
    ensures AllServed(b.subscriptions, HandlersOf(b, e.topic), b.taken + [e], b.called)
  {
    forall id | 0 <= id < |b.subscriptions|
      ensures Served(b.subscriptions[id], id, HandlersOf(b, e.topic), b.taken + [e], b.called)
    {
      assert Served(b.subscriptions[id], id, [], b.taken, b.called);
      TakeServes(b, e, id);
    }
  }

  lemma {:induction false} TakeKeeps<E>(b: Bus<E>)
    requires Inv(b) && Enabled(b, Take)
    ensures Inv(Apply(b, Take))
  {
    MoveHead(b.taken, b.buffer);
    TakeLists(b.handlers, b.subscriptions, |b.taken|);
    TakeOwes(b, b.buffer[0]);
    TakeServesAll(b, b.buffer[0]);
  }

  /** A call moves an envelope from what a handler is owed to what it has seen. */
  lemma CallSettles<E>(todo: seq<nat>, taken: seq<Envelope<E>>, called: seq<Delivery<E>>, id: nat)
    requires todo != [] && taken != [] && Distinct(todo)
    ensures Distinct(todo[1..])
    ensures Seen(called + [Delivery(todo[0], taken[|taken| - 1])], id) + Due(todo[1..], id, taken)
         == Seen(called, id) + Due(todo, id, taken)
  {
    SeenSnoc(called, Delivery(todo[0], taken[|taken| - 1]), id);
    assert id in todo[1..] <==> id in todo && id != todo[0];
  }

  lemma OwedTail<E>(todo: seq<nat>, subscriptions: seq<Subscription>, taken: seq<Envelope<E>>)
    requires todo != [] && Owed(todo, subscriptions, taken)
    ensures Owed(todo[1..], subscriptions, taken)
  {
  }

  lemma CallKeeps<E>(b: Bus<E>)
    requires Inv(b) && Enabled(b, Call)
    ensures Inv(Apply(b, Call))
  {
    OwedTail(b.todo, b.subscriptions, b.taken);
    var called, todo := b.called + [Delivery(b.todo[0], b.taken[|b.taken| - 1])], b.todo[1..];
    assert Apply(b, Call) == b.(called := called, todo := todo);
    forall id | 0 <= id < |b.subscriptions|
      ensures Served(b.subscriptions[id], id, todo, b.taken, called)
    {
      assert Served(b.subscriptions[id], id, b.todo, b.taken, b.called);
      CallSettles(b.todo, b.taken, b.called, id);
    }
  }

  lemma StepKeeps<E>(b: Bus<E>, step: Step<E>)
    requires Inv(b)
    ensures Inv(Apply(b, step))
  {
    match step
    case Subscribe(topic) => SubscribeKeeps(b, topic);
    case Take => if Enabled(b, Take) { TakeKeeps(b); }
    case Call => if Enabled(b, Call) { CallKeeps(b); }
    case _ =>
  }

  lemma {:induction false} RunKeeps<E>(capacity: nat, steps: seq<Step<E>>)
    ensures Inv(After(capacity, steps)) && After(capacity, steps).capacity == capacity
  {
    if steps != [] {
      RunKeeps(capacity, steps[..|steps| - 1]);
      StepKeeps(After(capacity, steps[..|steps| - 1]), steps[|steps| - 1]);
    }
  }

  /** Over every interleaving: what was accepted is what was taken followed by what is buffered, in order; the buffer
      never exceeds its capacity; every handler has seen exactly the envelopes of its topic taken since it subscribed,
      in acceptance order, short of the one the dispatcher is about to call it with. */
  lemma DeliveryInOrder<E>(capacity: nat, steps: seq<Step<E>>, id: nat)
    requires id < |After(capacity, steps).subscriptions|
    ensures var b := After(capacity, steps);
            && b.accepted == b.taken + b.buffer && |b.buffer| <= capacity
            && b.subscriptions[id].since <= |b.taken|
            && Seen(b.called, id) + Due(b.todo, id, b.taken)
               == OnTopic(b.taken[b.subscriptions[id].since..], b.subscriptions[id].topic)
  {
    RunKeeps(capacity, steps);
    var b := After(capacity, steps);
    assert Served(b.subscriptions[id], id, b.todo, b.taken, b.called);
  }

  /** The numbers of a topic's subscriptions, in the order of subscribing. */
  ghost predicate InOrder(ids: seq<nat>, topic: string, subscriptions: seq<Subscription>) {
    && (forall i, j :: 0 <= i < j < |ids| ==> ids[i] < ids[j])
    && (forall id: nat :: id in ids <==> id < |subscriptions| && subscriptions[id].topic == topic)
  }

  lemma InOrderNext(ids: seq<nat>, topic: string, subscriptions: seq<Subscription>, sub: Subscription)
    requires InOrder(ids, topic, subscriptions)
    ensures InOrder(if sub.topic == topic then ids + [|subscriptions|] else ids, topic, subscriptions + [sub])
  {
    assert forall i :: 0 <= i < |ids| ==> ids[i] in ids;
  }

  lemma HandlersNext<E>(b: Bus<E>, step: Step<E>, topic: string)
    ensures var b' := Apply(b, step);
            if step.Subscribe? then
              && b'.subscriptions == b.subscriptions + [Subscription(step.topic, |b.taken|)]
              && HandlersOf(b', topic) == HandlersOf(b, topic) + if step.topic == topic then [|b.subscriptions|] else []
            else b'.subscriptions == b.subscriptions && b'.handlers == b.handlers
  {
  }

  /** In every run a topic's list has each of its handlers once, in the order in which they subscribed. */
  lemma {:induction false} ListedInOrder<E>(capacity: nat, steps: seq<Step<E>>, topic: string)
    ensures InOrder(HandlersOf(After(capacity, steps), topic), topic, After(capacity, steps).subscriptions)
  {
    if steps != [] {
      var b, step := After(capacity, steps[..|steps| - 1]), steps[|steps| - 1];
      ListedInOrder(capacity, steps[..|steps| - 1], topic);
      HandlersNext(b, step, topic);
      if step.Subscribe? {
        InOrderNext(HandlersOf(b, topic), topic, b.subscriptions, Subscription(step.topic, |b.taken|));
      }
    }
  }

  /** A publication is dropped exactly when the buffer is full. */
  lemma DroppedWhenFull<E>(capacity: nat, steps: seq<Step<E>>, e: Envelope<E>)
    requires !After(capacity, steps).closed
    ensures var b, b' := After(capacity, steps), After(capacity, steps + [Publish(e)]);
            && (|b.buffer| == capacity <==> b'.accepted == b.accepted)
            && (|b.buffer| < capacity <==> b'.accepted == b.accepted + [e])
  {
    RunKeeps(capacity, steps);
    assert (steps + [Publish(e)])[..|steps|] == steps;
  }

  /** Close waits for done, and done means that every handler has seen every accepted event of its topic from its
      subscription on. */
  lemma ClosedMeansDelivered<E>(capacity: nat, steps: seq<Step<E>>, id: nat)
    requires After(capacity, steps).done && id < |After(capacity, steps).subscriptions|
    ensures var b := After(capacity, steps); var sub := b.subscriptions[id];
            sub.since <= |b.accepted| && Seen(b.called, id) == OnTopic(b.accepted[sub.since..], sub.topic)
  {
    DeliveryInOrder(capacity, steps, id);
    RunKeeps(capacity, steps);
    assert After(capacity, steps).taken == After(capacity, steps).accepted;
  }

  // ----- The bus itself -----

  class InProcessBus<E> {
    const capacity: nat
    var handlers: map<string, seq<nat>>
    var registered: nat
    var ch: seq<Envelope<E>>
    var closed: bool
    var done: bool
    /** The event being dispatched, if any, and the handlers still to be called with it. */
    var current: seq<Envelope<E>>
    var todo: seq<nat>
    ghost var subscriptions: seq<Subscription>
    ghost var accepted: seq<Envelope<E>>
    ghost var taken: seq<Envelope<E>>
    ghost var called: seq<Delivery<E>>

    ghost function State(): Bus<E>
      reads this
    {
      Bus(capacity, handlers, subscriptions, ch, closed, done, todo, accepted, taken, called)
    }

    ghost predicate Valid()
      reads this
    {
      registered == |subscriptions| && Inv(State()) && (todo != [] ==> current == [taken[|taken| - 1]])
    }

    constructor (bufferSize: int)
      ensures Valid() && capacity == if bufferSize <= 0 then 256 else bufferSize
      ensures State() == Start(capacity)
    {
      capacity := if bufferSize <= 0 then 256 else bufferSize;
      handlers, registered, ch := map[], 0, [];
      closed, done, current, todo := false, false, [], [];
      subscriptions, accepted, taken, called := [], [], [], [];
    }

    /** The non-blocking send: an event that finds the buffer full is dropped. */
    method PublishEvent(topic: string, event: E)
      requires Valid() && !closed
      modifies this
      ensures Valid()
      ensures State() == Apply(old(State()), Publish(Envelope(topic, event)))
    {
      StepKeeps(State(), Publish(Envelope(topic, event)));
      if |ch| < capacity {
        ch := ch + [Envelope(topic, event)];
        accepted := accepted + [Envelope(topic, event)];
      }
    }

    method SubscribeHandler(topic: string) returns (handler: nat)
      requires Valid()
      modifies this
      ensures Valid() && handler == old(registered)
      ensures State() == Apply(old(State()), Subscribe(topic))
    {
      StepKeeps(State(), Subscribe(topic));
      handler := registered;
      handlers := handlers[topic := (if topic in handlers then handlers[topic] else []) + [handler]];
      registered := registered + 1;
      subscriptions := subscriptions + [Subscription(topic, |taken|)];
    }

    /** One receive of the dispatch loop, with the handler list fetched for the event's topic. */
    method Receive()
      requires Valid() && todo == [] && ch != []
      modifies `ch, `taken, `todo, `current
      ensures Valid() && ch == old(ch)[1..] && taken == old(taken) + [old(ch)[0]]
      ensures todo == HandlersOf(State(), old(ch)[0].topic)
    {
      var env := ch[0];
      ghost var b := State();
      TakeKeeps(b);
      ch, taken, current := ch[1..], taken + [env], [env];
      todo := if env.topic in handlers then handlers[env.topic] else [];
      ghost var b' := Apply(b, Take);
      assert State() == b';
    }

    /** Calling the next handler; what the handler does is not part of the bus. */
    method Invoke()
      requires Valid() && todo != []
      modifies `todo, `called
      ensures Valid() && todo == old(todo)[1..]
      ensures called == old(called) + [Delivery(old(todo)[0], taken[|taken| - 1])]
    {
      ghost var b := State();
      CallKeeps(b);
      called, todo := called + [Delivery(todo[0], current[0])], todo[1..];
      assert State() == Apply(b, Call);
    }

    /** The inner loop: the handlers still to be called with the current event, in order. */
    method CallHandlers()
      requires Valid()
      modifies `todo, `called
      ensures Valid() && todo == [] && called == old(called) + Calls(old(todo), taken)
    {
      while |todo| > 0
        invariant Valid()
        invariant called + Calls(todo, taken) == old(called) + Calls(old(todo), taken)
      {
        ghost var before, ids := called, todo;
        Invoke();
        CallsStep(before, ids, taken);
      }
    }

    /** One turn of the dispatch loop: every handler in the fetched list is called with the event, in the list's order. */
    method DispatchOne()
      requires Valid() && todo == [] && ch != []
      modifies `ch, `taken, `todo, `current, `called
      ensures Valid() && todo == [] && ch == old(ch)[1..] && taken == old(taken) + [old(ch)[0]]
      ensures called == old(called) + Calls(HandlersOf(old(State()), old(ch)[0].topic), taken)
    {
      Receive();
      CallHandlers();
    }

    /** The dispatch loop, from wherever it is to its end on a closed channel. */
    method Dispatch()
      requires Valid() && closed && !done
      modifies `ch, `taken, `todo, `current, `called, `done
      ensures Valid() && done && ch == []
    {
      CallHandlers();
      while |ch| > 0
        invariant Valid() && todo == [] && !done
      {
        DispatchOne();
      }
      StepKeeps(State(), Finish);
      done := true;
    }

    /** Close closes the channel, whatever the dispatcher is doing, and returns once it is done: by then every handler has
        seen every accepted event of its topic from its subscription on. */
    method Close()
      requires Valid() && !closed
      modifies this
      ensures Valid() && closed && done && ch == []
      ensures accepted == old(accepted) && subscriptions == old(subscriptions)
      ensures forall id :: 0 <= id < |subscriptions| ==>
                var sub := subscriptions[id];
                sub.since <= |accepted| && Seen(called, id) == OnTopic(accepted[sub.since..], sub.topic)
    {
      StepKeeps(State(), CloseChannel);
      closed := true;
      Dispatch();
      assert taken == accepted;
      forall id | 0 <= id < |subscriptions|
        ensures subscriptions[id].since <= |accepted|
        ensures Seen(called, id) == OnTopic(accepted[subscriptions[id].since..], subscriptions[id].topic)
      {
        assert Served(subscriptions[id], id, todo, taken, called);
      }
    }
  }
}
