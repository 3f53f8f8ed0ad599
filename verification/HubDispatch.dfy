/**
 The hub connection: the registries of event handlers and stream handlers, and the dispatch of
 received messages to the user's callbacks, which may raise. Callbacks are logged as they are called.
 */
module HubDispatch {
  import opened Seqs
  import opened Text

  datatype Message<+P> =
    | Invocation(target: string, arguments: P)
    | StreamItem(id: string, item: P)
    | Completion(id: string, result: P, error: Option<string>)
    | CancelInvocation(id: string)
    | BindingFailure
    | Close
    /** Stream invocations, pings, acks and sequences are only written to the log file. */
    | Quiet

  /**
   A `StreamHandler` is an object whose callbacks `subscribe` sets later; `handle` stands for the
   object. An `InvocationHandler` has its `complete_callback` from the start, and no other.
   */
  datatype Handler = StreamHandler(handle: nat) | InvocationHandler(callback: nat)

  /** What can be seen from outside, in order. */
  datatype Effect<+P> =
    | Fired(target: string, callback: nat, arguments: P)
    | Next(id: string, callbacks: nat, item: P)
    | Completed(id: string, callbacks: nat, result: P)
    | Cancelled(id: string, callbacks: nat)
    /** A default callback of a stream handler, which only writes to the log file. */
    | Unheard(id: string)
    | HubError(id: string)
    | BindingError
    | Disposed
    | Transmitted(id: string)

  /** Which calls of the user's code, or of the transport's `dispose`, raise. */
  type World<!P> = Effect<P> -> bool

  /** `callbacks` holds what the user has subscribed, by handle. */
  datatype Hub<+P> = Hub(
    handlers: map<string, seq<nat>>,
    streamHandlers: map<string, seq<Handler>>,
    callbacks: map<nat, nat>,
    log: seq<Effect<P>>)

  /** A hub nobody has used yet. */
  function Fresh<P>(): Hub<P> {
    Hub(map[], map[], map[], [])
  }

  /** How the work on a message ends: on to the next one, `return`, or an exception. */
  datatype Flow = Continues | Returns | Raises

  /** `registry.get(key, [])` */
  function Get<T>(registry: map<string, seq<T>>, key: string): seq<T> {
    if key in registry then registry[key] else []
  }

  // ---- The user's calls ----

  function On<P>(h: Hub<P>, event: string, callback: nat): Hub<P> {
    h.(handlers := h.handlers[event := Get(h.handlers, event) + [callback]])
  }

  /** `list.remove`; None is its ValueError. */
  function RemoveFirst(callbacks: seq<nat>, callback: nat): Option<seq<nat>> {
    if callbacks == [] then None
    else if callbacks[0] == callback then Some(callbacks[1..])
    else
      var rest :- RemoveFirst(callbacks[1..], callback);
      Some([callbacks[0]] + rest)
  }

  /** The lookup itself makes an empty entry where there was none. */
  function Unsubscribe<P>(h: Hub<P>, event: string, callback: nat): (Hub<P>, Flow) {
    var callbacks := Get(h.handlers, event);
    match RemoveFirst(callbacks, callback)
    case None => (h.(handlers := h.handlers[event := callbacks]), Raises)
    case Some(rest) =>
      (h.(handlers := if rest == [] then h.handlers - {event} else h.handlers[event := rest]), Continues)
  }

  function Register<P>(h: Hub<P>, id: string, handler: Handler): Hub<P> {
    h.(streamHandlers := h.streamHandlers[id := Get(h.streamHandlers, id) + [handler]])
  }

  function Transmit<P>(h: Hub<P>, id: string): Hub<P> {
    h.(log := h.log + [Transmitted(id)])
  }

  /**
   A new handler object has the default callbacks. `sends` says whether the transport's `send` gets
   the message out or raises.
   */
  function Stream<P>(h: Hub<P>, id: string, handle: nat, sends: bool): (Hub<P>, Flow) {
    var registered := Register(h.(callbacks := h.callbacks - {handle}), id, StreamHandler(handle));
    if sends then (Transmit(registered, id), Continues) else (registered, Raises)
  }

  /** What `subscribe` is given: three callbacks, or something it refuses. */
  datatype Subscription = NotADict | MissingKey | NotCallable | Callbacks(callbacks: nat)

  /** Only the user has the handler; whether it is still registered does not matter to `subscribe`. */
  function Subscribe<P>(h: Hub<P>, handle: nat, s: Subscription): (Hub<P>, Flow) {
    match s
    case Callbacks(callbacks) => (h.(callbacks := h.callbacks[handle := callbacks]), Continues)
    case _ => (h, Raises)
  }

  /** The arguments are a list, a Subject, or neither. */
  datatype Arguments = List | Subject | Neither

  /** A Subject is sent under its own id. */
  function Invoke<P>(h: Hub<P>, id: string, subjectId: string, arguments: Arguments, onInvocation: Option<nat>,
                     running: bool, sends: bool): (Hub<P>, Flow)
  {
    if !running || arguments == Neither then (h, Raises) else
    var registered := if arguments == List && onInvocation.Some?
                      then Register(h, id, InvocationHandler(onInvocation.value)) else h;
    if sends then (Transmit(registered, if arguments == List then id else subjectId), Continues)
    else (registered, Raises)
  }

  // ---- Received messages ----

  /** The callbacks the user has subscribed to a handler object. */
  function Subscribed<P>(h: Hub<P>, handle: nat): Option<nat> {
    if handle in h.callbacks then Some(h.callbacks[handle]) else None
  }

  predicate ForStream<P>(m: Message<P>) {
    m.StreamItem? || m.Completion? || m.CancelInvocation?
  }

  /** The call a message for a stream makes: of the user's callbacks, or of the defaults. */
  function Call<P>(m: Message<P>, callbacks: Option<nat>): Effect<P>
    requires ForStream(m)
  {
    match callbacks
    case None => Unheard(m.id)
    case Some(c) =>
      match m
      case StreamItem(id, item) => Next(id, c, item)
      case Completion(id, result, _) => Completed(id, c, result)
      case CancelInvocation(id) => Cancelled(id, c)
  }

  /** The call of one handler; None where an `InvocationHandler` has nothing to call: AttributeError. */
  function HandlerCall<P>(h: Hub<P>, m: Message<P>, handler: Handler): Option<Effect<P>>
    requires ForStream(m)
  {
    match handler
    case StreamHandler(handle) => Some(Call(m, Subscribed(h, handle)))
    case InvocationHandler(callback) => if m.Completion? then Some(Call(m, Some(callback))) else None
  }

  predicate IsError(error: Option<string>) {
    error.Some? && |error.value| > 0
  }

  function EventPlan<P>(m: Message<P>, callbacks: seq<nat>): seq<Option<Effect<P>>>
    requires m.Invocation?
  {
    if callbacks == [] then []
    else [Some(Fired(m.target, callbacks[0], m.arguments))] + EventPlan(m, callbacks[1..])
  }

  function StreamPlan<P>(h: Hub<P>, m: Message<P>, handlers: seq<Handler>): seq<Option<Effect<P>>>
    requires ForStream(m)
  {
    if handlers == [] then [] else [HandlerCall(h, m, handlers[0])] + StreamPlan(h, m, handlers[1..])
  }

  /** The calls a message is for, in order. */
  function Plan<P>(h: Hub<P>, m: Message<P>): seq<Option<Effect<P>>> {
    match m
    case Invocation(target, _) => EventPlan(m, Get(h.handlers, target))
    case Completion(id, _, error) =>
      if IsError(error) then [Some(HubError(id))] else StreamPlan(h, m, Get(h.streamHandlers, id))
    case StreamItem(id, _) => StreamPlan(h, m, Get(h.streamHandlers, id))
    case CancelInvocation(id) => StreamPlan(h, m, Get(h.streamHandlers, id))
    case BindingFailure => [Some(BindingError)]
    case Close => [Some(Disposed)]
    case Quiet => []
  }

  /** Default callbacks never raise. */
  predicate Throws<P>(w: World<P>, e: Effect<P>) {
    !e.Unheard? && w(e)
  }

  predicate Blocks<P>(w: World<P>, call: Option<Effect<P>>) {
    call.None? || Throws(w, call.value)
  }

  /** The calls that are made, up to the first that raises, and whether one does. */
  function Fire<P>(w: World<P>, plan: seq<Option<Effect<P>>>): (seq<Effect<P>>, bool) {
    if plan == [] then ([], false)
    else if plan[0].None? then ([], true)
    else if Throws(w, plan[0].value) then ([plan[0].value], true)
    else
      var (calls, raised) := Fire(w, plan[1..]);
      ([plan[0].value] + calls, raised)
  }

  function Logged<P>(h: Hub<P>, effects: seq<Effect<P>>): Hub<P> {
    h.(log := h.log + effects)
  }

  function Forget<P>(h: Hub<P>, id: string): Hub<P> {
    h.(streamHandlers := h.streamHandlers - {id})
  }

  /** An exception leaves the registry as it is, also that of a completion. */
  function Dispatch<P>(w: World<P>, h: Hub<P>, m: Message<P>): (Hub<P>, Flow) {
    var (calls, raised) := Fire(w, Plan(h, m));
    var called := Logged(h, calls);
    if raised then (called, Raises)
    else if m.Completion? || m.CancelInvocation? then (Forget(called, m.id), Continues)
    else (called, if m.Close? then Returns else Continues)
  }

  /** `on_message` */
  function OnMessage<P>(w: World<P>, h: Hub<P>, messages: seq<Message<P>>): (Hub<P>, Flow)
    decreases |messages|
  {
    if messages == [] then (h, Continues) else
    var (next, flow) := Dispatch(w, h, messages[0]);
    if flow == Continues then OnMessage(w, next, messages[1..]) else (next, flow)
  }

  // ---- Batches ----

  /** A batch is two batches, one after the other, unless the first one ends early. */
  lemma {:induction false} BatchSplits<P>(w: World<P>, h: Hub<P>, a: seq<Message<P>>, b: seq<Message<P>>)
    ensures var (next, flow) := OnMessage(w, h, a);
            OnMessage(w, h, a + b) == if flow == Continues then OnMessage(w, next, b) else (next, flow)
    decreases |a|
  {
    if a == [] {
      Empty(b);
    } else {
      CutLeft(a, b, 1);
      var (next, flow) := Dispatch(w, h, a[0]);
      if flow == Continues {
        BatchSplits(w, next, a[1..], b);
      }
    }
  }

  lemma CloseDispatched<P>(w: World<P>, h: Hub<P>)
    ensures Dispatch(w, h, Close) == (Logged(h, [Disposed]), if w(Disposed) then Raises else Returns)
  {
    var plan: seq<Option<Effect<P>>> := [Some(Disposed)];
    assert plan[1..] == [];
    assert Fire(w, plan) == ([Disposed], w(Disposed)) by {
      Empty([Effect<P>.Disposed]);
    }
  }

  /** Nothing behind a Close message in a batch is dispatched, whether disposing raises or not. */
  lemma CloseEndsBatch<P>(w: World<P>, h: Hub<P>, a: seq<Message<P>>, b: seq<Message<P>>)
    requires OnMessage(w, h, a).1 == Continues
    ensures OnMessage(w, h, a + [Close] + b)
            == (Logged(OnMessage(w, h, a).0, [Disposed]), if w(Disposed) then Raises else Returns)
  {
    BatchSplits(w, h, a, [Close]);
    BatchSplits(w, h, a + [Close], b);
    CloseDispatched(w, OnMessage(w, h, a).0);
  }

  lemma {:induction false} FireRaisesIff<P>(w: World<P>, plan: seq<Option<Effect<P>>>)
    ensures Fire(w, plan).1 <==> exists k :: 0 <= k < |plan| && Blocks(w, plan[k])
  {
    if plan != [] {
      FireRaisesIff(w, plan[1..]);
      forall k | 0 < k < |plan|
        ensures plan[k] == plan[1..][k - 1]
      {
      }
    }
  }

  lemma {:induction false} PlanOfStream<P>(h: Hub<P>, m: Message<P>, handlers: seq<Handler>)
    requires ForStream(m)
    ensures |StreamPlan(h, m, handlers)| == |handlers|
    ensures forall k :: 0 <= k < |handlers| ==> StreamPlan(h, m, handlers)[k] == HandlerCall(h, m, handlers[k])
  {
    if handlers != [] {
      PlanOfStream(h, m, handlers[1..]);
    }
  }

  /** An item or a cancellation for an invocation: `InvocationHandler` cannot take it. */
  predicate Unfit<P>(h: Hub<P>, m: Message<P>) {
    (m.StreamItem? || m.CancelInvocation?) &&
    exists k :: 0 <= k < |Get(h.streamHandlers, m.id)| && Get(h.streamHandlers, m.id)[k].InvocationHandler?
  }

  /** One of the callbacks a message is for raises. */
  ghost predicate CallbackRaises<P>(w: World<P>, h: Hub<P>, m: Message<P>) {
    exists k :: 0 <= k < |Plan(h, m)| && Plan(h, m)[k].Some? && Throws(w, Plan(h, m)[k].value)
  }

  lemma UnfitPlan<P>(h: Hub<P>, m: Message<P>)
    ensures Unfit(h, m) <==> exists k :: 0 <= k < |Plan(h, m)| && Plan(h, m)[k] == None
  {
    if ForStream(m) {
      PlanOfStream(h, m, Get(h.streamHandlers, m.id));
    } else if m.Invocation? {
      PlanOfEvent(m, Get(h.handlers, m.target));
    }
    if Unfit(h, m) {
      var k :| 0 <= k < |Get(h.streamHandlers, m.id)| && Get(h.streamHandlers, m.id)[k].InvocationHandler?;
      assert Plan(h, m)[k] == None;
    }
  }

  /** Exactly when a message stops the batch. */
  lemma DispatchContinuesIff<P>(w: World<P>, h: Hub<P>, m: Message<P>)
    ensures Dispatch(w, h, m).1 == Raises <==> Unfit(h, m) || CallbackRaises(w, h, m)
    ensures Dispatch(w, h, m).1 == Returns <==> m.Close? && !w(Disposed)
  {
    FireRaisesIff(w, Plan(h, m));
    UnfitPlan(h, m);
    if m.Close? {
      CloseDispatched(w, h);
    }
    if CallbackRaises(w, h, m) {
      var k :| 0 <= k < |Plan(h, m)| && Plan(h, m)[k].Some? && Throws(w, Plan(h, m)[k].value);
      assert Blocks(w, Plan(h, m)[k]);
    }
    if Unfit(h, m) {
      var k :| 0 <= k < |Plan(h, m)| && Plan(h, m)[k] == None;
      assert Blocks(w, Plan(h, m)[k]);
    }
  }

  // ---- Event handlers ----

  function OnAll<P>(h: Hub<P>, event: string, callbacks: seq<nat>): Hub<P>
    decreases |callbacks|
  {
    if callbacks == [] then h else OnAll(On(h, event, callbacks[0]), event, callbacks[1..])
  }

  lemma {:induction false} OnAllRegisters<P>(h: Hub<P>, event: string, callbacks: seq<nat>)
    ensures Get(OnAll(h, event, callbacks).handlers, event) == Get(h.handlers, event) + callbacks
    ensures OnAll(h, event, callbacks).log == h.log
    decreases |callbacks|
  {
    if callbacks == [] {
      Empty(Get(h.handlers, event));
    } else {
      OnAllRegisters(On(h, event, callbacks[0]), event, callbacks[1..]);
      Assoc(Get(h.handlers, event), [callbacks[0]], callbacks[1..]);
      Uncons(callbacks);
    }
  }

  lemma {:induction false} PlanOfEvent<P>(m: Message<P>, callbacks: seq<nat>)
    requires m.Invocation?
    ensures |EventPlan(m, callbacks)| == |callbacks|
    ensures forall k :: 0 <= k < |callbacks| ==>
              EventPlan(m, callbacks)[k] == Some(Fired(m.target, callbacks[k], m.arguments))
  {
    if callbacks != [] {
      PlanOfEvent(m, callbacks[1..]);
    }
  }

  /** What is fired is the plan up to the first call that raises, itself included. */
  lemma {:induction false} FiresInOrder<P>(w: World<P>, plan: seq<Option<Effect<P>>>)
    requires forall k :: 0 <= k < |plan| ==> plan[k].Some?
    ensures var (calls, raised) := Fire(w, plan);
            && |calls| <= |plan| && (raised ==> calls != [])
            && (!raised ==> |calls| == |plan|)
            && (forall k :: 0 <= k < |calls| ==> Some(calls[k]) == plan[k])
            && (forall k :: 0 <= k < |calls| ==> (Throws(w, calls[k]) <==> raised && k == |calls| - 1))
  {
    if plan != [] && !Throws(w, plan[0].value) {
      FiresInOrder(w, plan[1..]);
    }
  }

  /**
   The handlers of an event fire in the order in which they were registered, and no others: all of
   them, or those up to the first that raises.
   */
  lemma HandlersFireInOrder<P>(w: World<P>, h: Hub<P>, event: string, callbacks: seq<nat>, arguments: P)
    ensures var all := Get(h.handlers, event) + callbacks;
            var (next, flow) := OnMessage(w, OnAll(h, event, callbacks), [Invocation(event, arguments)]);
            && h.log <= next.log
            && var fired := next.log[|h.log|..];
               && |fired| <= |all| && (flow == Raises ==> fired != []) && (flow != Raises ==> |fired| == |all|)
               && (forall k :: 0 <= k < |fired| ==> fired[k] == Fired(event, all[k], arguments))
               && (forall k :: 0 <= k < |fired| ==> (w(fired[k]) <==> flow == Raises && k == |fired| - 1))
  {
    var m: Message<P> := Invocation(event, arguments);
    var on := OnAll(h, event, callbacks);
    OnAllRegisters(h, event, callbacks);
    PlanOfEvent(m, Get(on.handlers, event));
    FiresInOrder(w, Plan(on, m));
    EventDispatched(w, on, m);
    CutMiddle(h.log, Fire(w, Plan(on, m)).0);
  }

  lemma EventDispatched<P>(w: World<P>, h: Hub<P>, m: Message<P>)
    requires m.Invocation?
    ensures OnMessage(w, h, [m])
            == (Logged(h, Fire(w, Plan(h, m)).0), if Fire(w, Plan(h, m)).1 then Raises else Continues)
  {
    assert [m][1..] == [];
  }

  /** From its first occurrence on, a list holds nothing but `callback`. */
  predicate OnlyAtEnd(callbacks: seq<nat>, callback: nat) {
    forall i, j :: 0 <= i <= j < |callbacks| && callbacks[i] == callback ==> callbacks[j] == callback
  }

  lemma {:induction false} RemoveAdded(callbacks: seq<nat>, callback: nat)
    ensures RemoveFirst(callbacks + [callback], callback).Some?
    ensures RemoveFirst(callbacks + [callback], callback) == Some(callbacks) <==> OnlyAtEnd(callbacks, callback)
  {
    var longer := callbacks + [callback];
    if callbacks == [] {
    } else if callbacks[0] == callback {
      assert longer[1..] == callbacks[1..] + [callback];
      if OnlyAtEnd(callbacks, callback) {
        assert callbacks[0] == callback && forall j :: 0 <= j < |callbacks| ==> callbacks[j] == callback;
        assert longer[1..] == callbacks;
      } else if longer[1..] == callbacks {
        AllTheSame(callbacks, callback);
      }
    } else {
      CutLeft(callbacks, [callback], 1);
      RemoveAdded(callbacks[1..], callback);
      Uncons(callbacks);
      OnlyAtEndTail(callbacks, callback);
    }
  }

  lemma {:induction false} AllTheSame(callbacks: seq<nat>, callback: nat)
    requires (callbacks + [callback])[1..] == callbacks
    ensures forall j :: 0 <= j < |callbacks| ==> callbacks[j] == callback
  {
    var longer := callbacks + [callback];
    var k := |callbacks|;
    while k > 0
      invariant 0 <= k <= |callbacks|
      invariant forall j :: k <= j < |callbacks| ==> callbacks[j] == callback
    {
      assert callbacks[k - 1] == longer[1..][k - 1] == longer[k];
      k := k - 1;
    }
  }

  lemma OnlyAtEndTail(callbacks: seq<nat>, callback: nat)
    requires callbacks != [] && callbacks[0] != callback
    ensures OnlyAtEnd(callbacks, callback) <==> OnlyAtEnd(callbacks[1..], callback)
  {
    var rest := callbacks[1..];
    if OnlyAtEnd(rest, callback) {
      forall i, j | 0 <= i <= j < |callbacks| && callbacks[i] == callback
        ensures callbacks[j] == callback
      {
        assert rest[i - 1] == callback && rest[j - 1] == callbacks[j];
      }
    }
    if OnlyAtEnd(callbacks, callback) {
      forall i, j | 0 <= i <= j < |rest| && rest[i] == callback
        ensures rest[j] == callback
      {
        assert callbacks[i + 1] == callback && rest[j] == callbacks[j + 1];
      }
    }
  }

  /**
   Unsubscribing takes the first registration out, not the last. So it undoes `on` iff whatever
   follows an earlier registration of the same callback is that callback again, and the event
   was not left with an empty list by an unsubscription that failed.
   */
  lemma UnsubscribeUndoesOnIff<P>(h: Hub<P>, event: string, callback: nat)
    ensures Unsubscribe(On(h, event, callback), event, callback).1 == Continues
    ensures (Unsubscribe(On(h, event, callback), event, callback).0 == h) ==
            (OnlyAtEnd(Get(h.handlers, event), callback) && !(event in h.handlers && h.handlers[event] == []))
  {
    var callbacks := Get(h.handlers, event);
    var on := On(h, event, callback);
    assert Get(on.handlers, event) == callbacks + [callback];
    RemoveAdded(callbacks, callback);
    var rest := RemoveFirst(callbacks + [callback], callback).value;
    RemovedLength(callbacks + [callback], callback);
    var after := Unsubscribe(on, event, callback).0;
    if rest == [] {
      assert callbacks == [];
      assert after.handlers == h.handlers - {event};
      if event !in h.handlers {
        assert after.handlers == h.handlers;
      }
    } else {
      assert after.handlers == h.handlers[event := rest];
      if rest == callbacks {
        assert after.handlers == h.handlers;
      } else {
        assert after.handlers[event] == rest;
      }
    }
  }

  lemma {:induction false} RemovedLength(callbacks: seq<nat>, callback: nat)
    requires RemoveFirst(callbacks, callback).Some?
    ensures |RemoveFirst(callbacks, callback).value| + 1 == |callbacks|
  {
    if callbacks[0] != callback {
      RemovedLength(callbacks[1..], callback);
    }
  }

  // ---- Runs ----

  datatype Action<+P> =
    | Registers(event: string, callback: nat)
    | Unregisters(event: string, callback: nat)
    | Streams(id: string, handle: nat, sends: bool)
    | Subscribes(handle: nat, subscription: Subscription)
    | Invokes(id: string, subjectId: string, arguments: Arguments, onInvocation: Option<nat>, running: bool, sends: bool)
    | Receives(messages: seq<Message<P>>)

  function Act<P>(w: World<P>, h: Hub<P>, a: Action<P>): (Hub<P>, Flow) {
    match a
    case Registers(event, callback) => (On(h, event, callback), Continues)
    case Unregisters(event, callback) => Unsubscribe(h, event, callback)
    case Streams(id, handle, sends) => Stream(h, id, handle, sends)
    case Subscribes(handle, subscription) => Subscribe(h, handle, subscription)
    case Invokes(id, subjectId, arguments, onInvocation, running, sends) =>
      Invoke(h, id, subjectId, arguments, onInvocation, running, sends)
    case Receives(messages) => OnMessage(w, h, messages)
  }

  function Run<P>(w: World<P>, h: Hub<P>, actions: seq<Action<P>>): Hub<P>
    decreases |actions|
  {
    if actions == [] then h else Run(w, Act(w, h, actions[0]).0, actions[1..])
  }

  /** A call of the user that does not take up the id or the handler object. */
  predicate Elsewhere<P>(a: Action<P>, id: string, handler: Handler) {
    && (a.Streams? || a.Invokes? ==> a.id != id)
    && (a.Streams? || a.Subscribes? ==> StreamHandler(a.handle) != handler)
  }

  ghost predicate Foreign<P>(actions: seq<Action<P>>, id: string, handler: Handler) {
    forall a :: a in actions ==> Elsewhere(a, id, handler)
  }

  /** The messages of a batch that are dispatched: all, or those up to the one that ends it early. */
  function Taken<P>(w: World<P>, h: Hub<P>, messages: seq<Message<P>>): seq<Message<P>>
    decreases |messages|
  {
    if messages == [] then [] else
    var (next, flow) := Dispatch(w, h, messages[0]);
    [messages[0]] + (if flow == Continues then Taken(w, next, messages[1..]) else [])
  }

  /**
   They are a prefix of the batch, and dispatching them is dispatching the batch: all of it if the
   batch ends normally, and up to the message that ends it if not.
   */
  lemma {:induction false} TakenIsDispatched<P>(w: World<P>, h: Hub<P>, messages: seq<Message<P>>)
    ensures Taken(w, h, messages) <= messages
    ensures OnMessage(w, h, Taken(w, h, messages)) == OnMessage(w, h, messages)
    ensures OnMessage(w, h, messages).1 == Continues ==> Taken(w, h, messages) == messages
    ensures OnMessage(w, h, messages).1 != Continues ==>
              var taken := Taken(w, h, messages);
              taken != [] && OnMessage(w, h, taken[..|taken| - 1]).1 == Continues
    decreases |messages|
  {
    if messages != [] {
      var m := messages[0];
      var (next, flow) := Dispatch(w, h, m);
      Uncons(messages);
      if flow == Continues {
        var rest := Taken(w, next, messages[1..]);
        TakenIsDispatched(w, next, messages[1..]);
        ConsTail(m, rest);
        if rest != [] {
          assert ([m] + rest)[..|rest|] == [m] + rest[..|rest| - 1];
          ConsTail(m, rest[..|rest| - 1]);
        }
      } else {
        ConsTail(m, []);
        assert ([m] + [])[..0] == [];
      }
    }
  }

  /** All messages dispatched in a run, in order. */
  function Received<P>(w: World<P>, h: Hub<P>, actions: seq<Action<P>>): seq<Message<P>>
    decreases |actions|
  {
    if actions == [] then []
    else (if actions[0].Receives? then Taken(w, h, actions[0].messages) else [])
         + Received(w, Act(w, h, actions[0]).0, actions[1..])
  }

  predicate About<P>(e: Effect<P>, id: string) {
    (e.Next? || e.Completed? || e.Cancelled? || e.Unheard? || e.HubError?) && e.id == id
  }

  /** The callbacks for one id, the default ones included. */
  function Trace<P>(log: seq<Effect<P>>, id: string): seq<Effect<P>> {
    if log == [] then []
    else (if About(log[0], id) then [log[0]] else []) + Trace(log[1..], id)
  }

  lemma {:induction false} TraceAppend<P>(a: seq<Effect<P>>, b: seq<Effect<P>>, id: string)
    ensures Trace(a + b, id) == Trace(a, id) + Trace(b, id)
  {
    if a == [] {
      Empty(b);
      Empty(Trace(b, id));
    } else {
      CutLeft(a, b, 1);
      TraceAppend(a[1..], b, id);
      Assoc(if About(a[0], id) then [a[0]] else [], Trace(a[1..], id), Trace(b, id));
    }
  }

  /** The calls of the user's own callbacks. */
  function Heard<P>(calls: seq<Effect<P>>): seq<Effect<P>> {
    if calls == [] then [] else (if calls[0].Unheard? then [] else [calls[0]]) + Heard(calls[1..])
  }

  lemma {:induction false} HeardAppend<P>(a: seq<Effect<P>>, b: seq<Effect<P>>)
    ensures Heard(a + b) == Heard(a) + Heard(b)
  {
    if a == [] {
      Empty(b);
      Empty(Heard(b));
    } else {
      CutLeft(a, b, 1);
      HeardAppend(a[1..], b);
      Assoc(if a[0].Unheard? then [] else [a[0]], Heard(a[1..]), Heard(b));
    }
  }

  // ---- What the messages of a run call for one stream ----

  /** Who hears of the messages for an id: the callbacks of a stream, or the one of an invocation. */
  datatype Listener = Nobody | Subscriber(callbacks: nat) | Caller(callback: nat)

  function Hears<P>(h: Hub<P>, handler: Handler): Listener {
    match handler
    case StreamHandler(handle) => if handle in h.callbacks then Subscriber(h.callbacks[handle]) else Nobody
    case InvocationHandler(callback) => Caller(callback)
  }

  /** The id is registered for this one handler or not at all, and this is who hears of it. */
  predicate Registered<P>(h: Hub<P>, id: string, handler: Handler, l: Listener, live: bool) {
    && (if live then Get(h.streamHandlers, id) == [handler] else id !in h.streamHandlers)
    && Hears(h, handler) == l
  }

  predicate IsFor<P>(m: Message<P>, id: string) {
    ForStream(m) && m.id == id
  }

  predicate IsErrorFor<P>(m: Message<P>, id: string) {
    m.Completion? && m.id == id && IsError(m.error)
  }

  predicate Ends<P>(m: Message<P>, id: string) {
    (m.Completion? || m.CancelInvocation?) && m.id == id
  }

  /** What a message without an error says to a listener; an invocation has no callback but the one for its result. */
  function Told<P>(m: Message<P>, l: Listener): seq<Effect<P>>
    requires ForStream(m)
  {
    match l
    case Nobody => [Unheard(m.id)]
    case Caller(callback) => if m.Completion? then [Completed(m.id, callback, m.result)] else []
    case Subscriber(callbacks) =>
      match m
      case StreamItem(id, item) => [Next(id, callbacks, item)]
      case Completion(id, result, _) => [Completed(id, callbacks, result)]
      case CancelInvocation(id) => [Cancelled(id, callbacks)]
  }

  /** What one message calls for an id: a completion with an error goes to on_error in any case. */
  function Answer<P>(m: Message<P>, id: string, l: Listener, live: bool): seq<Effect<P>> {
    if IsErrorFor(m, id) then [HubError(id)]
    else if live && IsFor(m, id) then Told(m, l)
    else []
  }

  /** A message that ends a live id for good: its callback does not raise. */
  predicate Finishes<P>(w: World<P>, m: Message<P>, id: string, l: Listener) {
    Ends(m, id) && Answer(m, id, l, true) != [] && !Throws(w, Answer(m, id, l, true)[0])
  }

  /** An item or a cancellation for an invocation: nothing is called, and the batch ends. */
  predicate Unanswerable<P>(m: Message<P>, l: Listener, live: bool) {
    live && l.Caller? && !m.Completion?
  }

  lemma {:induction false} ForeignFire<P>(w: World<P>, plan: seq<Option<Effect<P>>>, id: string)
    requires forall k :: 0 <= k < |plan| && plan[k].Some? ==> !About(plan[k].value, id)
    ensures Trace(Fire(w, plan).0, id) == []
  {
    if plan != [] && plan[0].Some? {
      if Throws(w, plan[0].value) {
        assert [plan[0].value][1..] == [];
      } else {
        ForeignFire(w, plan[1..], id);
        ConsTail(plan[0].value, Fire(w, plan[1..]).0);
      }
    }
  }

  lemma FireOne<P>(w: World<P>, e: Effect<P>)
    ensures Fire(w, [Some(e)]) == ([e], Throws(w, e))
  {
    var plan := [Some(e)];
    assert plan[1..] == [];
    Empty([e]);
  }

  lemma OwnPlan<P>(h: Hub<P>, m: Message<P>, id: string, handler: Handler, l: Listener, live: bool)
    requires Registered(h, id, handler, l, live) && IsFor(m, id)
    ensures Plan(h, m) == if Unanswerable(m, l, live) then [None]
                          else if Answer(m, id, l, live) == [] then []
                          else [Some(Answer(m, id, l, live)[0])]
  {
    if live {
      var handlers := Get(h.streamHandlers, id);
      assert handlers[0] == handler && handlers[1..] == [];
      assert StreamPlan(h, m, handlers) == [HandlerCall(h, m, handlers[0])] + StreamPlan(h, m, handlers[1..]);
    }
  }

  lemma ForeignPlan<P>(h: Hub<P>, m: Message<P>, id: string)
    requires !IsFor(m, id)
    ensures forall k :: 0 <= k < |Plan(h, m)| && Plan(h, m)[k].Some? ==> !About(Plan(h, m)[k].value, id)
  {
    if ForStream(m) {
      PlanOfStream(h, m, Get(h.streamHandlers, m.id));
    } else if m.Invocation? {
      PlanOfEvent(m, Get(h.handlers, m.target));
    }
  }

  lemma OwnDispatch<P>(w: World<P>, h: Hub<P>, m: Message<P>, id: string, handler: Handler, l: Listener, live: bool)
    requires Registered(h, id, handler, l, live) && IsFor(m, id)
    ensures Trace(Fire(w, Plan(h, m)).0, id) == Answer(m, id, l, live)
    ensures Registered(Dispatch(w, h, m).0, id, handler, l, live && !Finishes(w, m, id, l))
  {
    OwnPlan(h, m, id, handler, l, live);
    var answer := Answer(m, id, l, live);
    if answer != [] {
      FireOne(w, answer[0]);
      assert answer == [answer[0]] && answer[1..] == [];
    }
  }

  lemma ForeignDispatch<P>(w: World<P>, h: Hub<P>, m: Message<P>, id: string, handler: Handler, l: Listener, live: bool)
    requires Registered(h, id, handler, l, live) && !IsFor(m, id)
    ensures Trace(Fire(w, Plan(h, m)).0, id) == []
    ensures Registered(Dispatch(w, h, m).0, id, handler, l, live)
  {
    ForeignPlan(h, m, id);
    ForeignFire(w, Plan(h, m), id);
  }

  lemma DispatchLogs<P>(w: World<P>, h: Hub<P>, m: Message<P>)
    ensures Dispatch(w, h, m).0.log == h.log + Fire(w, Plan(h, m)).0
  {
  }

  lemma DispatchAnswers<P>(w: World<P>, h: Hub<P>, m: Message<P>, id: string, handler: Handler, l: Listener, live: bool)
    requires Registered(h, id, handler, l, live)
    ensures var next := Dispatch(w, h, m).0;
            && Trace(next.log, id) == Trace(h.log, id) + Answer(m, id, l, live)
            && Registered(next, id, handler, l, live && !Finishes(w, m, id, l))
  {
    DispatchLogs(w, h, m);
    TraceAppend(h.log, Fire(w, Plan(h, m)).0, id);
    if IsFor(m, id) {
      OwnDispatch(w, h, m, id, handler, l, live);
    } else {
      ForeignDispatch(w, h, m, id, handler, l, live);
    }
  }

  /** All calls for an id. */
  function Answers<P>(w: World<P>, messages: seq<Message<P>>, id: string, l: Listener, live: bool): seq<Effect<P>> {
    if messages == [] then []
    else Answer(messages[0], id, l, live)
         + Answers(w, messages[1..], id, l, live && !Finishes(w, messages[0], id, l))
  }

  function LiveAfter<P>(w: World<P>, messages: seq<Message<P>>, id: string, l: Listener, live: bool): bool {
    if messages == [] then live
    else LiveAfter(w, messages[1..], id, l, live && !Finishes(w, messages[0], id, l))
  }

  lemma {:induction false} AnswersAppend<P>(w: World<P>, a: seq<Message<P>>, b: seq<Message<P>>, id: string,
                                            l: Listener, live: bool)
    ensures Answers(w, a + b, id, l, live)
            == Answers(w, a, id, l, live) + Answers(w, b, id, l, LiveAfter(w, a, id, l, live))
    ensures LiveAfter(w, a + b, id, l, live)
            == LiveAfter(w, b, id, l, LiveAfter(w, a, id, l, live))
    decreases |a|
  {
    if a == [] {
      Empty(b);
      Empty(Answers(w, b, id, l, live));
    } else {
      CutLeft(a, b, 1);
      var after := live && !Finishes(w, a[0], id, l);
      AnswersAppend(w, a[1..], b, id, l, after);
      Assoc(Answer(a[0], id, l, live), Answers(w, a[1..], id, l, after),
            Answers(w, b, id, l, LiveAfter(w, a, id, l, live)));
    }
  }

  lemma {:induction false} BatchAnswers<P>(w: World<P>, h: Hub<P>, messages: seq<Message<P>>, id: string, handler: Handler,
                                           l: Listener, live: bool)
    requires Registered(h, id, handler, l, live)
    ensures var next, taken := OnMessage(w, h, messages).0, Taken(w, h, messages);
            && Trace(next.log, id) == Trace(h.log, id) + Answers(w, taken, id, l, live)
            && Registered(next, id, handler, l, LiveAfter(w, taken, id, l, live))
    decreases |messages|
  {
    if messages == [] {
      Empty(Trace(h.log, id));
    } else {
      var m := messages[0];
      var after := live && !Finishes(w, m, id, l);
      var (next, flow) := Dispatch(w, h, m);
      var answer := Answer(m, id, l, live);
      DispatchAnswers(w, h, m, id, handler, l, live);
      if flow == Continues {
        var rest := Taken(w, next, messages[1..]);
        BatchAnswers(w, next, messages[1..], id, handler, l, after);
        ConsTail(m, rest);
        Assoc(Trace(h.log, id), answer, Answers(w, rest, id, l, after));
      } else {
        assert [m][1..] == [];
        assert Answers(w, [m], id, l, live) == answer + Answers(w, [], id, l, after);
        assert LiveAfter(w, [m], id, l, live) == LiveAfter(w, [], id, l, after);
        Empty(answer);
      }
    }
  }

  lemma OtherStream<P>(h: Hub<P>, other: string, otherHandle: nat, sends: bool, id: string, handler: Handler,
                       l: Listener, live: bool)
    requires Registered(h, id, handler, l, live) && other != id && StreamHandler(otherHandle) != handler
    ensures Registered(Stream(h, other, otherHandle, sends).0, id, handler, l, live)
  {
  }

  lemma TransmittedIsForeign<P>(h: Hub<P>, other: string, id: string)
    ensures Trace(Transmit(h, other).log, id) == Trace(h.log, id)
  {
    TraceAppend(h.log, [Transmitted(other)], id);
    Empty(Trace(h.log, id));
  }

  /** Calls of the user for other ids leave an id alone. */
  lemma UserCallsAreForeign<P>(w: World<P>, h: Hub<P>, a: Action<P>, id: string, handler: Handler, l: Listener, live: bool)
    requires Registered(h, id, handler, l, live) && !a.Receives?
    requires Elsewhere(a, id, handler)
    ensures Trace(Act(w, h, a).0.log, id) == Trace(h.log, id)
    ensures Registered(Act(w, h, a).0, id, handler, l, live)
  {
    match a
    case Streams(other, otherHandle, sends) =>
      OtherStream(h, other, otherHandle, sends, id, handler, l, live);
      TransmittedIsForeign(h, other, id);
    case Invokes(other, subjectId, _, _, _, _) =>
      TransmittedIsForeign(h, other, id);
      TransmittedIsForeign(h, subjectId, id);
    case _ =>
  }

  lemma {:induction false} RunAnswers<P>(w: World<P>, h: Hub<P>, actions: seq<Action<P>>, id: string, handler: Handler,
                                         l: Listener, live: bool)
    requires Registered(h, id, handler, l, live) && Foreign(actions, id, handler)
    ensures var last, messages := Run(w, h, actions), Received(w, h, actions);
            && Trace(last.log, id) == Trace(h.log, id) + Answers(w, messages, id, l, live)
            && Registered(last, id, handler, l, LiveAfter(w, messages, id, l, live))
    decreases |actions|
  {
    if actions == [] {
      Empty(Trace(h.log, id));
    } else {
      var a, rest, next := actions[0], actions[1..], Act(w, h, actions[0]).0;
      assert a in actions;
      var later := Received(w, next, rest);
      if a.Receives? {
        var taken := Taken(w, h, a.messages);
        var after := LiveAfter(w, taken, id, l, live);
        BatchAnswers(w, h, a.messages, id, handler, l, live);
        RunAnswers(w, next, rest, id, handler, l, after);
        AnswersAppend(w, taken, later, id, l, live);
        Assoc(Trace(h.log, id), Answers(w, taken, id, l, live), Answers(w, later, id, l, after));
      } else {
        UserCallsAreForeign(w, h, a, id, handler, l, live);
        RunAnswers(w, next, rest, id, handler, l, live);
        Empty(later);
      }
    }
  }

  // ---- The order of a stream's callbacks ----

  /** The first message that ends the stream for good, or the number of messages. */
  function FirstEnd<P>(w: World<P>, messages: seq<Message<P>>, id: string, l: Listener): (k: nat)
    ensures k <= |messages|
    ensures k < |messages| ==> Finishes(w, messages[k], id, l)
    ensures forall j :: 0 <= j < k ==> !Finishes(w, messages[j], id, l)
  {
    if messages == [] || Finishes(w, messages[0], id, l) then 0
    else 1 + FirstEnd(w, messages[1..], id, l)
  }

  /** The calls of a live stream, message by message. */
  function Calls<P>(messages: seq<Message<P>>, id: string, l: Listener): seq<Effect<P>> {
    if messages == [] then [] else Answer(messages[0], id, l, true) + Calls(messages[1..], id, l)
  }

  /** One call of on_error for each completion with an error. */
  function Errors<P>(messages: seq<Message<P>>, id: string): seq<Effect<P>> {
    if messages == [] then []
    else (if IsErrorFor(messages[0], id) then [HubError(id)] else []) + Errors(messages[1..], id)
  }

  /** The call that ends the stream for good, and the calls of on_error behind it. */
  function Ending<P>(w: World<P>, messages: seq<Message<P>>, id: string, l: Listener): seq<Effect<P>> {
    EndingAt(messages, FirstEnd(w, messages, id, l), id, l)
  }

  function EndingAt<P>(messages: seq<Message<P>>, k: nat, id: string, l: Listener): seq<Effect<P>>
    requires k <= |messages|
  {
    if k == |messages| then [] else Answer(messages[k], id, l, true) + Errors(messages[k + 1..], id)
  }

  /** The calls before the message that ends the stream, then the ending. */
  function Life<P>(w: World<P>, messages: seq<Message<P>>, id: string, l: Listener): seq<Effect<P>> {
    Calls(messages[..FirstEnd(w, messages, id, l)], id, l) + Ending(w, messages, id, l)
  }

  lemma {:induction false} DeadAnswers<P>(w: World<P>, messages: seq<Message<P>>, id: string, l: Listener)
    ensures Answers(w, messages, id, l, false) == Errors(messages, id)
    ensures !LiveAfter(w, messages, id, l, false)
  {
    if messages != [] {
      DeadAnswers(w, messages[1..], id, l);
    }
  }

  lemma {:induction false} AnswersInOrder<P>(w: World<P>, messages: seq<Message<P>>, id: string, l: Listener)
    ensures Answers(w, messages, id, l, true) == Life(w, messages, id, l)
  {
    if messages == [] {
    } else if Finishes(w, messages[0], id, l) {
      DeadAnswers(w, messages[1..], id, l);
      Empty(Ending(w, messages, id, l));
    } else {
      AnswersInOrder(w, messages[1..], id, l);
      LifeTurn(w, messages, id, l);
    }
  }

  lemma EndingStays<P>(w: World<P>, messages: seq<Message<P>>, id: string, l: Listener)
    requires messages != [] && !Finishes(w, messages[0], id, l)
    ensures FirstEnd(w, messages, id, l) == 1 + FirstEnd(w, messages[1..], id, l)
    ensures Ending(w, messages, id, l) == Ending(w, messages[1..], id, l)
  {
    var k := FirstEnd(w, messages[1..], id, l);
    if k + 1 < |messages| {
      assert messages[1..][k + 1..] == messages[k + 2..];
    }
  }

  lemma CallsTurn<P>(messages: seq<Message<P>>, k: nat, id: string, l: Listener)
    requires k < |messages|
    ensures Calls(messages[..k + 1], id, l) == Answer(messages[0], id, l, true) + Calls(messages[1..][..k], id, l)
  {
    ConsTail(messages[0], messages[1..][..k]);
    assert messages[..k + 1] == [messages[0]] + messages[1..][..k];
  }

  /** A message that does not end the stream adds its call to the life of the rest. */
  lemma LifeTurn<P>(w: World<P>, messages: seq<Message<P>>, id: string, l: Listener)
    requires messages != [] && !Finishes(w, messages[0], id, l)
    ensures Life(w, messages, id, l) == Answer(messages[0], id, l, true) + Life(w, messages[1..], id, l)
  {
    var k := FirstEnd(w, messages[1..], id, l);
    EndingStays(w, messages, id, l);
    CallsTurn(messages, k, id, l);
    Assoc(Answer(messages[0], id, l, true), Calls(messages[1..][..k], id, l), Ending(w, messages[1..], id, l));
  }

  function Items<P>(messages: seq<Message<P>>, id: string, callbacks: nat): seq<Effect<P>> {
    if messages == [] then []
    else (if messages[0].StreamItem? && messages[0].id == id then [Next(id, callbacks, messages[0].item)] else [])
         + Items(messages[1..], id, callbacks)
  }

  lemma {:induction false} CallsAreItems<P>(messages: seq<Message<P>>, id: string, callbacks: nat)
    requires forall k :: 0 <= k < |messages| ==> !Ends(messages[k], id)
    ensures Calls(messages, id, Subscriber(callbacks)) == Items(messages, id, callbacks)
  {
    if messages != [] {
      CallsAreItems(messages[1..], id, callbacks);
    }
  }

  /**
   The life of a stream whose terminal callbacks do not raise: every item up to the first message
   that ends it, then one terminal call, then on_error for each further completion with an error.
   */
  lemma LifeIsItemsThenEnding<P>(w: World<P>, messages: seq<Message<P>>, id: string, callbacks: nat)
    requires forall k :: 0 <= k < |messages| && Ends(messages[k], id) ==> Finishes(w, messages[k], id, Subscriber(callbacks))
    ensures Life(w, messages, id, Subscriber(callbacks))
            == Items(messages[..FirstEnd(w, messages, id, Subscriber(callbacks))], id, callbacks)
               + Ending(w, messages, id, Subscriber(callbacks))
  {
    CallsAreItems(messages[..FirstEnd(w, messages, id, Subscriber(callbacks))], id, callbacks);
  }

  // ---- A stream from its call to its end ----

  /** The stream's message has been sent, and the handler is in the user's hands. */
  function Sent<P>(h: Hub<P>, id: string, handle: nat): Hub<P> {
    Stream(h, id, handle, true).0
  }

  /** The user has subscribed after some actions. */
  function Heeded<P>(w: World<P>, h: Hub<P>, id: string, handle: nat, before: seq<Action<P>>, callbacks: nat): Hub<P> {
    Subscribe(Run(w, Sent(h, id, handle), before), handle, Callbacks(callbacks)).0
  }

  /** The messages dispatched between the send and the subscription. */
  function Early<P>(w: World<P>, h: Hub<P>, id: string, handle: nat, before: seq<Action<P>>): seq<Message<P>> {
    Received(w, Sent(h, id, handle), before)
  }

  /** The messages dispatched behind the subscription. */
  function Late<P>(w: World<P>, h: Hub<P>, id: string, handle: nat, before: seq<Action<P>>, callbacks: nat,
                   after: seq<Action<P>>): seq<Message<P>>
  {
    Received(w, Heeded(w, h, id, handle, before, callbacks), after)
  }

  /** What the user has heard for an id over the whole run. */
  function AllHeard<P>(w: World<P>, h: Hub<P>, id: string, handle: nat, before: seq<Action<P>>, callbacks: nat,
                       after: seq<Action<P>>): seq<Effect<P>>
  {
    Heard(Trace(Run(w, Heeded(w, h, id, handle, before, callbacks), after).log, id))
  }

  /** The id is fresh, and no action around the subscription takes it or the handler object up again. */
  ghost predicate Undisturbed<P>(h: Hub<P>, id: string, handle: nat, before: seq<Action<P>>, after: seq<Action<P>>) {
    id !in h.streamHandlers && Foreign(before, id, StreamHandler(handle)) && Foreign(after, id, StreamHandler(handle))
  }

  lemma SentIsRegistered<P>(h: Hub<P>, id: string, handle: nat)
    requires id !in h.streamHandlers
    ensures Registered(Sent(h, id, handle), id, StreamHandler(handle), Nobody, true)
    ensures Trace(Sent(h, id, handle).log, id) == Trace(h.log, id)
  {
    assert [] + [StreamHandler(handle)] == [StreamHandler(handle)];
    TraceAppend(h.log, [Transmitted(id)], id);
    Empty(Trace(h.log, id));
  }

  lemma {:induction false} EarlyIsUnheard<P>(w: World<P>, messages: seq<Message<P>>, id: string, live: bool)
    ensures Heard(Answers(w, messages, id, Nobody, live)) == Errors(messages, id)
  {
    if messages != [] {
      var after := live && !Finishes(w, messages[0], id, Nobody);
      var answer: seq<Effect<P>> := Answer(messages[0], id, Nobody, live);
      EarlyIsUnheard(w, messages[1..], id, after);
      HeardAppend(answer, Answers(w, messages[1..], id, Nobody, after));
      if answer != [] {
        assert answer[1..] == [];
      }
    }
  }

  lemma {:induction false} LateIsHeard<P>(w: World<P>, messages: seq<Message<P>>, id: string, callbacks: nat, live: bool)
    ensures Heard(Answers(w, messages, id, Subscriber(callbacks), live)) == Answers(w, messages, id, Subscriber(callbacks), live)
  {
    if messages != [] {
      var after := live && !Finishes(w, messages[0], id, Subscriber(callbacks));
      var answer := Answer(messages[0], id, Subscriber(callbacks), live);
      LateIsHeard(w, messages[1..], id, callbacks, after);
      HeardAppend(answer, Answers(w, messages[1..], id, Subscriber(callbacks), after));
      if answer != [] {
        assert answer[1..] == [];
        Empty(answer);
      }
    }
  }

  /** What is heard: on_error for early completions with an error, and what is answered late. */
  lemma HeardInTwoParts<P>(w: World<P>, h: Hub<P>, id: string, handle: nat, before: seq<Action<P>>, callbacks: nat,
                           after: seq<Action<P>>)
    requires Undisturbed(h, id, handle, before, after)
    ensures var early, late := Early(w, h, id, handle, before), Late(w, h, id, handle, before, callbacks, after);
            AllHeard(w, h, id, handle, before, callbacks, after)
            == Heard(Trace(h.log, id))
               + (Errors(early, id) + Answers(w, late, id, Subscriber(callbacks), LiveAfter(w, early, id, Nobody, true)))
  {
    var early, late := Early(w, h, id, handle, before), Late(w, h, id, handle, before, callbacks, after);
    var live := LiveAfter(w, early, id, Nobody, true);
    SentIsRegistered(h, id, handle);
    RunAnswers(w, Sent(h, id, handle), before, id, StreamHandler(handle), Nobody, true);
    RunAnswers(w, Heeded(w, h, id, handle, before, callbacks), after, id, StreamHandler(handle), Subscriber(callbacks), live);
    var first, second := Answers(w, early, id, Nobody, true), Answers(w, late, id, Subscriber(callbacks), live);
    HeardAppend(Trace(h.log, id) + first, second);
    HeardAppend(Trace(h.log, id), first);
    EarlyIsUnheard(w, early, id, true);
    LateIsHeard(w, late, id, callbacks, live);
    Assoc(Heard(Trace(h.log, id)), Errors(early, id), second);
  }

  /**
   The callbacks a user gets for a stream with a fresh id, over any run: on_error for completions
   with an error that were dispatched before the subscription, and then, if the stream is still
   live, the whole life of the stream in the messages dispatched behind it.
   */
  lemma StreamDiscipline<P>(w: World<P>, h: Hub<P>, id: string, handle: nat, before: seq<Action<P>>, callbacks: nat,
                            after: seq<Action<P>>)
    requires Undisturbed(h, id, handle, before, after)
    ensures var early, late := Early(w, h, id, handle, before), Late(w, h, id, handle, before, callbacks, after);
            AllHeard(w, h, id, handle, before, callbacks, after)
            == Heard(Trace(h.log, id))
               + (Errors(early, id)
                  + if LiveAfter(w, early, id, Nobody, true) then Life(w, late, id, Subscriber(callbacks))
                    else Errors(late, id))
  {
    var late := Late(w, h, id, handle, before, callbacks, after);
    HeardInTwoParts(w, h, id, handle, before, callbacks, after);
    AnswersInOrder(w, late, id, Subscriber(callbacks));
    DeadAnswers(w, late, id, Subscriber(callbacks));
  }

  /** An item, or an ending without an error, comes while the stream is live. */
  predicate Misses<P>(w: World<P>, messages: seq<Message<P>>, id: string) {
    messages != [] &&
    (|| (IsFor(messages[0], id) && !IsErrorFor(messages[0], id))
     || (!Finishes(w, messages[0], id, Nobody) && Misses(w, messages[1..], id)))
  }

  lemma FinishesLess<P>(w: World<P>, m: Message<P>, id: string, callbacks: nat)
    ensures Finishes(w, m, id, Subscriber(callbacks)) ==> Finishes(w, m, id, Nobody)
    ensures IsErrorFor(m, id) || !IsFor(m, id) ==> (Finishes(w, m, id, Subscriber(callbacks)) <==> Finishes(w, m, id, Nobody))
  {
  }

  lemma {:induction false} NothingEarly<P>(w: World<P>, messages: seq<Message<P>>, id: string, callbacks: nat)
    requires !Misses(w, messages, id)
    ensures Answers(w, messages, id, Subscriber(callbacks), true) == Errors(messages, id)
    ensures LiveAfter(w, messages, id, Subscriber(callbacks), true) == LiveAfter(w, messages, id, Nobody, true)
  {
    if messages != [] {
      FinishesLess(w, messages[0], id, callbacks);
      if Finishes(w, messages[0], id, Nobody) {
        DeadAnswers(w, messages[1..], id, Subscriber(callbacks));
        DeadAnswers(w, messages[1..], id, Nobody);
      } else {
        NothingEarly(w, messages[1..], id, callbacks);
      }
    }
  }

  /** A subscribed stream answers at least to the errors, and to more if something would be missed. */
  lemma {:induction false} AnswersAreMore<P>(w: World<P>, messages: seq<Message<P>>, id: string, callbacks: nat)
    ensures |Answers(w, messages, id, Subscriber(callbacks), true)| >= |Errors(messages, id)|
    ensures Misses(w, messages, id) ==> |Answers(w, messages, id, Subscriber(callbacks), true)| > |Errors(messages, id)|
    ensures LiveAfter(w, messages, id, Nobody, true) ==> LiveAfter(w, messages, id, Subscriber(callbacks), true)
  {
    if messages != [] {
      FinishesLess(w, messages[0], id, callbacks);
      AnswersAreMore(w, messages[1..], id, callbacks);
      DeadAnswers(w, messages[1..], id, Subscriber(callbacks));
      DeadAnswers(w, messages[1..], id, Nobody);
    }
  }

  /**
   The user gets exactly the callbacks that the messages dispatched since the send are for, as if
   subscribed from the start, iff none was missed: no item, and no ending without an error, was
   dispatched between the send and the subscription while the stream was live.
   */
  lemma NothingMissedIff<P>(w: World<P>, h: Hub<P>, id: string, handle: nat, before: seq<Action<P>>, callbacks: nat,
                            after: seq<Action<P>>)
    requires Undisturbed(h, id, handle, before, after)
    ensures var early, late := Early(w, h, id, handle, before), Late(w, h, id, handle, before, callbacks, after);
            (AllHeard(w, h, id, handle, before, callbacks, after)
             == Heard(Trace(h.log, id)) + Life(w, early + late, id, Subscriber(callbacks)))
            == !Misses(w, early, id)
  {
    var early, late := Early(w, h, id, handle, before), Late(w, h, id, handle, before, callbacks, after);
    var heard := Heard(Trace(h.log, id));
    HeardInTwoParts(w, h, id, handle, before, callbacks, after);
    AnswersInOrder(w, early + late, id, Subscriber(callbacks));
    AnswersAppend(w, early, late, id, Subscriber(callbacks), true);
    if Misses(w, early, id) {
      AnswersAreMore(w, early, id, callbacks);
      AnswersAreMore(w, late, id, callbacks);
      DeadAnswers(w, late, id, Subscriber(callbacks));
    } else {
      NothingEarly(w, early, id, callbacks);
    }
  }

  lemma {:induction false} NoErrorsIff<P>(messages: seq<Message<P>>, id: string)
    ensures (Errors(messages, id) == []) == (forall k :: 0 <= k < |messages| ==> !IsErrorFor(messages[k], id))
  {
    if messages != [] {
      NoErrorsIff(messages[1..], id);
      forall k | 0 < k < |messages|
        ensures messages[k] == messages[1..][k - 1]
      {
      }
      if forall k :: 0 <= k < |messages| ==> !IsErrorFor(messages[k], id) {
        assert forall k :: 0 <= k < |messages[1..]| ==> messages[1..][k] == messages[k + 1];
      }
    }
  }

  /** The calls of a stream up to and with the one that ends it. */
  function UpToEnd<P>(w: World<P>, messages: seq<Message<P>>, id: string, l: Listener): seq<Effect<P>>
    requires FirstEnd(w, messages, id, l) < |messages|
  {
    var k := FirstEnd(w, messages, id, l);
    Calls(messages[..k], id, l) + Answer(messages[k], id, l, true)
  }

  /** A completion with an error comes behind the message that ended the stream. */
  ghost predicate ErrorFollows<P>(w: World<P>, messages: seq<Message<P>>, id: string, l: Listener) {
    exists k :: FirstEnd(w, messages, id, l) < k < |messages| && IsErrorFor(messages[k], id)
  }

  lemma LifeStopsIff<P>(w: World<P>, messages: seq<Message<P>>, id: string, l: Listener)
    requires FirstEnd(w, messages, id, l) < |messages|
    ensures Life(w, messages, id, l)
            == UpToEnd(w, messages, id, l) + Errors(messages[FirstEnd(w, messages, id, l) + 1..], id)
    ensures (Errors(messages[FirstEnd(w, messages, id, l) + 1..], id) == [])
            == !ErrorFollows(w, messages, id, l)
  {
    LifeGoesOn(messages, FirstEnd(w, messages, id, l), id, l);
    ErrorsBehind(messages, id, FirstEnd(w, messages, id, l));
  }

  lemma LifeGoesOn<P>(messages: seq<Message<P>>, k: nat, id: string, l: Listener)
    requires k < |messages|
    ensures Calls(messages[..k], id, l) + EndingAt(messages, k, id, l)
            == Calls(messages[..k], id, l) + Answer(messages[k], id, l, true) + Errors(messages[k + 1..], id)
  {
    Assoc(Calls(messages[..k], id, l), Answer(messages[k], id, l, true), Errors(messages[k + 1..], id));
  }

  lemma ErrorsBehind<P>(messages: seq<Message<P>>, id: string, k: nat)
    requires k < |messages|
    ensures (Errors(messages[k + 1..], id) == []) == !(exists j :: k < j < |messages| && IsErrorFor(messages[j], id))
  {
    var rest := messages[k + 1..];
    NoErrorsIff(rest, id);
    if j :| k < j < |messages| && IsErrorFor(messages[j], id) {
      assert rest[j - k - 1] == messages[j];
    } else {
      forall j | 0 <= j < |rest|
        ensures !IsErrorFor(rest[j], id)
      {
        assert messages[k + 1 + j] == rest[j];
      }
    }
  }

  /**
   Over any run in which a stream is subscribed while live and ends: the user's callbacks end with
   the one that ends it iff no completion with an error is dispatched for its id afterwards.
   */
  lemma StreamStopsIff<P>(w: World<P>, h: Hub<P>, id: string, handle: nat, before: seq<Action<P>>, callbacks: nat,
                          after: seq<Action<P>>)
    requires Undisturbed(h, id, handle, before, after)
    requires LiveAfter(w, Early(w, h, id, handle, before), id, Nobody, true)
    requires var late := Late(w, h, id, handle, before, callbacks, after);
             FirstEnd(w, late, id, Subscriber(callbacks)) < |late|
    ensures var early, late := Early(w, h, id, handle, before), Late(w, h, id, handle, before, callbacks, after);
            (AllHeard(w, h, id, handle, before, callbacks, after)
             == Heard(Trace(h.log, id)) + (Errors(early, id) + UpToEnd(w, late, id, Subscriber(callbacks))))
            == !ErrorFollows(w, late, id, Subscriber(callbacks))
  {
    var early, late := Early(w, h, id, handle, before), Late(w, h, id, handle, before, callbacks, after);
    StreamDiscipline(w, h, id, handle, before, callbacks, after);
    LifeStopsIff(w, late, id, Subscriber(callbacks));
    var heard, first, upToEnd := Heard(Trace(h.log, id)), Errors(early, id), UpToEnd(w, late, id, Subscriber(callbacks));
    var errors := Errors(late[FirstEnd(w, late, id, Subscriber(callbacks)) + 1..], id);
    Assoc(first, upToEnd, errors);
    Assoc(heard, first + upToEnd, errors);
    Empty(heard + (first + upToEnd));
  }

  // ---- An invocation from its call to its result ----

  predicate Completes<P>(m: Message<P>, id: string) {
    m.Completion? && m.id == id
  }

  /** What a completion is for while the invocation waits: on_error, or the user's callback with the result. */
  function Reply<P>(m: Message<P>, callback: nat): Effect<P>
    requires m.Completion?
  {
    if IsError(m.error) then HubError(m.id) else Completed(m.id, callback, m.result)
  }

  function Replies<P>(messages: seq<Message<P>>, id: string, callback: nat): seq<Effect<P>> {
    if messages == [] then []
    else (if Completes(messages[0], id) then [Reply(messages[0], callback)] else [])
         + Replies(messages[1..], id, callback)
  }

  /** The messages up to and with the first completion whose callback does not raise, or all of them. */
  function Awaited<P>(w: World<P>, messages: seq<Message<P>>, id: string, callback: nat): (k: nat)
    ensures k <= |messages|
  {
    if messages == [] then 0
    else if Completes(messages[0], id) && !w(Reply(messages[0], callback)) then 1
    else 1 + Awaited(w, messages[1..], id, callback)
  }

  /** An invocation waits as long as no completion has gone through. */
  ghost predicate Waits<P>(w: World<P>, messages: seq<Message<P>>, id: string, callback: nat) {
    forall k :: 0 <= k < |messages| && Completes(messages[k], id) ==> w(Reply(messages[k], callback))
  }

  lemma {:induction false} InvocationAnswers<P>(w: World<P>, messages: seq<Message<P>>, id: string, callback: nat)
    ensures var k := Awaited(w, messages, id, callback);
            Answers(w, messages, id, Caller(callback), true)
            == Replies(messages[..k], id, callback) + Errors(messages[k..], id)
    ensures LiveAfter(w, messages, id, Caller(callback), true) == Waits(w, messages, id, callback)
  {
    if messages != [] {
      var m, rest := messages[0], messages[1..];
      if Completes(m, id) && !w(Reply(m, callback)) {
        DeadAnswers(w, rest, id, Caller(callback));
        assert messages[..1] == [m] && [m][1..] == [];
        Empty([Reply(m, callback)]);
      } else {
        var k := Awaited(w, rest, id, callback);
        InvocationAnswers(w, rest, id, callback);
        ConsTail(m, rest[..k]);
        assert messages[..k + 1] == [m] + rest[..k] && messages[k + 1..] == rest[k..];
        Assoc(if Completes(m, id) then [Reply(m, callback)] else [], Replies(rest[..k], id, callback), Errors(rest[k..], id));
        WaitsOn(w, messages, id, callback);
      }
    }
  }

  lemma WaitsOn<P>(w: World<P>, messages: seq<Message<P>>, id: string, callback: nat)
    requires messages != [] && (Completes(messages[0], id) ==> w(Reply(messages[0], callback)))
    ensures Waits(w, messages, id, callback) <==> Waits(w, messages[1..], id, callback)
  {
    var rest := messages[1..];
    if Waits(w, rest, id, callback) {
      forall k | 0 <= k < |messages| && Completes(messages[k], id)
        ensures w(Reply(messages[k], callback))
      {
        assert k > 0 ==> messages[k] == rest[k - 1];
      }
    }
    if Waits(w, messages, id, callback) {
      assert forall k :: 0 <= k < |rest| ==> rest[k] == messages[k + 1];
    }
  }

  /** A list is sent with a callback for the result, or could not be sent. */
  function Invoked<P>(h: Hub<P>, id: string, callback: nat, sends: bool): Hub<P> {
    Invoke(h, id, "", List, Some(callback), true, sends).0
  }

  lemma InvokedIsRegistered<P>(h: Hub<P>, id: string, callback: nat, sends: bool)
    requires id !in h.streamHandlers
    ensures Registered(Invoked(h, id, callback, sends), id, InvocationHandler(callback), Caller(callback), true)
    ensures Trace(Invoked(h, id, callback, sends).log, id) == Trace(h.log, id)
  {
    assert [] + [InvocationHandler(callback)] == [InvocationHandler(callback)];
    TransmittedIsForeign(Register(h, id, InvocationHandler(callback)), id, id);
  }

  /**
   The callbacks for an invocation with a fresh id, over any run: each completion up to the first one
   that goes through calls on_error or the user's callback with its result; then the invocation is
   forgotten, and only on_error is called. It is forgotten iff one goes through, and whether its own message
   was sent does not matter.
   */
  lemma InvocationDiscipline<P>(w: World<P>, h: Hub<P>, id: string, callback: nat, sends: bool, actions: seq<Action<P>>)
    requires id !in h.streamHandlers && Foreign(actions, id, InvocationHandler(callback))
    ensures var start := Invoked(h, id, callback, sends);
            var last, messages := Run(w, start, actions), Received(w, start, actions);
            var k := Awaited(w, messages, id, callback);
            && Trace(last.log, id)
               == Trace(h.log, id) + (Replies(messages[..k], id, callback) + Errors(messages[k..], id))
            && (id !in last.streamHandlers <==> !Waits(w, messages, id, callback))
  {
    var start := Invoked(h, id, callback, sends);
    InvokedIsRegistered(h, id, callback, sends);
    RunAnswers(w, start, actions, id, InvocationHandler(callback), Caller(callback), true);
    InvocationAnswers(w, Received(w, start, actions), id, callback);
  }

  lemma {:induction false} FirstReply<P>(w: World<P>, messages: seq<Message<P>>, id: string, callback: nat, k: nat)
    requires k < |messages| && Completes(messages[k], id) && !w(Reply(messages[k], callback))
    requires forall j :: 0 <= j < k ==> !Completes(messages[j], id)
    ensures Awaited(w, messages, id, callback) == k + 1
    ensures Replies(messages[..k + 1], id, callback) == [Reply(messages[k], callback)]
  {
    ConsTail(messages[0], messages[1..k + 1]);
    assert messages[..k + 1] == [messages[0]] + messages[1..k + 1];
    if k == 0 {
      Empty([Reply(messages[0], callback)]);
    } else {
      FirstReply(w, messages[1..], id, callback, k - 1);
      assert messages[1..][..k] == messages[1..k + 1];
    }
  }

  /**
   The result of an invocation reaches the user exactly once: if the first completion for it has no
   error and its callback does not raise, the callback is called with its result, and from then on only on_error,
   for further completions with an error. If it has an error, on_error is called and the callback never.
   */
  lemma ResultComesOnce<P>(w: World<P>, h: Hub<P>, id: string, callback: nat, sends: bool, actions: seq<Action<P>>, k: nat)
    requires id !in h.streamHandlers && Foreign(actions, id, InvocationHandler(callback))
    requires var messages := Received(w, Invoked(h, id, callback, sends), actions);
             && k < |messages| && Completes(messages[k], id) && !w(Reply(messages[k], callback))
             && (forall j :: 0 <= j < k ==> !Completes(messages[j], id))
    ensures var start := Invoked(h, id, callback, sends);
            var last, messages := Run(w, start, actions), Received(w, start, actions);
            && Trace(last.log, id)
               == Trace(h.log, id)
                  + ([if IsError(messages[k].error) then HubError(id) else Completed(id, callback, messages[k].result)]
                     + Errors(messages[k + 1..], id))
            && id !in last.streamHandlers
  {
    var messages := Received(w, Invoked(h, id, callback, sends), actions);
    InvocationDiscipline(w, h, id, callback, sends, actions);
    FirstReply(w, messages, id, callback, k);
  }

  // ---- Inputs on which the code does less than it promises ----

  /** An item for the id of an invocation: the message behind it is never dispatched. */
  lemma ItemForInvocationAborts<P>(w: World<P>, item: P)
    ensures var h := Invoke(Fresh<P>(), "1", "", List, Some(0), true, true).0;
            OnMessage(w, h, [StreamItem("1", item), Close]) == (h, Raises)
  {
    var h := Invoke(Fresh<P>(), "1", "", List, Some(0), true, true).0;
    var m: Message<P> := StreamItem("1", item);
    assert [] + [InvocationHandler(0)] == [InvocationHandler(0)];
    assert Get(h.streamHandlers, "1") == [InvocationHandler(0)];
    assert StreamPlan(h, m, [InvocationHandler(0)])[0] == None;
    assert Dispatch(w, h, m) == (Logged(h, []), Raises);
    Empty(h.log);
  }

  /** Registered 1, 2 and 1 again, unsubscribing 1 leaves 2 and 1: the first registration is gone. */
  lemma UnsubscribeReorders<P>(event: string)
    ensures var h := OnAll(Fresh<P>(), event, [1, 2]);
            && Unsubscribe(On(h, event, 1), event, 1).0 != h
            && Get(Unsubscribe(On(h, event, 1), event, 1).0.handlers, event) == [2, 1]
  {
    var h := OnAll(Fresh<P>(), event, [1, 2]);
    OnAllRegisters(Fresh<P>(), event, [1, 2]);
    assert Get(h.handlers, event) == [1, 2];
    assert Get(On(h, event, 1).handlers, event) == [1, 2] + [1];
    assert ([1, 2] + [1])[1..] == [2, 1];
    assert RemoveFirst([1, 2] + [1], 1) == Some([2, 1]);
  }

  /** A failed unsubscription leaves an empty entry, which registering and unsubscribing then removes. */
  lemma UnsubscribeDropsEntry<P>(event: string)
    ensures var h := Unsubscribe(Fresh<P>(), event, 1).0;
            && Unsubscribe(Fresh<P>(), event, 1).1 == Raises && event in h.handlers
            && event !in Unsubscribe(On(h, event, 1), event, 1).0.handlers
  {
    var h := Unsubscribe(Fresh<P>(), event, 1).0;
    assert h.handlers[event] == [];
    assert Get(On(h, event, 1).handlers, event) == [] + [1] == [1];
    assert [1][1..] == [];
    assert RemoveFirst([1], 1) == Some([]);
  }

  /** No callback raises. */
  function Calm<P>(): World<P> {
    (e: Effect<P>) => false
  }

  lemma RunOne<P>(w: World<P>, h: Hub<P>, m: Message<P>)
    ensures Run(w, h, [Receives([m])]) == Dispatch(w, h, m).0
  {
    var a: Action<P> := Receives([m]);
    assert [m][1..] == [] && [a][1..] == [];
    assert OnMessage(w, h, [m]).0 == Dispatch(w, h, m).0;
    assert Run(w, Act(w, h, a).0, [a][1..]) == Act(w, h, a).0;
  }

  lemma OwnEffect<P>(w: World<P>, h: Hub<P>, m: Message<P>, id: string, handler: Handler, l: Listener)
    requires Registered(h, id, handler, l, true) && IsFor(m, id) && Answer(m, id, l, true) != []
    ensures var e := Answer(m, id, l, true)[0];
            Run(w, h, [Receives([m])])
            == if Ends(m, id) && !Throws(w, e) then Forget(Logged(h, [e]), id) else Logged(h, [e])
  {
    OwnPlan(h, m, id, handler, l, true);
    FireOne(w, Answer(m, id, l, true)[0]);
    RunOne(w, h, m);
  }

  /** An item that comes before the subscription is never seen by the user. */
  lemma ItemBeforeSubscribe<P>(item: P)
    ensures var h := Run(Calm<P>(), Sent(Fresh<P>(), "1", 0), [Receives([StreamItem("1", item)])]);
            h.log == [Transmitted("1"), Unheard("1")]
    ensures Misses(Calm<P>(), [StreamItem("1", item)], "1")
  {
    SentIsRegistered(Fresh<P>(), "1", 0);
    OwnEffect(Calm<P>(), Sent(Fresh<P>(), "1", 0), StreamItem("1", item), "1", StreamHandler(0), Nobody);
  }

  /** A stream the user has subscribed to at once. */
  function Listening<P>(callbacks: nat): Hub<P> {
    Subscribe(Sent(Fresh<P>(), "1", 0), 0, Callbacks(callbacks)).0
  }

  lemma ListeningIsRegistered<P>(callbacks: nat)
    ensures Registered(Listening<P>(callbacks), "1", StreamHandler(0), Subscriber(callbacks), true)
    ensures Listening<P>(callbacks).log == [Transmitted("1")]
  {
    SentIsRegistered(Fresh<P>(), "1", 0);
  }

  /** An invocation that is completed: its callback gets the result, and it is forgotten. */
  lemma InvocationCompletes<P>(result: P)
    ensures var h := Run(Calm<P>(), Invoked(Fresh<P>(), "1", 5, true), [Receives([Completion("1", result, None)])]);
            h.log == [Transmitted("1"), Completed("1", 5, result)] && "1" !in h.streamHandlers
  {
    InvokedIsRegistered(Fresh<P>(), "1", 5, true);
    OwnEffect(Calm<P>(), Invoked(Fresh<P>(), "1", 5, true), Completion("1", result, None), "1",
              InvocationHandler(5), Caller(5));
  }

  /** An empty error is none. */
  lemma EmptyErrorCompletes<P>(result: P)
    ensures Run(Calm<P>(), Invoked(Fresh<P>(), "1", 5, true), [Receives([Completion("1", result, Some(""))])]).log
            == [Transmitted("1"), Completed("1", 5, result)]
  {
    InvokedIsRegistered(Fresh<P>(), "1", 5, true);
    OwnEffect(Calm<P>(), Invoked(Fresh<P>(), "1", 5, true), Completion("1", result, Some("")), "1",
              InvocationHandler(5), Caller(5));
  }

  /** The callback of an invocation that raises gets the next completion, too. */
  lemma RaisingResultRepeats<P>(first: P, second: P)
    ensures var w: World<P> := (e: Effect<P>) => e.Completed? && e.result == first;
            var start := Invoked(Fresh<P>(), "1", 5, true);
            var once := Run(w, start, [Receives([Completion("1", first, None)])]);
            Run(w, once, [Receives([Completion("1", second, None)])]).log == [Transmitted("1"), Completed("1", 5, first), Completed("1", 5, second)]
  {
    var w: World<P> := (e: Effect<P>) => e.Completed? && e.result == first;
    var start := Invoked(Fresh<P>(), "1", 5, true);
    InvokedIsRegistered(Fresh<P>(), "1", 5, true);
    OwnEffect(w, start, Completion("1", first, None), "1", InvocationHandler(5), Caller(5));
    OwnEffect(w, Logged(start, [Completed("1", 5, first)]), Completion("1", second, None), "1",
              InvocationHandler(5), Caller(5));
  }

  /** A stream that is cancelled: its error callback is called, and it is forgotten. */
  lemma CancellationIsHeard<P>()
    ensures var h := Run(Calm<P>(), Listening<P>(7), [Receives([CancelInvocation("1")])]);
            h.log == [Transmitted("1"), Cancelled("1", 7)] && "1" !in h.streamHandlers
  {
    ListeningIsRegistered<P>(7);
    OwnEffect(Calm<P>(), Listening<P>(7), CancelInvocation("1"), "1", StreamHandler(0), Subscriber(7));
  }

  /** A stream that was completed and is then completed with an error: on_error fires for it. */
  lemma ErrorAfterEnd<P>(result: P)
    ensures var done := Run(Calm<P>(), Listening<P>(7), [Receives([Completion("1", result, None)])]);
            Run(Calm<P>(), done, [Receives([Completion("1", result, Some("late"))])]).log
            == [Transmitted("1"), Completed("1", 7, result), HubError("1")]
  {
    var late: Message<P> := Completion("1", result, Some("late"));
    ListeningIsRegistered<P>(7);
    OwnEffect(Calm<P>(), Listening<P>(7), Completion("1", result, None), "1", StreamHandler(0), Subscriber(7));
    var done := Forget(Logged(Listening<P>(7), [Completed("1", 7, result)]), "1");
    FireOne(Calm<P>(), Effect<P>.HubError("1"));
    RunOne(Calm<P>(), done, late);
  }

  /** A completion with an error does not call the error callback of the stream it ends. */
  lemma ErrorSkipsStream<P>(result: P)
    ensures Run(Calm<P>(), Listening<P>(7), [Receives([Completion("1", result, Some("failed"))])]).log
            == [Transmitted("1"), HubError("1")]
  {
    ListeningIsRegistered<P>(7);
    OwnEffect(Calm<P>(), Listening<P>(7), Completion("1", result, Some("failed")), "1", StreamHandler(0), Subscriber(7));
  }

  /** The error callback of a stream is called for cancellations only. */
  lemma {:induction false} ErrorCallbackIsForCancellations<P>(w: World<P>, messages: seq<Message<P>>, id: string,
                                                              l: Listener, live: bool)
    requires forall k :: 0 <= k < |messages| ==> !(messages[k].CancelInvocation? && messages[k].id == id)
    ensures forall k :: 0 <= k < |Answers(w, messages, id, l, live)| ==>
              !Answers(w, messages, id, l, live)[k].Cancelled?
  {
    if messages != [] {
      var after := live && !Finishes(w, messages[0], id, l);
      ErrorCallbackIsForCancellations(w, messages[1..], id, l, after);
      var answer: seq<Effect<P>> := Answer(messages[0], id, l, live);
      var rest: seq<Effect<P>> := Answers(w, messages[1..], id, l, after);
      forall k | 0 <= k < |answer + rest|
        ensures !(answer + rest)[k].Cancelled?
      {
        if k >= |answer| {
          assert (answer + rest)[k] == rest[k - |answer|];
        }
      }
    }
  }

  /** A completion callback that raises is called again by the next completion: the stream was not forgotten. */
  lemma RaisingCompletionRepeats<P>(result: P)
    ensures var w: World<P> := (e: Effect<P>) => e.Completed?;
            var m: Message<P> := Completion("1", result, None);
            Run(w, Run(w, Listening<P>(7), [Receives([m])]), [Receives([m])]).log
            == [Transmitted("1"), Completed("1", 7, result), Completed("1", 7, result)]
  {
    var w: World<P> := (e: Effect<P>) => e.Completed?;
    var m: Message<P> := Completion("1", result, None);
    ListeningIsRegistered<P>(7);
    OwnEffect(w, Listening<P>(7), m, "1", StreamHandler(0), Subscriber(7));
    OwnEffect(w, Logged(Listening<P>(7), [Completed("1", 7, result)]), m, "1", StreamHandler(0), Subscriber(7));
  }

  // ---- The connection itself ----

  /** A log with calls added to it, and whether the last of them raised. */
  function Onto<P>(log: seq<Effect<P>>, fired: (seq<Effect<P>>, bool)): (seq<Effect<P>>, bool) {
    (log + fired.0, fired.1)
  }

  /** One turn of the loop over a plan. */
  lemma FireTurn<P>(w: World<P>, log: seq<Effect<P>>, plan: seq<Option<Effect<P>>>)
    requires plan != []
    ensures Onto(log, Fire(w, plan))
            == if plan[0].None? then (log, true)
               else if Throws(w, plan[0].value) then (log + [plan[0].value], true)
               else Onto(log + [plan[0].value], Fire(w, plan[1..]))
  {
    Empty(log);
    if plan[0].Some? {
      Assoc(log, [plan[0].value], Fire(w, plan[1..]).0);
    }
  }

  class HubConnection<P> {
    /** Which calls of the user's code raise. */
    const world: World<P>
    var handlers: map<string, seq<nat>>
    var streamHandlers: map<string, seq<Handler>>
    /** The callbacks of the stream handler objects. */
    var callbacks: map<nat, nat>
    var log: seq<Effect<P>>

    constructor (world: World<P>)
      ensures this.world == world && Snapshot() == Fresh()
    {
      this.world := world;
      handlers, streamHandlers, callbacks, log := map[], map[], map[], [];
    }

    function Snapshot(): Hub<P>
      reads this
    {
      Hub(handlers, streamHandlers, callbacks, log)
    }

    method AddHandler(event: string, callback: nat)
      modifies this
      ensures Snapshot() == On(old(Snapshot()), event, callback)
    {
      if event !in handlers {
        handlers := handlers[event := []];
      }
      handlers := handlers[event := handlers[event] + [callback]];
    }

    method RemoveHandler(event: string, callback: nat) returns (flow: Flow)
      modifies this
      ensures (Snapshot(), flow) == Unsubscribe(old(Snapshot()), event, callback)
    {
      if event !in handlers {
        handlers := handlers[event := []];
      }
      var rest := RemoveFirst(handlers[event], callback);
      if rest.None? {
        assert handlers == old(handlers)[event := Get(old(handlers), event)];
        return Raises;
      }
      handlers := handlers[event := rest.value];
      if |handlers[event]| == 0 {
        handlers := handlers - {event};
        assert handlers == old(handlers) - {event};
      } else {
        assert handlers == old(handlers)[event := rest.value];
      }
      return Continues;
    }

    method RegisterHandler(id: string, handler: Handler)
      modifies this
      ensures Snapshot() == Register(old(Snapshot()), id, handler)
    {
      if id !in streamHandlers {
        streamHandlers := streamHandlers[id := []];
      }
      streamHandlers := streamHandlers[id := streamHandlers[id] + [handler]];
    }

    /**
     The stream is registered in any case, also when its message could not be sent, and nobody
     listens to it yet.
     */
    method StartStream(id: string, handle: nat, sends: bool) returns (flow: Flow)
      modifies this
      ensures (Snapshot(), flow) == Stream(old(Snapshot()), id, handle, sends)
      ensures StreamHandler(handle) in Get(streamHandlers, id) && Subscribed(Snapshot(), handle) == None
      ensures log == if flow == Raises then old(log) else old(log) + [Transmitted(id)]
    {
      callbacks := callbacks - {handle};
      RegisterHandler(id, StreamHandler(handle));
      if !sends {
        return Raises;
      }
      log := log + [Transmitted(id)];
      return Continues;
    }

    /** `subscribe` of a stream handler object: it listens from now on, or nothing changes. */
    method SubscribeHandler(handle: nat, subscription: Subscription) returns (flow: Flow)
      modifies this
      ensures (Snapshot(), flow) == Subscribe(old(Snapshot()), handle, subscription)
      ensures flow == Raises ==> Snapshot() == old(Snapshot())
      ensures flow == Raises <==> !subscription.Callbacks?
      ensures subscription.Callbacks? ==> Subscribed(Snapshot(), handle) == Some(subscription.callbacks)
      ensures forall other :: other != handle ==> Subscribed(Snapshot(), other) == Subscribed(old(Snapshot()), other)
    {
      if subscription == NotADict {
        return Raises;
      }
      if subscription == MissingKey {
        return Raises;
      }
      if subscription == NotCallable {
        return Raises;
      }
      callbacks := callbacks[handle := subscription.callbacks];
      return Continues;
    }

    /** A refused call changes nothing; a call that could not be sent leaves its handler registered. */
    method InvokeMethod(id: string, subjectId: string, arguments: Arguments, onInvocation: Option<nat>,
                        running: bool, sends: bool) returns (flow: Flow)
      modifies this
      ensures (Snapshot(), flow) == Invoke(old(Snapshot()), id, subjectId, arguments, onInvocation, running, sends)
      ensures flow == Continues <==> running && arguments != Neither && sends
      ensures log == if flow == Continues then old(log) + [Transmitted(if arguments == List then id else subjectId)]
                     else old(log)
      ensures !running || arguments != List || onInvocation.None? ==> streamHandlers == old(streamHandlers)
      ensures running && arguments == List && onInvocation.Some? ==>
                InvocationHandler(onInvocation.value) in Get(streamHandlers, id)
      ensures forall other :: other != id ==> Get(streamHandlers, other) == Get(old(streamHandlers), other)
    {
      if !running {
        return Raises;
      }
      if arguments == Neither {
        return Raises;
      }
      if arguments == List && onInvocation.Some? {
        RegisterHandler(id, InvocationHandler(onInvocation.value));
      }
      if !sends {
        return Raises;
      }
      log := log + [Transmitted(if arguments == List then id else subjectId)];
      return Continues;
    }

    /** One call: logged, then made. */
    method CallOut(e: Effect<P>) returns (raised: bool)
      modifies this`log
      ensures log == old(log) + [e] && raised == Throws(world, e)
    {
      log := log + [e];
      return !e.Unheard? && world(e);
    }

    /** The loop over the handlers of an event. */
    method FireEvent(m: Message<P>) returns (raised: bool)
      requires m.Invocation?
      modifies this`log
      ensures (log, raised) == Onto(old(log), Fire(world, EventPlan(m, Get(handlers, m.target))))
    {
      var fired := Get(handlers, m.target);
      ghost var target := Onto(log, Fire(world, EventPlan(m, fired)));
      for i := 0 to |fired|
        invariant target == Onto(log, Fire(world, EventPlan(m, fired[i..])))
      {
        SkipSkip(fired, i, 1);
        FireTurn(world, log, EventPlan(m, fired[i..]));
        raised := CallOut(Fired(m.target, fired[i], m.arguments));
        if raised {
          return;
        }
      }
      Empty(log);
      return false;
    }

    /** The loop over the handlers of a stream or an invocation. */
    method FireStream(m: Message<P>) returns (raised: bool)
      requires ForStream(m)
      modifies this`log
      ensures (log, raised) == Onto(old(log), Fire(world, StreamPlan(old(Snapshot()), m, Get(streamHandlers, m.id))))
    {
      var fired := Get(streamHandlers, m.id);
      ghost var h := Snapshot();
      ghost var target := Onto(log, Fire(world, StreamPlan(h, m, fired)));
      for i := 0 to |fired|
        invariant target == Onto(log, Fire(world, StreamPlan(h, m, fired[i..])))
      {
        SkipSkip(fired, i, 1);
        FireTurn(world, log, StreamPlan(h, m, fired[i..]));
        var call := match fired[i]
                    case StreamHandler(handle) =>
                      Some(Call(m, if handle in callbacks then Some(callbacks[handle]) else None))
                    case InvocationHandler(callback) => if m.Completion? then Some(Call(m, Some(callback))) else None;
        if call == None {
          return true;
        }
        raised := CallOut(call.value);
        if raised {
          return;
        }
      }
      Empty(log);
      return false;
    }

    method DispatchOne(m: Message<P>) returns (flow: Flow)
      modifies this
      ensures (Snapshot(), flow) == Dispatch(world, old(Snapshot()), m)
      ensures m.BindingFailure? ==> log == old(log) + [BindingError] && (flow == Raises <==> world(BindingError))
      ensures m.Quiet? ==> log == old(log) && flow == Continues
      ensures handlers == old(handlers) && callbacks == old(callbacks)
      ensures forall id | !(m.Completion? || m.CancelInvocation?) || flow == Raises || id != m.id ::
                Get(streamHandlers, id) == Get(old(streamHandlers), id)
      ensures (m.Completion? || m.CancelInvocation?) && flow != Raises ==> m.id !in streamHandlers
    {
      ghost var plan := Plan(Snapshot(), m);
      var raised := false;
      Empty(log);
      match m {
        case Invocation(_, _) =>
          raised := FireEvent(m);
        case StreamItem(_, _) =>
          raised := FireStream(m);
        case Completion(id, _, error) =>
          if IsError(error) {
            FireOne(world, Effect<P>.HubError(id));
            raised := CallOut(HubError(id));
          } else {
            raised := FireStream(m);
          }
          if !raised {
            streamHandlers := streamHandlers - {id};
          }
        case CancelInvocation(id) =>
          raised := FireStream(m);
          if !raised {
            streamHandlers := streamHandlers - {id};
          }
        case BindingFailure =>
          FireOne(world, Effect<P>.BindingError);
          raised := CallOut(BindingError);
        case Close =>
          FireOne(world, Effect<P>.Disposed);
          raised := CallOut(Disposed);
        case Quiet =>
      }
      return if raised then Raises else if m.Close? then Returns else Continues;
    }

    method Receive(messages: seq<Message<P>>) returns (flow: Flow)
      modifies this
      ensures (Snapshot(), flow) == OnMessage(world, old(Snapshot()), messages)
    {
      var i := 0;
      while i < |messages|
        invariant 0 <= i <= |messages|
        invariant OnMessage(world, Snapshot(), messages[i..]) == OnMessage(world, old(Snapshot()), messages)
      {
        assert messages[i..][1..] == messages[i + 1..];
        flow := DispatchOne(messages[i]);
        if flow != Continues {
          return;
        }
        i := i + 1;
      }
      return Continues;
    }

    method Do(a: Action<P>)
      modifies this
      ensures Snapshot() == Act(world, old(Snapshot()), a).0
    {
      match a
      case Registers(event, callback) => AddHandler(event, callback);
      case Unregisters(event, callback) =>
        var _ := RemoveHandler(event, callback);
      case Streams(id, handle, sends) =>
        var _ := StartStream(id, handle, sends);
      case Subscribes(handle, subscription) =>
        var _ := SubscribeHandler(handle, subscription);
      case Invokes(id, subjectId, arguments, onInvocation, running, sends) =>
        var _ := InvokeMethod(id, subjectId, arguments, onInvocation, running, sends);
      case Receives(messages) =>
        var _ := Receive(messages);
    }

    /**
     Any run: every stream and every invocation that is registered at its start calls its life in the
     messages dispatched, a stream on the user's callbacks if they are subscribed, and on the default ones if not.
     */
    method Perform(actions: seq<Action<P>>)
      modifies this
      ensures Snapshot() == Run(world, old(Snapshot()), actions)
      ensures forall id, handler | Registered(old(Snapshot()), id, handler, Hears(old(Snapshot()), handler), true)
                                   && Foreign(actions, id, handler) ::
                Trace(log, id)
                == Trace(old(log), id)
                   + Life(world, Received(world, old(Snapshot()), actions), id, Hears(old(Snapshot()), handler))
    {
      ghost var start := Snapshot();
      for k := 0 to |actions|
        invariant Run(world, Snapshot(), actions[k..]) == Run(world, start, actions)
      {
        SkipSkip(actions, k, 1);
        Do(actions[k]);
      }
      forall id, handler | Registered(start, id, handler, Hears(start, handler), true) && Foreign(actions, id, handler)
        ensures Trace(log, id)
                == Trace(start.log, id) + Life(world, Received(world, start, actions), id, Hears(start, handler))
      {
        RunAnswers(world, start, actions, id, handler, Hears(start, handler), true);
        AnswersInOrder(world, Received(world, start, actions), id, Hears(start, handler));
      }
    }

    /**
     A stream from its call to its end: what the user hears is the life of the stream in the
     messages dispatched behind the subscription.
     */
    method StreamAndSubscribe(id: string, handle: nat, before: seq<Action<P>>, callbacks: nat, after: seq<Action<P>>)
      requires Undisturbed(Snapshot(), id, handle, before, after)
      modifies this
      ensures var h := old(Snapshot());
              var early, late := Early(world, h, id, handle, before), Late(world, h, id, handle, before, callbacks, after);
              Heard(Trace(log, id))
              == Heard(Trace(h.log, id))
                 + (Errors(early, id)
                    + if LiveAfter(world, early, id, Nobody, true) then Life(world, late, id, Subscriber(callbacks))
                      else Errors(late, id))
    {
      StreamDiscipline(world, Snapshot(), id, handle, before, callbacks, after);
      var _ := StartStream(id, handle, true);
      Perform(before);
      var _ := SubscribeHandler(handle, Callbacks(callbacks));
      Perform(after);
    }
  }
}
