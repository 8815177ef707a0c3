/**
 * MessageDispatcher: runs every unit-of-work manager's Begin, then every handler of every
 * message in registry order, stops at the first exception, and always ends with every
 * manager's End and the Dispatched event. The service locators, the handlers and the
 * unit-of-work managers are given as an Environment of outcomes; what the dispatcher does
 * is recorded as a trace of events.
 */
module Dispatcher {
  import opened Wrappers
  import opened Exceptions
  import opened TypeGraphs
  import opened Registry

  /** A unit-of-work manager, as returned by serviceLocator.GetAll<IManagesUnitOfWork>(). */
  type ManagerId = nat

  /** A handler instance: its type, and whether the child locator supplied it. */
  datatype Handler = Handler(instanceType: TypeId, fromLocator: bool)

  /** One handler invocation: the registry entry and the message. */
  datatype Call = Call(info: DispatchInfo, message: Message)

  /** What the collaborators do, fixed for one DispatchMessages call. */
  datatype Environment = Environment(
    located: TypeId -> bool,       // childServiceLocator.Get(type) returns an instance
    disposable: TypeId -> bool,    // an instance made by Activator.CreateInstance is IDisposable
    begin: ManagerId -> ExcRef,    // the exception thrown by the manager's Begin, if any
    invoke: Call -> ExcRef)        // the exception thrown by DispatchInfo.Invoke, if any

  datatype Event =
    | LoadManagers                                       // serviceLocator.GetAll<IManagesUnitOfWork>()
    | Begin(manager: ManagerId)
    | Dispatching(messages: seq<Message>)
    | Create(instanceType: TypeId)                       // Activator.CreateInstance
    | BuildUp(handler: Handler)
    | Invoke(call: Call)
    | Dispose(handler: Handler)
    | DispatchException(messages: seq<Message>, exception: Exception)
    | End(manager: ManagerId, reported: ExcRef)
    | Dispatched(messages: seq<Message>, withError: bool)

  /** The events of a phase and the exception that ended it, if any. */
  datatype Run = Run(events: seq<Event>, error: ExcRef)

  /** One handler: resolve it (or create it), build it up, invoke it, and dispose a created disposable instance. */
  function HandlerRun(env: Environment, c: Call): Run {
    var t := c.info.instanceType;
    var created := !env.located(t);
    var h := Handler(t, !created);
    Run((if created then [Create(t)] else []) + [BuildUp(h), Invoke(c)]
        + (if created && env.disposable(t) then [Dispose(h)] else []),
        env.invoke(c))
  }

  /** The calls for one message, in registry order. */
  function Calls(handlers: seq<DispatchInfo>, m: Message): (r: seq<Call>)
    ensures |r| == |handlers| && forall i :: 0 <= i < |r| ==> r[i] == Call(handlers[i], m)
  {
    if handlers == [] then [] else Calls(handlers[..|handlers| - 1], m) + [Call(handlers[|handlers| - 1], m)]
  }

  /** The inner foreach: the calls in order, stopping after the first that throws. */
  function HandlersRun(env: Environment, calls: seq<Call>): Run {
    if calls == [] then Run([], None)
    else
      var p := HandlersRun(env, calls[..|calls| - 1]);
      if p.error.Some? then p
      else
        var q := HandlerRun(env, calls[|calls| - 1]);
        Run(p.events + q.events, q.error)
  }

  /** The outer foreach: each message's handlers as the registry orders them; a lookup failure throws. */
  function MessagesRun(registry: MessageHandlerCollection, env: Environment, messages: seq<Message>): Run
    reads registry
  {
    if messages == [] then Run([], None)
    else
      var p := MessagesRun(registry, env, messages[..|messages| - 1]);
      var m := messages[|messages| - 1];
      if p.error.Some? then p
      else match registry.GetOrderedHandlersFor(m.typeId)
        case Failure(e) => Run(p.events, Some(e))
        case Success(handlers) =>
          var q := HandlersRun(env, Calls(handlers, m));
          Run(p.events + q.events, q.error)
  }

  /** OnDispatching's loop: each manager's Begin in enumeration order, stopping at the first that throws. */
  function BeginsRun(env: Environment, managers: seq<ManagerId>): Run {
    if managers == [] then Run([], None)
    else
      var p := BeginsRun(env, managers[..|managers| - 1]);
      var m := managers[|managers| - 1];
      if p.error.Some? then p else Run(p.events + [Begin(m)], env.begin(m))
  }

  /** OnDispatched's loop: each manager's End with the reported exception. */
  function EndEvents(managers: seq<ManagerId>, e: ExcRef): (r: seq<Event>)
    ensures |r| == |managers| && forall i :: 0 <= i < |r| ==> r[i] == End(managers[i], e)
  {
    if managers == [] then [] else EndEvents(managers[..|managers| - 1], e) + [End(managers[|managers| - 1], e)]
  }

  /** The exception handed to DispatchException and End: the caught one, unwrapped from a TargetInvocationException. */
  function Reported(e: ExcRef): ExcRef {
    if e.Some? then Some(UnwrapInvocation(e.value)) else None
  }

  /** The events before the handlers of a DispatchMessages call: the manager load, the Begins and Dispatching. */
  function Prologue(env: Environment, managers: seq<ManagerId>, loaded: bool, messages: seq<Message>): seq<Event> {
    var b := BeginsRun(env, managers);
    (if loaded then [] else [LoadManagers]) + b.events + (if b.error.None? then [Dispatching(messages)] else [])
  }

  /** The events after the handlers: DispatchException on failure, every End, then Dispatched. */
  function Epilogue(managers: seq<ManagerId>, messages: seq<Message>, error: ExcRef): seq<Event> {
    (if error.Some? then [DispatchException(messages, UnwrapInvocation(error.value))] else [])
    + EndEvents(managers, Reported(error)) + [Dispatched(messages, error.Some?)]
  }

  /** The handler part of a call: nothing when a Begin threw. */
  function Body(registry: MessageHandlerCollection, env: Environment, managers: seq<ManagerId>, messages: seq<Message>): seq<Event>
    reads registry
  {
    if BeginsRun(env, managers).error.Some? then [] else MessagesRun(registry, env, messages).events
  }

  /** The exception the call ends with: a Begin's, else the first handler's or lookup's. */
  function DispatchError(registry: MessageHandlerCollection, env: Environment, managers: seq<ManagerId>,
                         messages: seq<Message>): ExcRef
    reads registry
  {
    var b := BeginsRun(env, managers);
    if b.error.Some? then b.error else MessagesRun(registry, env, messages).error
  }

  /**
   * A whole DispatchMessages call. `loaded` says whether the managers were fetched by an
   * earlier call; the error is what the caller receives (rethrown unchanged).
   */
  function DispatchRun(registry: MessageHandlerCollection, env: Environment, managers: seq<ManagerId>,
                       loaded: bool, messages: seq<Message>): Run
    reads registry
  {
    var e := DispatchError(registry, env, managers, messages);
    Run(Prologue(env, managers, loaded, messages) + Body(registry, env, managers, messages)
        + Epilogue(managers, messages, e), e)
  }

  /** The handler calls recorded in a trace, in order. */
  function Invoked(events: seq<Event>): seq<Call> {
    if events == [] then []
    else
      var e := events[|events| - 1];
      Invoked(events[..|events| - 1]) + (if e.Invoke? then [e.call] else [])
  }

  lemma {:induction false} InvokedConcat(a: seq<Event>, b: seq<Event>)
    ensures Invoked(a + b) == Invoked(a) + Invoked(b)
  {
    if b != [] {
      assert (a + b)[..|a + b| - 1] == a + b[..|b| - 1];
      InvokedConcat(a, b[..|b| - 1]);
    } else {
      assert a + b == a;
    }
  }

  /**
   * `invoked` is `schedule` up to and including the first call that throws: every call
   * but the last succeeded, all of them ran when nothing threw, and the last one threw
   * the error otherwise.
   */
  ghost predicate StopsAtFirstFailure(env: Environment, invoked: seq<Call>, schedule: seq<Call>, error: ExcRef) {
    |invoked| <= |schedule| && invoked == schedule[..|invoked|]
    && (forall k :: 0 <= k < |invoked| - 1 ==> env.invoke(invoked[k]).None?)
    && (error.None? ==> invoked == schedule && forall k :: 0 <= k < |invoked| ==> env.invoke(invoked[k]).None?)
    && (error.Some? ==> |invoked| > 0 && env.invoke(invoked[|invoked| - 1]) == error)
  }

  lemma StopsThen(env: Environment, i1: seq<Call>, s1: seq<Call>, i2: seq<Call>, s2: seq<Call>, e2: ExcRef)
    requires StopsAtFirstFailure(env, i1, s1, None) && StopsAtFirstFailure(env, i2, s2, e2)
    ensures StopsAtFirstFailure(env, i1 + i2, s1 + s2, e2)
  {
    var i := i1 + i2;
    assert i == (s1 + s2)[..|i|];
    forall k | 0 <= k < |i| - 1 ensures env.invoke(i[k]).None? {
      if k >= |i1| {
        assert i[k] == i2[k - |i1|];
      }
    }
  }

  lemma StopsExtend(env: Environment, i1: seq<Call>, s1: seq<Call>, s2: seq<Call>, e1: ExcRef)
    requires e1.Some? && StopsAtFirstFailure(env, i1, s1, e1)
    ensures StopsAtFirstFailure(env, i1, s1 + s2, e1)
  {
    assert (s1 + s2)[..|i1|] == s1[..|i1|];
  }

  /** Resolving, building up and disposing a handler invokes nothing but the one call. */
  lemma HandlerInvokesOnce(env: Environment, c: Call)
    ensures Invoked(HandlerRun(env, c).events) == [c]
  {
    var t := c.info.instanceType;
    var pre := if !env.located(t) then [Create(t)] else [];
    var h := Handler(t, env.located(t));
    var post := if !env.located(t) && env.disposable(t) then [Dispose(h)] else [];
    assert HandlerRun(env, c).events == pre + [BuildUp(h)] + [Invoke(c)] + post;
    InvokedConcat(pre + [BuildUp(h)] + [Invoke(c)], post);
    InvokedConcat(pre + [BuildUp(h)], [Invoke(c)]);
    InvokedConcat(pre, [BuildUp(h)]);
    assert Invoked(pre) == [] && Invoked(post) == [];
  }

  /** The handlers of one message run in order and stop at the first exception. */
  lemma {:induction false} HandlersStopAtFirstFailure(env: Environment, calls: seq<Call>)
    ensures StopsAtFirstFailure(env, Invoked(HandlersRun(env, calls).events), calls, HandlersRun(env, calls).error)
  {
    if calls != [] {
      var init := calls[..|calls| - 1];
      var c := calls[|calls| - 1];
      var p := HandlersRun(env, init);
      HandlersStopAtFirstFailure(env, init);
      assert calls == init + [c];
      if p.error.Some? {
        StopsExtend(env, Invoked(p.events), init, [c], p.error);
      } else {
        var q := HandlerRun(env, c);
        InvokedConcat(p.events, q.events);
        HandlerInvokesOnce(env, c);
        StopsThen(env, Invoked(p.events), init, [c], [c], q.error);
      }
    }
  }

  /** Every handler call of a batch, message by message, each message's handlers in registry order. */
  ghost function Schedule(registry: MessageHandlerCollection, messages: seq<Message>): seq<Call>
    reads registry
    requires registry.isInit
  {
    if messages == [] then []
    else
      var m := messages[|messages| - 1];
      Schedule(registry, messages[..|messages| - 1]) + Calls(registry.GetOrderedHandlersFor(m.typeId).value, m)
  }

  /** Once the registry is initialised, the handlers run in schedule order and stop at the first exception. */
  lemma {:induction false} MessagesStopAtFirstFailure(registry: MessageHandlerCollection, env: Environment, messages: seq<Message>)
    requires registry.isInit
    ensures StopsAtFirstFailure(env, Invoked(MessagesRun(registry, env, messages).events),
                                Schedule(registry, messages), MessagesRun(registry, env, messages).error)
  {
    if messages != [] {
      var init := messages[..|messages| - 1];
      var m := messages[|messages| - 1];
      var p := MessagesRun(registry, env, init);
      var calls := Calls(registry.GetOrderedHandlersFor(m.typeId).value, m);
      MessagesStopAtFirstFailure(registry, env, init);
      if p.error.Some? {
        StopsExtend(env, Invoked(p.events), Schedule(registry, init), calls, p.error);
      } else {
        var q := HandlersRun(env, calls);
        InvokedConcat(p.events, q.events);
        HandlersStopAtFirstFailure(env, calls);
        StopsThen(env, Invoked(p.events), Schedule(registry, init), Invoked(q.events), calls, q.error);
      }
    }
  }

  /** Before Init, the first message's lookup throws "not initialized" and no handler runs. */
  lemma {:induction false} UninitializedRegistryRunsNothing(registry: MessageHandlerCollection, env: Environment, messages: seq<Message>)
    requires !registry.isInit && messages != []
    ensures MessagesRun(registry, env, messages) == Run([], Some(InvalidOperationException(NotInitialized)))
  {
    var init := messages[..|messages| - 1];
    if init != [] {
      UninitializedRegistryRunsNothing(registry, env, init);
    }
  }

  /** The Begin events of the managers, in enumeration order. */
  function BeginEvents(managers: seq<ManagerId>): (r: seq<Event>)
    ensures |r| == |managers| && forall i :: 0 <= i < |r| ==> r[i] == Begin(managers[i])
  {
    if managers == [] then [] else BeginEvents(managers[..|managers| - 1]) + [Begin(managers[|managers| - 1])]
  }

  /**
   * OnDispatching begins the managers in order: all of them when none throws, otherwise
   * a prefix whose last Begin threw.
   */
  lemma {:induction false} BeginsInOrder(env: Environment, managers: seq<ManagerId>)
    ensures var b := BeginsRun(env, managers);
      |b.events| <= |managers| && b.events == BeginEvents(managers[..|b.events|])
      && (b.error.None? <==> (|b.events| == |managers| && forall i :: 0 <= i < |managers| ==> env.begin(managers[i]).None?))
      && (b.error.Some? ==> |b.events| > 0 && b.error == env.begin(managers[|b.events| - 1]))
  {
    if managers != [] {
      var init := managers[..|managers| - 1];
      BeginsInOrder(env, init);
      var p := BeginsRun(env, init);
      assert managers[..|p.events|] == init[..|p.events|];
      if p.error.None? {
        assert managers[..|p.events| + 1] == init + [managers[|managers| - 1]];
      }
    }
  }

  lemma {:induction false} InvokedNone(events: seq<Event>)
    requires forall k :: 0 <= k < |events| ==> !events[k].Invoke?
    ensures Invoked(events) == []
  {
    if events != [] {
      InvokedNone(events[..|events| - 1]);
    }
  }

  /**
   * The handler part of a trace: only resolution, build-up, invocation and disposal; each
   * invocation is immediately preceded by the build-up of its handler; only handlers the
   * dispatcher created itself are disposed.
   */
  ghost predicate HandlerEvents(env: Environment, events: seq<Event>) {
    (forall k :: 0 <= k < |events| ==>
       events[k].Create? || events[k].BuildUp? || events[k].Invoke? || events[k].Dispose?)
    && BuiltBeforeInvoked(env, events) && DisposesOnlyCreated(events)
  }

  ghost predicate BuiltBeforeInvoked(env: Environment, events: seq<Event>) {
    forall k :: 0 <= k < |events| && events[k].Invoke? ==>
      0 < k && events[k - 1] == BuildUp(Handler(events[k].call.info.instanceType,
                                                env.located(events[k].call.info.instanceType)))
  }

  ghost predicate DisposesOnlyCreated(events: seq<Event>) {
    forall k :: 0 <= k < |events| && events[k].Dispose? ==> !events[k].handler.fromLocator
  }

  lemma BuiltConcat(env: Environment, a: seq<Event>, b: seq<Event>)
    requires BuiltBeforeInvoked(env, a) && BuiltBeforeInvoked(env, b)
    ensures BuiltBeforeInvoked(env, a + b)
  {
    var ab := a + b;
    forall k | 0 <= k < |ab| && ab[k].Invoke?
      ensures 0 < k && ab[k - 1] == BuildUp(Handler(ab[k].call.info.instanceType, env.located(ab[k].call.info.instanceType)))
    {
      if k >= |a| {
        assert ab[k] == b[k - |a|];
        assert ab[k - 1] == b[k - 1 - |a|];
      }
    }
  }

  lemma HandlerEventsConcat(env: Environment, a: seq<Event>, b: seq<Event>)
    requires HandlerEvents(env, a) && HandlerEvents(env, b)
    ensures HandlerEvents(env, a + b)
  {
    BuiltConcat(env, a, b);
  }

  /**
   * A located handler is never disposed; a created one is disposed exactly when it is
   * disposable, whether or not its invocation threw.
   */
  lemma HandlerDisposal(env: Environment, c: Call)
    ensures HandlerEvents(env, HandlerRun(env, c).events)
    ensures Dispose(Handler(c.info.instanceType, false)) in HandlerRun(env, c).events <==>
      !env.located(c.info.instanceType) && env.disposable(c.info.instanceType)
    ensures forall h :: Dispose(h) in HandlerRun(env, c).events ==> !h.fromLocator
  {
  }

  lemma {:induction false} HandlersRunEvents(env: Environment, calls: seq<Call>)
    ensures HandlerEvents(env, HandlersRun(env, calls).events)
  {
    if calls != [] {
      var p := HandlersRun(env, calls[..|calls| - 1]);
      HandlersRunEvents(env, calls[..|calls| - 1]);
      if p.error.None? {
        HandlerDisposal(env, calls[|calls| - 1]);
        HandlerEventsConcat(env, p.events, HandlerRun(env, calls[|calls| - 1]).events);
      }
    }
  }

  lemma {:induction false} MessagesRunEvents(registry: MessageHandlerCollection, env: Environment, messages: seq<Message>)
    ensures HandlerEvents(env, MessagesRun(registry, env, messages).events)
  {
    if messages != [] {
      var m := messages[|messages| - 1];
      var p := MessagesRun(registry, env, messages[..|messages| - 1]);
      MessagesRunEvents(registry, env, messages[..|messages| - 1]);
      var handlers := registry.GetOrderedHandlersFor(m.typeId);
      if p.error.None? && handlers.Success? {
        HandlersRunEvents(env, Calls(handlers.value, m));
        HandlerEventsConcat(env, p.events, HandlersRun(env, Calls(handlers.value, m)).events);
      }
    }
  }

  /** The handler part of the trace holds only handler events. */
  lemma DispatchRunParts(registry: MessageHandlerCollection, env: Environment, managers: seq<ManagerId>,
                         loaded: bool, messages: seq<Message>)
    ensures HandlerEvents(env, Body(registry, env, managers, messages))
  {
    MessagesRunEvents(registry, env, messages);
  }

  /** The prologue calls no handler and ends no manager. */
  lemma PrologueKinds(env: Environment, managers: seq<ManagerId>, loaded: bool, messages: seq<Message>)
    ensures var pro := Prologue(env, managers, loaded, messages);
      forall k :: 0 <= k < |pro| ==> pro[k].LoadManagers? || pro[k].Begin? || pro[k].Dispatching?
  {
    BeginsInOrder(env, managers);
  }

  lemma EpilogueKinds(managers: seq<ManagerId>, messages: seq<Message>, error: ExcRef)
    ensures var epi := Epilogue(managers, messages, error);
      forall k :: 0 <= k < |epi| ==> epi[k].DispatchException? || epi[k].End? || epi[k].Dispatched?
  {
  }

  /** Where each event of a three-part trace comes from. */
  lemma Split3(a: seq<Event>, b: seq<Event>, c: seq<Event>)
    ensures forall k :: 0 <= k < |a| ==> (a + b + c)[k] == a[k]
    ensures forall k :: |a| <= k < |a| + |b| ==> (a + b + c)[k] == b[k - |a|]
    ensures forall k :: |a| + |b| <= k < |a| + |b| + |c| ==> (a + b + c)[k] == c[k - |a| - |b|]
  {
  }

  /** Handler calls happen only after the prologue, and only when every Begin succeeded. */
  lemma InvocationsInBody(registry: MessageHandlerCollection, env: Environment, managers: seq<ManagerId>,
                          loaded: bool, messages: seq<Message>, k: nat)
    requires k < |DispatchRun(registry, env, managers, loaded, messages).events|
    requires DispatchRun(registry, env, managers, loaded, messages).events[k].Invoke?
    ensures BeginsRun(env, managers).error.None? && |Prologue(env, managers, loaded, messages)| <= k
  {
    var r := DispatchRun(registry, env, managers, loaded, messages);
    var pro := Prologue(env, managers, loaded, messages);
    var body := Body(registry, env, managers, messages);
    var epi := Epilogue(managers, messages, r.error);
    DispatchRunParts(registry, env, managers, loaded, messages);
    PrologueKinds(env, managers, loaded, messages);
    EpilogueKinds(managers, messages, r.error);
    Split3(pro, body, epi);
    assert |pro| <= k < |pro| + |body|;
  }

  /**
   * Every manager's Begin runs, in enumeration order, before any handler is invoked: a
   * trace with an invocation began every manager, and those Begins come first.
   */
  lemma BeginsPrecedeHandlers(registry: MessageHandlerCollection, env: Environment, managers: seq<ManagerId>,
                              loaded: bool, messages: seq<Message>, k: nat)
    requires k < |DispatchRun(registry, env, managers, loaded, messages).events|
    requires DispatchRun(registry, env, managers, loaded, messages).events[k].Invoke?
    ensures forall i :: 0 <= i < |managers| ==> env.begin(managers[i]).None?
    ensures var events := DispatchRun(registry, env, managers, loaded, messages).events;
      var l := if loaded then 0 else 1;
      l + |managers| < k && events[l..l + |managers|] == BeginEvents(managers)
  {
    var r := DispatchRun(registry, env, managers, loaded, messages);
    var l := if loaded then 0 else 1;
    var pro := Prologue(env, managers, loaded, messages);
    var rest := Body(registry, env, managers, messages) + Epilogue(managers, messages, r.error);
    assert r.events == pro + rest;
    InvocationsInBody(registry, env, managers, loaded, messages, k);
    PrologueOnSuccess(env, managers, loaded, messages);
    PrefixSlice(pro, rest, l, l + |managers|);
  }

  /** When no Begin throws, the prologue is the load, every Begin in order, then Dispatching. */
  lemma PrologueOnSuccess(env: Environment, managers: seq<ManagerId>, loaded: bool, messages: seq<Message>)
    requires BeginsRun(env, managers).error.None?
    ensures var pro := Prologue(env, managers, loaded, messages);
      var l := if loaded then 0 else 1;
      |pro| == l + |managers| + 1 && pro[l..l + |managers|] == BeginEvents(managers)
      && forall i :: 0 <= i < |managers| ==> env.begin(managers[i]).None?
  {
    var load := if loaded then [] else [LoadManagers];
    var b := BeginsRun(env, managers);
    BeginsInOrder(env, managers);
    assert managers[..|managers|] == managers;
    Middle(load, b.events, [Dispatching(messages)]);
  }

  lemma PrefixSlice(a: seq<Event>, b: seq<Event>, i: nat, j: nat)
    requires i <= j <= |a|
    ensures (a + b)[i..j] == a[i..j]
  {
  }

  lemma Middle(a: seq<Event>, b: seq<Event>, c: seq<Event>)
    ensures (a + b + c)[|a|..|a| + |b|] == b
  {
  }

  /**
   * Every manager's End runs exactly once, after everything else but Dispatched, with the
   * reported exception (None on success); Dispatched closes the trace and says whether
   * the call failed.
   */
  lemma EndsOnceAtTheEnd(registry: MessageHandlerCollection, env: Environment, managers: seq<ManagerId>,
                         loaded: bool, messages: seq<Message>)
    ensures var r := DispatchRun(registry, env, managers, loaded, messages);
      var n := |r.events| - |managers| - 1;
      n >= 0
      && r.events[n..] == EndEvents(managers, Reported(r.error)) + [Dispatched(messages, r.error.Some?)]
      && forall k :: 0 <= k < n ==> !r.events[k].End? && !r.events[k].Dispatched?
  {
    var r := DispatchRun(registry, env, managers, loaded, messages);
    var pro := Prologue(env, managers, loaded, messages);
    var body := Body(registry, env, managers, messages);
    var fail := if r.error.Some? then [DispatchException(messages, UnwrapInvocation(r.error.value))] else [];
    DispatchRunParts(registry, env, managers, loaded, messages);
    PrologueKinds(env, managers, loaded, messages);
    Split3(pro, body, fail);
    var front := pro + body + fail;
    assert r.events == front + (EndEvents(managers, Reported(r.error)) + [Dispatched(messages, r.error.Some?)]);
  }

  /**
   * DispatchException fires only on failure, once, with the caught exception unwrapped
   * from a TargetInvocationException; the caller gets the caught exception itself.
   */
  lemma FailureReported(registry: MessageHandlerCollection, env: Environment, managers: seq<ManagerId>,
                        loaded: bool, messages: seq<Message>)
    ensures var r := DispatchRun(registry, env, managers, loaded, messages);
      (forall k :: 0 <= k < |r.events| && r.events[k].DispatchException? ==>
         r.error.Some? && r.events[k] == DispatchException(messages, UnwrapInvocation(r.error.value)))
      && (r.error.Some? ==> DispatchException(messages, UnwrapInvocation(r.error.value)) in r.events)
  {
    var r := DispatchRun(registry, env, managers, loaded, messages);
    var pro := Prologue(env, managers, loaded, messages);
    var body := Body(registry, env, managers, messages);
    var epi := Epilogue(managers, messages, r.error);
    DispatchRunParts(registry, env, managers, loaded, messages);
    PrologueKinds(env, managers, loaded, messages);
    Split3(pro, body, epi);
    if r.error.Some? {
      assert r.events[|pro| + |body|] == epi[0];
    }
  }

  /** The managers are fetched from the locator only by a call that finds them not yet loaded, and first. */
  lemma ManagersLoadedOnce(registry: MessageHandlerCollection, env: Environment, managers: seq<ManagerId>,
                           loaded: bool, messages: seq<Message>)
    ensures var r := DispatchRun(registry, env, managers, loaded, messages);
      (LoadManagers in r.events <==> !loaded) && (!loaded ==> r.events[0] == LoadManagers)
  {
    var r := DispatchRun(registry, env, managers, loaded, messages);
    var pro := Prologue(env, managers, loaded, messages);
    var body := Body(registry, env, managers, messages);
    var epi := Epilogue(managers, messages, r.error);
    DispatchRunParts(registry, env, managers, loaded, messages);
    BeginsInOrder(env, managers);
    EpilogueKinds(managers, messages, r.error);
    Split3(pro, body, epi);
  }

  /**
   * Once the registry is initialised, the handlers run message by message in batch order,
   * each message's in registry order, up to and including the first that throws; when a
   * Begin throws, no handler runs.
   */
  lemma HandlersInScheduleOrder(registry: MessageHandlerCollection, env: Environment, managers: seq<ManagerId>,
                                loaded: bool, messages: seq<Message>)
    requires registry.isInit
    ensures var r := DispatchRun(registry, env, managers, loaded, messages);
      (BeginsRun(env, managers).error.None? ==>
         StopsAtFirstFailure(env, Invoked(r.events), Schedule(registry, messages), r.error))
      && (BeginsRun(env, managers).error.Some? ==> Invoked(r.events) == [])
  {
    InvokedIsBody(registry, env, managers, loaded, messages);
    if BeginsRun(env, managers).error.None? {
      MessagesStopAtFirstFailure(registry, env, messages);
    }
  }

  /** The handler calls of the whole call are those of its body. */
  lemma InvokedIsBody(registry: MessageHandlerCollection, env: Environment, managers: seq<ManagerId>,
                      loaded: bool, messages: seq<Message>)
    ensures Invoked(DispatchRun(registry, env, managers, loaded, messages).events) == Invoked(Body(registry, env, managers, messages))
  {
    var r := DispatchRun(registry, env, managers, loaded, messages);
    var pro := Prologue(env, managers, loaded, messages);
    var body := Body(registry, env, managers, messages);
    var epi := Epilogue(managers, messages, r.error);
    PrologueKinds(env, managers, loaded, messages);
    EpilogueKinds(managers, messages, r.error);
    InvokedNone(pro);
    InvokedNone(epi);
    InvokedConcat(pro, body);
    InvokedConcat(pro + body, epi);
  }

  /** Across the whole call, every handler is built up right before it is invoked, and only created handlers are disposed. */
  lemma HandlersBuiltAndDisposed(registry: MessageHandlerCollection, env: Environment, managers: seq<ManagerId>,
                                 loaded: bool, messages: seq<Message>)
    ensures var r := DispatchRun(registry, env, managers, loaded, messages);
      BuiltBeforeInvoked(env, r.events) && DisposesOnlyCreated(r.events)
  {
    var r := DispatchRun(registry, env, managers, loaded, messages);
    var pro := Prologue(env, managers, loaded, messages);
    var body := Body(registry, env, managers, messages);
    var epi := Epilogue(managers, messages, r.error);
    DispatchRunParts(registry, env, managers, loaded, messages);
    PrologueKinds(env, managers, loaded, messages);
    EpilogueKinds(managers, messages, r.error);
    BuiltConcat(env, pro, body);
    BuiltConcat(env, pro + body, epi);
    Split3(pro, body, epi);
  }

  lemma {:induction false} BeginsStopped(env: Environment, managers: seq<ManagerId>, i: nat)
    requires i <= |managers| && BeginsRun(env, managers[..i]).error.Some?
    ensures BeginsRun(env, managers) == BeginsRun(env, managers[..i])
    decreases |managers| - i
  {
    if i < |managers| {
      assert managers[..i + 1][..i] == managers[..i];
      BeginsStopped(env, managers, i + 1);
    } else {
      assert managers[..i] == managers;
    }
  }

  lemma {:induction false} HandlersStopped(env: Environment, calls: seq<Call>, i: nat)
    requires i <= |calls| && HandlersRun(env, calls[..i]).error.Some?
    ensures HandlersRun(env, calls) == HandlersRun(env, calls[..i])
    decreases |calls| - i
  {
    if i < |calls| {
      assert calls[..i + 1][..i] == calls[..i];
      HandlersStopped(env, calls, i + 1);
    } else {
      assert calls[..i] == calls;
    }
  }

  lemma {:induction false} MessagesStopped(registry: MessageHandlerCollection, env: Environment, messages: seq<Message>, i: nat)
    requires i <= |messages| && MessagesRun(registry, env, messages[..i]).error.Some?
    ensures MessagesRun(registry, env, messages) == MessagesRun(registry, env, messages[..i])
    decreases |messages| - i
  {
    if i < |messages| {
      assert messages[..i + 1][..i] == messages[..i];
      MessagesStopped(registry, env, messages, i + 1);
    } else {
      assert messages[..i] == messages;
    }
  }

  /**
   * The dispatcher of one bus: the handler registry, the unit-of-work managers the
   * service locator returns (fetched on first use) and the trace of what it has done.
   */
  class MessageDispatcher {
    const registry: MessageHandlerCollection
    const locatorManagers: seq<ManagerId>         // serviceLocator.GetAll<IManagesUnitOfWork>()
    var unitOfWorkManagers: Option<seq<ManagerId>>
    var trace: seq<Event>

    /** Once loaded, the managers are the ones the locator returned. */
    ghost predicate Valid()
      reads this
    {
      unitOfWorkManagers.Some? ==> unitOfWorkManagers.value == locatorManagers
    }

    constructor(locatorManagers: seq<ManagerId>, registry: MessageHandlerCollection)
      ensures Valid()
      ensures this.registry == registry && this.locatorManagers == locatorManagers
      ensures unitOfWorkManagers == None && trace == []
    {
      this.registry := registry;
      this.locatorManagers := locatorManagers;
      unitOfWorkManagers := None;
      trace := [];
    }

    /** Fetches the managers from the locator unless an earlier call did. */
    method EnsureUnitOfWorkManagersLoaded()
      requires Valid()
      modifies this`unitOfWorkManagers, this`trace
      ensures Valid() && unitOfWorkManagers == Some(locatorManagers)
      ensures trace == old(trace) + (if old(unitOfWorkManagers).None? then [LoadManagers] else [])
    {
      if unitOfWorkManagers.None? {
        unitOfWorkManagers := Some(locatorManagers);
        trace := trace + [LoadManagers];
      }
    }

    /** Begins every manager in order (stopping at one that throws), then raises Dispatching. */
    method OnDispatching(env: Environment, messages: seq<Message>) returns (error: ExcRef)
      requires Valid()
      modifies this`unitOfWorkManagers, this`trace
      ensures Valid() && unitOfWorkManagers == Some(locatorManagers)
      ensures trace == old(trace) + Prologue(env, locatorManagers, old(unitOfWorkManagers).Some?, messages)
      ensures error == BeginsRun(env, locatorManagers).error
    {
      EnsureUnitOfWorkManagersLoaded();
      var events;
      events, error := BeginAll(env, unitOfWorkManagers.value);
      trace := trace + events;
      if error.None? {
        trace := trace + [Dispatching(messages)];
      }
    }

    /** OnDispatched: ends every manager with the reported exception, then raises Dispatched. */
    method OnDispatched(messages: seq<Message>, e: ExcRef)
      requires Valid() && unitOfWorkManagers.Some?
      modifies this`unitOfWorkManagers, this`trace
      ensures Valid() && unitOfWorkManagers == old(unitOfWorkManagers)
      ensures trace == old(trace) + EndEvents(locatorManagers, e) + [Dispatched(messages, e.Some?)]
    {
      EnsureUnitOfWorkManagersLoaded();
      var events := EndAll(unitOfWorkManagers.value, e);
      trace := trace + events + [Dispatched(messages, e.Some?)];
    }

    method OnDispatchException(messages: seq<Message>, e: Exception)
      modifies this`trace
      ensures trace == old(trace) + [DispatchException(messages, e)]
    {
      trace := trace + [DispatchException(messages, e)];
    }

    /** The foreach over the batch: each message's handlers as the registry orders them. */
    method DispatchEach(env: Environment, messages: seq<Message>) returns (events: seq<Event>, error: ExcRef)
      ensures Run(events, error) == MessagesRun(registry, env, messages)
    {
      events, error := [], None;
      var i := 0;
      while i < |messages|
        invariant 0 <= i <= |messages|
        invariant Run(events, error) == MessagesRun(registry, env, messages[..i]) && error.None?
      {
        assert messages[..i + 1][..i] == messages[..i];
        var handlers := registry.GetOrderedHandlersFor(messages[i].typeId);
        if handlers.Failure? {
          error := Some(handlers.error);
          MessagesStopped(registry, env, messages, i + 1);
          return;
        }
        var more;
        more, error := InvokeHandlers(env, handlers.value, messages[i]);
        events := events + more;
        if error.Some? {
          MessagesStopped(registry, env, messages, i + 1);
          return;
        }
        i := i + 1;
      }
      assert messages[..i] == messages;
    }

    /**
     * DispatchMessages: the try block runs OnDispatching and the handlers; the catch block
     * unwraps the exception for DispatchException and rethrows the original; the finally
     * block runs OnDispatched.
     */
    method DispatchMessages(env: Environment, messages: seq<Message>) returns (error: ExcRef)
      requires Valid()
      modifies this`unitOfWorkManagers, this`trace
      ensures Valid() && unitOfWorkManagers == Some(locatorManagers)
      ensures var r := DispatchRun(registry, env, locatorManagers, old(unitOfWorkManagers).Some?, messages);
        trace == old(trace) + r.events && error == r.error
    {
      ghost var t0 := trace;
      ghost var loaded := unitOfWorkManagers.Some?;
      ghost var pro := Prologue(env, locatorManagers, loaded, messages);
      ghost var body := Body(registry, env, locatorManagers, messages);
      error := OnDispatching(env, messages);
      if error.None? {
        var events;
        events, error := DispatchEach(env, messages);
        trace := trace + events;
      } else {
        assert t0 + pro == t0 + pro + body;
      }
      assert error == DispatchError(registry, env, locatorManagers, messages);
      ghost var t2 := trace;
      var reported := error;
      if error.Some? {
        reported := Some(UnwrapInvocation(error.value));
        OnDispatchException(messages, reported.value);
      }
      ghost var fail := trace[|t2|..];
      assert trace == t2 + fail;
      OnDispatched(messages, reported);
      assert reported == Reported(error);
      Regroup(t0, pro, body, fail, EndEvents(locatorManagers, reported), [Dispatched(messages, error.Some?)]);
    }
  }

  lemma Regroup(t0: seq<Event>, pro: seq<Event>, body: seq<Event>, fail: seq<Event>, ends: seq<Event>, last: seq<Event>)
    ensures t0 + pro + body + fail + ends + last == t0 + (pro + body + (fail + ends + last))
  {
  }

  /** OnDispatching's loop: each manager's Begin, stopping at the first that throws. */
  method BeginAll(env: Environment, managers: seq<ManagerId>) returns (events: seq<Event>, error: ExcRef)
    ensures Run(events, error) == BeginsRun(env, managers)
  {
    events, error := [], None;
    var i := 0;
    while i < |managers|
      invariant 0 <= i <= |managers|
      invariant Run(events, error) == BeginsRun(env, managers[..i]) && error.None?
    {
      assert managers[..i + 1][..i] == managers[..i];
      events := events + [Begin(managers[i])];
      error := env.begin(managers[i]);
      if error.Some? {
        BeginsStopped(env, managers, i + 1);
        return;
      }
      i := i + 1;
    }
    assert managers[..i] == managers;
  }

  /** OnDispatched's loop: each manager's End. */
  method EndAll(managers: seq<ManagerId>, e: ExcRef) returns (events: seq<Event>)
    ensures events == EndEvents(managers, e)
  {
    events := [];
    var i := 0;
    while i < |managers|
      invariant 0 <= i <= |managers|
      invariant events == EndEvents(managers[..i], e)
    {
      assert managers[..i + 1][..i] == managers[..i];
      events := events + [End(managers[i], e)];
      i := i + 1;
    }
    assert managers[..i] == managers;
  }

  /** One registry entry: resolve or create the handler, build it up, invoke it, dispose what was created. */
  method InvokeHandler(env: Environment, c: Call) returns (events: seq<Event>, error: ExcRef)
    ensures Run(events, error) == HandlerRun(env, c)
  {
    var t := c.info.instanceType;
    var tryDisposeHandler := false;
    events := [];
    if !env.located(t) {
      events := events + [Create(t)];
      tryDisposeHandler := true;
    }
    var handler := Handler(t, !tryDisposeHandler);
    events := events + [BuildUp(handler), Invoke(c)];
    error := env.invoke(c);
    if tryDisposeHandler && env.disposable(t) {
      events := events + [Dispose(handler)];
    }
  }

  /** The foreach over one message's handlers, stopping at the first that throws. */
  method InvokeHandlers(env: Environment, handlers: seq<DispatchInfo>, m: Message) returns (events: seq<Event>, error: ExcRef)
    ensures Run(events, error) == HandlersRun(env, Calls(handlers, m))
  {
    ghost var calls := Calls(handlers, m);
    events, error := [], None;
    var i := 0;
    while i < |handlers|
      invariant 0 <= i <= |handlers|
      invariant Run(events, error) == HandlersRun(env, calls[..i]) && error.None?
    {
      assert calls[..i + 1][..i] == calls[..i];
      assert calls[i] == Call(handlers[i], m);
      var more;
      more, error := InvokeHandler(env, Call(handlers[i], m));
      events := events + more;
      if error.Some? {
        HandlersStopped(env, calls, i + 1);
        return;
      }
      i := i + 1;
    }
    assert calls[..i] == calls;
  }

  /** A second call on the same dispatcher does not fetch the managers again. */
  lemma SecondCallDoesNotReload(registry: MessageHandlerCollection, env: Environment, managers: seq<ManagerId>,
                                messages: seq<Message>)
    ensures LoadManagers !in DispatchRun(registry, env, managers, true, messages).events
  {
    ManagersLoadedOnce(registry, env, managers, true, messages);
  }
}
