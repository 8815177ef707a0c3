/**
 * UnicastMessageBus: routing of outgoing messages to destinations, the type closure a
 * publish is routed by, the validation and construction of the outgoing envelope,
 * and the handling of a received envelope (control messages that change the
 * subscription storage, dispatch of ordinary ones).
 *
 * The transport, the dispatcher and CreateInstance are outside: what the transport's
 * Send throws, what dispatch throws and the instance CreateInstance makes are
 * parameters; the transport calls and the bus's events are recorded in a trace.
 */
module Unicast {
  import opened Wrappers
  import opened Seqs
  import opened Exceptions
  import opened TypeGraphs
  import opened Envelopes
  import opened Subscriptions
  import opened MessageContexts
  import HeaderExtensions
  import opened Text

  /**
   * The part of IMessageMapper the buses use: IsMessageType (the conventions) and
   * the two dictionaries GetMappedTypeFor reads, from a generated concrete class to
   * its interface and from an interface to its generated class.
   */
  datatype Mapper = Mapper(
    isMessageType: TypeId -> bool,
    concreteToInterface: map<TypeId, TypeId>,
    interfaceToConcrete: map<TypeId, TypeId>)

  predicate IsInterface(g: TypeGraph, t: TypeId) {
    t in g.types && g.types[t].isInterface
  }

  predicate IsClass(g: TypeGraph, t: TypeId) {
    t in g.types && g.types[t].isClass
  }

  /** The mapper generates classes for interfaces, so it maps classes to interfaces and interfaces to classes. */
  predicate MapperWellFormed(g: TypeGraph, m: Mapper) {
    (forall c :: c in m.concreteToInterface ==> IsInterface(g, m.concreteToInterface[c])) &&
    (forall i :: i in m.interfaceToConcrete ==> IsInterface(g, i))
  }

  /** MessageMapper.GetMappedTypeFor: a class maps to its interface or to itself, an interface to its class or null. */
  function GetMappedTypeFor(g: TypeGraph, m: Mapper, t: TypeId): (r: Option<TypeId>)
    ensures MapperWellFormed(g, m) && !IsInterface(g, t) && r.Some? && r.value != t ==> IsInterface(g, r.value)
  {
    if IsClass(g, t) then
      if t in m.concreteToInterface then Some(m.concreteToInterface[t]) else Some(t)
    else if t in m.interfaceToConcrete then Some(m.interfaceToConcrete[t])
    else None
  }

  /** The name a type is known by: Type.AssemblyQualifiedName, and the key of a MessageType. */
  function TypeName(g: TypeGraph, t: TypeId): string {
    if t in g.types then g.types[t].fullName else ""
  }

  /** The interfaces of `t` the mapper calls message types, in GetInterfaces() order. */
  function MessageInterfaces(g: TypeGraph, m: Mapper, itfs: seq<TypeId>): (r: seq<TypeId>)
    ensures forall x :: x in r <==> x in itfs && m.isMessageType(x)
  {
    if itfs == [] then []
    else
      var p := MessageInterfaces(g, m, itfs[..|itfs| - 1]);
      var x := itfs[|itfs| - 1];
      assert itfs == itfs[..|itfs| - 1] + [x];
      if m.isMessageType(x) then p + [x] else p
  }

  function InterfacesOf(g: TypeGraph, t: TypeId): seq<TypeId> {
    if t in g.types then g.types[t].interfaces else []
  }

  /**
   * GetFullTypes: for each message whose type is not yet listed, its type followed by
   * those of its interfaces that are message types and not yet listed.
   */
  function FullTypes(g: TypeGraph, m: Mapper, messages: seq<Message>): seq<TypeId>
  {
    if messages == [] then []
    else
      var p := FullTypes(g, m, messages[..|messages| - 1]);
      var s := messages[|messages| - 1].typeId;
      if s in p then p
      else AppendMissing(p + [s], MessageInterfaces(g, m, InterfacesOf(g, s)))
  }

  /**
   * The publish closure has no duplicates and starts with the first message's type; a
   * type is in it exactly when it is some message's type or a message-type interface
   * of one, provided no message's run-time type is an interface.
   */
  lemma {:induction false} FullTypesFacts(g: TypeGraph, m: Mapper, messages: seq<Message>, x: TypeId)
    ensures NoDup(FullTypes(g, m, messages))
    ensures messages != [] ==> |FullTypes(g, m, messages)| > 0 && FullTypes(g, m, messages)[0] == messages[0].typeId
    ensures WellFormed(g) && (forall i :: 0 <= i < |messages| ==> !IsInterface(g, messages[i].typeId)) ==>
      (x in FullTypes(g, m, messages) <==>
        exists i :: 0 <= i < |messages| &&
          (x == messages[i].typeId || (x in InterfacesOf(g, messages[i].typeId) && m.isMessageType(x))))
  {
    if messages != [] {
      var init := messages[..|messages| - 1];
      var s := messages[|messages| - 1].typeId;
      var p := FullTypes(g, m, init);
      var mi := MessageInterfaces(g, m, InterfacesOf(g, s));
      FullTypesFacts(g, m, init, x);
      FullTypesFacts(g, m, init, s);
      assert forall i :: 0 <= i < |init| ==> init[i] == messages[i];
      if s !in p {
        NoDupAppend(p, s);
        AppendMissingFacts(p + [s], mi, x);
        if init != [] {
          assert (p + [s])[0] == p[0];
        }
      }
      if WellFormed(g) && forall i :: 0 <= i < |messages| ==> !IsInterface(g, messages[i].typeId) {
        if s in p && x in InterfacesOf(g, s) && m.isMessageType(x) {
          // s was listed by an earlier message of the same type, which listed x too
          var j :| 0 <= j < |init| &&
            (s == init[j].typeId || (s in InterfacesOf(g, init[j].typeId) && m.isMessageType(s)));
          InterfacesAreInterfaces(g, init[j].typeId);
          assert s == init[j].typeId;
          assert x in InterfacesOf(g, init[j].typeId) && m.isMessageType(x);
        }
      }
    }
  }

  lemma InterfacesAreInterfaces(g: TypeGraph, t: TypeId)
    requires WellFormed(g)
    ensures forall i :: i in InterfacesOf(g, t) ==> IsInterface(g, i)
  {
    if t in g.types {
      assert WellFormedType(g, t);
    }
  }

  /** Two Nested messages of the same type contribute nothing the first did not. */
  lemma FullTypesSkipsRepeatedType(g: TypeGraph, m: Mapper, messages: seq<Message>, extra: Message)
    requires exists i :: 0 <= i < |messages| && messages[i].typeId == extra.typeId
    ensures FullTypes(g, m, messages + [extra]) == FullTypes(g, m, messages)
  {
    var i :| 0 <= i < |messages| && messages[i].typeId == extra.typeId;
    var x := extra.typeId;
    assert (messages + [extra])[..|messages|] == messages;
    FullTypesFacts(g, m, messages[..i + 1], x);
    FullTypesPrefix(g, m, messages, i + 1, x);
  }

  /** A type listed for a prefix stays listed. */
  lemma {:induction false} FullTypesPrefix(g: TypeGraph, m: Mapper, messages: seq<Message>, k: nat, x: TypeId)
    requires k <= |messages|
    requires 0 < k && x == messages[k - 1].typeId
    ensures x in FullTypes(g, m, messages)
  {
    if k < |messages| {
      var init := messages[..|messages| - 1];
      assert init[..k] == messages[..k];
      FullTypesPrefix(g, m, init, k, x);
      var p := FullTypes(g, m, init);
      var s := messages[|messages| - 1].typeId;
      if s !in p {
        AppendMissingFacts(p + [s], MessageInterfaces(g, m, InterfacesOf(g, s)), x);
      }
    } else {
      var init := messages[..|messages| - 1];
      var p := FullTypes(g, m, init);
      var s := messages[|messages| - 1].typeId;
      if s !in p {
        AppendMissingFacts(p + [s], MessageInterfaces(g, m, InterfacesOf(g, s)), x);
      }
    }
  }

  /** The envelope the transport is handed, with the header list recorded by its contents. */
  datatype Envelope = Envelope(
    correlationId: Option<string>,
    intent: Intent,
    body: seq<Message>,
    windowsIdentityName: string,
    headers: map<string, string>,
    timeToBeReceived: int)

  datatype BusEvent =
    | TransportSend(envelope: Envelope, destinations: seq<string>) // ITransport.Send
    | MessageSent                                                  // the MessageSent event
    | MessageReceived                                              // the MessageReceived event
    | Dispatched(messages: seq<Message>)                           // IMessageDispatcher.DispatchMessages
    | MessageHandled                                               // the MessageHandled event
    | TransportStarted                                             // ITransport.Start of the main transport
    | ListenerStarted(listener: nat)                               // ITransport.Start of an additional listener

  datatype BusRun = BusRun(events: seq<BusEvent>, thrown: ExcRef)

  const EmptySetMessage: string := "Cannot send an empty set of messages."
  const NoStorageMessage: string := "Cannot publish - no subscription storage has been configured."
  const NoContextMessage: string := "CurrentMessageContext is null. Cannot reply."
  const SubscriptionMessageType: string := "SubscriptionMessageType"

  function NoDestinationFor(g: TypeGraph, m: Message): string {
    "No destination specified for message " + TypeName(g, m.typeId) + ". Message cannot be sent."
  }

  /** string.Join(";", the messages' types). */
  function JoinTypes(g: TypeGraph, messages: seq<Message>): string {
    if messages == [] then ""
    else if |messages| == 1 then TypeName(g, messages[0].typeId)
    else TypeName(g, messages[0].typeId) + ";" + JoinTypes(g, messages[1..])
  }

  function NoDestinationsMessage(g: TypeGraph, messages: seq<Message>): string {
    "No destination specified for message(s): " + JoinTypes(g, messages)
  }

  /** The envelope MapTransportMessageFor completes for the given correlation id and intent. */
  function Outgoing(correlationId: Option<string>, intent: Intent, body: seq<Message>, identity: string,
                    headers: map<string, string>): Envelope {
    Envelope(correlationId, intent, body, identity, headers, MaxTimeSpan)
  }

  /**
   * SendMessage to a destination list: an empty list or one with an empty entry
   * throws; otherwise the transport is handed the envelope once, with every
   * destination, and MessageSent follows unless the transport threw.
   */
  function SendAllRun(g: TypeGraph, destinations: seq<string>, env: Envelope, sendFault: ExcRef): BusRun {
    if |destinations| == 0 || "" in destinations then
      BusRun([], Some(InvalidOperationException(NoDestinationsMessage(g, env.body))))
    else
      BusRun([TransportSend(env, destinations)] + (if sendFault.None? then [MessageSent] else []), sendFault)
  }

  /** SendMessage to one destination: no messages, or an empty destination, throws first. */
  function SendOneRun(g: TypeGraph, destination: string, env: Envelope, sendFault: ExcRef): BusRun {
    if |env.body| == 0 then BusRun([], Some(InvalidOperationException(EmptySetMessage)))
    else if destination == "" then BusRun([], Some(InvalidOperationException(NoDestinationFor(g, env.body[0]))))
    else SendAllRun(g, [destination], env, sendFault)
  }

  /**
   * A send is rejected, before the transport is called, exactly when there is no
   * message or no destination; otherwise the transport gets the envelope as built,
   * and MessageSent is raised exactly when the transport did not throw, which is
   * then also what the caller sees.
   */
  lemma SendValidation(g: TypeGraph, destination: string, env: Envelope, sendFault: ExcRef)
    ensures var r := SendOneRun(g, destination, env, sendFault);
      (r.events == [] <==> |env.body| == 0 || destination == "") &&
      (r.events == [] ==> r.thrown.Some? && r.thrown.value.kind == InvalidOperation) &&
      (r.events != [] ==>
        r.events[0] == TransportSend(env, [destination]) && r.thrown == sendFault &&
        (MessageSent in r.events <==> sendFault.None?))
  {
  }

  /** A destination list is rejected exactly when it is empty or holds an empty entry. */
  lemma SendAllValidation(g: TypeGraph, destinations: seq<string>, env: Envelope, sendFault: ExcRef)
    ensures var r := SendAllRun(g, destinations, env, sendFault);
      (r.events == [] <==> |destinations| == 0 || exists i :: 0 <= i < |destinations| && destinations[i] == "") &&
      (r.events != [] ==> r.events[0] == TransportSend(env, destinations) && r.thrown == sendFault)
  {
  }

  /** The subscription keys of the publish closure. */
  function MessageTypesOf(g: TypeGraph, types: seq<TypeId>): (r: seq<MessageType>)
    ensures |r| == |types| && forall i :: 0 <= i < |types| ==> r[i] == MessageType(TypeName(g, types[i]))
  {
    seq(|types|, i requires 0 <= i < |types| => MessageType(TypeName(g, types[i])))
  }

  /**
   * Publish of `body`: without a storage it throws; otherwise the addresses
   * subscribed to the closure's types, in closure order and with repeats, are the
   * destinations.
   */
  function PublishRun(g: TypeGraph, m: Mapper, storage: Option<Storage>, env: Envelope, sendFault: ExcRef): BusRun {
    if storage.None? then BusRun([], Some(InvalidOperationException(NoStorageMessage)))
    else
      var subscribers := Subscribers(storage.value, MessageTypesOf(g, FullTypes(g, m, env.body)));
      SendAllRun(g, subscribers, env, sendFault)
  }

  /**
   * Publishing to nobody is not silent: with no subscriber to any type of the closure,
   * Publish throws InvalidOperationException and the transport is never called.
   */
  lemma PublishWithoutSubscribersThrows(g: TypeGraph, m: Mapper, st: Storage, env: Envelope, sendFault: ExcRef)
    requires forall t :: t in FullTypes(g, m, env.body) ==> ListOf(st, MessageType(TypeName(g, t))) == []
    ensures var r := PublishRun(g, m, Some(st), env, sendFault);
      r.events == [] && r.thrown == Some(InvalidOperationException(NoDestinationsMessage(g, env.body)))
  {
    var ts := MessageTypesOf(g, FullTypes(g, m, env.body));
    forall i | 0 <= i < |ts| ensures ListOf(st, ts[i]) == [] {
      assert FullTypes(g, m, env.body)[i] in FullTypes(g, m, env.body);
    }
    SubscribersNone(st, ts);

  }

  /** A published envelope goes, in one transport call, to every subscriber of the closure's types. */
  lemma PublishReachesSubscribers(g: TypeGraph, m: Mapper, st: Storage, env: Envelope, sendFault: ExcRef, d: string, t: TypeId)
    requires d != "" && t in FullTypes(g, m, env.body) && d in ListOf(st, MessageType(TypeName(g, t)))
    requires forall k :: k in st ==> "" !in st[k]
    ensures var r := PublishRun(g, m, Some(st), env, sendFault);
      r.thrown == sendFault && |r.events| > 0 && r.events[0].TransportSend? && d in r.events[0].destinations
  {
    var ts := MessageTypesOf(g, FullTypes(g, m, env.body));
    var i :| 0 <= i < |FullTypes(g, m, env.body)| && FullTypes(g, m, env.body)[i] == t;
    SubscribersHas(st, ts, d);
    SubscribersHas(st, ts, "");
    forall j | 0 <= j < |ts| ensures "" !in ListOf(st, ts[j]) {
    }
  }

  /** A listing of a dictionary: each key once, with its value, and every key present. */
  predicate IsListing(hs: seq<HeaderInfo>, m: map<string, string>) {
    NoDup(KeysOf(hs)) &&
    (forall i :: 0 <= i < |hs| ==> hs[i].key in m && m[hs[i].key] == hs[i].value) &&
    (forall k :: k in m ==> k in KeysOf(hs))
  }

  /** The header list a bus sends reads back, at the receiver's MessageContext, as the bus's outgoing dictionary. */
  lemma ListingReadsBack(hs: seq<HeaderInfo>, m: map<string, string>)
    requires IsListing(hs, m)
    ensures HeaderDictionary(Some(hs)) == Success(m)
  {
    var r := HeaderDictionary(Some(hs));
    assert r.Success?;
    forall k | k in m ensures k in r.value && r.value[k] == m[k] {
      var i :| 0 <= i < |hs| && KeysOf(hs)[i] == k;
    }
    forall k | k in r.value ensures k in m {
      var i :| 0 <= i < |hs| && KeysOf(hs)[i] == k;
    }
    assert r.value.Keys == m.Keys;
    assert r.value == m;
  }

  /** OutgoingHeaders.Select(...).ToList(): the dictionary's entries in its enumeration order, here an arbitrary one. */
  method ListHeaders(m: map<string, string>) returns (hs: seq<HeaderInfo>)
    ensures IsListing(hs, m)
  {
    hs := [];
    var remaining := m.Keys;
    while remaining != {}
      invariant remaining <= m.Keys
      invariant NoDup(KeysOf(hs))
      invariant forall i :: 0 <= i < |hs| ==> hs[i].key in m && m[hs[i].key] == hs[i].value && hs[i].key !in remaining
      invariant forall k :: k in m ==> k in remaining || k in KeysOf(hs)
      decreases |remaining|
    {
      var k :| k in remaining;
      assert k !in KeysOf(hs);
      NoDupAppend(KeysOf(hs), k);
      assert KeysOf(hs + [HeaderInfo(k, m[k])]) == KeysOf(hs) + [k];
      hs := hs + [HeaderInfo(k, m[k])];
      remaining := remaining - {k};
    }
  }

  /** Any: some message of the body is a ControlMessage (the class or a subclass). */
  predicate HasControlMessage(g: TypeGraph, body: seq<Message>) {
    exists i :: 0 <= i < |body| && IsAssignableFrom(g, g.controlMessage, Some(body[i].typeId))
  }

  /** The catch of Transport_TransportMessageReceived: a reflection wrapper is unwrapped, to its possibly null inner exception. */
  function HandlingFailure(e: Exception): (r: Exception)
    ensures r.kind == HandlingFailed
    ensures r.inner == if e.kind == TargetInvocation then e.inner else Some(e)
  {
    HandlingFailedException(if e.kind == TargetInvocation then e.inner else Some(e))
  }

  /** What receiving an envelope does: its events, what it throws, and the subscription storage afterwards. */
  datatype Received = Received(events: seq<BusEvent>, thrown: ExcRef, storage: Option<Storage>)

  /** What HandleControlMessage does: whether the envelope is handled, what it throws, and the storage afterwards. */
  datatype Control = Control(handled: bool, thrown: ExcRef, storage: Option<Storage>)

  /**
   * HandleControlMessage: a Subscribe or Unsubscribe request reads its
   * SubscriptionMessageType header (`typeHeader`) and, when there is a storage,
   * subscribes or unsubscribes its return address to that type; it is handled even
   * without a storage. Other intents are not handled here. The return address is the
   * envelope's, a missing one given as the empty string.
   */
  function ControlRun(intent: Intent, typeHeader: Result<string, Exception>, returnAddress: string,
                      storage: Option<Storage>): Control
  {
    if intent != Subscribe && intent != Unsubscribe then Control(false, None, storage)
    else if typeHeader.Failure? then Control(true, Some(typeHeader.error), storage)
    else if storage.None? then Control(true, None, storage)
    else
      var key := [MessageType(typeHeader.value)];
      Control(true, None,
        Some(if intent == Subscribe then SubscribeAll(storage.value, returnAddress, key)
             else UnsubscribeAll(storage.value, returnAddress, key)))
  }

  /**
   * The try block: Send and Publish envelopes are dispatched and a dispatch failure
   * is wrapped; MessageHandled closes a handling that did not throw.
   */
  function DispatchRun(intent: Intent, body: seq<Message>, dispatchFault: ExcRef): (seq<BusEvent>, ExcRef) {
    if intent == Send || intent == Publish then
      if dispatchFault.Some? then ([Dispatched(body)], Some(HandlingFailure(dispatchFault.value)))
      else ([Dispatched(body), MessageHandled], None)
    else ([MessageHandled], None)
  }

  /**
   * Transport_TransportMessageReceived for an envelope with the given intent, body,
   * SubscriptionMessageType header read (`typeHeader`) and return address:
   * MessageReceived is raised; a null body throws; a body with a control message goes
   * to HandleControlMessage and, when that handles it, ends there; otherwise the body
   * goes to the try block.
   */
  function ReceiveRun(g: TypeGraph, intent: Intent, body: Option<seq<Message>>, typeHeader: Result<string, Exception>,
                      returnAddress: string, storage: Option<Storage>, dispatchFault: ExcRef): Received
  {
    if body.None? then Received([MessageReceived], Some(ArgumentNullException("source")), storage)
    else
      var c := if HasControlMessage(g, body.value) then ControlRun(intent, typeHeader, returnAddress, storage)
               else Control(false, None, storage);
      if c.handled then Received([MessageReceived], c.thrown, c.storage)
      else
        var d := DispatchRun(intent, body.value, dispatchFault);
        Received([MessageReceived] + d.0, d.1, storage)
  }

  /**
   * A Subscribe or Unsubscribe control message is never dispatched and never throws
   * a dispatch failure: it subscribes or unsubscribes its return address to the type
   * named by its SubscriptionMessageType header, and with no storage it is dropped.
   */
  lemma ControlMessagesNotDispatched(g: TypeGraph, intent: Intent, body: seq<Message>, typeName: string,
                                     returnAddress: string, storage: Option<Storage>, dispatchFault: ExcRef)
    requires HasControlMessage(g, body) && (intent == Subscribe || intent == Unsubscribe)
    ensures var r := ReceiveRun(g, intent, Some(body), Success(typeName), returnAddress, storage, dispatchFault);
      r.events == [MessageReceived] && r.thrown.None? &&
      (storage.None? ==> r.storage.None?) &&
      (storage.Some? && intent == Subscribe ==>
        r.storage.Some? && returnAddress in Subscribers(r.storage.value, [MessageType(typeName)])) &&
      (storage.Some? && intent == Unsubscribe && ListsDistinct(storage.value) ==>
        r.storage.Some? && returnAddress !in Subscribers(r.storage.value, [MessageType(typeName)]))
  {
    if storage.Some? {
      SubscribeThenQuery(storage.value, returnAddress, MessageType(typeName));
    }
  }

  /**
   * Outside control messages the storage is untouched, exactly Send and Publish
   * envelopes are dispatched, and a dispatch failure surfaces as
   * TransportMessageHandlingFailedException around the unwrapped exception.
   */
  lemma OnlySendAndPublishDispatched(g: TypeGraph, intent: Intent, body: seq<Message>, typeHeader: Result<string, Exception>,
                                     returnAddress: string, storage: Option<Storage>, dispatchFault: ExcRef)
    requires !(HasControlMessage(g, body) && (intent == Subscribe || intent == Unsubscribe))
    ensures var r := ReceiveRun(g, intent, Some(body), typeHeader, returnAddress, storage, dispatchFault);
      r.storage == storage && r.events[0] == MessageReceived &&
      (Dispatched(body) in r.events <==> intent == Send || intent == Publish) &&
      ((intent == Send || intent == Publish) && dispatchFault.Some? ==>
        r.thrown == Some(HandlingFailure(dispatchFault.value)) && MessageHandled !in r.events) &&
      ((intent != Send && intent != Publish) || dispatchFault.None? ==>
        r.thrown.None? && r.events[|r.events| - 1] == MessageHandled)
  {
    var c := if HasControlMessage(g, body) then ControlRun(intent, typeHeader, returnAddress, storage)
             else Control(false, None, storage);
    assert !c.handled && c.storage == storage;
    var d := DispatchRun(intent, body, dispatchFault);
    var r := ReceiveRun(g, intent, Some(body), typeHeader, returnAddress, storage, dispatchFault);
    assert r == Received([MessageReceived] + d.0, d.1, storage);
  }

  /** Start's transport calls: the transport, then each of the first `listeners` additional listeners in order. */
  function StartEvents(listeners: nat): seq<BusEvent>
  {
    if listeners == 0 then [TransportStarted] else StartEvents(listeners - 1) + [ListenerStarted(listeners - 1)]
  }

  /** The transport is started first and then listener i as the (i + 1)-th call, each once. */
  lemma {:induction false} StartEventsOrder(listeners: nat)
    ensures |StartEvents(listeners)| == listeners + 1 && StartEvents(listeners)[0] == TransportStarted
    ensures forall i :: 0 <= i < listeners ==> StartEvents(listeners)[i + 1] == ListenerStarted(i)
  {
    if listeners > 0 {
      StartEventsOrder(listeners - 1);
    }
  }

  /**
   * The number of Start calls that return before the first one that throws. A Start
   * call is the transport's (faults[0]) or additional listener i's (faults[i + 1]).
   */
  function StartsBeforeFault(faults: seq<ExcRef>): (k: nat)
    ensures k <= |faults|
  {
    if faults == [] then 0
    else if faults[0].Some? then 0
    else StartsBeforeFault(faults[1..]) + 1
  }

  /** Every call before the first throwing one returns, and the one at it throws. */
  lemma {:induction false} StartsBeforeFaultFacts(faults: seq<ExcRef>)
    ensures var k := StartsBeforeFault(faults);
      (forall j :: 0 <= j < k ==> faults[j].None?) &&
      (k < |faults| ==> faults[k].Some?)
  {
    if faults != [] && faults[0].None? {
      StartsBeforeFaultFacts(faults[1..]);
    }
  }

  /**
   * The body of Start's lock when the bus has not started: the calls made, up to and
   * including the first that throws, and the exception that escapes.
   */
  function StartRun(faults: seq<ExcRef>): (r: (seq<BusEvent>, ExcRef))
    requires |faults| > 0
  {
    var k := StartsBeforeFault(faults);
    if k < |faults| then (StartEvents(k), faults[k]) else (StartEvents(|faults| - 1), None)
  }

  /**
   * Start throws exactly when some Start call throws, and then throws the first one's
   * exception; the transport is started first, and listener i is started exactly when
   * no earlier call threw.
   */
  lemma StartRunFacts(faults: seq<ExcRef>)
    requires |faults| > 0
    ensures var (events, thrown) := StartRun(faults);
      (thrown.None? <==> forall j :: 0 <= j < |faults| ==> faults[j].None?) &&
      (thrown.Some? ==> exists k :: 0 <= k < |faults| && thrown == faults[k] &&
                          forall j :: 0 <= j < k ==> faults[j].None?) &&
      events[0] == TransportStarted &&
      (forall i :: 0 <= i < |faults| - 1 ==>
        (ListenerStarted(i) in events <==> forall j :: 0 <= j <= i ==> faults[j].None?))
  {
    var k := StartsBeforeFault(faults);
    StartsBeforeFaultFacts(faults);
    var n := if k < |faults| then k else |faults| - 1;
    StartEventsOrder(n);
    var events := StartRun(faults).0;
    assert events == StartEvents(n);
    forall i | 0 <= i < |faults| - 1
      ensures ListenerStarted(i) in events <==> forall j :: 0 <= j <= i ==> faults[j].None?
    {
      if i < n {
        assert events[i + 1] == ListenerStarted(i);
      } else {
        assert faults[k].Some?;
        forall p | 0 <= p < |events| ensures events[p] != ListenerStarted(i) {
          if p > 0 {
            assert events[p] == ListenerStarted(p - 1);
          }
        }
      }
    }
    if k < |faults| {
      assert StartRun(faults).1 == faults[k];
    }
  }

  /**
   * GetDestinationServiceForMessage of UnicastMessageBus: a mapped type is returned
   * directly; otherwise a non-interface type is retried once under the type the
   * mapper gives for it, when that differs; otherwise there is none.
   */
  function Destination(g: TypeGraph, m: Mapper, lookup: map<TypeId, string>, t: TypeId): (r: Option<string>)
    requires MapperWellFormed(g, m)
    ensures t in lookup ==> r == Some(lookup[t])
    ensures t !in lookup ==>
      var mt := GetMappedTypeFor(g, m, t);
      (!IsInterface(g, t) && mt.Some? && mt.value != t ==>
        r == if mt.value in lookup then Some(lookup[mt.value]) else None)
    ensures t !in lookup ==>
      var mt := GetMappedTypeFor(g, m, t);
      ((IsInterface(g, t) || mt.None? || mt.value == t) ==> r.None?)
    decreases if IsInterface(g, t) then 0 else 1
  {
    if t in lookup then Some(lookup[t])
    else if !IsInterface(g, t) then
      var mt := GetMappedTypeFor(g, m, t);
      if mt.Some? && mt.value != t then Destination(g, m, lookup, mt.value) else None
    else None
  }

  class UnicastMessageBus {
    const graph: TypeGraph
    const mapper: Mapper
    const subscriptionStorage: InMemorySubscriptionStorage?
    /**
     * OutgoingHeaders and the envelope being handled, here one worker's. In the bus only the
     * envelope is thread-static, and it is shared by every bus on the thread; the
     * thread-static mark on the instance field of the outgoing headers has no effect.
     */
    const headers: BusHeaders
    /** Thread.CurrentPrincipal.Identity.Name. */
    const identity: string
    /** The number of additional listening transports. */
    const additionalListeners: nat
    var lookup: map<TypeId, string>
    var hasStarted: bool
    var trace: seq<BusEvent>

    predicate Valid()
      reads this
    {
      MapperWellFormed(graph, mapper)
    }

    constructor (g: TypeGraph, m: Mapper, storage: InMemorySubscriptionStorage?, h: BusHeaders, identity: string, listeners: nat)
      ensures graph == g && mapper == m && subscriptionStorage == storage && headers == h
      ensures this.identity == identity && additionalListeners == listeners
      ensures lookup == map[] && !hasStarted && trace == []
    {
      graph := g;
      mapper := m;
      subscriptionStorage := storage;
      headers := h;
      this.identity := identity;
      additionalListeners := listeners;
      lookup := map[];
      hasStarted := false;
      trace := [];
    }

    function StorageState(): Option<Storage>
      reads subscriptionStorage
    {
      if subscriptionStorage == null then None else Some(subscriptionStorage.storage)
    }

    /** MapMessageTypeToAddress: the type now routes to the address, overwriting, and nothing else changes. */
    method MapMessageTypeToAddress(messageType: TypeId, address: string)
      requires Valid()
      modifies this
      ensures lookup == old(lookup)[messageType := address]
      ensures GetDestinationServiceForMessage(messageType) == Some(address)
      ensures trace == old(trace) && hasStarted == old(hasStarted)
    {
      lookup := lookup[messageType := address];
    }

    function GetDestinationServiceForMessage(messageType: TypeId): (r: Option<string>)
      requires Valid()
      reads this
      ensures r.Some? ==> r.value in lookup.Values
    {
      Destination(graph, mapper, lookup, messageType)
    }

    /** MapTransportMessageFor: the body, the sender's identity, a listing of OutgoingHeaders and the largest time to be received. */
    method MapTransportMessageFor(messages: array<Message>, toSend: TransportMessage)
      modifies toSend
      ensures toSend.body == messages && toSend.messages == Some(messages[..])
      ensures toSend.windowsIdentityName == identity && toSend.timeToBeReceived == MaxTimeSpan
      ensures toSend.headers.Some? && IsListing(toSend.headers.value, headers.outgoingHeaders)
      ensures toSend.correlationId == old(toSend.correlationId) && toSend.messageIntent == old(toSend.messageIntent)
    {
      var _ := toSend.SetBody(messages);
      toSend.windowsIdentityName := identity;
      var hs := ListHeaders(headers.outgoingHeaders);
      toSend.headers := Some(hs);
      toSend.SetTimeToBeReceived(MaxTimeSpan);
    }

    /** SendMessage to a destination list, messages present. */
    method SendMessageToAll(destinations: seq<string>, correlationId: Option<string>, intent: Intent,
                            messages: array<Message>, sendFault: ExcRef) returns (thrown: ExcRef)
      modifies this
      ensures var r := SendAllRun(graph, destinations,
                         Outgoing(correlationId, intent, messages[..], identity, headers.outgoingHeaders), sendFault);
        trace == old(trace) + r.events && thrown == r.thrown
      ensures lookup == old(lookup) && hasStarted == old(hasStarted)
    {
      if |destinations| == 0 || "" in destinations {
        return Some(InvalidOperationException(NoDestinationsMessage(graph, messages[..])));
      }
      var toSend := new TransportMessage();
      toSend.correlationId := correlationId;
      toSend.messageIntent := intent;
      MapTransportMessageFor(messages, toSend);
      ListingReadsBack(toSend.headers.value, headers.outgoingHeaders);
      var env := Envelope(toSend.correlationId, toSend.messageIntent, toSend.body[..], toSend.windowsIdentityName,
                          headers.outgoingHeaders, toSend.timeToBeReceived);
      trace := trace + [TransportSend(env, destinations)];
      if sendFault.Some? {
        return sendFault;
      }
      trace := trace + [MessageSent];
      return None;
    }

    /** SendMessage to one destination. */
    method SendMessage(destination: string, correlationId: Option<string>, intent: Intent,
                       messages: array?<Message>, sendFault: ExcRef) returns (thrown: ExcRef)
      modifies this
      ensures var r := SendOneRun(graph, destination,
                         Outgoing(correlationId, intent, if messages == null then [] else messages[..], identity,
                                  headers.outgoingHeaders), sendFault);
        trace == old(trace) + r.events && thrown == r.thrown
      ensures lookup == old(lookup) && hasStarted == old(hasStarted)
    {
      if messages == null || messages.Length == 0 {
        return Some(InvalidOperationException(EmptySetMessage));
      }
      if destination == "" {
        return Some(InvalidOperationException(NoDestinationFor(graph, messages[0])));
      }
      thrown := SendMessageToAll([destination], correlationId, intent, messages, sendFault);
    }

    /** Publish: `created` is what CreateInstance makes when there are no messages. */
    method Publish(messages: array?<Message>, created: Message, sendFault: ExcRef) returns (thrown: ExcRef)
      modifies this
      ensures var body := if messages == null || messages.Length == 0 then [created] else messages[..];
        var r := PublishRun(graph, mapper, StorageState(),
                   Outgoing(None, Intent.Publish, body, identity, headers.outgoingHeaders), sendFault);
        trace == old(trace) + r.events && thrown == r.thrown
      ensures lookup == old(lookup) && hasStarted == old(hasStarted)
    {
      if subscriptionStorage == null {
        return Some(InvalidOperationException(NoStorageMessage));
      }
      if messages == null || messages.Length == 0 {
        var one := new Message[1](_ => created);
        assert one[..] == [created];
        thrown := PublishBody(one, sendFault);
      } else {
        thrown := PublishBody(messages, sendFault);
      }
    }

    /** Publish of messages that are there, with a storage. */
    method PublishBody(messages: array<Message>, sendFault: ExcRef) returns (thrown: ExcRef)
      requires subscriptionStorage != null
      modifies this
      ensures var r := PublishRun(graph, mapper, StorageState(),
                         Outgoing(None, Intent.Publish, messages[..], identity, headers.outgoingHeaders), sendFault);
        trace == old(trace) + r.events && thrown == r.thrown
      ensures lookup == old(lookup) && hasStarted == old(hasStarted)
    {
      var fullTypes := GetFullTypes(graph, mapper, messages[..]);
      var subscribers := subscriptionStorage.GetSubscriberServicesForMessage(MessageTypesOf(graph, fullTypes));
      thrown := SendMessageToAll(subscribers, None, Intent.Publish, messages, sendFault);
    }

    /** ISendOnlyMessageBus.Send(messages): routed by the first message's type. */
    method Send(messages: array?<Message>, sendFault: ExcRef) returns (thrown: ExcRef)
      requires Valid()
      modifies this
      ensures messages == null ==> thrown == Some(ArgumentNullException("source")) && trace == old(trace)
      ensures messages != null ==>
        var destination := if messages.Length == 0 then "" else
          OrElse(GetDestinationServiceForMessage(messages[0].typeId), "");
        var r := SendOneRun(graph, destination,
                   Outgoing(None, Intent.Send, messages[..], identity, headers.outgoingHeaders), sendFault);
        trace == old(trace) + r.events && thrown == r.thrown
      ensures lookup == old(lookup) && hasStarted == old(hasStarted)
    {
      if messages == null {
        return Some(ArgumentNullException("source"));
      }
      var destination := "";
      if messages.Length > 0 {
        destination := OrElse(GetDestinationServiceForMessage(messages[0].typeId), "");
      }
      thrown := SendMessage(destination, None, Intent.Send, messages, sendFault);
    }

    /** ISendOnlyMessageBus.Send(destinationService, messages). */
    method SendTo(destinationService: string, messages: array?<Message>, sendFault: ExcRef) returns (thrown: ExcRef)
      modifies this
      ensures var r := SendOneRun(graph, destinationService,
                         Outgoing(None, Intent.Send, if messages == null then [] else messages[..], identity,
                                  headers.outgoingHeaders), sendFault);
        trace == old(trace) + r.events && thrown == r.thrown
      ensures lookup == old(lookup) && hasStarted == old(hasStarted)
    {
      thrown := SendMessage(destinationService, None, Intent.Send, messages, sendFault);
    }

    /** ISendOnlyMessageBus.Send(destinationService, correlationId, messages): the Guid's text is the CorrelationId. */
    method SendCorrelated(destinationService: string, correlationId: Guid, messages: array?<Message>, sendFault: ExcRef)
      returns (thrown: ExcRef)
      modifies this
      ensures var r := SendOneRun(graph, destinationService,
                         Outgoing(Some(correlationId.text), Intent.Send, if messages == null then [] else messages[..],
                                  identity, headers.outgoingHeaders), sendFault);
        trace == old(trace) + r.events && thrown == r.thrown
      ensures lookup == old(lookup) && hasStarted == old(hasStarted)
    {
      thrown := SendMessage(destinationService, Some(correlationId.text), Intent.Send, messages, sendFault);
    }

    /** SendLocal is not implemented. */
    method SendLocal(messages: array?<Message>) returns (thrown: ExcRef)
      ensures thrown == Some(NotImplementedException())
    {
      return Some(NotImplementedException());
    }

    /**
     * Reply: to the return address of the current message context; without a current
     * message it throws, and the context's ReturnAddress throws NullReferenceException
     * for an envelope that has none.
     */
    method Reply(messages: array?<Message>, sendFault: ExcRef) returns (thrown: ExcRef)
      modifies this
      ensures headers.messageBeingHandled == null ==>
        thrown == Some(InvalidOperationException(NoContextMessage)) && trace == old(trace)
      ensures headers.messageBeingHandled != null && headers.messageBeingHandled.returnAddress.None? ==>
        thrown == Some(NullReferenceException()) && trace == old(trace)
      ensures headers.messageBeingHandled != null && headers.messageBeingHandled.returnAddress.Some? ==>
        var r := SendOneRun(graph, headers.messageBeingHandled.returnAddress.value,
                   Outgoing(None, Intent.Send, if messages == null then [] else messages[..], identity,
                            headers.outgoingHeaders), sendFault);
        trace == old(trace) + r.events && thrown == r.thrown
      ensures lookup == old(lookup) && hasStarted == old(hasStarted)
    {
      if headers.messageBeingHandled == null {
        return Some(InvalidOperationException(NoContextMessage));
      }
      var context := new MessageContext(headers.messageBeingHandled);
      var returnAddress := context.ReturnAddress();
      if returnAddress.Failure? {
        return Some(returnAddress.error);
      }
      thrown := SendMessage(returnAddress.value, None, Intent.Send, messages, sendFault);
    }

    /** The publisher a subscription request goes to: the one given, or the routing of the type. */
    function PublisherFor(publishingService: string, messageType: TypeId): string
      requires Valid()
      reads this
    {
      if IsNullOrWhiteSpace(publishingService) then OrElse(GetDestinationServiceForMessage(messageType), "")
      else publishingService
    }

    /**
     * Subscribe and Unsubscribe: the SubscriptionMessageType header is set to the
     * type's name and a ControlMessage with the given intent goes to the publisher.
     */
    method SendSubscription(publishingService: string, messageType: TypeId, intent: Intent, sendFault: ExcRef)
      returns (thrown: ExcRef)
      requires Valid()
      modifies this, headers
      ensures headers.outgoingHeaders == old(headers.outgoingHeaders)[SubscriptionMessageType := TypeName(graph, messageType)]
      ensures headers.messageBeingHandled == old(headers.messageBeingHandled)
      ensures var r := SendOneRun(graph, old(PublisherFor(publishingService, messageType)),
                         Outgoing(None, intent, [Message(graph.controlMessage, "")], identity, headers.outgoingHeaders),
                         sendFault);
        trace == old(trace) + r.events && thrown == r.thrown
      ensures lookup == old(lookup) && hasStarted == old(hasStarted)
    {
      var publisher := PublisherFor(publishingService, messageType);
      var _ := HeaderExtensions.SetHeader(headers, SubscriptionMessageType, TypeName(graph, messageType));
      var control := new Message[1](_ => Message(graph.controlMessage, ""));
      assert control[..] == [Message(graph.controlMessage, "")];
      thrown := SendMessage(publisher, None, intent, control, sendFault);
    }

    method Subscribe(publishingService: string, messageType: TypeId, sendFault: ExcRef) returns (thrown: ExcRef)
      requires Valid()
      modifies this, headers
      ensures headers.outgoingHeaders == old(headers.outgoingHeaders)[SubscriptionMessageType := TypeName(graph, messageType)]
      ensures headers.messageBeingHandled == old(headers.messageBeingHandled)
      ensures var r := SendOneRun(graph, old(PublisherFor(publishingService, messageType)),
                         Outgoing(None, Intent.Subscribe, [Message(graph.controlMessage, "")], identity, headers.outgoingHeaders),
                         sendFault);
        trace == old(trace) + r.events && thrown == r.thrown
      ensures lookup == old(lookup) && hasStarted == old(hasStarted)
    {
      thrown := SendSubscription(publishingService, messageType, Intent.Subscribe, sendFault);
    }

    method Unsubscribe(publishingService: string, messageType: TypeId, sendFault: ExcRef) returns (thrown: ExcRef)
      requires Valid()
      modifies this, headers
      ensures headers.outgoingHeaders == old(headers.outgoingHeaders)[SubscriptionMessageType := TypeName(graph, messageType)]
      ensures headers.messageBeingHandled == old(headers.messageBeingHandled)
      ensures var r := SendOneRun(graph, old(PublisherFor(publishingService, messageType)),
                         Outgoing(None, Intent.Unsubscribe, [Message(graph.controlMessage, "")], identity, headers.outgoingHeaders),
                         sendFault);
        trace == old(trace) + r.events && thrown == r.thrown
      ensures lookup == old(lookup) && hasStarted == old(hasStarted)
    {
      thrown := SendSubscription(publishingService, messageType, Intent.Unsubscribe, sendFault);
    }

    /** HandleControlMessage, for the envelope being handled. */
    method HandleControlMessage() returns (handled: bool, thrown: ExcRef)
      requires headers.messageBeingHandled != null
      modifies subscriptionStorage
      ensures var m := headers.messageBeingHandled;
        var c := ControlRun(m.messageIntent, HeaderExtensions.HeaderValue(m.headers, SubscriptionMessageType),
                            OrElse(m.returnAddress, ""), old(StorageState()));
        handled == c.handled && thrown == c.thrown && StorageState() == c.storage
    {
      var m := headers.messageBeingHandled;
      if m.messageIntent != Intent.Subscribe && m.messageIntent != Intent.Unsubscribe {
        return false, None;
      }
      var typeHeader := HeaderExtensions.GetHeader(headers, SubscriptionMessageType);
      if typeHeader.Failure? {
        return true, Some(typeHeader.error);
      }
      if subscriptionStorage == null {
        return true, None;
      }
      if m.messageIntent == Intent.Subscribe {
        subscriptionStorage.Subscribe(OrElse(m.returnAddress, ""), [MessageType(typeHeader.value)]);
      } else {
        subscriptionStorage.Unsubscribe(OrElse(m.returnAddress, ""), [MessageType(typeHeader.value)]);
      }
      return true, None;
    }

    /** Transport_TransportMessageReceived, with what dispatching the body throws as a parameter. */
    method TransportMessageReceived(e: TransportMessage, dispatchFault: ExcRef) returns (thrown: ExcRef)
      modifies this, headers, subscriptionStorage
      ensures headers.outgoingHeaders == map[] && headers.messageBeingHandled == e
      ensures var r := ReceiveRun(graph, e.messageIntent, if e.body == null then None else Some(e.body[..]),
                         HeaderExtensions.HeaderValue(e.headers, SubscriptionMessageType), OrElse(e.returnAddress, ""),
                         old(StorageState()), dispatchFault);
        trace == old(trace) + r.events && thrown == r.thrown && StorageState() == r.storage
      ensures lookup == old(lookup) && hasStarted == old(hasStarted)
    {
      headers.outgoingHeaders := map[];
      headers.messageBeingHandled := e;
      trace := trace + [MessageReceived];
      if e.body == null {
        return Some(ArgumentNullException("source"));
      }
      var events;
      thrown, events := HandleBody(e, dispatchFault);
      trace := trace + events;
    }

    /** The rest of Transport_TransportMessageReceived, once the envelope is the current message. */
    method HandleBody(e: TransportMessage, dispatchFault: ExcRef) returns (thrown: ExcRef, events: seq<BusEvent>)
      requires headers.messageBeingHandled == e && e.body != null
      modifies subscriptionStorage
      ensures var r := ReceiveRun(graph, e.messageIntent, Some(e.body[..]),
                         HeaderExtensions.HeaderValue(e.headers, SubscriptionMessageType), OrElse(e.returnAddress, ""),
                         old(StorageState()), dispatchFault);
        [MessageReceived] + events == r.events && thrown == r.thrown && StorageState() == r.storage
    {
      ghost var typeHeader := HeaderExtensions.HeaderValue(e.headers, SubscriptionMessageType);
      ghost var before := StorageState();
      ghost var r := ReceiveRun(graph, e.messageIntent, Some(e.body[..]), typeHeader, OrElse(e.returnAddress, ""), before, dispatchFault);
      if HasControlMessage(graph, e.body[..]) {
        var handled, failed := HandleControlMessage();
        ghost var c := ControlRun(e.messageIntent, typeHeader, OrElse(e.returnAddress, ""), before);
        assert handled == c.handled && failed == c.thrown && StorageState() == c.storage;
        if handled {
          assert r == Received([MessageReceived], c.thrown, c.storage);
          return failed, [];
        }
        assert StorageState() == before;
      }
      events, thrown := Dispatch(e.messageIntent, e.body, dispatchFault);
      assert r == Received([MessageReceived] + events, thrown, before);
    }

    /** The try block of Transport_TransportMessageReceived. */
    method Dispatch(intent: Intent, body: array<Message>, dispatchFault: ExcRef) returns (events: seq<BusEvent>, thrown: ExcRef)
      ensures (events, thrown) == DispatchRun(intent, body[..], dispatchFault)
    {
      if intent != Intent.Send && intent != Intent.Publish {
        return [MessageHandled], None;
      }
      if dispatchFault.Some? {
        return [Dispatched(body[..])], Some(HandlingFailure(dispatchFault.value));
      }
      return [Dispatched(body[..]), MessageHandled], None;
    }

    /**
     * Start: a started bus does nothing. Otherwise the transport and then each additional
     * listener are started until one throws (faults as in StartRun); the exception
     * propagates and the bus stays unstarted, so a later Start tries again.
     */
    method Start(faults: seq<ExcRef>) returns (thrown: ExcRef)
      requires |faults| == additionalListeners + 1
      modifies this
      ensures old(hasStarted) ==> hasStarted && trace == old(trace) && thrown.None?
      ensures !old(hasStarted) ==>
        trace == old(trace) + StartRun(faults).0 && thrown == StartRun(faults).1 &&
        hasStarted == thrown.None?
      ensures lookup == old(lookup)
    {
      if hasStarted {
        return None;
      }
      StartsBeforeFaultFacts(faults);
      trace := trace + [TransportStarted];
      if faults[0].Some? {
        return faults[0];
      }
      var i := 0;
      while i < additionalListeners
        invariant 0 <= i <= additionalListeners
        invariant trace == old(trace) + StartEvents(i)
        invariant forall j :: 0 <= j <= i ==> faults[j].None?
        invariant lookup == old(lookup) && !hasStarted
      {
        assert old(trace) + StartEvents(i + 1) == (old(trace) + StartEvents(i)) + [ListenerStarted(i)];
        trace := trace + [ListenerStarted(i)];
        if faults[i + 1].Some? {
          assert StartsBeforeFault(faults) == i + 1;
          return faults[i + 1];
        }
        i := i + 1;
      }
      hasStarted := true;
      thrown := None;
    }
  }

  /** GetFullTypes: the loop over the messages. */
  method GetFullTypes(g: TypeGraph, m: Mapper, messages: seq<Message>) returns (types: seq<TypeId>)
    ensures types == FullTypes(g, m, messages)
  {
    types := [];
    var i := 0;
    while i < |messages|
      invariant 0 <= i <= |messages|
      invariant types == FullTypes(g, m, messages[..i])
    {
      assert messages[..i + 1][..i] == messages[..i];
      var s := messages[i].typeId;
      if s !in types {
        types := AddMessageInterfaces(g, m, types + [s], InterfacesOf(g, s));
      }
      i := i + 1;
    }
    assert messages[..i] == messages;
  }

  /** GetFullTypes: the inner loop over a new type's interfaces, adding the message types not yet listed. */
  method AddMessageInterfaces(g: TypeGraph, m: Mapper, base: seq<TypeId>, itfs: seq<TypeId>) returns (types: seq<TypeId>)
    ensures types == AppendMissing(base, MessageInterfaces(g, m, itfs))
  {
    types := base;
    var j := 0;
    while j < |itfs|
      invariant 0 <= j <= |itfs|
      invariant types == AppendMissing(base, MessageInterfaces(g, m, itfs[..j]))
    {
      assert itfs[..j + 1][..j] == itfs[..j];
      var t := itfs[j];
      if m.isMessageType(t) {
        AppendMissingStep(base, MessageInterfaces(g, m, itfs[..j]), t);
        if t !in types {
          types := types + [t];
        }
      }
      j := j + 1;
    }
    assert itfs[..j] == itfs;
  }
}
