/**
 * UnicastServiceBus: the bus variant that hands each outgoing envelope to a message
 * sender once per destination. It shares the message bus's validation, publish
 * closure and InvalidOperationException texts, but builds the envelope with an
 * empty header list and routes by a lookup that consults the mapper only after a
 * hit. That lookup is created empty and nothing fills it, so Send(messages) never
 * finds a destination; the rule is stated for any table all the same.
 *
 * The sender, the mapper and CreateInstance are outside: what the sender throws for
 * each destination and the instance CreateInstance makes are parameters, and the
 * sender calls are recorded in a trace.
 */
module ServiceUnicast {
  import opened Wrappers
  import opened Exceptions
  import opened TypeGraphs
  import opened Envelopes
  import opened Subscriptions
  import opened MessageContexts
  import opened Unicast

  datatype ServiceEvent = SenderSend(envelope: Envelope, destination: string) // ISendMessages.Send

  datatype ServiceRun = ServiceRun(events: seq<ServiceEvent>, thrown: ExcRef)

  /**
   * The foreach over the destinations: the sender is handed the envelope for each
   * destination in list order, and the first exception it throws ends the loop.
   */
  function SenderRun(env: Envelope, destinations: seq<string>, senderFault: string -> ExcRef): ServiceRun
    decreases |destinations|
  {
    if destinations == [] then ServiceRun([], None)
    else
      var p := SenderRun(env, destinations[..|destinations| - 1], senderFault);
      if p.thrown.Some? then p
      else
        var d := destinations[|destinations| - 1];
        ServiceRun(p.events + [SenderSend(env, d)], senderFault(d))
  }

  /**
   * The sender calls are a prefix of the destination list, one per destination and
   * each with the same envelope; every call but the last returned, and what the last
   * threw is what the loop throws. When nothing is thrown every destination was sent to.
   */
  lemma {:induction false} SenderRunFacts(env: Envelope, ds: seq<string>, f: string -> ExcRef)
    ensures var r := SenderRun(env, ds, f);
      |r.events| <= |ds| &&
      (forall i :: 0 <= i < |r.events| ==> r.events[i] == SenderSend(env, ds[i])) &&
      (forall i :: 0 <= i < |r.events| - 1 ==> f(ds[i]).None?) &&
      r.thrown == (if |r.events| == 0 then None else f(ds[|r.events| - 1])) &&
      (r.thrown.None? ==> |r.events| == |ds|)
    decreases |ds|
  {
    if ds != [] {
      var init := ds[..|ds| - 1];
      SenderRunFacts(env, init, f);
      var p := SenderRun(env, init, f);
      assert forall i :: 0 <= i < |init| ==> init[i] == ds[i];
    }
  }

  /** Once a prefix of the destinations throws, the rest are never sent to. */
  lemma {:induction false} SenderRunStopsAfterPrefix(env: Envelope, ds: seq<string>, f: string -> ExcRef, k: nat)
    requires k <= |ds| && SenderRun(env, ds[..k], f).thrown.Some?
    ensures SenderRun(env, ds, f) == SenderRun(env, ds[..k], f)
    decreases |ds|
  {
    if k < |ds| {
      var init := ds[..|ds| - 1];
      assert init[..k] == ds[..k];
      SenderRunStopsAfterPrefix(env, init, f, k);
    } else {
      assert ds[..k] == ds;
    }
  }

  /** The loop throws exactly when the sender throws for some destination. */
  lemma SenderRunThrowsIff(env: Envelope, ds: seq<string>, f: string -> ExcRef)
    ensures var r := SenderRun(env, ds, f);
      r.thrown.None? <==> forall i :: 0 <= i < |ds| ==> f(ds[i]).None?
  {
    SenderRunFacts(env, ds, f);
  }

  /**
   * The first destination the sender throws for is the last one sent to: the later
   * destinations never see the envelope.
   */
  lemma SenderRunStopsAtFirstFault(env: Envelope, ds: seq<string>, f: string -> ExcRef, k: nat)
    requires k < |ds| && f(ds[k]).Some?
    requires forall i :: 0 <= i < k ==> f(ds[i]).None?
    ensures var r := SenderRun(env, ds, f);
      |r.events| == k + 1 && r.thrown == f(ds[k]) && r.events[k] == SenderSend(env, ds[k])
  {
    SenderRunFacts(env, ds, f);
  }

  /**
   * SendMessage to a destination list: an empty list or one with an empty entry
   * throws before the sender is called; otherwise the sender loop runs.
   */
  function ServiceSendAllRun(g: TypeGraph, destinations: seq<string>, env: Envelope, senderFault: string -> ExcRef): ServiceRun {
    if |destinations| == 0 || "" in destinations then
      ServiceRun([], Some(InvalidOperationException(NoDestinationsMessage(g, env.body))))
    else SenderRun(env, destinations, senderFault)
  }

  /** SendMessage to one destination: no messages, or an empty destination, throws first. */
  function ServiceSendOneRun(g: TypeGraph, destination: string, env: Envelope, senderFault: string -> ExcRef): ServiceRun {
    if |env.body| == 0 then ServiceRun([], Some(InvalidOperationException(EmptySetMessage)))
    else if destination == "" then ServiceRun([], Some(InvalidOperationException(NoDestinationFor(g, env.body[0]))))
    else ServiceSendAllRun(g, [destination], env, senderFault)
  }

  /**
   * A send to one destination is rejected, before the sender is called, exactly when
   * there is no message or no destination; otherwise the sender gets the envelope
   * once, for that destination, and what it throws is what the caller sees.
   */
  lemma ServiceSendValidation(g: TypeGraph, destination: string, env: Envelope, senderFault: string -> ExcRef)
    ensures var r := ServiceSendOneRun(g, destination, env, senderFault);
      (r.events == [] <==> |env.body| == 0 || destination == "") &&
      (r.events == [] ==> r.thrown.Some? && r.thrown.value.kind == InvalidOperation) &&
      (r.events != [] ==> r.events == [SenderSend(env, destination)] && r.thrown == senderFault(destination))
  {
    if |env.body| > 0 && destination != "" {
      assert [destination][..0] == [];
      assert "" !in [destination];
      assert SenderRun(env, [destination], senderFault) == ServiceRun([SenderSend(env, destination)], senderFault(destination));
    }
  }

  /** A destination list is rejected exactly when it is empty or holds an empty entry. */
  lemma ServiceSendAllValidation(g: TypeGraph, destinations: seq<string>, env: Envelope, senderFault: string -> ExcRef)
    ensures var r := ServiceSendAllRun(g, destinations, env, senderFault);
      (r.events == [] <==> |destinations| == 0 || exists i :: 0 <= i < |destinations| && destinations[i] == "") &&
      (r.events == [] ==> r.thrown.Some? && r.thrown.value.kind == InvalidOperation) &&
      (r.events != [] ==> r.events[0] == SenderSend(env, destinations[0]))
  {
    if |destinations| > 0 && "" !in destinations {
      SenderRunFacts(env, destinations, senderFault);
    }
  }

  /**
   * Publish of `env.body`: without a storage it throws; otherwise the addresses
   * subscribed to the closure's types, in closure order and with repeats, are the
   * destinations.
   */
  function ServicePublishRun(g: TypeGraph, m: Mapper, storage: Option<Storage>, env: Envelope, senderFault: string -> ExcRef): ServiceRun {
    if storage.None? then ServiceRun([], Some(InvalidOperationException(NoStorageMessage)))
    else
      var subscribers := Subscribers(storage.value, MessageTypesOf(g, FullTypes(g, m, env.body)));
      ServiceSendAllRun(g, subscribers, env, senderFault)
  }

  /** As on the message bus, publishing to nobody throws and the sender is never called. */
  lemma ServicePublishWithoutSubscribersThrows(g: TypeGraph, m: Mapper, st: Storage, env: Envelope, senderFault: string -> ExcRef)
    requires forall t :: t in FullTypes(g, m, env.body) ==> ListOf(st, MessageType(TypeName(g, t))) == []
    ensures var r := ServicePublishRun(g, m, Some(st), env, senderFault);
      r.events == [] && r.thrown == Some(InvalidOperationException(NoDestinationsMessage(g, env.body)))
  {
    var ts := MessageTypesOf(g, FullTypes(g, m, env.body));
    forall i | 0 <= i < |ts| ensures ListOf(st, ts[i]) == [] {
      assert FullTypes(g, m, env.body)[i] in FullTypes(g, m, env.body);
    }
    SubscribersNone(st, ts);
  }

  /**
   * When the sender throws for nobody, every subscriber of a type of the closure is
   * handed the published envelope, and the publish returns normally.
   */
  lemma ServicePublishReachesSubscribers(g: TypeGraph, m: Mapper, st: Storage, env: Envelope, senderFault: string -> ExcRef,
                                         d: string, t: TypeId)
    requires d != "" && t in FullTypes(g, m, env.body) && d in ListOf(st, MessageType(TypeName(g, t)))
    requires forall k :: k in st ==> "" !in st[k]
    requires forall x :: senderFault(x).None?
    ensures var r := ServicePublishRun(g, m, Some(st), env, senderFault);
      r.thrown.None? && SenderSend(env, d) in r.events
  {
    var ts := MessageTypesOf(g, FullTypes(g, m, env.body));
    var i :| 0 <= i < |FullTypes(g, m, env.body)| && FullTypes(g, m, env.body)[i] == t;
    SubscribersHas(st, ts, d);
    SubscribersHas(st, ts, "");
    forall j | 0 <= j < |ts| ensures "" !in ListOf(st, ts[j]) {
    }
    var ss := Subscribers(st, ts);
    SenderRunFacts(env, ss, senderFault);
    SenderRunThrowsIff(env, ss, senderFault);
    var k :| 0 <= k < |ss| && ss[k] == d;
    assert SenderRun(env, ss, senderFault).events[k] == SenderSend(env, d);
  }

  /**
   * GetDestinationServiceForMessage of UnicastServiceBus: an unmapped type has no
   * destination; a mapped non-interface type that the mapper sends elsewhere is
   * routed as that other type, and otherwise by its own entry.
   */
  function ServiceDestination(g: TypeGraph, m: Mapper, lookup: map<TypeId, string>, t: TypeId): (r: Option<string>)
    requires MapperWellFormed(g, m)
    ensures t !in lookup ==> r.None?
    ensures r.Some? ==> r.value in lookup.Values
    decreases if IsInterface(g, t) then 0 else 1
  {
    if t !in lookup then None
    else if !IsInterface(g, t) then
      var mt := GetMappedTypeFor(g, m, t);
      if mt.Some? && mt.value != t then ServiceDestination(g, m, lookup, mt.value) else Some(lookup[t])
    else Some(lookup[t])
  }

  /**
   * The two buses agree on a mapped type the mapper leaves where it is; an unmapped
   * type never has a destination here, and a mapped class the mapper sends to an
   * interface takes the interface's entry, or none.
   */
  lemma DestinationsCompared(g: TypeGraph, m: Mapper, lookup: map<TypeId, string>, t: TypeId)
    requires MapperWellFormed(g, m)
    ensures var mt := GetMappedTypeFor(g, m, t);
      t in lookup && (IsInterface(g, t) || mt.None? || mt.value == t) ==>
        ServiceDestination(g, m, lookup, t) == Destination(g, m, lookup, t) == Some(lookup[t])
    ensures var mt := GetMappedTypeFor(g, m, t);
      t in lookup && !IsInterface(g, t) && mt.Some? && mt.value != t ==>
        ServiceDestination(g, m, lookup, t) == (if mt.value in lookup then Some(lookup[mt.value]) else None) &&
        Destination(g, m, lookup, t) == Some(lookup[t])
    ensures t !in lookup ==> ServiceDestination(g, m, lookup, t).None?
  {
    var mt := GetMappedTypeFor(g, m, t);
    if t in lookup && !IsInterface(g, t) && mt.Some? && mt.value != t {
      assert IsInterface(g, mt.value);
    }
  }

  /** A class C implementing an interface I, and a mapper that generated C for I. */
  function SampleGraph(): TypeGraph {
    TypeGraph(map[1 := TypeInfo("C", true, false, false, None, [2], None, [], [], {2}),
                  2 := TypeInfo("I", false, true, false, None, [], None, [], [], {})],
              0, 3, 4, 5)
  }

  function SampleMapper(): Mapper {
    Mapper(_ => true, map[1 := 2], map[2 := 1])
  }

  /**
   * The lookup rules differ in two ways, both in the message bus's favour: a class
   * with its own entry but none for its interface is routed by the message bus and
   * not by the service bus, and so is a class with no entry but one for its
   * interface. The tables are the message bus's, which MapMessageTypeToAddress fills;
   * the service bus's own table stays empty.
   */
  lemma DestinationsDiffer()
    ensures MapperWellFormed(SampleGraph(), SampleMapper())
    ensures Destination(SampleGraph(), SampleMapper(), map[1 := "queue"], 1) == Some("queue")
    ensures ServiceDestination(SampleGraph(), SampleMapper(), map[1 := "queue"], 1) == None
    ensures Destination(SampleGraph(), SampleMapper(), map[2 := "queue"], 1) == Some("queue")
    ensures ServiceDestination(SampleGraph(), SampleMapper(), map[2 := "queue"], 1) == None
  {
    var g, m := SampleGraph(), SampleMapper();
    assert IsClass(g, 1) && !IsInterface(g, 1) && IsInterface(g, 2);
    assert GetMappedTypeFor(g, m, 1) == Some(2);
  }

  /** The foreach of SendMessage over the destinations, the sender's exceptions given by destination. */
  method Deliver(env: Envelope, destinations: seq<string>, senderFault: string -> ExcRef)
    returns (events: seq<ServiceEvent>, thrown: ExcRef)
    ensures ServiceRun(events, thrown) == SenderRun(env, destinations, senderFault)
  {
    events := [];
    var i := 0;
    while i < |destinations|
      invariant 0 <= i <= |destinations|
      invariant SenderRun(env, destinations[..i], senderFault) == ServiceRun(events, None)
    {
      assert destinations[..i + 1][..i] == destinations[..i];
      var d := destinations[i];
      events := events + [SenderSend(env, d)];
      var fault := senderFault(d);
      if fault.Some? {
        SenderRunStopsAfterPrefix(env, destinations, senderFault, i + 1);
        return events, fault;
      }
      i := i + 1;
    }
    assert destinations[..i] == destinations;
    return events, None;
  }

  class UnicastServiceBus {
    const graph: TypeGraph
    const mapper: Mapper
    const subscriptionStorage: InMemorySubscriptionStorage?
    /** Thread.CurrentPrincipal.Identity.Name. */
    const identity: string
    /** messageTypeToDestinationLookup: created empty, and nothing in the class adds to it. */
    const lookup: map<TypeId, string>
    var trace: seq<ServiceEvent>

    predicate Valid()
    {
      MapperWellFormed(graph, mapper) && lookup == map[]
    }

    constructor (g: TypeGraph, m: Mapper, storage: InMemorySubscriptionStorage?, identity: string)
      ensures graph == g && mapper == m && subscriptionStorage == storage
      ensures this.identity == identity && lookup == map[] && trace == []
      ensures MapperWellFormed(g, m) ==> Valid()
    {
      graph := g;
      mapper := m;
      subscriptionStorage := storage;
      this.identity := identity;
      lookup := map[];
      trace := [];
    }

    function StorageState(): Option<Storage>
      reads subscriptionStorage
    {
      if subscriptionStorage == null then None else Some(subscriptionStorage.storage)
    }

    function GetDestinationServiceForMessage(messageType: TypeId): (r: Option<string>)
      requires Valid()
      ensures r.None?
    {
      ServiceDestination(graph, mapper, lookup, messageType)
    }

    /** GetFullTypes: the same loops as the message bus's, over this bus's mapper. */
    method GetFullTypes(messages: seq<Message>) returns (types: seq<TypeId>)
      ensures types == FullTypes(graph, mapper, messages)
    {
      types := Unicast.GetFullTypes(graph, mapper, messages);
    }

    /** MapTransportMessageFor: the body, the sender's identity, a new empty header list and the largest time to be received. */
    method MapTransportMessageFor(messages: array<Message>, toSend: TransportMessage)
      modifies toSend
      ensures toSend.body == messages && toSend.messages == Some(messages[..])
      ensures toSend.windowsIdentityName == identity && toSend.timeToBeReceived == MaxTimeSpan
      ensures toSend.headers == Some([])
      ensures toSend.correlationId == old(toSend.correlationId) && toSend.messageIntent == old(toSend.messageIntent)
    {
      var _ := toSend.SetBody(messages);
      toSend.windowsIdentityName := identity;
      toSend.headers := Some([]);
      toSend.SetTimeToBeReceived(MaxTimeSpan);
    }

    /** SendMessage to a destination list, messages present. */
    method SendMessageToAll(destinations: seq<string>, correlationId: Option<string>, intent: Intent,
                            messages: array<Message>, senderFault: string -> ExcRef) returns (thrown: ExcRef)
      modifies this
      ensures var r := ServiceSendAllRun(graph, destinations,
                         Outgoing(correlationId, intent, messages[..], identity, map[]), senderFault);
        trace == old(trace) + r.events && thrown == r.thrown
    {
      if |destinations| == 0 || "" in destinations {
        return Some(InvalidOperationException(NoDestinationsMessage(graph, messages[..])));
      }
      var toSend := new TransportMessage();
      toSend.correlationId := correlationId;
      toSend.messageIntent := intent;
      MapTransportMessageFor(messages, toSend);
      // The empty header list, recorded by its contents.
      var env := Envelope(toSend.correlationId, toSend.messageIntent, toSend.body[..], toSend.windowsIdentityName,
                          map[], toSend.timeToBeReceived);
      var events;
      events, thrown := Deliver(env, destinations, senderFault);
      trace := trace + events;
    }

    /** SendMessage to one destination. */
    method SendMessage(destination: string, correlationId: Option<string>, intent: Intent,
                       messages: array?<Message>, senderFault: string -> ExcRef) returns (thrown: ExcRef)
      modifies this
      ensures var r := ServiceSendOneRun(graph, destination,
                         Outgoing(correlationId, intent, if messages == null then [] else messages[..], identity, map[]),
                         senderFault);
        trace == old(trace) + r.events && thrown == r.thrown
    {
      if messages == null || messages.Length == 0 {
        return Some(InvalidOperationException(EmptySetMessage));
      }
      if destination == "" {
        return Some(InvalidOperationException(NoDestinationFor(graph, messages[0])));
      }
      thrown := SendMessageToAll([destination], correlationId, intent, messages, senderFault);
    }

    /** Publish: `created` is what CreateInstance makes when there are no messages. */
    method Publish(messages: array?<Message>, created: Message, senderFault: string -> ExcRef) returns (thrown: ExcRef)
      modifies this
      ensures var body := if messages == null || messages.Length == 0 then [created] else messages[..];
        var r := ServicePublishRun(graph, mapper, StorageState(), Outgoing(None, Intent.Publish, body, identity, map[]),
                                   senderFault);
        trace == old(trace) + r.events && thrown == r.thrown
    {
      if subscriptionStorage == null {
        return Some(InvalidOperationException(NoStorageMessage));
      }
      if messages == null || messages.Length == 0 {
        var one := new Message[1](_ => created);
        assert one[..] == [created];
        thrown := PublishBody(one, senderFault);
      } else {
        thrown := PublishBody(messages, senderFault);
      }
    }

    /** Publish of messages that are there, with a storage. */
    method PublishBody(messages: array<Message>, senderFault: string -> ExcRef) returns (thrown: ExcRef)
      requires subscriptionStorage != null
      modifies this
      ensures var r := ServicePublishRun(graph, mapper, StorageState(),
                         Outgoing(None, Intent.Publish, messages[..], identity, map[]), senderFault);
        trace == old(trace) + r.events && thrown == r.thrown
    {
      var fullTypes := GetFullTypes(messages[..]);
      var subscribers := subscriptionStorage.GetSubscriberServicesForMessage(MessageTypesOf(graph, fullTypes));
      thrown := SendMessageToAll(subscribers, None, Intent.Publish, messages, senderFault);
    }

    /**
     * IServiceBus.Send(messages): routed by the first message's type. The lookup is always
     * empty, so no destination is found and SendMessage rejects every call before sending.
     */
    method Send(messages: array?<Message>, senderFault: string -> ExcRef) returns (thrown: ExcRef)
      requires Valid()
      modifies this
      ensures trace == old(trace) && thrown.Some?
      ensures messages == null ==> thrown == Some(ArgumentNullException("source"))
      ensures messages != null ==> thrown.value.kind == InvalidOperation
      ensures messages != null ==>
        var destination := if messages.Length == 0 then "" else
          OrElse(GetDestinationServiceForMessage(messages[0].typeId), "");
        var r := ServiceSendOneRun(graph, destination, Outgoing(None, Intent.Send, messages[..], identity, map[]),
                                   senderFault);
        trace == old(trace) + r.events && thrown == r.thrown
    {
      if messages == null {
        return Some(ArgumentNullException("source"));
      }
      var destination := "";
      if messages.Length > 0 {
        destination := OrElse(GetDestinationServiceForMessage(messages[0].typeId), "");
      }
      ServiceSendValidation(graph, destination, Outgoing(None, Intent.Send, messages[..], identity, map[]), senderFault);
      thrown := SendMessage(destination, None, Intent.Send, messages, senderFault);
    }

    /** IServiceBus.Send(destinationService, messages). */
    method SendTo(destinationService: string, messages: array?<Message>, senderFault: string -> ExcRef) returns (thrown: ExcRef)
      modifies this
      ensures var r := ServiceSendOneRun(graph, destinationService,
                         Outgoing(None, Intent.Send, if messages == null then [] else messages[..], identity, map[]),
                         senderFault);
        trace == old(trace) + r.events && thrown == r.thrown
    {
      thrown := SendMessage(destinationService, None, Intent.Send, messages, senderFault);
    }

    /** IServiceBus.Send(destinationService, correlationId, messages): the Guid's text is the CorrelationId. */
    method SendCorrelated(destinationService: string, correlationId: Guid, messages: array?<Message>,
                          senderFault: string -> ExcRef) returns (thrown: ExcRef)
      modifies this
      ensures var r := ServiceSendOneRun(graph, destinationService,
                         Outgoing(Some(correlationId.text), Intent.Send, if messages == null then [] else messages[..],
                                  identity, map[]), senderFault);
        trace == old(trace) + r.events && thrown == r.thrown
    {
      thrown := SendMessage(destinationService, Some(correlationId.text), Intent.Send, messages, senderFault);
    }

    /** Subscribe(publishingService, messageType) has an empty body: nothing is sent or stored. */
    method Subscribe(publishingService: string, messageType: TypeId) returns (thrown: ExcRef)
      ensures thrown.None?
    {
      return None;
    }

    /** Unsubscribe, like the conditional Subscribe overloads, is not implemented. */
    method Unsubscribe(publishingService: string, messageType: TypeId) returns (thrown: ExcRef)
      ensures thrown == Some(NotImplementedException())
    {
      return Some(NotImplementedException());
    }
  }
}
