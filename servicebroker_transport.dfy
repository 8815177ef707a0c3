/**
 * ServiceBrokerTransport: one worker's Process step over SQL Server Service Broker,
 * with the received message, the transaction wrapper, the deserializer and the broker
 * calls as inputs, the thread-static flags as fields and the admission semaphore as a
 * permit count; and Send, which hands the serialized envelope to one conversation per
 * destination.
 */
module ServiceBroker {
  import opened Wrappers
  import opened Exceptions
  import opened Envelopes
  import opened Failures
  import opened Processing
  import opened Workers
  import opened TypeGraphs
  import Transactional
  import BrokerTransactions

  /** The Service Broker message type of a bus envelope. */
  const TransportMessageType: string := "NServiceBusTransportMessage"
  const TransportMessageContract: string := "NServiceBusTransportMessageContract"

  /** A message as WaitAndReceive returns it: its conversation, its type name and its body. */
  datatype BrokerMessage = BrokerMessage(conversationHandle: string, messageTypeName: string, body: string)

  /** What WaitAndReceive does: times out with null, returns a message, or throws. */
  datatype BrokerReceive = NoMessage | Received(message: BrokerMessage) | ReceiveFailed(error: Exception)

  /** The two ids of a deserialized envelope, the only part of it the transport reads. */
  datatype EnvelopeIds = EnvelopeIds(id: string, idForCorrelation: string)

  /** TransportMessageSerializer.Deserialize over a message body. */
  type Deserializer = string -> Result<EnvelopeIds, Exception>

  /** The id a received envelope is processed under: its own, or the conversation handle when it has none. */
  function MessageIdOf(ids: EnvelopeIds, handle: string): string {
    if ids.id == "" then handle else ids.id
  }

  /** The correlation id: the envelope's own, or the message id when it has none. */
  function CorrelationOf(ids: EnvelopeIds, handle: string): string {
    if ids.idForCorrelation == "" then MessageIdOf(ids, handle) else ids.idForCorrelation
  }

  /** At the ceiling the fault manager, when there is one, gets the last exception; its own exceptions are swallowed. */
  function CeilingEvents(c: Counts, id: string, maxRetries: int, hasFailureManager: bool): seq<TEvent>
    requires Consistent(c)
  {
    if hasFailureManager then [AlwaysFails(id, TakeAtCeiling(c, id, maxRetries).last)] else []
  }

  /**
   * The try/finally of ReceiveMessage around a received message: only bus envelopes
   * are looked at; one that does not deserialize goes to the fault manager and is
   * consumed without an exception; the others are processed under their ids with the
   * defaults filled in; the conversation is ended in every case.
   */
  function HandleAttempt(c: Counts, maxRetries: int, hasFailureManager: bool, msg: BrokerMessage,
                         deserialize: Deserializer, s: Subscribers): (a: Attempt)
    requires Consistent(c)
    ensures Consistent(a.counts)
  {
    var h := msg.conversationHandle;
    if msg.messageTypeName != TransportMessageType then Attempt([ConversationEnded(h)], None, "", true, c)
    else match deserialize(msg.body)
      case Failure(e) =>
        Attempt((if hasFailureManager then [SerializationFailed(h, e)] else []) + [ConversationEnded(h)], None, "", true, c)
      case Success(ids) =>
        var id := MessageIdOf(ids, h);
        var r := ProcessMessageRun(id, CorrelationOf(ids, h), c, maxRetries, s, CeilingEvents(c, id, maxRetries, hasFailureManager));
        Attempt(r.events + [ConversationEnded(h)], r.thrown, id, true, r.counts)
  }

  /**
   * ReceiveMessage: the permit is released in the finally block of the receive, so
   * before anything else happens; a receive error is rethrown to roll back; no
   * message is fine.
   */
  function BrokerReceiveAttempt(c: Counts, maxRetries: int, hasFailureManager: bool, rcv: BrokerReceive,
                                deserialize: Deserializer, s: Subscribers): (a: Attempt)
    requires Consistent(c)
    ensures Consistent(a.counts)
  {
    match rcv
      case ReceiveFailed(e) => Attempt([ReleasePermit], Some(e), "", true, c)
      case NoMessage => Attempt([ReleasePermit], None, "", true, c)
      case Received(msg) =>
        var a := HandleAttempt(c, maxRetries, hasFailureManager, msg, deserialize, s);
        a.(events := [ReleasePermit] + a.events)
  }

  /** The callback Process runs in the transaction; a wrapper that throws first never receives. */
  function BrokerAttempt(c: Counts, maxRetries: int, hasFailureManager: bool, wrapperFault: ExcRef, rcv: BrokerReceive,
                         deserialize: Deserializer, s: Subscribers): (a: Attempt)
    requires Consistent(c)
    ensures Consistent(a.counts)
  {
    if wrapperFault.Some? then Attempt([], wrapperFault, "", false, c)
    else BrokerReceiveAttempt(c, maxRetries, hasFailureManager, rcv, deserialize, s)
  }

  /** One Process call. */
  function BrokerProcessRun(c: Counts, maxRetries: int, hasFailureManager: bool, wrapperFault: ExcRef, rcv: BrokerReceive,
                            deserialize: Deserializer, s: Subscribers): (r: Outcome)
    requires Consistent(c)
    ensures Consistent(r.counts)
  {
    Settle(BrokerAttempt(c, maxRetries, hasFailureManager, wrapperFault, rcv, deserialize, s))
  }

  /**
   * A handled message ends its conversation last and only there, releases no permit,
   * and is passed to TransportMessageReceived only when it is a bus envelope that
   * deserializes.
   */
  lemma HandleAttemptEvents(c: Counts, maxRetries: int, hasFailureManager: bool, msg: BrokerMessage,
                            deserialize: Deserializer, s: Subscribers)
    requires Consistent(c)
    ensures var a := HandleAttempt(c, maxRetries, hasFailureManager, msg, deserialize, s);
      var end := ConversationEnded(msg.conversationHandle);
      |a.events| >= 1 && a.events == a.events[..|a.events| - 1] + [end] &&
      end !in a.events[..|a.events| - 1] && ReleasePermit !in a.events
    ensures forall x :: MessageReceived(x) in HandleAttempt(c, maxRetries, hasFailureManager, msg, deserialize, s).events ==>
      msg.messageTypeName == TransportMessageType && deserialize(msg.body).Success?
  {
    var h := msg.conversationHandle;
    var a := HandleAttempt(c, maxRetries, hasFailureManager, msg, deserialize, s);
    var front: seq<TEvent>;
    if msg.messageTypeName == TransportMessageType && deserialize(msg.body).Success? {
      var ids := deserialize(msg.body).value;
      var id := MessageIdOf(ids, h);
      var ceiling := CeilingEvents(c, id, maxRetries, hasFailureManager);
      front := ProcessMessageRun(id, CorrelationOf(ids, h), c, maxRetries, s, ceiling).events;
      ProcessMessageRunEvents(id, CorrelationOf(ids, h), c, maxRetries, s, ceiling);
    } else if msg.messageTypeName == TransportMessageType {
      front := if hasFailureManager then [SerializationFailed(h, deserialize(msg.body).error)] else [];
    } else {
      front := [];
    }
    assert a.events == front + [ConversationEnded(h)];
    assert a.events[..|a.events| - 1] == front;
  }

  /**
   * The permit is taken once and released exactly once per Process, whether the
   * wrapper failed, the receive failed, nothing arrived or a message was handled.
   */
  lemma BrokerPermitReleasedOnce(c: Counts, maxRetries: int, hasFailureManager: bool, wrapperFault: ExcRef, rcv: BrokerReceive,
                                 deserialize: Deserializer, s: Subscribers)
    requires Consistent(c)
    ensures var r := BrokerProcessRun(c, maxRetries, hasFailureManager, wrapperFault, rcv, deserialize, s);
      r.events[0] == WaitPermit && Releases(r.events) == 1
  {
    var a := BrokerAttempt(c, maxRetries, hasFailureManager, wrapperFault, rcv, deserialize, s);
    if wrapperFault.None? && rcv.Received? {
      var h := HandleAttempt(c, maxRetries, hasFailureManager, rcv.message, deserialize, s);
      HandleAttemptEvents(c, maxRetries, hasFailureManager, rcv.message, deserialize, s);
      assert a.events == [ReleasePermit] + h.events;
      assert multiset(a.events)[ReleasePermit] == 1;
    }
    PermitReleasedOnce(a);
  }

  /**
   * A received message always has its conversation ended, exactly once and last,
   * whatever the outcome of processing it; without a message no conversation is ended.
   */
  lemma ConversationEndedOnce(c: Counts, maxRetries: int, hasFailureManager: bool, rcv: BrokerReceive,
                              deserialize: Deserializer, s: Subscribers)
    requires Consistent(c)
    ensures var a := BrokerAttempt(c, maxRetries, hasFailureManager, None, rcv, deserialize, s);
      rcv.Received? ==> (a.events[|a.events| - 1] == ConversationEnded(rcv.message.conversationHandle) &&
        multiset(a.events)[ConversationEnded(rcv.message.conversationHandle)] == 1)
    ensures var a := BrokerAttempt(c, maxRetries, hasFailureManager, None, rcv, deserialize, s);
      !rcv.Received? ==> forall x :: x in a.events ==> !x.ConversationEnded?
  {
    if rcv.Received? {
      var end := ConversationEnded(rcv.message.conversationHandle);
      var h := HandleAttempt(c, maxRetries, hasFailureManager, rcv.message, deserialize, s);
      HandleAttemptEvents(c, maxRetries, hasFailureManager, rcv.message, deserialize, s);
      var front := h.events[..|h.events| - 1];
      var a := BrokerAttempt(c, maxRetries, hasFailureManager, None, rcv, deserialize, s);
      assert a.events == [ReleasePermit] + front + [end];
      assert multiset(a.events) == multiset([ReleasePermit]) + multiset(front) + multiset([end]);
    }
  }
  /**
   * Process runs the receive as the callback of a top-level RunInTransaction, so the
   * conversation a received message ends stays ended only when the attempt throws
   * nothing: when it throws, the RECEIVE and the END CONVERSATION are rolled back
   * together and the message stays in the queue.
   */
  lemma ConversationEndCommitsOnlyOnSuccess(c: Counts, maxRetries: int, hasFailureManager: bool, rcv: BrokerReceive,
                                            deserialize: Deserializer, s: Subscribers)
    requires Consistent(c) && rcv.Received?
    ensures var a := BrokerAttempt(c, maxRetries, hasFailureManager, None, rcv, deserialize, s);
      var r := BrokerTransactions.RunBroker(BrokerTransactions.NothingHeld, BrokerTransactions.BrokerCall([], a.thrown));
      ConversationEnded(rcv.message.conversationHandle) in a.events
      && r.thrown == a.thrown
      && (BrokerTransactions.Committed(1) in r.events <==> a.thrown.None?)
      && (BrokerTransactions.RolledBack(1) in r.events <==> a.thrown.Some?)
  {
    ConversationEndedOnce(c, maxRetries, hasFailureManager, rcv, deserialize, s);
    BrokerTransactions.LeafCallOutcome(BrokerAttempt(c, maxRetries, hasFailureManager, None, rcv, deserialize, s).thrown);
  }


  /** A message of any type other than a bus envelope is consumed with nothing but the end of its conversation. */
  lemma OtherMessagesOnlyEndConversation(c: Counts, maxRetries: int, hasFailureManager: bool, msg: BrokerMessage,
                                         deserialize: Deserializer, s: Subscribers)
    requires Consistent(c)
    requires msg.messageTypeName != TransportMessageType
    ensures BrokerAttempt(c, maxRetries, hasFailureManager, None, Received(msg), deserialize, s) ==
      Attempt([ReleasePermit, ConversationEnded(msg.conversationHandle)], None, "", true, c)
  {
  }

  /** The events of a received message are those of its handling, behind the released permit. */
  lemma ReceivedEventsAreHandled(c: Counts, maxRetries: int, hasFailureManager: bool, msg: BrokerMessage,
                                 deserialize: Deserializer, s: Subscribers)
    requires Consistent(c)
    ensures BrokerAttempt(c, maxRetries, hasFailureManager, None, Received(msg), deserialize, s).events ==
      [ReleasePermit] + HandleAttempt(c, maxRetries, hasFailureManager, msg, deserialize, s).events
  {
  }

  /** Only bus envelopes are dispatched: a message reaches TransportMessageReceived only when it is an envelope that deserializes. */
  lemma OnlyTransportMessagesDispatched(c: Counts, maxRetries: int, hasFailureManager: bool, msg: BrokerMessage,
                                        deserialize: Deserializer, s: Subscribers, x: string)
    requires Consistent(c)
    requires MessageReceived(x) in BrokerAttempt(c, maxRetries, hasFailureManager, None, Received(msg), deserialize, s).events
    ensures msg.messageTypeName == TransportMessageType && deserialize(msg.body).Success?
  {
    var handled := HandleAttempt(c, maxRetries, hasFailureManager, msg, deserialize, s).events;
    ReceivedEventsAreHandled(c, maxRetries, hasFailureManager, msg, deserialize, s);
    assert MessageReceived(x) in handled;
    HandleAttemptEvents(c, maxRetries, hasFailureManager, msg, deserialize, s);
  }

  /**
   * A deserialized envelope is processed under its own id or, lacking one, the
   * conversation handle, and its correlation id defaults to that id; the message id
   * the catch blocks count against is the same id.
   */
  lemma IdsDefaulted(c: Counts, maxRetries: int, hasFailureManager: bool, msg: BrokerMessage,
                     deserialize: Deserializer, s: Subscribers)
    requires Consistent(c)
    requires msg.messageTypeName == TransportMessageType && deserialize(msg.body).Success?
    ensures var ids := deserialize(msg.body).value;
      var a := BrokerAttempt(c, maxRetries, hasFailureManager, None, Received(msg), deserialize, s);
      var id := if ids.id == "" then msg.conversationHandle else ids.id;
      |a.events| >= 2 && a.messageId == id &&
      a.events[1] == StartedProcessing(id, if ids.idForCorrelation == "" then id else ids.idForCorrelation)
  {
  }

  /**
   * A body that does not deserialize is handed to the fault manager, when there is
   * one, and consumed: nothing is thrown, nothing is dispatched and the failure
   * dictionaries are not touched for any real message id.
   */
  lemma SerializationFailureSwallowed(c: Counts, maxRetries: int, hasFailureManager: bool, msg: BrokerMessage,
                                      deserialize: Deserializer, s: Subscribers)
    requires Consistent(c)
    requires msg.messageTypeName == TransportMessageType && deserialize(msg.body).Failure?
    ensures var a := BrokerAttempt(c, maxRetries, hasFailureManager, None, Received(msg), deserialize, s);
      a.thrown.None? && a.counts == c && a.messageId == "" &&
      (SerializationFailed(msg.conversationHandle, deserialize(msg.body).error) in a.events <==> hasFailureManager) &&
      (forall x :: x in a.events ==> !x.MessageReceived? && !x.StartedProcessing?)
    ensures BrokerProcessRun(c, maxRetries, hasFailureManager, None, Received(msg), deserialize, s).counts == Clear(c, "")
  {
  }

  /**
   * At the retry ceiling the fault manager, when there is one, gets the last
   * exception, the message's entries are removed, nothing is thrown and the message
   * is not dispatched, even when a started subscriber threw.
   */
  lemma BrokerCeiling(c: Counts, maxRetries: int, hasFailureManager: bool, msg: BrokerMessage,
                      deserialize: Deserializer, s: Subscribers)
    requires Consistent(c)
    requires msg.messageTypeName == TransportMessageType && deserialize(msg.body).Success?
    requires AtCeiling(c, MessageIdOf(deserialize(msg.body).value, msg.conversationHandle), maxRetries)
    ensures var id := MessageIdOf(deserialize(msg.body).value, msg.conversationHandle);
      var a := BrokerAttempt(c, maxRetries, hasFailureManager, None, Received(msg), deserialize, s);
      a.thrown.None? && a.counts == Clear(c, id) && MessageReceived(id) !in a.events &&
      (AlwaysFails(id, c.exceptions[id]) in a.events <==> hasFailureManager)
  {
    var ids := deserialize(msg.body).value;
    var id := MessageIdOf(ids, msg.conversationHandle);
    var ceiling := CeilingEvents(c, id, maxRetries, hasFailureManager);
    CeilingSkipsDispatch(id, CorrelationOf(ids, msg.conversationHandle), c, maxRetries, s, ceiling);
  }

  /**
   * The same decision as the generic transactional transport: for an envelope that
   * deserializes, what is thrown, the id it is counted against and the failure
   * dictionaries after Process are those of TransactionalTransport receiving a
   * message with the same ids.
   */
  lemma SameDecisionAsTransactional(c: Counts, maxRetries: int, hasFailureManager: bool, msg: BrokerMessage,
                                    deserialize: Deserializer, s: Subscribers)
    requires Consistent(c)
    requires msg.messageTypeName == TransportMessageType && deserialize(msg.body).Success?
    ensures var ids := deserialize(msg.body).value;
      var d := Transactional.Delivered(MessageIdOf(ids, msg.conversationHandle), CorrelationOf(ids, msg.conversationHandle));
      var a := BrokerAttempt(c, maxRetries, hasFailureManager, None, Received(msg), deserialize, s);
      var t := Transactional.ReceiveAttempt(c, maxRetries, None, d, s);
      a.thrown == t.thrown && a.messageId == t.messageId && a.counts == t.counts &&
      BrokerProcessRun(c, maxRetries, hasFailureManager, None, Received(msg), deserialize, s).counts ==
        Transactional.ProcessRun(c, maxRetries, None, d, s).counts
  {
    var ids := deserialize(msg.body).value;
    var id := MessageIdOf(ids, msg.conversationHandle);
    var t := TakeAtCeiling(c, id, maxRetries);
    DecisionIgnoresCeilingEvents(id, CorrelationOf(ids, msg.conversationHandle), c, maxRetries, s,
      CeilingEvents(c, id, maxRetries, hasFailureManager), [AlwaysFails(id, t.last)]);
  }

  /**
   * A receive error is rethrown: the transaction rolls back, the failure is counted
   * against the empty message id and reported to FailedMessageProcessing.
   */
  lemma ReceiveErrorRethrown(c: Counts, maxRetries: int, hasFailureManager: bool, e: Exception,
                             deserialize: Deserializer, s: Subscribers)
    requires Consistent(c) && e.kind != AbortHandling
    ensures var r := BrokerProcessRun(c, maxRetries, hasFailureManager, None, ReceiveFailed(e), deserialize, s);
      r.counts == Increment(c, "", OriginalOf(e)) &&
      r.events == [WaitPermit, ReleasePermit, FailedProcessing(OriginalOf(e))]
  {
  }

  // ---------------------------------------------------------------- Send

  /** What the serializer writes: the whole envelope. */
  datatype Wire = Wire(
    id: string,
    idForCorrelation: string,
    correlationId: Option<string>,
    returnAddress: Option<string>,
    intent: Intent,
    timeSent: int,
    headers: Option<seq<HeaderInfo>>,
    body: Option<seq<Message>>)

  function WireOf(m: TransportMessage): Wire
    reads m, m.body
  {
    Wire(m.id, m.idForCorrelation, m.correlationId, m.returnAddress, m.messageIntent, m.timeSent, m.headers,
      if m.body == null then None else Some(m.body[..]))
  }

  /**
   * The broker as one Send sees it: the exception SendOne throws for a destination
   * (None: it succeeds) and the conversation handle the i-th SendOne of the call opens.
   */
  datatype Broker = Broker(sendFault: string -> ExcRef, handle: nat -> string)

  /** How many destinations accept the message before the first SendOne that throws. */
  function Accepted(ds: seq<string>, broker: Broker): (k: nat)
    ensures k <= |ds|
  {
    if ds == [] then 0
    else if broker.sendFault(ds[0]).Some? then 0
    else Accepted(ds[1..], broker) + 1
  }

  lemma {:induction false} AcceptedFacts(ds: seq<string>, broker: Broker)
    ensures var k := Accepted(ds, broker);
      (forall j :: 0 <= j < k ==> broker.sendFault(ds[j]).None?) &&
      (k < |ds| ==> broker.sendFault(ds[k]).Some?)
  {
    if ds != [] && broker.sendFault(ds[0]).None? {
      AcceptedFacts(ds[1..], broker);
      assert forall j :: 1 <= j < |ds| ==> ds[j] == ds[1..][j - 1];
    }
  }

  /** One SendOne per destination, in order, all with the same payload. */
  function Sends(ds: seq<string>, payload: string): seq<TEvent> {
    if ds == [] then [] else Sends(ds[..|ds| - 1], payload) + [ConversationSent(ds[|ds| - 1], payload)]
  }

  lemma {:induction false} SendsAt(ds: seq<string>, payload: string)
    ensures var r := Sends(ds, payload);
      |r| == |ds| && forall j :: 0 <= j < |ds| ==> r[j] == ConversationSent(ds[j], payload)
  {
    if ds != [] {
      SendsAt(ds[..|ds| - 1], payload);
    }
  }

  /** The loop of Send: SendOne to each destination in turn, the envelope's Id overwritten with each new handle. */
  method SendEach(m: TransportMessage, destinations: seq<string>, payload: string, broker: Broker)
    returns (events: seq<TEvent>, thrown: ExcRef)
    modifies m
    ensures var k := Accepted(destinations, broker);
      events == Sends(destinations[..k], payload) &&
      thrown == (if k < |destinations| then broker.sendFault(destinations[k]) else None) &&
      m.id == (if k == 0 then old(m.id) else broker.handle(k - 1))
    ensures WireOf(m) == old(WireOf(m)).(id := m.id)
  {
    AcceptedFacts(destinations, broker);
    var k := Accepted(destinations, broker);
    events := [];
    var i := 0;
    while i < |destinations|
      invariant 0 <= i <= k
      invariant events == Sends(destinations[..i], payload)
      invariant m.id == (if i == 0 then old(m.id) else broker.handle(i - 1))
      invariant WireOf(m) == old(WireOf(m)).(id := m.id)
    {
      var fault := broker.sendFault(destinations[i]);
      if fault.Some? {
        return events, fault;
      }
      assert destinations[..i + 1][..i] == destinations[..i];
      events := events + [ConversationSent(destinations[i], payload)];
      m.id := broker.handle(i);
      i := i + 1;
    }
    assert destinations[..i] == destinations[..k];
    return events, None;
  }

  // ---------------------------------------------------------------- the transport object

  class ServiceBrokerTransport {
    var listenerQueue: string
    var returnAddress: string
    var maxRetries: int
    var numberOfWorkerThreads: int
    /** Whether a FailureManager is set. */
    var hasFailureManager: bool
    const failures: FailureCounter
    const pool: WorkerPool
    /** How many times CreateServiceAndQueue ran. */
    var serviceInits: nat
    var needToAbort: bool
    var messageId: string
    var releasedWaitLock: bool
    /** The free permits of transactionWaitPool, a Semaphore(1, 1). */
    var permits: int
    var trace: seq<TEvent>

    predicate Valid()
      reads this, failures
    {
      failures.Valid()
    }

    /** The configuration a worker reads and never changes. */
    function Config(): (string, string, int, bool)
      reads this
    {
      (listenerQueue, returnAddress, maxRetries, hasFailureManager)
    }

    constructor (listenerQueue: string, returnAddress: string, hasFailureManager: bool, initialNumberOfWorkThreads: int)
      ensures Valid() && fresh(failures) && fresh(pool)
      ensures Config() == (listenerQueue, returnAddress, 5, hasFailureManager)
      ensures numberOfWorkerThreads == initialNumberOfWorkThreads && permits == 1 && serviceInits == 0
      ensures failures.Snapshot() == NoFailures && pool.workers == [] && trace == []
    {
      this.listenerQueue := listenerQueue;
      this.returnAddress := returnAddress;
      this.hasFailureManager := hasFailureManager;
      maxRetries := 5;
      numberOfWorkerThreads := initialNumberOfWorkThreads;
      failures := new FailureCounter();
      pool := new WorkerPool();
      serviceInits := 0;
      needToAbort := false;
      messageId := "";
      releasedWaitLock := false;
      permits := 1;
      trace := [];
    }

    /**
     * Start: creates the service and queue in a transaction, then starts the
     * configured number of workers; a failing transaction propagates before any
     * worker starts.
     */
    method Start(wrapperFault: ExcRef) returns (thrown: ExcRef)
      modifies this, pool
      ensures wrapperFault.Some? ==> thrown == wrapperFault && serviceInits == old(serviceInits) && pool.workers == old(pool.workers)
      ensures wrapperFault.None? ==> (thrown.None? && serviceInits == old(serviceInits) + 1 &&
        |pool.workers| == |old(pool.workers)| + (if numberOfWorkerThreads < 0 then 0 else numberOfWorkerThreads) &&
        pool.workers[..|old(pool.workers)|] == old(pool.workers) &&
        forall i :: |old(pool.workers)| <= i < |pool.workers| ==> pool.workers[i] == Worker(false))
      ensures trace == old(trace) && Config() == old(Config())
    {
      if wrapperFault.Some? {
        return wrapperFault;
      }
      serviceInits := serviceInits + 1;
      pool.StartWorkers(numberOfWorkerThreads);
      return None;
    }

    method ChangeNumberOfWorkerThreads(target: int) returns (thrown: ExcRef)
      modifies pool
      ensures target < 0 ==> thrown.Some? && thrown.value.kind == ArgumentOutOfRange && pool.workers == old(pool.workers)
      ensures target >= 0 ==> (thrown.None? &&
        |pool.workers| == (if target > |old(pool.workers)| then target else |old(pool.workers)|))
      ensures target >= 0 ==> forall i :: 0 <= i < |old(pool.workers)| ==>
        pool.workers[i] == if i < target then old(pool.workers)[i] else Worker(true)
      ensures forall i :: |old(pool.workers)| <= i < |pool.workers| ==> pool.workers[i] == Worker(false)
    {
      thrown := pool.ChangeNumberOfWorkerThreads(target);
    }

    method AbortHandlingCurrentMessage()
      modifies this
      ensures needToAbort && trace == old(trace) && messageId == old(messageId)
      ensures releasedWaitLock == old(releasedWaitLock) && permits == old(permits) && Config() == old(Config())
    {
      needToAbort := true;
    }

    /** The finally block of the receive: the permit goes back and the flag records it. */
    method ReleasePermit()
      modifies this
      ensures trace == old(trace) + [TEvent.ReleasePermit] && permits == old(permits) + 1 && releasedWaitLock
      ensures needToAbort == old(needToAbort) && messageId == old(messageId) && Config() == old(Config())
    {
      permits := permits + 1;
      releasedWaitLock := true;
      trace := trace + [TEvent.ReleasePermit];
    }

    /** HandledMaxRetries: at the ceiling, hands back the last exception and removes both entries. */
    method HandledMaxRetries(id: string) returns (atCeiling: bool, last: ExcRef)
      requires Valid()
      modifies failures
      ensures Valid()
      ensures Take(atCeiling, last, failures.Snapshot()) == TakeAtCeiling(old(failures.Snapshot()), id, maxRetries)
    {
      atCeiling, last := failures.TakeIfAtCeiling(id, maxRetries);
    }

    /** ProcessMessage: the shared decision, with the fault manager told about a message at the ceiling. */
    method ProcessMessage(id: string, correlation: string, s: Subscribers) returns (thrown: ExcRef)
      requires Valid() && !needToAbort
      modifies this, failures
      ensures Valid()
      ensures var c := old(failures.Snapshot());
        var r := ProcessMessageRun(id, correlation, c, maxRetries, s, CeilingEvents(c, id, maxRetries, hasFailureManager));
        trace == old(trace) + r.events && thrown == r.thrown && failures.Snapshot() == r.counts
      ensures messageId == id && releasedWaitLock == old(releasedWaitLock) && permits == old(permits)
      ensures Config() == old(Config())
    {
      messageId := id;
      trace := trace + [StartedProcessing(id, correlation)];
      var fromStarted := s.started;
      var atCeiling, last := HandledMaxRetries(id);
      if atCeiling {
        if hasFailureManager {
          trace := trace + [AlwaysFails(id, last)];
        }
        trace := trace + [FinishedProcessing];
        return None;
      }
      if fromStarted.Some? {
        return fromStarted;
      }
      trace := trace + [MessageReceived(id)];
      if s.abortRequested {
        AbortHandlingCurrentMessage();
      }
      var fromHandling := s.received;
      trace := trace + [FinishedProcessing];
      var fromModules := s.finished;
      if needToAbort {
        return Some(AbortException);
      }
      if fromHandling.Some? {
        return fromHandling;
      }
      return fromModules;
    }

    /** OnSerializationFailed: the fault manager, when there is one, is told; its exceptions are swallowed. */
    method OnSerializationFailed(handle: string, e: Exception)
      modifies this
      ensures trace == old(trace) + (if hasFailureManager then [SerializationFailed(handle, e)] else [])
      ensures needToAbort == old(needToAbort) && messageId == old(messageId) && Config() == old(Config())
      ensures releasedWaitLock == old(releasedWaitLock) && permits == old(permits)
    {
      if hasFailureManager {
        trace := trace + [SerializationFailed(handle, e)];
      }
    }

    /** The try/finally of ReceiveMessage once a message is in hand. */
    method HandleMessage(msg: BrokerMessage, deserialize: Deserializer, s: Subscribers) returns (thrown: ExcRef)
      requires Valid() && !needToAbort && messageId == ""
      modifies this, failures
      ensures Valid()
      ensures var a := HandleAttempt(old(failures.Snapshot()), maxRetries, hasFailureManager, msg, deserialize, s);
        trace == old(trace) + a.events && thrown == a.thrown && failures.Snapshot() == a.counts && messageId == a.messageId
      ensures releasedWaitLock == old(releasedWaitLock) && permits == old(permits) && Config() == old(Config())
    {
      var handle := msg.conversationHandle;
      thrown := None;
      if msg.messageTypeName == TransportMessageType {
        var d := deserialize(msg.body);
        if d.Failure? {
          OnSerializationFailed(handle, d.error);
        } else {
          var id := d.value.id;
          if id == "" {
            id := handle;
          }
          var correlation := d.value.idForCorrelation;
          if correlation == "" {
            correlation := id;
          }
          thrown := ProcessMessage(id, correlation, s);
        }
      }
      trace := trace + [ConversationEnded(handle)];
    }

    /** ReceiveMessage: the callback Process runs inside the transaction. */
    method ReceiveMessage(rcv: BrokerReceive, deserialize: Deserializer, s: Subscribers) returns (thrown: ExcRef)
      requires Valid() && !needToAbort && messageId == ""
      modifies this, failures
      ensures Valid()
      ensures var a := BrokerReceiveAttempt(old(failures.Snapshot()), maxRetries, hasFailureManager, rcv, deserialize, s);
        trace == old(trace) + a.events && thrown == a.thrown && failures.Snapshot() == a.counts &&
        messageId == a.messageId && releasedWaitLock && permits == old(permits) + 1
      ensures Config() == old(Config())
    {
      ReleasePermit();
      if rcv.ReceiveFailed? {
        return Some(rcv.error);
      }
      if rcv.NoMessage? {
        return None;
      }
      thrown := HandleMessage(rcv.message, deserialize, s);
    }

    /** One worker iteration. */
    method Process(wrapperFault: ExcRef, rcv: BrokerReceive, deserialize: Deserializer, s: Subscribers)
      requires Valid()
      modifies this, failures
      ensures Valid()
      ensures var r := BrokerProcessRun(old(failures.Snapshot()), maxRetries, hasFailureManager, wrapperFault, rcv, deserialize, s);
        trace == old(trace) + r.events && failures.Snapshot() == r.counts
      ensures permits == old(permits) && Config() == old(Config())
    {
      ghost var c := failures.Snapshot();
      ghost var start := trace;
      releasedWaitLock := false;
      needToAbort := false;
      messageId := "";
      permits := permits - 1;
      trace := trace + [WaitPermit];
      var thrown: ExcRef;
      if wrapperFault.Some? {
        thrown := wrapperFault;
      } else {
        thrown := ReceiveMessage(rcv, deserialize, s);
      }
      ghost var a := BrokerAttempt(c, maxRetries, hasFailureManager, wrapperFault, rcv, deserialize, s);
      Conclude(thrown, a, start);
    }

    /** Process's catch blocks and finally block, for the attempt `a` that has run. */
    method Conclude(thrown: ExcRef, ghost a: Attempt, ghost start: seq<TEvent>)
      requires Valid() && Consistent(a.counts)
      requires trace == start + [WaitPermit] + a.events && thrown == a.thrown
      requires failures.Snapshot() == a.counts && messageId == a.messageId && releasedWaitLock == a.released
      modifies this, failures
      ensures Valid()
      ensures trace == start + Settle(a).events && failures.Snapshot() == Settle(a).counts
      ensures permits == old(permits) + (if a.released then 0 else 1) && Config() == old(Config())
    {
      SettleCounts(a);
      var tail: seq<TEvent> := [];
      if thrown.None? {
        failures.ClearFailuresForMessage(messageId);
      } else if thrown.value.kind != AbortHandling {
        var original := OriginalOf(thrown.value);
        failures.IncrementFailuresForMessage(messageId, original);
        tail := [FailedProcessing(original)];
      }
      if !releasedWaitLock {
        permits := permits + 1;
        tail := tail + [TEvent.ReleasePermit];
      }
      trace := trace + tail;
      assert trace == start + ([WaitPermit] + a.events + tail);
    }

    /**
     * Send: in a transaction, stamps the send time and this transport's return
     * address, serializes the envelope once, and sends that payload on a new
     * conversation to each destination in order; the envelope's Id is overwritten
     * with each conversation handle, so it ends as the last one, while every payload
     * carries the Id the envelope had before. The first SendOne that throws stops the
     * loop and its exception propagates.
     */
    method Send(m: TransportMessage, destinations: seq<string>, wrapperFault: ExcRef, now: int,
                serialize: Wire -> string, broker: Broker) returns (thrown: ExcRef)
      modifies this, m
      ensures wrapperFault.Some? ==> thrown == wrapperFault && trace == old(trace) && WireOf(m) == old(WireOf(m))
      ensures wrapperFault.None? ==>
        var k := Accepted(destinations, broker);
        var payload := serialize(old(WireOf(m)).(timeSent := now, returnAddress := Some(returnAddress)));
        trace == old(trace) + Sends(destinations[..k], payload) &&
        thrown == (if k < |destinations| then broker.sendFault(destinations[k]) else None) &&
        m.id == (if k == 0 then old(m.id) else broker.handle(k - 1)) &&
        WireOf(m) == old(WireOf(m)).(id := m.id, timeSent := now, returnAddress := Some(returnAddress))
      ensures Config() == old(Config()) && needToAbort == old(needToAbort) && messageId == old(messageId)
      ensures releasedWaitLock == old(releasedWaitLock) && permits == old(permits)
    {
      if wrapperFault.Some? {
        return wrapperFault;
      }
      m.timeSent := now;
      m.returnAddress := Some(returnAddress);
      var payload := serialize(WireOf(m));
      var events;
      events, thrown := SendEach(m, destinations, payload, broker);
      trace := trace + events;
    }
  }
}
