/**
 * The per-message decision procedure the transactional, SQL Server and Service
 * Broker transports share, as values: what happens once a message is in hand
 * (ProcessMessage) and what Process's catch and finally blocks make of the result.
 * Each transport's own module supplies the receive step and the events of its
 * max-retries path.
 */
module Processing {
  import opened Wrappers
  import opened Exceptions
  import opened Envelopes
  import opened Failures

  /** A record of the SQL Server queue table: what Send inserts and a receive reads. */
  datatype Row = Row(
    id: string,
    correlationId: string,
    replyToAddress: string,
    intent: Intent,
    headers: string,
    body: string)

  /** What a transport does that others can observe. */
  datatype TEvent =
    | WaitPermit                                  // transactionWaitPool.WaitOne()
    | ReleasePermit                               // transactionWaitPool.Release(1)
    | StartedProcessing(messageId: string, idForCorrelation: string) // StartedMessageProcessing raised
    | MessageReceived(messageId: string)          // TransportMessageReceived raised
    | FinishedProcessing                          // FinishedMessageProcessing raised
    | FailedProcessing(original: ExcRef)          // FailedMessageProcessing raised
    | AlwaysFails(messageId: string, last: ExcRef)                 // fault manager: ProcessingAlwaysFailsForMessage
    | SerializationFailed(handle: string, error: Exception)        // fault manager: SerializationFailedForMessage
    | PoisonWritten(queue: string, row: Row, errorText: Option<string>) // an error-table record
    | MessageFault(messageId: string, fault: ExcRef, reason: string) // MessageFault raised
    | Inserted(destination: string, row: Row)     // a queue-table insert
    | ConversationSent(destination: string, payload: string) // a Service Broker SendOne
    | ConversationEnded(handle: string)           // a Service Broker EndConversation

  /**
   * What the subscribers of a transport's events do when it raises them for one
   * message: the exception each throws (None: it returns), and whether one of them
   * calls AbortHandlingCurrentMessage while the message is being handled.
   */
  datatype Subscribers = Subscribers(
    started: ExcRef,
    received: ExcRef,
    abortRequested: bool,
    finished: ExcRef,
    failed: ExcRef)

  /** Events raised so far, what was thrown, and the failure dictionaries afterwards. */
  datatype Step = Step(events: seq<TEvent>, thrown: ExcRef, counts: Counts)

  /**
   * What ProcessMessage throws after dispatching a message below the ceiling: an
   * abort request first, then the handling exception, then the module exception.
   */
  function AfterDispatch(s: Subscribers): (r: ExcRef)
    ensures r.None? <==> !s.abortRequested && s.received.None? && s.finished.None?
    ensures s.abortRequested ==> r == Some(AbortException)
    ensures !s.abortRequested && s.received.Some? ==> r == s.received
    ensures !s.abortRequested && s.received.None? ==> r == s.finished
  {
    if s.abortRequested then Some(AbortException)
    else if s.received.Some? then s.received
    else s.finished
  }

  /**
   * ProcessMessage of a message with ids `id` and `correlation`: StartedMessageProcessing is raised, then
   * HandledMaxRetries is asked. At the ceiling the transport's `ceiling` events follow,
   * FinishedMessageProcessing is raised with its exception ignored, and nothing is
   * thrown. Otherwise the started exception is rethrown, or the message is dispatched.
   */
  function ProcessMessageRun(id: string, correlation: string, c: Counts, maxRetries: int, s: Subscribers, ceiling: seq<TEvent>): (r: Step)
    requires Consistent(c)
    ensures Consistent(r.counts)
  {
    var t := TakeAtCeiling(c, id, maxRetries);
    if t.atCeiling then Step([StartedProcessing(id, correlation)] + ceiling + [FinishedProcessing], None, t.rest)
    else if s.started.Some? then Step([StartedProcessing(id, correlation)], s.started, c)
    else Step([StartedProcessing(id, correlation), MessageReceived(id), FinishedProcessing], AfterDispatch(s), c)
  }

  /**
   * The max-retries check comes before the started exception is rethrown: a message at
   * the ceiling is never dispatched, nothing is thrown, and its entries are removed.
   */
  lemma CeilingSkipsDispatch(id: string, correlation: string, c: Counts, maxRetries: int, s: Subscribers, ceiling: seq<TEvent>)
    requires Consistent(c) && AtCeiling(c, id, maxRetries)
    requires MessageReceived(id) !in ceiling
    ensures var r := ProcessMessageRun(id, correlation, c, maxRetries, s, ceiling);
      r.thrown.None? && MessageReceived(id) !in r.events && r.counts == Clear(c, id) &&
      r.events == [StartedProcessing(id, correlation)] + ceiling + [FinishedProcessing]
  {
  }

  /**
   * Below the ceiling the message is dispatched exactly when no started subscriber
   * threw, and what is thrown is the started exception or AfterDispatch's choice; the
   * dictionaries are left as they were.
   */
  lemma BelowCeilingDispatches(id: string, correlation: string, c: Counts, maxRetries: int, s: Subscribers, ceiling: seq<TEvent>)
    requires Consistent(c) && !AtCeiling(c, id, maxRetries)
    ensures var r := ProcessMessageRun(id, correlation, c, maxRetries, s, ceiling);
      r.counts == c &&
      (MessageReceived(id) in r.events <==> s.started.None?) &&
      (s.started.Some? ==> r.thrown == s.started) &&
      (s.started.None? ==> r.thrown == AfterDispatch(s))
  {
  }

  /** ProcessMessage releases no permit unless the transport's ceiling events do. */
  lemma ProcessMessageReleasesNothing(id: string, correlation: string, c: Counts, maxRetries: int, s: Subscribers, ceiling: seq<TEvent>)
    requires Consistent(c) && Releases(ceiling) == 0
    ensures Releases(ProcessMessageRun(id, correlation, c, maxRetries, s, ceiling).events) == 0
  {
    var r := ProcessMessageRun(id, correlation, c, maxRetries, s, ceiling);
    if TakeAtCeiling(c, id, maxRetries).atCeiling {
      assert multiset(r.events) == multiset([StartedProcessing(id, correlation)]) + multiset(ceiling) + multiset([FinishedProcessing]);
    }
  }

  /**
   * Besides the transport's ceiling events, ProcessMessage raises only the started,
   * received and finished events.
   */
  lemma ProcessMessageRunEvents(id: string, correlation: string, c: Counts, maxRetries: int, s: Subscribers, ceiling: seq<TEvent>)
    requires Consistent(c)
    ensures forall x :: x in ProcessMessageRun(id, correlation, c, maxRetries, s, ceiling).events ==>
      x in ceiling || x == StartedProcessing(id, correlation) || x == MessageReceived(id) || x == FinishedProcessing
  {
  }

  /**
   * The decision does not depend on what a transport does at the ceiling: what is
   * thrown and the dictionaries afterwards are the same whatever the ceiling events.
   */
  lemma DecisionIgnoresCeilingEvents(id: string, correlation: string, c: Counts, maxRetries: int, s: Subscribers,
                                     ceiling: seq<TEvent>, other: seq<TEvent>)
    requires Consistent(c) && MessageReceived(id) !in ceiling && MessageReceived(id) !in other
    ensures var r := ProcessMessageRun(id, correlation, c, maxRetries, s, ceiling);
      var q := ProcessMessageRun(id, correlation, c, maxRetries, s, other);
      r.thrown == q.thrown && r.counts == q.counts && (MessageReceived(id) in r.events <==> MessageReceived(id) in q.events)
  {
  }

  /**
   * The callback's work inside Process, as the catch blocks see it: events, the
   * exception that reached Process, the messageId field at that point, whether the
   * receive step released the permit, and the dictionaries.
   */
  datatype Attempt = Attempt(events: seq<TEvent>, thrown: ExcRef, messageId: string, released: bool, counts: Counts)

  datatype Outcome = Outcome(events: seq<TEvent>, counts: Counts)

  /** Every event of `a` that is a permit release. */
  function Releases(events: seq<TEvent>): nat {
    multiset(events)[ReleasePermit]
  }

  /**
   * Process around an attempt: the permit is taken first; success clears the
   * message's failures; an abort leaves them alone; any other exception is unwrapped
   * from TransportMessageHandlingFailedException, counted against the message and
   * reported to FailedMessageProcessing; the permit is released unless the receive
   * step already did.
   */
  function Settle(a: Attempt): (r: Outcome)
    requires Consistent(a.counts)
    ensures Consistent(r.counts)
  {
    var settled :=
      if a.thrown.None? then Outcome(a.events, Clear(a.counts, a.messageId))
      else if a.thrown.value.kind == AbortHandling then Outcome(a.events, a.counts)
      else Outcome(a.events + [FailedProcessing(OriginalOf(a.thrown.value))],
                   Increment(a.counts, a.messageId, OriginalOf(a.thrown.value)));
    Outcome([WaitPermit] + settled.events + (if a.released then [] else [ReleasePermit]), settled.counts)
  }

  /**
   * Process's three outcomes for the failure dictionaries: cleared on success,
   * untouched on abort, incremented with the original exception otherwise.
   */
  lemma SettleCounts(a: Attempt)
    requires Consistent(a.counts)
    ensures a.thrown.None? ==> Settle(a).counts == Clear(a.counts, a.messageId)
    ensures a.thrown.Some? && a.thrown.value.kind == AbortHandling ==> Settle(a).counts == a.counts
    ensures a.thrown.Some? && a.thrown.value.kind != AbortHandling ==>
      var original := OriginalOf(a.thrown.value);
      Settle(a).counts == Increment(a.counts, a.messageId, original) &&
      Settle(a).events == [WaitPermit] + a.events + [FailedProcessing(original)] + (if a.released then [] else [ReleasePermit])
    ensures a.thrown.None? || a.thrown.value.kind == AbortHandling ==>
      Settle(a).events == [WaitPermit] + a.events + (if a.released then [] else [ReleasePermit])
  {
  }

  /**
   * The admission permit is taken once and released exactly once per Process,
   * whether the receive step ran, released it itself, or never started.
   */
  lemma PermitReleasedOnce(a: Attempt)
    requires Consistent(a.counts)
    requires Releases(a.events) == if a.released then 1 else 0
    ensures Settle(a).events[0] == WaitPermit
    ensures Releases(Settle(a).events) == 1
  {
    var r := Settle(a);
    var failed := if a.thrown.None? || a.thrown.value.kind == AbortHandling then []
                  else [FailedProcessing(OriginalOf(a.thrown.value))];
    assert r.events == [WaitPermit] + a.events + failed + (if a.released then [] else [ReleasePermit]);
  }

  /**
   * The catch blocks of ReceiveMessages, the helper that processes messages as if they
   * had come off the bus: an abort returns quietly; any other exception is reported
   * to FailedMessageProcessing, unwrapped from TransportMessageHandlingFailedException,
   * and the exception itself is rethrown.
   */
  function Rethrow(events: seq<TEvent>, thrown: ExcRef): (r: (seq<TEvent>, ExcRef))
    ensures thrown.None? || thrown.value.kind == AbortHandling ==> r == (events, None)
    ensures thrown.Some? && thrown.value.kind != AbortHandling ==>
      r == (events + [FailedProcessing(OriginalOf(thrown.value))], thrown)
  {
    if thrown.None? || thrown.value.kind == AbortHandling then (events, None)
    else (events + [FailedProcessing(OriginalOf(thrown.value))], thrown)
  }
}
