/**
 * InProcTransport: a transport with no queue. Messages reach it only through
 * ReceiveMessages, which raises the transport events in a fixed order and rethrows
 * what the subscribers threw; every other member is a fixed no-op or throws
 * NotSupportedException. Start and ChangeNumberOfWorkerThreads have no frame at all,
 * so they change nothing.
 */
module InProc {
  import opened Wrappers
  import opened Exceptions
  import opened TypeGraphs
  import opened Envelopes
  import opened Processing

  /**
   * What the handling subscriber throws in this transport: AbortHandlingCurrentMessage
   * throws NotSupportedException into a subscriber that calls it, and that exception
   * leaves the subscriber.
   */
  function InProcHandling(s: Subscribers): ExcRef {
    if s.abortRequested then Some(NotSupportedException()) else s.received
  }

  /**
   * ReceiveMessages: StartedMessageProcessing, TransportMessageReceived and
   * FinishedMessageProcessing are raised in that order; the started exception is
   * dropped; the handling exception is thrown in preference to the module exception;
   * an abort returns quietly and anything else is reported to FailedMessageProcessing,
   * unwrapped, and rethrown. A null array or header sequence throws before any event.
   */
  function InProcRun(messagesPresent: bool, headersPresent: bool, id: string, correlation: string, s: Subscribers): (r: (seq<TEvent>, ExcRef))
  {
    if !messagesPresent then Rethrow([], Some(ArgumentNullException("collection")))
    else if !headersPresent then Rethrow([], Some(ArgumentNullException("source")))
    else
      var handling := InProcHandling(s);
      Rethrow([StartedProcessing(id, correlation), MessageReceived(id), FinishedProcessing],
              if handling.Some? then handling else s.finished)
  }

  /** What a started subscriber throws changes nothing. */
  lemma StartedExceptionIgnored(messagesPresent: bool, headersPresent: bool, id: string, correlation: string, s: Subscribers)
    ensures InProcRun(messagesPresent, headersPresent, id, correlation, s) ==
      InProcRun(messagesPresent, headersPresent, id, correlation, s.(started := None))
  {
  }

  /**
   * With both inputs present the three events come first and in order; a handling
   * exception is rethrown in preference to a module exception and reported
   * unwrapped; with no exception nothing is thrown or reported.
   */
  lemma InProcOutcomes(id: string, correlation: string, s: Subscribers)
    ensures var r := InProcRun(true, true, id, correlation, s);
      |r.0| >= 3 && r.0[..3] == [StartedProcessing(id, correlation), MessageReceived(id), FinishedProcessing]
    ensures var r := InProcRun(true, true, id, correlation, s);
      !s.abortRequested && s.received.Some? && s.received.value.kind != AbortHandling ==>
        r.1 == s.received && r.0[3..] == [FailedProcessing(OriginalOf(s.received.value))]
    ensures var r := InProcRun(true, true, id, correlation, s);
      !s.abortRequested && s.received.None? && s.finished.Some? && s.finished.value.kind != AbortHandling ==>
        r.1 == s.finished && r.0[3..] == [FailedProcessing(OriginalOf(s.finished.value))]
    ensures var r := InProcRun(true, true, id, correlation, s);
      !s.abortRequested && s.received.None? && s.finished.None? ==> r.1.None? && |r.0| == 3
  {
  }

  /**
   * An abort exception from a subscriber is swallowed: ReceiveMessages returns
   * normally and reports nothing. A subscriber that asks to abort instead gets
   * NotSupportedException, which is reported and rethrown.
   */
  lemma InProcAbort(id: string, correlation: string, s: Subscribers)
    ensures var r := InProcRun(true, true, id, correlation, s);
      !s.abortRequested && s.received.Some? && s.received.value.kind == AbortHandling ==>
        r == ([StartedProcessing(id, correlation), MessageReceived(id), FinishedProcessing], None)
    ensures var r := InProcRun(true, true, id, correlation, s);
      s.abortRequested ==> r.1 == Some(NotSupportedException()) && FailedProcessing(r.1) in r.0
  {
    if s.abortRequested {
      var r := InProcRun(true, true, id, correlation, s);
      assert r.0[3] == FailedProcessing(r.1);
    }
  }

  /** Null inputs are rejected with ArgumentNullException, reported, before any transport event. */
  lemma InProcRejectsNull(messagesPresent: bool, headersPresent: bool, id: string, correlation: string, s: Subscribers)
    requires !(messagesPresent && headersPresent)
    ensures var r := InProcRun(messagesPresent, headersPresent, id, correlation, s);
      r.1.Some? && r.1.value.kind == ArgumentNull && r.0 == [FailedProcessing(r.1)]
  {
  }

  class InProcTransport {
    var trace: seq<TEvent>

    constructor ()
      ensures trace == []
    {
      trace := [];
    }

    method Start()
    {
    }

    method ChangeNumberOfWorkerThreads(targetNumberOfWorkerThreads: int)
    {
    }

    /** NumberOfWorkerThreads: this transport has no workers. */
    function NumberOfWorkerThreads(): (n: int)
      ensures n == 0
    {
      0
    }

    method AbortHandlingCurrentMessage() returns (thrown: ExcRef)
      ensures thrown == Some(NotSupportedException())
    {
      return Some(NotSupportedException());
    }

    /** Send: this transport sends nothing; the envelope is not touched. */
    method Send(m: TransportMessage, destinations: seq<string>) returns (thrown: ExcRef)
      ensures thrown == Some(NotSupportedException())
    {
      return Some(NotSupportedException());
    }

    /** ReceiveMessages, under the fresh ids and time the caller supplies. */
    method ReceiveMessages(messages: array?<Message>, headers: Option<seq<HeaderInfo>>, id: string, correlation: string,
                           now: int, s: Subscribers) returns (thrown: ExcRef)
      modifies this
      ensures var r := InProcRun(messages != null, headers.Some?, id, correlation, s);
        trace == old(trace) + r.0 && thrown == r.1
    {
      var m, built := InjectedMessage(messages, headers, id, correlation, now);
      var inner: ExcRef;
      if built.Some? {
        inner := built;
      } else {
        trace := trace + [StartedProcessing(m.id, m.idForCorrelation)];
        var ignored := s.started;
        trace := trace + [MessageReceived(m.id)];
        var fromHandling := s.received;
        if s.abortRequested {
          fromHandling := AbortHandlingCurrentMessage();
        }
        trace := trace + [FinishedProcessing];
        var fromModules := s.finished;
        if fromHandling.Some? {
          inner := fromHandling;
        } else {
          inner := fromModules;
        }
      }
      ghost var before := trace;
      if inner.None? || inner.value.kind == AbortHandling {
        return None;
      }
      trace := trace + [FailedProcessing(OriginalOf(inner.value))];
      assert trace == old(trace) + (before[|old(trace)|..] + [FailedProcessing(OriginalOf(inner.value))]);
      return inner;
    }
  }
}
