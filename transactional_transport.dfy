/**
 * TransactionalTransport: one worker's Process step over an abstract message
 * receiver, transaction wrapper and event subscribers, with the thread-static flags
 * as fields and the admission semaphore as a permit count.
 */
module Transactional {
  import opened Wrappers
  import opened Exceptions
  import opened Failures
  import opened Processing
  import opened Workers

  /** What IReceiveMessages.Receive does: returns a message (known by its Id), returns null, or throws. */
  datatype Delivery = Nothing | Delivered(messageId: string, idForCorrelation: string) | ReceiveFailed(error: Exception)

  /**
   * The callback Process runs in the transaction. A wrapper that throws before calling
   * back (`wrapperFault`) never receives. Receive turns a receiver exception into
   * null, so only a delivered message is processed; the fault manager is told about
   * a message at the ceiling, its own exceptions being swallowed.
   */
  function ReceiveAttempt(c: Counts, maxRetries: int, wrapperFault: ExcRef, d: Delivery, s: Subscribers): (a: Attempt)
    requires Consistent(c)
    ensures Consistent(a.counts)
  {
    if wrapperFault.Some? then Attempt([], wrapperFault, "", false, c)
    else if !d.Delivered? then Attempt([ReleasePermit], None, "", true, c)
    else
      var t := TakeAtCeiling(c, d.messageId, maxRetries);
      var r := ProcessMessageRun(d.messageId, d.idForCorrelation, c, maxRetries, s, [AlwaysFails(d.messageId, t.last)]);
      Attempt([ReleasePermit] + r.events, r.thrown, d.messageId, true, r.counts)
  }

  /** One Process call. */
  function ProcessRun(c: Counts, maxRetries: int, wrapperFault: ExcRef, d: Delivery, s: Subscribers): (r: Outcome)
    requires Consistent(c)
    ensures Consistent(r.counts)
  {
    Settle(ReceiveAttempt(c, maxRetries, wrapperFault, d, s))
  }

  lemma NoReleaseInProcessMessage(id: string, correlation: string, c: Counts, maxRetries: int, s: Subscribers, last: ExcRef)
    requires Consistent(c)
    ensures Releases(ProcessMessageRun(id, correlation, c, maxRetries, s, [AlwaysFails(id, last)]).events) == 0
  {
  }

  /**
   * Each Process call takes the admission permit first and releases it exactly once,
   * whether the wrapper failed before receiving, nothing arrived, or a message was
   * processed with any outcome.
   */
  lemma PermitReleasedOncePerProcess(c: Counts, maxRetries: int, wrapperFault: ExcRef, d: Delivery, s: Subscribers)
    requires Consistent(c)
    ensures var r := ProcessRun(c, maxRetries, wrapperFault, d, s);
      r.events[0] == WaitPermit && Releases(r.events) == 1
  {
    var a := ReceiveAttempt(c, maxRetries, wrapperFault, d, s);
    if wrapperFault.None? && d.Delivered? {
      var t := TakeAtCeiling(c, d.messageId, maxRetries);
      NoReleaseInProcessMessage(d.messageId, d.idForCorrelation, c, maxRetries, s, t.last);
    }
    PermitReleasedOnce(a);
  }

  /**
   * A receive that yields nothing, including one whose receiver threw, processes
   * nothing: no transport event is raised and only the empty message id is cleared.
   */
  lemma NothingReceivedProcessesNothing(c: Counts, maxRetries: int, d: Delivery, s: Subscribers)
    requires Consistent(c) && !d.Delivered?
    ensures ProcessRun(c, maxRetries, None, d, s) == Outcome([WaitPermit, ReleasePermit], Clear(c, ""))
  {
  }

  /**
   * A message that has failed maxRetries times is handed to the fault manager with its
   * last exception, is never passed to TransportMessageReceived, and leaves no
   * failure entries behind, even when a started subscriber threw.
   */
  lemma CeilingGoesToFaultManager(c: Counts, maxRetries: int, id: string, correlation: string, s: Subscribers)
    requires Consistent(c) && AtCeiling(c, id, maxRetries)
    ensures var r := ProcessRun(c, maxRetries, None, Delivered(id, correlation), s);
      r.events == [WaitPermit, ReleasePermit, StartedProcessing(id, correlation), AlwaysFails(id, c.exceptions[id]), FinishedProcessing] &&
      r.counts == Clear(c, id)
  {
  }

  /**
   * Below the ceiling: a started exception is rethrown and counted; otherwise an abort
   * request leaves the failures untouched, a handling exception is counted in
   * preference to a module exception, and a clean run clears the message's failures.
   */
  lemma DispatchOutcomes(c: Counts, maxRetries: int, id: string, correlation: string, s: Subscribers)
    requires Consistent(c) && !AtCeiling(c, id, maxRetries)
    ensures var r := ProcessRun(c, maxRetries, None, Delivered(id, correlation), s);
      (s.started.Some? && s.started.value.kind != AbortHandling ==>
        r.counts == Increment(c, id, OriginalOf(s.started.value)) && MessageReceived(id) !in r.events) &&
      (s.started.None? && s.abortRequested ==> r.counts == c) &&
      (s.started.None? && !s.abortRequested && s.received.Some? && s.received.value.kind != AbortHandling ==>
        r.counts == Increment(c, id, OriginalOf(s.received.value))) &&
      (s.started.None? && !s.abortRequested && s.received.None? && s.finished.Some? && s.finished.value.kind != AbortHandling ==>
        r.counts == Increment(c, id, OriginalOf(s.finished.value))) &&
      (s.started.None? && !s.abortRequested && s.received.None? && s.finished.None? ==>
        r.counts == Clear(c, id))
  {
    var a := ReceiveAttempt(c, maxRetries, None, Delivered(id, correlation), s);
    BelowCeilingDispatches(id, correlation, c, maxRetries, s, [AlwaysFails(id, None)]);
    SettleCounts(a);
  }

  class TransactionalTransport {
    var maxRetries: int
    /** The initial worker count; this transport has no way to change it before Start. */
    const numberOfWorkerThreads: int := 1
    const failures: FailureCounter
    const pool: WorkerPool
    var needToAbort: bool
    var messageId: string
    var releasedWaitLock: bool
    /** The free permits of transactionWaitPool, a Semaphore(1, 1). */
    var permits: int
    /** How many times MessageReceiver.Init was called. */
    var receiverInits: nat
    var trace: seq<TEvent>

    predicate Valid()
      reads this, failures
    {
      failures.Valid()
    }

    constructor ()
      ensures Valid() && fresh(failures) && fresh(pool)
      ensures maxRetries == 5 && numberOfWorkerThreads == 1 && permits == 1 && receiverInits == 0
      ensures failures.Snapshot() == NoFailures && pool.workers == [] && trace == []
    {
      maxRetries := 5;
      failures := new FailureCounter();
      pool := new WorkerPool();
      needToAbort := false;
      messageId := "";
      releasedWaitLock := false;
      permits := 1;
      receiverInits := 0;
      trace := [];
    }

    /** Start: initialises the receiver, then starts the configured number of workers. */
    method Start()
      modifies this, pool
      ensures receiverInits == old(receiverInits) + 1 && trace == old(trace)
      ensures pool.workers == old(pool.workers) + [Worker(false)]
    {
      receiverInits := receiverInits + 1;
      pool.StartWorkers(numberOfWorkerThreads);
      assert pool.workers == pool.workers[..|old(pool.workers)|] + [pool.workers[|old(pool.workers)|]];
    }

    method ChangeNumberOfWorkerThreads(target: int) returns (thrown: ExcRef)
      modifies pool
      ensures target < 0 ==> thrown.Some? && thrown.value.kind == ArgumentOutOfRange && pool.workers == old(pool.workers)
      ensures target >= 0 ==> (thrown.None? &&
        |pool.workers| == (if target > |old(pool.workers)| then target else |old(pool.workers)|))
      ensures target >= 0 ==> forall i :: 0 <= i < |old(pool.workers)| ==>
        pool.workers[i] == if i < target then old(pool.workers)[i] else Worker(true)
      ensures forall i :: |old(pool.workers)| <= i < |pool.workers| ==> pool.workers[i] == Worker(false)
    {
      thrown := pool.ChangeNumberOfWorkerThreads(target);
    }

    method AbortHandlingCurrentMessage()
      modifies this
      ensures needToAbort && trace == old(trace) && messageId == old(messageId)
      ensures releasedWaitLock == old(releasedWaitLock) && permits == old(permits) && maxRetries == old(maxRetries)
    {
      needToAbort := true;
    }

    /** Receive: the receiver's message or null; the permit is released in any case. */
    method Receive(d: Delivery) returns (m: Option<(string, string)>)
      modifies this
      ensures m == if d.Delivered? then Some((d.messageId, d.idForCorrelation)) else None
      ensures trace == old(trace) + [ReleasePermit] && permits == old(permits) + 1 && releasedWaitLock
      ensures needToAbort == old(needToAbort) && messageId == old(messageId) && maxRetries == old(maxRetries)
    {
      permits := permits + 1;
      releasedWaitLock := true;
      trace := trace + [ReleasePermit];
      if d.Delivered? {
        return Some((d.messageId, d.idForCorrelation));
      }
      return None;
    }

    /** HandledMaxRetries: at the ceiling, the fault manager gets the last exception. */
    method HandledMaxRetries(id: string) returns (atCeiling: bool)
      requires Valid()
      modifies this, failures
      ensures Valid()
      ensures var t := TakeAtCeiling(old(failures.Snapshot()), id, maxRetries);
        atCeiling == t.atCeiling && failures.Snapshot() == t.rest &&
        trace == old(trace) + (if t.atCeiling then [AlwaysFails(id, t.last)] else [])
      ensures needToAbort == old(needToAbort) && messageId == old(messageId)
      ensures releasedWaitLock == old(releasedWaitLock) && permits == old(permits) && maxRetries == old(maxRetries)
    {
      var last;
      atCeiling, last := failures.TakeIfAtCeiling(id, maxRetries);
      if atCeiling {
        trace := trace + [AlwaysFails(id, last)];
      }
    }

    method ProcessMessage(id: string, correlation: string, s: Subscribers) returns (thrown: ExcRef)
      requires Valid() && !needToAbort
      modifies this, failures
      ensures Valid()
      ensures var c := old(failures.Snapshot());
        var r := ProcessMessageRun(id, correlation, c, maxRetries, s, [AlwaysFails(id, TakeAtCeiling(c, id, maxRetries).last)]);
        trace == old(trace) + r.events && thrown == r.thrown && failures.Snapshot() == r.counts
      ensures messageId == id && releasedWaitLock == old(releasedWaitLock) && permits == old(permits)
      ensures maxRetries == old(maxRetries)
    {
      messageId := id;
      trace := trace + [StartedProcessing(id, correlation)];
      var fromStarted := s.started;
      var atCeiling := HandledMaxRetries(id);
      if atCeiling {
        trace := trace + [FinishedProcessing];
        return None;
      }
      if fromStarted.Some? {
        return fromStarted;
      }
      trace := trace + [MessageReceived(id)];
      if s.abortRequested {
        AbortHandlingCurrentMessage();
      }
      var fromHandling := s.received;
      trace := trace + [FinishedProcessing];
      var fromModules := s.finished;
      if needToAbort {
        return Some(AbortException);
      }
      if fromHandling.Some? {
        return fromHandling;
      }
      return fromModules;
    }

    /** ReceiveMessage: the callback Process runs inside the transaction. */
    method ReceiveMessage(d: Delivery, s: Subscribers) returns (thrown: ExcRef)
      requires Valid() && !needToAbort && messageId == ""
      modifies this, failures
      ensures Valid()
      ensures var a := ReceiveAttempt(old(failures.Snapshot()), maxRetries, None, d, s);
        trace == old(trace) + a.events && thrown == a.thrown && failures.Snapshot() == a.counts &&
        messageId == a.messageId && releasedWaitLock && permits == old(permits) + 1
      ensures maxRetries == old(maxRetries)
    {
      var m := Receive(d);
      if m.None? {
        return None;
      }
      thrown := ProcessMessage(m.value.0, m.value.1, s);
    }

    /** One worker iteration. */
    method Process(wrapperFault: ExcRef, d: Delivery, s: Subscribers)
      requires Valid()
      modifies this, failures
      ensures Valid()
      ensures var r := ProcessRun(old(failures.Snapshot()), maxRetries, wrapperFault, d, s);
        trace == old(trace) + r.events && failures.Snapshot() == r.counts
      ensures permits == old(permits) && maxRetries == old(maxRetries)
    {
      ghost var c := failures.Snapshot();
      ghost var start := trace;
      releasedWaitLock := false;
      needToAbort := false;
      messageId := "";
      permits := permits - 1;
      trace := trace + [WaitPermit];
      var thrown: ExcRef;
      if wrapperFault.Some? {
        thrown := wrapperFault;
      } else {
        thrown := ReceiveMessage(d, s);
      }
      ghost var a := ReceiveAttempt(c, maxRetries, wrapperFault, d, s);
      Conclude(thrown, a, start);
    }

    /** Process's catch blocks and finally block, for the attempt `a` that has run. */
    method Conclude(thrown: ExcRef, ghost a: Attempt, ghost start: seq<TEvent>)
      requires Valid() && Consistent(a.counts)
      requires trace == start + [WaitPermit] + a.events && thrown == a.thrown
      requires failures.Snapshot() == a.counts && messageId == a.messageId && releasedWaitLock == a.released
      modifies this, failures
      ensures Valid()
      ensures trace == start + Settle(a).events && failures.Snapshot() == Settle(a).counts
      ensures permits == old(permits) + (if a.released then 0 else 1) && maxRetries == old(maxRetries)
    {
      SettleCounts(a);
      var tail: seq<TEvent> := [];
      if thrown.None? {
        failures.ClearFailuresForMessage(messageId);
      } else if thrown.value.kind != AbortHandling {
        var original := OriginalOf(thrown.value);
        failures.IncrementFailuresForMessage(messageId, original);
        tail := [FailedProcessing(original)];
      }
      if !releasedWaitLock {
        permits := permits + 1;
        tail := tail + [ReleasePermit];
      }
      trace := trace + tail;
      assert trace == start + ([WaitPermit] + a.events + tail);
    }
  }
}
