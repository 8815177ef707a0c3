/**
 * The failure bookkeeping the transactional, SQL Server and Service Broker transports
 * share: failuresPerMessage counts the failed attempts per message id and
 * exceptionsForMessages keeps the last exception (possibly null) of each.
 */
module Failures {
  import opened Wrappers
  import opened Exceptions

  /** The two dictionaries as one value. */
  datatype Counts = Counts(failures: map<string, int>, exceptions: map<string, ExcRef>)

  const NoFailures: Counts := Counts(map[], map[])

  /** Both dictionaries have the same keys and every stored count is at least one. */
  predicate Consistent(c: Counts) {
    c.failures.Keys == c.exceptions.Keys && forall id :: id in c.failures ==> c.failures[id] >= 1
  }

  /** The number of recorded failures of a message id; an absent id has none. */
  function FailureCount(c: Counts, id: string): nat
    requires Consistent(c)
  {
    if id in c.failures then c.failures[id] else 0
  }

  /** IncrementFailuresForMessage: one more failure of `id`, and `e` as its last exception. */
  function Increment(c: Counts, id: string, e: ExcRef): (r: Counts)
    requires Consistent(c)
    ensures Consistent(r)
    ensures FailureCount(r, id) == FailureCount(c, id) + 1 && r.exceptions[id] == e
    ensures forall other :: other != id ==> FailureCount(r, other) == FailureCount(c, other)
    ensures forall other :: other != id && other in c.exceptions ==> other in r.exceptions && r.exceptions[other] == c.exceptions[other]
  {
    var n := if id !in c.failures then 1 else c.failures[id] + 1;
    Counts(c.failures[id := n], c.exceptions[id := e])
  }

  /** ClearFailuresForMessage: forgets `id` in both dictionaries. */
  function Clear(c: Counts, id: string): (r: Counts)
    requires Consistent(c)
    ensures Consistent(r)
    ensures id !in r.failures && id !in r.exceptions
    ensures forall other :: other != id ==> FailureCount(r, other) == FailureCount(c, other)
    ensures forall other :: other != id && other in c.exceptions ==> other in r.exceptions && r.exceptions[other] == c.exceptions[other]
    ensures id !in c.failures ==> r == c
  {
    if id in c.failures then Counts(c.failures - {id}, c.exceptions - {id}) else c
  }

  /** The test HandledMaxRetries makes: the id is recorded with at least maxRetries failures. */
  predicate AtCeiling(c: Counts, id: string, maxRetries: int) {
    id in c.failures && c.failures[id] >= maxRetries
  }

  /** What HandledMaxRetries decides, returns and leaves behind. */
  datatype Take = Take(atCeiling: bool, last: ExcRef, rest: Counts)

  function TakeAtCeiling(c: Counts, id: string, maxRetries: int): (t: Take)
    requires Consistent(c)
    ensures Consistent(t.rest)
    ensures t.atCeiling <==> id in c.failures && FailureCount(c, id) >= maxRetries
    ensures t.atCeiling ==> t.last == c.exceptions[id] && t.rest == Clear(c, id)
    ensures !t.atCeiling ==> t.last == None && t.rest == c
  {
    if AtCeiling(c, id, maxRetries) then Take(true, c.exceptions[id], Clear(c, id))
    else Take(false, None, c)
  }

  /** Failing once with each exception of `es`, in order. */
  function IncrementAll(c: Counts, id: string, es: seq<ExcRef>): (r: Counts)
    requires Consistent(c)
    ensures Consistent(r)
    decreases |es|
  {
    if es == [] then c else Increment(IncrementAll(c, id, es[..|es| - 1]), id, es[|es| - 1])
  }

  /**
   * Retry-ceiling arithmetic: starting from a cleared id, k failed attempts leave a
   * count of k, the last exception stored, the other ids untouched, and the message
   * at the ceiling exactly when k is at least one and at least maxRetries.
   */
  lemma {:induction false} FailuresReachCeiling(c: Counts, id: string, es: seq<ExcRef>, maxRetries: int)
    requires Consistent(c)
    ensures FailureCount(IncrementAll(Clear(c, id), id, es), id) == |es|
    ensures es != [] ==> IncrementAll(Clear(c, id), id, es).exceptions[id] == es[|es| - 1]
    ensures forall other :: other != id ==> FailureCount(IncrementAll(Clear(c, id), id, es), other) == FailureCount(c, other)
    ensures TakeAtCeiling(IncrementAll(Clear(c, id), id, es), id, maxRetries).atCeiling <==> |es| >= 1 && |es| >= maxRetries
    decreases |es|
  {
    if es != [] {
      FailuresReachCeiling(c, id, es[..|es| - 1], maxRetries);
    }
  }

  /** The two dictionaries as TransactionalTransport and its siblings hold them. */
  class FailureCounter {
    var failuresPerMessage: map<string, int>
    var exceptionsForMessages: map<string, ExcRef>

    function Snapshot(): Counts
      reads this
    {
      Counts(failuresPerMessage, exceptionsForMessages)
    }

    predicate Valid()
      reads this
    {
      Consistent(Snapshot())
    }

    constructor ()
      ensures Valid() && Snapshot() == NoFailures
    {
      failuresPerMessage := map[];
      exceptionsForMessages := map[];
    }

    method IncrementFailuresForMessage(messageId: string, e: ExcRef)
      requires Valid()
      modifies this
      ensures Valid() && Snapshot() == Increment(old(Snapshot()), messageId, e)
    {
      if messageId !in failuresPerMessage {
        failuresPerMessage := failuresPerMessage[messageId := 1];
      } else {
        failuresPerMessage := failuresPerMessage[messageId := failuresPerMessage[messageId] + 1];
      }
      exceptionsForMessages := exceptionsForMessages[messageId := e];
    }

    method ClearFailuresForMessage(messageId: string)
      requires Valid()
      modifies this
      ensures Valid() && Snapshot() == Clear(old(Snapshot()), messageId)
    {
      if messageId in failuresPerMessage {
        failuresPerMessage := failuresPerMessage - {messageId};
        exceptionsForMessages := exceptionsForMessages - {messageId};
      }
    }

    /**
     * The dictionary half of HandledMaxRetries: at the ceiling, hands back the last
     * exception and removes both entries; otherwise changes nothing.
     */
    method TakeIfAtCeiling(messageId: string, maxRetries: int) returns (atCeiling: bool, last: ExcRef)
      requires Valid()
      modifies this
      ensures Valid()
      ensures Take(atCeiling, last, Snapshot()) == TakeAtCeiling(old(Snapshot()), messageId, maxRetries)
    {
      if messageId in failuresPerMessage && failuresPerMessage[messageId] >= maxRetries {
        last := exceptionsForMessages[messageId];
        failuresPerMessage := failuresPerMessage - {messageId};
        exceptionsForMessages := exceptionsForMessages - {messageId};
        return true, last;
      }
      return false, None;
    }
  }
}
