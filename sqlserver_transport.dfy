/**
 * SqlServerTransport: a queue table per endpoint. The reader loop and its back-off,
 * the SQL text and the serializer are abstract; what is modelled is what the
 * transport does with a row once it has one, how it sends, and how it reports a
 * message that cannot be deserialized or keeps failing.
 */
module SqlServer {
  import opened Wrappers
  import opened Exceptions
  import opened Seqs
  import opened TypeGraphs
  import opened Envelopes
  import opened Failures
  import opened Processing
  import opened Workers
  import opened Text
  import SqlTransactions

  /** Environment.NewLine on the platform the transport targets. */
  const NewLine: string := "\r\n"

  // ---------------------------------------------------------------- ListenerQueue.Trim()

  // String.Trim is Text.Trim with Text.IsWhiteSpace.

  // ---------------------------------------------------------------- FormatErrorMessage

  /** One exception's block: its type, message and stack trace. */
  function Block(e: Exception): string {
    e.typeName + ": " + e.message + NewLine + e.stackTrace
  }

  /** The exception followed by its inner exceptions, outermost first. */
  function Chain(e: Exception): (r: seq<Exception>)
    ensures r != [] && r[0] == e && r[|r| - 1].inner.None?
  {
    [e] + if e.inner.Some? then Chain(e.inner.value) else []
  }

  /** FormatErrorMessage: an exception's block, then a blank line and its inner exception's format. */
  function FormatErrorMessage(e: Exception): string {
    var message := Block(e);
    if e.inner.Some? then message + NewLine + NewLine + FormatErrorMessage(e.inner.value) else message
  }

  function EndsWith(s: string, suffix: string): bool {
    |suffix| <= |s| && s[|s| - |suffix|..] == suffix
  }

  lemma EndsWithAppend(a: string, b: string)
    ensures EndsWith(a + b, b) && EndsWith(b, b)
  {
    assert (a + b)[|a + b| - |b|..] == b;
  }

  lemma EndsWithTrans(a: string, b: string, c: string)
    requires EndsWith(a, b) && EndsWith(b, c)
    ensures EndsWith(a, c)
  {
    assert a[|a| - |c|..] == a[|a| - |b|..][|b| - |c|..];
  }

  /** The format of an exception starts with the exception's own block. */
  lemma FormatStartsWithBlock(e: Exception)
    ensures Block(e) <= FormatErrorMessage(e)
  {
    if e.inner.Some? {
      var rest := NewLine + NewLine + FormatErrorMessage(e.inner.value);
      assert FormatErrorMessage(e) == Block(e) + rest;
    }
  }

  /**
   * The format of an exception ends with the format of every exception down its
   * inner-exception chain, so nothing of an inner exception is lost.
   */
  lemma {:induction false} FormatEndsWithChain(e: Exception)
    ensures forall k :: 0 <= k < |Chain(e)| ==> EndsWith(FormatErrorMessage(e), FormatErrorMessage(Chain(e)[k]))
    decreases e
  {
    var f := FormatErrorMessage(e);
    EndsWithAppend([], f);
    if e.inner.Some? {
      var i := e.inner.value;
      FormatEndsWithChain(i);
      var g := FormatErrorMessage(i);
      assert f == (Block(e) + NewLine + NewLine) + g;
      EndsWithAppend(Block(e) + NewLine + NewLine, g);
      forall k | 1 <= k < |Chain(e)|
        ensures EndsWith(f, FormatErrorMessage(Chain(e)[k]))
      {
        assert Chain(e)[k] == Chain(i)[k - 1];
        EndsWithTrans(f, g, FormatErrorMessage(Chain(i)[k - 1]));
      }
    }
  }

  /** In particular the format ends with the innermost exception's own block. */
  lemma FormatEndsWithInnermost(e: Exception)
    ensures EndsWith(FormatErrorMessage(e), Block(Chain(e)[|Chain(e)| - 1]))
  {
    FormatEndsWithChain(e);
    var last := Chain(e)[|Chain(e)| - 1];
    assert FormatErrorMessage(last) == Block(last);
  }

  // ---------------------------------------------------------------- SetExceptionHeaders

  /** The reasons MessageFault and the fault headers carry. */
  const ProcessingFailed: string := "ProcessingFailed"
  const SerializationFailedReason: string := "SerializationFailed"

  const ReasonKey := "CWServiceBus.ExceptionInfo.Reason"
  const ExceptionTypeKey := "CWServiceBus.ExceptionInfo.ExceptionType"
  const InnerExceptionTypeKey := "CWServiceBus.ExceptionInfo.InnerExceptionType"
  const HelpLinkKey := "CWServiceBus.ExceptionInfo.HelpLink"
  const MessageKey := "CWServiceBus.ExceptionInfo.Message"
  const SourceKey := "CWServiceBus.ExceptionInfo.Source"
  const StackTraceKey := "CWServiceBus.ExceptionInfo.StackTrace"
  const OriginalIdKey := "CWServiceBus.OriginalId"
  const FaultedAddressKey := "CWServiceBus.FaultedAddress"
  const FaultedQueueKey := "CWServiceBus.SqlServer.FaultedQueue"
  const TimeOfFailureKey := "CWServiceBus.TimeOfFailure"

  function Keys(hs: seq<HeaderInfo>): (r: seq<string>)
    ensures |r| == |hs| && forall i :: 0 <= i < |hs| ==> r[i] == hs[i].key
  {
    if hs == [] then [] else Keys(hs[..|hs| - 1]) + [hs[|hs| - 1].key]
  }

  /** The value of the first header with the key, as a lookup by key would find it. */
  function Lookup(hs: seq<HeaderInfo>, key: string): Option<string> {
    if hs == [] then None else if hs[0].key == key then Some(hs[0].value) else Lookup(hs[1..], key)
  }

  lemma {:induction false} LookupAt(hs: seq<HeaderInfo>, i: int)
    requires 0 <= i < |hs| && NoDup(Keys(hs))
    ensures Lookup(hs, hs[i].key) == Some(hs[i].value)
  {
    if i > 0 {
      assert Keys(hs)[0] != Keys(hs)[i];
      assert NoDup(Keys(hs[1..])) by {
        forall x, y | 0 <= x < y < |hs| - 1 ensures Keys(hs[1..])[x] != Keys(hs[1..])[y] {
          assert Keys(hs)[x + 1] != Keys(hs)[y + 1];
        }
      }
      LookupAt(hs[1..], i - 1);
    }
  }

  lemma {:induction false} LookupAbsent(hs: seq<HeaderInfo>, key: string)
    requires key !in Keys(hs)
    ensures Lookup(hs, key) == None
  {
    if hs != [] {
      assert Keys(hs)[0] == hs[0].key;
      assert key !in Keys(hs[1..]) by {
        forall x | 0 <= x < |hs| - 1 ensures Keys(hs[1..])[x] != key {
          assert Keys(hs[1..])[x] == Keys(hs)[x + 1];
        }
      }
      LookupAbsent(hs[1..], key);
    }
  }

  /** The headers SetExceptionHeaders appends for a non-null exception, in order. */
  function ExceptionHeaders(e: Exception, reason: string, originalId: string, queue: string, timeOfFailure: string): seq<HeaderInfo> {
    [HeaderInfo(ReasonKey, reason), HeaderInfo(ExceptionTypeKey, e.typeName)] +
    (if e.inner.Some? then [HeaderInfo(InnerExceptionTypeKey, e.inner.value.typeName)] else []) +
    [HeaderInfo(HelpLinkKey, e.helpLink), HeaderInfo(MessageKey, e.message), HeaderInfo(SourceKey, e.source),
     HeaderInfo(StackTraceKey, e.stackTrace), HeaderInfo(OriginalIdKey, originalId),
     HeaderInfo(FaultedAddressKey, queue), HeaderInfo(FaultedQueueKey, queue),
     HeaderInfo(TimeOfFailureKey, timeOfFailure)]
  }

  /** The eleven header keys, in the order SetExceptionHeaders appends them. */
  const AllFaultKeys: seq<string> := [ReasonKey, ExceptionTypeKey, InnerExceptionTypeKey, HelpLinkKey, MessageKey, SourceKey,
                                      StackTraceKey, OriginalIdKey, FaultedAddressKey, FaultedQueueKey, TimeOfFailureKey]

  lemma FaultKeyLengths()
    ensures |ReasonKey| == 33 && |ExceptionTypeKey| == 40 && |InnerExceptionTypeKey| == 45
    ensures |HelpLinkKey| == 35 && |MessageKey| == 34 && |SourceKey| == 33 && |StackTraceKey| == 37
    ensures |OriginalIdKey| == 23 && |FaultedAddressKey| == 27 && |FaultedQueueKey| == 35 && |TimeOfFailureKey| == 26
    ensures ReasonKey[32] == 'n' && SourceKey[32] == 'e' && HelpLinkKey[34] == 'k' && FaultedQueueKey[34] == 'e'
  {
  }

  /** A fault key's position in AllFaultKeys, told by its length and, where two keys share one, its last character. */
  function FaultKeyRank(key: string): int {
    match |key|
    case 33 => if key[32] == 'n' then 0 else 5
    case 40 => 1
    case 45 => 2
    case 35 => if key[34] == 'k' then 3 else 9
    case 34 => 4
    case 37 => 6
    case 23 => 7
    case 27 => 8
    case 26 => 10
    case _ => 11
  }

  lemma FaultKeysDistinct()
    ensures NoDup(AllFaultKeys) && NoDup(AllFaultKeys[..2] + AllFaultKeys[3..])
  {
    FaultKeyLengths();
    assert forall i :: 0 <= i < 11 ==> FaultKeyRank(AllFaultKeys[i]) == i;
    var without := AllFaultKeys[..2] + AllFaultKeys[3..];
    assert forall i :: 0 <= i < 10 ==> FaultKeyRank(without[i]) == if i < 2 then i else i + 1;
  }

  /**
   * The fault headers have the eleven keys in order, the inner exception's type only
   * when there is an inner exception, and no key twice.
   */
  lemma ExceptionHeaderKeys(e: Exception, reason: string, originalId: string, queue: string, timeOfFailure: string)
    ensures var r := ExceptionHeaders(e, reason, originalId, queue, timeOfFailure);
      Keys(r) == (if e.inner.Some? then AllFaultKeys else AllFaultKeys[..2] + AllFaultKeys[3..]) &&
      NoDup(Keys(r))
  {
    FaultKeysDistinct();
  }

  /**
   * Looked up by key, the fault headers give the reason, the exception's type, message
   * and stack trace, the inner exception's type only when there is one, the original
   * message id, the faulted queue under both address keys, and the time of failure.
   */
  lemma ExceptionHeaderValues(e: Exception, reason: string, originalId: string, queue: string, timeOfFailure: string)
    ensures var r := ExceptionHeaders(e, reason, originalId, queue, timeOfFailure);
      Lookup(r, ReasonKey) == Some(reason) && Lookup(r, ExceptionTypeKey) == Some(e.typeName) &&
      Lookup(r, InnerExceptionTypeKey) == (if e.inner.Some? then Some(e.inner.value.typeName) else None) &&
      Lookup(r, MessageKey) == Some(e.message) && Lookup(r, StackTraceKey) == Some(e.stackTrace) &&
      Lookup(r, OriginalIdKey) == Some(originalId) && Lookup(r, FaultedAddressKey) == Some(queue) &&
      Lookup(r, FaultedQueueKey) == Some(queue) && Lookup(r, TimeOfFailureKey) == Some(timeOfFailure)
  {
    if e.inner.Some? {
      ExceptionHeaderValuesWithInner(e, reason, originalId, queue, timeOfFailure);
    } else {
      ExceptionHeaderValuesWithoutInner(e, reason, originalId, queue, timeOfFailure);
    }
  }

  lemma ExceptionHeaderValuesWithInner(e: Exception, reason: string, originalId: string, queue: string, timeOfFailure: string)
    requires e.inner.Some?
    ensures var r := ExceptionHeaders(e, reason, originalId, queue, timeOfFailure);
      Lookup(r, ReasonKey) == Some(reason) && Lookup(r, ExceptionTypeKey) == Some(e.typeName) &&
      Lookup(r, InnerExceptionTypeKey) == Some(e.inner.value.typeName) &&
      Lookup(r, MessageKey) == Some(e.message) && Lookup(r, StackTraceKey) == Some(e.stackTrace) &&
      Lookup(r, OriginalIdKey) == Some(originalId) && Lookup(r, FaultedAddressKey) == Some(queue) &&
      Lookup(r, FaultedQueueKey) == Some(queue) && Lookup(r, TimeOfFailureKey) == Some(timeOfFailure)
  {
    var r := ExceptionHeaders(e, reason, originalId, queue, timeOfFailure);
    ExceptionHeaderKeys(e, reason, originalId, queue, timeOfFailure);
    LookupAt(r, 0);
    LookupAt(r, 1);
    LookupAt(r, 2);
    LookupAt(r, 4);
    LookupAt(r, 6);
    LookupAt(r, 7);
    LookupAt(r, 8);
    LookupAt(r, 9);
    LookupAt(r, 10);
  }

  lemma ExceptionHeaderValuesWithoutInner(e: Exception, reason: string, originalId: string, queue: string, timeOfFailure: string)
    requires e.inner.None?
    ensures var r := ExceptionHeaders(e, reason, originalId, queue, timeOfFailure);
      Lookup(r, ReasonKey) == Some(reason) && Lookup(r, ExceptionTypeKey) == Some(e.typeName) &&
      Lookup(r, InnerExceptionTypeKey) == None &&
      Lookup(r, MessageKey) == Some(e.message) && Lookup(r, StackTraceKey) == Some(e.stackTrace) &&
      Lookup(r, OriginalIdKey) == Some(originalId) && Lookup(r, FaultedAddressKey) == Some(queue) &&
      Lookup(r, FaultedQueueKey) == Some(queue) && Lookup(r, TimeOfFailureKey) == Some(timeOfFailure)
  {
    var r := ExceptionHeaders(e, reason, originalId, queue, timeOfFailure);
    ExceptionHeaderKeys(e, reason, originalId, queue, timeOfFailure);
    LookupAt(r, 0);
    LookupAt(r, 1);
    LookupAt(r, 3);
    LookupAt(r, 5);
    LookupAt(r, 6);
    LookupAt(r, 7);
    LookupAt(r, 8);
    LookupAt(r, 9);
    assert InnerExceptionTypeKey !in Keys(r);
    LookupAbsent(r, InnerExceptionTypeKey);
  }

  // ---------------------------------------------------------------- Send

  /** The serializer, as uninterpreted functions; a null Body is passed as None. */
  datatype Serializer = Serializer(
    serializeBody: Option<seq<Message>> -> string,
    serializeHeaders: seq<HeaderInfo> -> string,
    deserializeBody: string -> Result<seq<Message>, Exception>,
    deserializeHeaders: string -> Result<seq<HeaderInfo>, Exception>)

  /**
   * The database and the clock as one call sees them: the SQL error number an insert
   * into a queue raises (None: it succeeds), whether writing to the error table fails,
   * the next Guid.NewGuid(), DateTime.UtcNow and its round-trip ("o") text.
   */
  datatype Database = Database(
    insertError: string -> Option<int>,
    poisonWriteFails: bool,
    freshId: string,
    now: int,
    timeOfFailure: string)

  /** What Send reads of the envelope, besides what it stamps. */
  datatype View = View(
    id: string,
    correlationId: Option<string>,
    returnAddress: Option<string>,
    intent: Intent,
    headers: Option<seq<HeaderInfo>>,
    body: Option<seq<Message>>)

  /** The row Send inserts: a fresh id, this queue as reply address, and the serialized envelope. */
  function OutgoingRow(queue: string, v: View, ser: Serializer, db: Database): Row {
    var headers := if v.headers.Some? && |v.headers.value| > 0 then ser.serializeHeaders(v.headers.value) else "";
    Row(db.freshId, OrElse(v.correlationId, ""), queue, v.intent, headers, ser.serializeBody(v.body))
  }

  /** The position of the first destination whose insert fails, |ds| when none does. */
  function FirstFailing(ds: seq<string>, db: Database): (k: nat)
    ensures k <= |ds|
  {
    if ds == [] then 0
    else if db.insertError(ds[0]).Some? then 0
    else FirstFailing(ds[1..], db) + 1
  }

  /** Every insert before the first failing position succeeds, and the one at it fails. */
  lemma {:induction false} FirstFailingFails(ds: seq<string>, db: Database)
    ensures var k := FirstFailing(ds, db);
      (forall j :: 0 <= j < k ==> db.insertError(ds[j]).None?) &&
      (k < |ds| ==> db.insertError(ds[k]).Some?)
  {
    if ds != [] && db.insertError(ds[0]).None? {
      FirstFailingFails(ds[1..], db);
      assert forall j :: 1 <= j < |ds| ==> ds[j] == ds[1..][j - 1];
    }
  }

  /** The SqlException an insert into a missing table raises. */
  const InvalidObjectName: Exception := Simple(Sql(208), "System.Data.SqlClient.SqlException", "Invalid object name")

  function QueueNotFoundException(destination: string): Exception {
    Exception(QueueNotFound, "CWServiceBus.Transport.QueueNotFoundException",
      "Failed to send message to address: [" + destination + "]", "", "", "", Some(InvalidObjectName))
  }

  /** One insert event per destination, in order. */
  function Inserts(ds: seq<string>, row: Row): seq<TEvent> {
    if ds == [] then [] else Inserts(ds[..|ds| - 1], row) + [Inserted(ds[|ds| - 1], row)]
  }

  /** The j-th insert goes to the j-th destination, and there is one per destination. */
  lemma {:induction false} InsertsAt(ds: seq<string>, row: Row)
    ensures var r := Inserts(ds, row);
      |r| == |ds| && forall j :: 0 <= j < |ds| ==> r[j] == Inserted(ds[j], row)
  {
    if ds != [] {
      InsertsAt(ds[..|ds| - 1], row);
    }
  }

  /** The inserts of a Send: the row for each destination before the first failing one. */
  function SendEvents(queue: string, v: View, destinations: seq<string>, ser: Serializer, db: Database): seq<TEvent> {
    Inserts(destinations[..FirstFailing(destinations, db)], OutgoingRow(queue, v, ser, db))
  }

  /** What a Send throws: QueueNotFoundException naming the destination whose insert raised error 208. */
  function SendFault(destinations: seq<string>, db: Database): ExcRef {
    var k := FirstFailing(destinations, db);
    if k < |destinations| && db.insertError(destinations[k]) == Some(208)
    then Some(QueueNotFoundException(destinations[k])) else None
  }

  /**
   * Send: one insert per destination in order, stopping at the first SQL error; error
   * 208 (invalid object name) becomes QueueNotFoundException naming that destination,
   * any other number is swallowed.
   */
  function SendRun(queue: string, v: View, destinations: seq<string>, ser: Serializer, db: Database): (r: (seq<TEvent>, ExcRef))
  {
    (SendEvents(queue, v, destinations, ser, db), SendFault(destinations, db))
  }

  /**
   * Every destination before the failing one gets the same row, stamped with the fresh
   * id and this queue's address, in list order; the caller sees an exception exactly
   * when the failing insert raised error 208.
   */
  lemma SendInsertsInOrder(queue: string, v: View, destinations: seq<string>, ser: Serializer, db: Database)
    ensures var r := SendRun(queue, v, destinations, ser, db);
      var k := FirstFailing(destinations, db);
      |r.0| == k && (forall j :: 0 <= j < k ==> r.0[j] == Inserted(destinations[j], OutgoingRow(queue, v, ser, db))) &&
      (k == |destinations| ==> r.1.None?) &&
      (r.1.Some? <==> k < |destinations| && db.insertError(destinations[k]) == Some(208)) &&
      (r.1.Some? ==> (r.1.value.kind == QueueNotFound &&
        r.1.value.message == "Failed to send message to address: [" + destinations[k] + "]"))
    ensures OutgoingRow(queue, v, ser, db).id == db.freshId && OutgoingRow(queue, v, ser, db).replyToAddress == queue
    ensures (v.headers.None? || v.headers.value == []) ==> OutgoingRow(queue, v, ser, db).headers == ""
  {
    FirstFailingFails(destinations, db);
    InsertsAt(destinations[..FirstFailing(destinations, db)], OutgoingRow(queue, v, ser, db));
  }

  /** A SqlException with the given error number. */
  function SqlException(number: int): Exception {
    Simple(Sql(number), "System.Data.SqlClient.SqlException", "")
  }

  /** What the failing insert raises inside Send's callback, if any insert fails. */
  function InsertFault(destinations: seq<string>, db: Database): ExcRef {
    FirstFailingFails(destinations, db);
    var k := FirstFailing(destinations, db);
    if k < |destinations| then Some(SqlException(db.insertError(destinations[k]).value)) else None
  }

  /** Send's callback as RunInTransaction sees it: no nested calls, and the insert's exception at its end. */
  function SendCallback(destinations: seq<string>, db: Database): SqlTransactions.Call {
    SqlTransactions.Call(false, [], InsertFault(destinations, db))
  }

  /** A callback without nested calls: the wrapper's entry, the invocation and its exit around the fault. */
  lemma LeafRun(a: SqlTransactions.Ambient, f: ExcRef)
    ensures var e := SqlTransactions.Enter(a, false);
      var r := SqlTransactions.RunCall(a, SqlTransactions.Call(false, [], f));
      r.thrown == f
      && r.events == e.0 + [SqlTransactions.Invoked(e.1.loopLevel, e.1.transaction)]
                     + SqlTransactions.Leave(e.1, a.loopLevel == 0, f).0
  {
    SqlTransactions.RunCallParts(a, SqlTransactions.Call(false, [], f));
  }

  /**
   * The inserts of a Send run in RunInTransaction, which rethrows the failing insert's
   * exception. A Send outside any transaction opens its own, commits it exactly when
   * every insert succeeded and rolls it back otherwise.
   */
  lemma SendTransaction(destinations: seq<string>, db: Database)
    ensures var r := SqlTransactions.RunCall(SqlTransactions.Idle, SendCallback(destinations, db));
      r.thrown == InsertFault(destinations, db)
      && (SqlTransactions.Committed(1) in r.events <==> FirstFailing(destinations, db) == |destinations|)
      && (SqlTransactions.RolledBack(1) in r.events <==> FirstFailing(destinations, db) < |destinations|)
  {
    var f := InsertFault(destinations, db);
    LeafRun(SqlTransactions.Idle, f);
    var e := SqlTransactions.Enter(SqlTransactions.Idle, false);
    assert e.0 == [SqlTransactions.Opened(0), SqlTransactions.Began(1)];
    assert e.1 == SqlTransactions.Ambient(1, Some(0), Some(1), 2);
    var t := if f.None? then SqlTransactions.Committed(1) else SqlTransactions.RolledBack(1);
    assert SqlTransactions.Leave(e.1, true, f).0 == [t, SqlTransactions.Disposed(1), SqlTransactions.Closed(0)];
  }

  /** A Send inside a running transaction (a handler's) neither commits nor rolls back. */
  lemma NestedSendLeavesTransaction(destinations: seq<string>, db: Database, a: SqlTransactions.Ambient)
    requires a.loopLevel > 0
    ensures var r := SqlTransactions.RunCall(a, SendCallback(destinations, db));
      r.thrown == InsertFault(destinations, db) && forall e :: e in r.events ==> !e.Committed? && !e.RolledBack?
  {
    var f := InsertFault(destinations, db);
    LeafRun(a, f);
    var e := SqlTransactions.Enter(a, false);
    assert forall x :: x in e.0 ==> x.Opened? || x.Began?;
    var l := SqlTransactions.Leave(e.1, false, f);
    assert forall x :: x in l.0 ==> x.Disposed? || x.Closed?;
  }

  /**
   * As written, a Send outside any transaction whose insert fails with an error other
   * than 208 rolls back every insert it made, yet returns normally: the message is lost
   * and the caller is not told.
   */
  lemma SendLosesMessageSilently(destinations: seq<string>, db: Database)
    requires FirstFailing(destinations, db) < |destinations|
    requires db.insertError(destinations[FirstFailing(destinations, db)]) != Some(208)
    ensures SendFault(destinations, db).None?
    ensures var r := SqlTransactions.RunCall(SqlTransactions.Idle, SendCallback(destinations, db));
      SqlTransactions.RolledBack(1) in r.events && SqlTransactions.Committed(1) !in r.events
  {
    SendTransaction(destinations, db);
  }

  /** A deadlocked insert (error 1205) into the only destination is such a loss. */
  lemma DeadlockedSendIsLost()
    ensures var db := Database(_ => Some(1205), false, "id", 0, "");
      SendFault(["queue"], db).None?
      && SqlTransactions.RolledBack(1) in SqlTransactions.RunCall(SqlTransactions.Idle, SendCallback(["queue"], db)).events
  {
    var db := Database(_ => Some(1205), false, "id", 0, "");
    assert FirstFailing(["queue"], db) == 0;
    SendLosesMessageSilently(["queue"], db);
  }

  /**
   * What Send evidently intends to throw: QueueNotFoundException for error 208, and any
   * other SQL error rethrown as it is.
   */
  function SendFaultIntended(destinations: seq<string>, db: Database): (r: ExcRef)
    ensures r.None? <==> InsertFault(destinations, db).None?
    ensures SendFault(destinations, db).Some? ==> r == SendFault(destinations, db)
  {
    var k := FirstFailing(destinations, db);
    if k < |destinations| && db.insertError(destinations[k]) == Some(208) then Some(QueueNotFoundException(destinations[k]))
    else InsertFault(destinations, db)
  }

  /**
   * With the intended handling, a Send outside any transaction returns normally exactly
   * when its inserts were committed: no message is lost without an exception.
   */
  lemma IntendedSendReportsEveryLoss(destinations: seq<string>, db: Database)
    ensures var r := SqlTransactions.RunCall(SqlTransactions.Idle, SendCallback(destinations, db));
      SendFaultIntended(destinations, db).None? <==> SqlTransactions.Committed(1) in r.events
    ensures var r := SqlTransactions.RunCall(SqlTransactions.Idle, SendCallback(destinations, db));
      SendFaultIntended(destinations, db).Some? <==> SqlTransactions.RolledBack(1) in r.events
  {
    SendTransaction(destinations, db);
  }

  // ---------------------------------------------------------------- fault reporting

  /** The error-table record: the envelope as received, with the exception's format when there is one. */
  function PoisonRecord(queue: string, v: View, e: ExcRef, body: string, headers: string): TEvent
    requires v.returnAddress.Some?
  {
    PoisonWritten(queue, Row(v.id, OrElse(v.correlationId, ""), v.returnAddress.value, v.intent, headers, body),
      if e.Some? then Some(FormatErrorMessage(e.value)) else None)
  }

  /**
   * What WriteFailedMessage adds to the trace: the record, unless the insert fails.
   * It fails when the database refuses it and when the envelope has no ReturnAddress,
   * which leaves the @ReplyToAddress parameter unsupplied; either failure is swallowed.
   */
  function PoisonRun(queue: string, v: View, e: ExcRef, body: string, headers: string, db: Database): seq<TEvent> {
    if db.poisonWriteFails || v.returnAddress.None? then [] else [PoisonRecord(queue, v, e, body, headers)]
  }

  /**
   * OnSerializationFailed and the max-retries path: write the error-table record (its
   * own failure swallowed), raise MessageFault, then SendFailureMessage: intent
   * FaultNotification, the exception headers appended, and a Send to the fault
   * destinations. A throwing MessageFault subscriber or a null exception ends the
   * sequence early; every exception is swallowed.
   */
  function FaultRun(queue: string, forward: seq<string>, v: View, e: ExcRef, reason: string,
                    body: string, headers: string, ser: Serializer, db: Database, messageFault: ExcRef): seq<TEvent>
  {
    var poison := PoisonRun(queue, v, e, body, headers, db);
    poison + [MessageFault(v.id, e, reason)] + (if messageFault.Some? then [] else Notify(queue, forward, v, e, reason, ser, db))
  }

  /**
   * SendFailureMessage's inserts: the envelope marked FaultNotification with the
   * exception headers appended, sent to the fault destinations; none for a null
   * exception, on which SetExceptionHeaders throws.
   */
  function Notify(queue: string, forward: seq<string>, v: View, e: ExcRef, reason: string, ser: Serializer, db: Database): seq<TEvent> {
    if e.None? then []
    else
      var hs := OrElse(v.headers, []) + ExceptionHeaders(e.value, reason, v.id, queue, db.timeOfFailure);
      SendEvents(queue, v.(intent := FaultNotification, headers := Some(hs)), forward, ser, db)
  }

  /**
   * The fault notification carries the original id in its headers, is marked
   * FaultNotification, and is never dispatched; the error-table record keeps the
   * original body and header strings.
   */
  lemma FaultNotificationShape(queue: string, forward: seq<string>, v: View, e: Exception, reason: string,
                               body: string, headers: string, ser: Serializer, db: Database)
    requires !db.poisonWriteFails && v.returnAddress.Some? && FirstFailing(forward, db) == |forward|
    ensures var r := FaultRun(queue, forward, v, Some(e), reason, body, headers, ser, db, None);
      var hs := OrElse(v.headers, []) + ExceptionHeaders(e, reason, v.id, queue, db.timeOfFailure);
      var sent := v.(intent := FaultNotification, headers := Some(hs));
      |r| == 2 + |forward| &&
      r[0].PoisonWritten? && r[0].row.body == body && r[0].row.headers == headers &&
      r[0].errorText == Some(FormatErrorMessage(e)) &&
      r[1] == MessageFault(v.id, Some(e), reason) &&
      (forall j :: 0 <= j < |forward| ==> r[2 + j] == Inserted(forward[j], OutgoingRow(queue, sent, ser, db))) &&
      OutgoingRow(queue, sent, ser, db).intent == FaultNotification &&
      (forall id :: MessageReceived(id) !in r)
  {
    SendInsertsInOrder(queue, v.(intent := FaultNotification,
      headers := Some(OrElse(v.headers, []) + ExceptionHeaders(e, reason, v.id, queue, db.timeOfFailure))), forward, ser, db);
  }

  /** The fault run only writes the error table, raises MessageFault and inserts into queues. */
  lemma FaultRunEvents(queue: string, forward: seq<string>, v: View, e: ExcRef, reason: string,
                       body: string, headers: string, ser: Serializer, db: Database, messageFault: ExcRef)
    ensures forall x :: x in FaultRun(queue, forward, v, e, reason, body, headers, ser, db, messageFault) ==>
      x.PoisonWritten? || x.MessageFault? || x.Inserted?
  {
    if e.Some? {
      var hs := OrElse(v.headers, []) + ExceptionHeaders(e.value, reason, v.id, queue, db.timeOfFailure);
      var sent := v.(intent := FaultNotification, headers := Some(hs));
      InsertsAt(forward[..FirstFailing(forward, db)], OutgoingRow(queue, sent, ser, db));
    }
  }

  /** The fault run always raises MessageFault for the envelope, with the exception and the reason. */
  lemma FaultRunRaisesFault(queue: string, forward: seq<string>, v: View, e: ExcRef, reason: string,
                            body: string, headers: string, ser: Serializer, db: Database, messageFault: ExcRef)
    ensures MessageFault(v.id, e, reason) in FaultRun(queue, forward, v, e, reason, body, headers, ser, db, messageFault)
  {
    var poison := PoisonRun(queue, v, e, body, headers, db);
    assert FaultRun(queue, forward, v, e, reason, body, headers, ser, db, messageFault)[|poison|] == MessageFault(v.id, e, reason);
  }

  /** The fault run raises no permit event. */
  lemma FaultRunReleasesNothing(queue: string, forward: seq<string>, v: View, e: ExcRef, reason: string,
                                body: string, headers: string, ser: Serializer, db: Database, messageFault: ExcRef)
    ensures Releases(FaultRun(queue, forward, v, e, reason, body, headers, ser, db, messageFault)) == 0
  {
    FaultRunEvents(queue, forward, v, e, reason, body, headers, ser, db, messageFault);
    assert TEvent.ReleasePermit !in FaultRun(queue, forward, v, e, reason, body, headers, ser, db, messageFault);
  }

  // ---------------------------------------------------------------- ReceiveMessage and Process

  /** What the reader yields: a queue row, or an exception from the command. */
  datatype SqlReceive = ReadFailed(error: Exception) | RowRead(row: Row)

  /** The row's strings deserialized, or the exception that stopped it and the body got so far. */
  datatype Decoding = Decoded(body: seq<Message>, headers: Option<seq<HeaderInfo>>) | Undecodable(error: Exception, partial: Option<seq<Message>>)

  /** The body is always deserialized; the headers only when the header string is not empty. */
  function Decode(row: Row, ser: Serializer): (r: Decoding)
    ensures r.Decoded? <==> (ser.deserializeBody(row.body).Success? &&
      (|row.headers| > 0 ==> ser.deserializeHeaders(row.headers).Success?))
    ensures r.Decoded? ==> r.headers.Some? == (|row.headers| > 0)
    ensures r.Undecodable? ==> r.partial.Some? == ser.deserializeBody(row.body).Success?
  {
    match ser.deserializeBody(row.body)
    case Failure(e) => Undecodable(e, None)
    case Success(b) =>
      if |row.headers| > 0 then
        match ser.deserializeHeaders(row.headers)
        case Failure(e) => Undecodable(e, Some(b))
        case Success(h) => Decoded(b, Some(h))
      else Decoded(b, None)
  }

  /** The envelope ReceiveMessage builds from a row. */
  function RowView(row: Row, body: Option<seq<Message>>, headers: Option<seq<HeaderInfo>>): View {
    View(row.id, Some(row.correlationId), Some(row.replyToAddress), row.intent, headers, body)
  }

  /**
   * The fault run a row would lead to: OnSerializationFailed for a row that does not
   * deserialize, the max-retries report with the stored last exception otherwise.
   */
  function RowReport(c: Counts, maxRetries: int, queue: string, forward: seq<string>,
                     row: Row, ser: Serializer, db: Database, faultSubscriber: ExcRef): seq<TEvent>
    requires Consistent(c)
  {
    match Decode(row, ser)
    case Undecodable(e, b) =>
      FaultRun(queue, forward, RowView(row, b, None), Some(e), SerializationFailedReason,
               row.body, row.headers, ser, db, faultSubscriber)
    case Decoded(b, h) =>
      FaultRun(queue, forward, RowView(row, Some(b), h), TakeAtCeiling(c, row.id, maxRetries).last, ProcessingFailed,
               row.body, row.headers, ser, db, faultSubscriber)
  }

  /**
   * ReceiveMessage once a row is read, given the fault run `report` it would lead to:
   * an undecodable row is reported and the permit released with nothing thrown; a
   * decoded one releases the permit and goes through ProcessMessage under its own id.
   */
  function RowAttempt(c: Counts, maxRetries: int, row: Row, ser: Serializer, s: Subscribers, report: seq<TEvent>): (a: Attempt)
    requires Consistent(c)
    ensures Consistent(a.counts)
  {
    match Decode(row, ser)
    case Undecodable(_, _) => Attempt(report + [ReleasePermit], None, "", true, c)
    case Decoded(_, _) =>
      var r := ProcessMessageRun(row.id, row.id, c, maxRetries, s, report);
      Attempt([ReleasePermit] + r.events, r.thrown, row.id, true, r.counts)
  }

  /**
   * The callback Process runs in the transaction. An exception of the transaction
   * wrapper ends it before the reader runs. Otherwise the permit is released when the
   * reading ends, however it ends: a read error is rethrown, a row that cannot be
   * deserialized is reported as SerializationFailed and neither processed nor thrown,
   * and a decoded row is processed with its id as IdForCorrelation, reported as
   * ProcessingFailed at the retry ceiling.
   */
  function SqlAttempt(c: Counts, maxRetries: int, queue: string, forward: seq<string>, wrapperFault: ExcRef,
                      rcv: SqlReceive, ser: Serializer, db: Database, s: Subscribers, faultSubscriber: ExcRef): (a: Attempt)
    requires Consistent(c)
    ensures Consistent(a.counts)
  {
    if wrapperFault.Some? then Attempt([], wrapperFault, "", false, c)
    else match rcv
      case ReadFailed(e) => Attempt([ReleasePermit], Some(e), "", true, c)
      case RowRead(row) => RowAttempt(c, maxRetries, row, ser, s, RowReport(c, maxRetries, queue, forward, row, ser, db, faultSubscriber))
  }

  /** One Process call of the SQL Server transport. */
  function SqlProcessRun(c: Counts, maxRetries: int, queue: string, forward: seq<string>, wrapperFault: ExcRef,
                         rcv: SqlReceive, ser: Serializer, db: Database, s: Subscribers, faultSubscriber: ExcRef): (r: Outcome)
    requires Consistent(c)
    ensures Consistent(r.counts)
  {
    Settle(SqlAttempt(c, maxRetries, queue, forward, wrapperFault, rcv, ser, db, s, faultSubscriber))
  }

  /** A row's fault run raises no permit event and dispatches nothing. */
  lemma RowReportQuiet(c: Counts, maxRetries: int, queue: string, forward: seq<string>,
                       row: Row, ser: Serializer, db: Database, faultSubscriber: ExcRef)
    requires Consistent(c)
    ensures var report := RowReport(c, maxRetries, queue, forward, row, ser, db, faultSubscriber);
      Releases(report) == 0 && forall id :: MessageReceived(id) !in report
  {
    match Decode(row, ser)
    case Undecodable(e, b) =>
      FaultRunEvents(queue, forward, RowView(row, b, None), Some(e), SerializationFailedReason,
                     row.body, row.headers, ser, db, faultSubscriber);
      FaultRunReleasesNothing(queue, forward, RowView(row, b, None), Some(e), SerializationFailedReason,
                              row.body, row.headers, ser, db, faultSubscriber);
    case Decoded(b, h) =>
      var last := TakeAtCeiling(c, row.id, maxRetries).last;
      FaultRunEvents(queue, forward, RowView(row, Some(b), h), last, ProcessingFailed,
                     row.body, row.headers, ser, db, faultSubscriber);
      FaultRunReleasesNothing(queue, forward, RowView(row, Some(b), h), last, ProcessingFailed,
                              row.body, row.headers, ser, db, faultSubscriber);
  }

  /** Once a row is read the permit is released exactly once, whatever the fault run raises besides. */
  lemma RowAttemptReleasesOnce(c: Counts, maxRetries: int, row: Row, ser: Serializer, s: Subscribers, report: seq<TEvent>)
    requires Consistent(c) && Releases(report) == 0
    ensures var a := RowAttempt(c, maxRetries, row, ser, s, report);
      a.released && Releases(a.events) == 1
  {
    if Decode(row, ser).Undecodable? {
      assert multiset(report + [ReleasePermit]) == multiset(report) + multiset([ReleasePermit]);
    } else {
      var r := ProcessMessageRun(row.id, row.id, c, maxRetries, s, report);
      ProcessMessageReleasesNothing(row.id, row.id, c, maxRetries, s, report);
      assert multiset([ReleasePermit] + r.events) == multiset([ReleasePermit]) + multiset(r.events);
    }
  }

  /** The callback releases the permit once when the reader ran, and not at all when it did not. */
  lemma SqlAttemptReleases(c: Counts, maxRetries: int, queue: string, forward: seq<string>, wrapperFault: ExcRef,
                           rcv: SqlReceive, ser: Serializer, db: Database, s: Subscribers, faultSubscriber: ExcRef)
    requires Consistent(c)
    ensures var a := SqlAttempt(c, maxRetries, queue, forward, wrapperFault, rcv, ser, db, s, faultSubscriber);
      Releases(a.events) == if a.released then 1 else 0
  {
    if wrapperFault.None? && rcv.RowRead? {
      RowReportQuiet(c, maxRetries, queue, forward, rcv.row, ser, db, faultSubscriber);
      RowAttemptReleasesOnce(c, maxRetries, rcv.row, ser, s, RowReport(c, maxRetries, queue, forward, rcv.row, ser, db, faultSubscriber));
    }
  }

  /** Each Process call takes the permit first and releases it exactly once, on every path. */
  lemma SqlPermitReleasedOnce(c: Counts, maxRetries: int, queue: string, forward: seq<string>, wrapperFault: ExcRef,
                              rcv: SqlReceive, ser: Serializer, db: Database, s: Subscribers, faultSubscriber: ExcRef)
    requires Consistent(c)
    ensures var r := SqlProcessRun(c, maxRetries, queue, forward, wrapperFault, rcv, ser, db, s, faultSubscriber);
      r.events[0] == WaitPermit && Releases(r.events) == 1
  {
    SqlAttemptReleases(c, maxRetries, queue, forward, wrapperFault, rcv, ser, db, s, faultSubscriber);
    PermitReleasedOnce(SqlAttempt(c, maxRetries, queue, forward, wrapperFault, rcv, ser, db, s, faultSubscriber));
  }

  /**
   * A row that cannot be deserialized goes to the error table and the fault
   * destinations once, reason SerializationFailed; it is never passed to the
   * subscribers, nothing is thrown, and no failure is counted for it.
   */
  lemma UndecodableNotRetried(c: Counts, maxRetries: int, queue: string, forward: seq<string>,
                              row: Row, ser: Serializer, db: Database, s: Subscribers, faultSubscriber: ExcRef)
    requires Consistent(c) && Decode(row, ser).Undecodable?
    ensures var r := SqlProcessRun(c, maxRetries, queue, forward, None, RowRead(row), ser, db, s, faultSubscriber);
      var d := Decode(row, ser);
      r.events == [WaitPermit] + FaultRun(queue, forward, RowView(row, d.partial, None), Some(d.error), SerializationFailedReason,
                                          row.body, row.headers, ser, db, faultSubscriber) + [ReleasePermit] &&
      MessageFault(row.id, Some(d.error), SerializationFailedReason) in r.events &&
      (forall id :: MessageReceived(id) !in r.events) &&
      r.counts == Clear(c, "")
  {
    var d := Decode(row, ser);
    var v := RowView(row, d.partial, None);
    var f := FaultRun(queue, forward, v, Some(d.error), SerializationFailedReason, row.body, row.headers, ser, db, faultSubscriber);
    assert RowReport(c, maxRetries, queue, forward, row, ser, db, faultSubscriber) == f;
    RowReportQuiet(c, maxRetries, queue, forward, row, ser, db, faultSubscriber);
    FaultRunRaisesFault(queue, forward, v, Some(d.error), SerializationFailedReason, row.body, row.headers, ser, db, faultSubscriber);
    RowUndecodable(c, maxRetries, row, ser, s, f);
  }

  /** An undecodable row: the permit, the report, the release, nothing thrown. */
  lemma RowUndecodable(c: Counts, maxRetries: int, row: Row, ser: Serializer, s: Subscribers, report: seq<TEvent>)
    requires Consistent(c) && Decode(row, ser).Undecodable?
    ensures var r := Settle(RowAttempt(c, maxRetries, row, ser, s, report));
      r.events == [WaitPermit] + report + [ReleasePermit] && r.counts == Clear(c, "")
  {
  }

  /**
   * A decoded message that has failed maxRetries times is reported as ProcessingFailed
   * with its last exception instead of being dispatched, and leaves no failure
   * entries behind.
   */
  lemma SqlCeilingReported(c: Counts, maxRetries: int, queue: string, forward: seq<string>,
                           row: Row, ser: Serializer, db: Database, s: Subscribers, faultSubscriber: ExcRef)
    requires Consistent(c) && Decode(row, ser).Decoded? && AtCeiling(c, row.id, maxRetries)
    ensures var r := SqlProcessRun(c, maxRetries, queue, forward, None, RowRead(row), ser, db, s, faultSubscriber);
      var d := Decode(row, ser);
      var report := FaultRun(queue, forward, RowView(row, Some(d.body), d.headers), c.exceptions[row.id], ProcessingFailed,
                             row.body, row.headers, ser, db, faultSubscriber);
      r.events == [WaitPermit, ReleasePermit, StartedProcessing(row.id, row.id)] + report + [FinishedProcessing] &&
      MessageReceived(row.id) !in r.events &&
      r.counts == Clear(c, row.id)
  {
    var d := Decode(row, ser);
    var report := FaultRun(queue, forward, RowView(row, Some(d.body), d.headers), c.exceptions[row.id], ProcessingFailed,
                           row.body, row.headers, ser, db, faultSubscriber);
    assert RowReport(c, maxRetries, queue, forward, row, ser, db, faultSubscriber) == report;
    RowReportQuiet(c, maxRetries, queue, forward, row, ser, db, faultSubscriber);
    RowAtCeiling(c, maxRetries, row, ser, s, report);
    assert SqlProcessRun(c, maxRetries, queue, forward, None, RowRead(row), ser, db, s, faultSubscriber) ==
      Settle(RowAttempt(c, maxRetries, row, ser, s, report));
  }

  /** At the ceiling Process is the permit, the started event, the report and the finished event. */
  lemma RowAtCeiling(c: Counts, maxRetries: int, row: Row, ser: Serializer, s: Subscribers, report: seq<TEvent>)
    requires Consistent(c) && Decode(row, ser).Decoded? && AtCeiling(c, row.id, maxRetries)
    requires MessageReceived(row.id) !in report
    ensures var r := Settle(RowAttempt(c, maxRetries, row, ser, s, report));
      r.events == [WaitPermit, ReleasePermit, StartedProcessing(row.id, row.id)] + report + [FinishedProcessing] &&
      MessageReceived(row.id) !in r.events &&
      r.counts == Clear(c, row.id)
  {
    CeilingSkipsDispatch(row.id, row.id, c, maxRetries, s, report);
  }

  /**
   * Below the ceiling: the message is dispatched unless a started subscriber threw;
   * an abort request leaves the failures alone, any other exception is counted
   * against the row's id, and a clean run clears them. An exception from the reader
   * itself is counted against the empty id, as messageId is still empty then.
   */
  lemma SqlDispatchOutcomes(c: Counts, maxRetries: int, queue: string, forward: seq<string>,
                            row: Row, ser: Serializer, db: Database, s: Subscribers, faultSubscriber: ExcRef)
    requires Consistent(c) && Decode(row, ser).Decoded? && !AtCeiling(c, row.id, maxRetries)
    ensures var r := SqlProcessRun(c, maxRetries, queue, forward, None, RowRead(row), ser, db, s, faultSubscriber);
      var thrown := if s.started.Some? then s.started else AfterDispatch(s);
      (MessageReceived(row.id) in r.events <==> s.started.None?) &&
      (thrown.None? ==> r.counts == Clear(c, row.id)) &&
      (thrown.Some? && thrown.value.kind == AbortHandling ==> r.counts == c) &&
      (thrown.Some? && thrown.value.kind != AbortHandling ==> r.counts == Increment(c, row.id, OriginalOf(thrown.value)))
  {
    var d := Decode(row, ser);
    var report := FaultRun(queue, forward, RowView(row, Some(d.body), d.headers), None, ProcessingFailed,
                           row.body, row.headers, ser, db, faultSubscriber);
    var a := SqlAttempt(c, maxRetries, queue, forward, None, RowRead(row), ser, db, s, faultSubscriber);
    BelowCeilingDispatches(row.id, row.id, c, maxRetries, s, report);
    SettleCounts(a);
    var p := ProcessMessageRun(row.id, row.id, c, maxRetries, s, report);
    assert a.events == [ReleasePermit] + p.events;
    var failed := if a.thrown.None? || a.thrown.value.kind == AbortHandling then []
                  else [FailedProcessing(OriginalOf(a.thrown.value))];
    assert SqlProcessRun(c, maxRetries, queue, forward, None, RowRead(row), ser, db, s, faultSubscriber).events ==
      [WaitPermit] + a.events + failed;
  }

  lemma ReadErrorCountedAgainstEmptyId(c: Counts, maxRetries: int, queue: string, forward: seq<string>,
                                       e: Exception, ser: Serializer, db: Database, s: Subscribers, faultSubscriber: ExcRef)
    requires Consistent(c) && e.kind != AbortHandling
    ensures var r := SqlProcessRun(c, maxRetries, queue, forward, None, ReadFailed(e), ser, db, s, faultSubscriber);
      r.events == [WaitPermit, ReleasePermit, FailedProcessing(OriginalOf(e))] &&
      r.counts == Increment(c, "", OriginalOf(e))
  {
  }

  // ---------------------------------------------------------------- ReceiveMessages

  /**
   * ReceiveMessages: messages handed to the transport are passed straight to
   * TransportMessageReceived inside a transaction, with no StartedMessageProcessing,
   * no retry ceiling and no failure counting. An abort request wins over the
   * handling exception, which wins over the module exception; an abort returns
   * quietly and anything else is reported to FailedMessageProcessing and rethrown.
   * A null message array or header sequence throws before any event is raised.
   */
  function InjectRun(wrapperFault: ExcRef, messagesPresent: bool, headersPresent: bool, id: string, s: Subscribers): (r: (seq<TEvent>, ExcRef))
  {
    if wrapperFault.Some? then Rethrow([], wrapperFault)
    else if !messagesPresent then Rethrow([], Some(ArgumentNullException("collection")))
    else if !headersPresent then Rethrow([], Some(ArgumentNullException("source")))
    else Rethrow([MessageReceived(id), FinishedProcessing], AfterDispatch(s))
  }

  /**
   * What ReceiveMessages raises and throws: only the received, finished and failed
   * events, never a permit or a started event; an abort request makes it return
   * normally; a handling exception is reported unwrapped and rethrown as it was; null
   * inputs are rejected with ArgumentNullException before the message is seen.
   */
  lemma InjectOutcomes(wrapperFault: ExcRef, messagesPresent: bool, headersPresent: bool, id: string, s: Subscribers)
    ensures var r := InjectRun(wrapperFault, messagesPresent, headersPresent, id, s);
      forall x :: x in r.0 ==> x.MessageReceived? || x.FinishedProcessing? || x.FailedProcessing?
    ensures var r := InjectRun(wrapperFault, messagesPresent, headersPresent, id, s);
      wrapperFault.None? && messagesPresent && headersPresent && s.abortRequested ==>
        r == ([MessageReceived(id), FinishedProcessing], None)
    ensures var r := InjectRun(wrapperFault, messagesPresent, headersPresent, id, s);
      wrapperFault.None? && messagesPresent && headersPresent && !s.abortRequested &&
      s.received.Some? && s.received.value.kind != AbortHandling ==>
        r == ([MessageReceived(id), FinishedProcessing, FailedProcessing(OriginalOf(s.received.value))], s.received)
    ensures var r := InjectRun(wrapperFault, messagesPresent, headersPresent, id, s);
      wrapperFault.None? && !(messagesPresent && headersPresent) ==>
        r.1.Some? && r.1.value.kind == ArgumentNull && r.0 == [FailedProcessing(r.1)]
  {
    if s.received.Some? {
      var failed := FailedProcessing(OriginalOf(s.received.value));
      assert [MessageReceived(id), FinishedProcessing] + [failed] == [MessageReceived(id), FinishedProcessing, failed];
    }
  }

  // ---------------------------------------------------------------- the transport object

  /** What the envelope looks like to Send and to the error table. */
  function ViewOf(m: TransportMessage): View
    reads m, m.body
  {
    View(m.id, m.correlationId, m.returnAddress, m.messageIntent, m.headers,
      if m.body == null then None else Some(m.body[..]))
  }

  /** The inserts of one Send, the loop over the destinations. */
  method InsertAll(destinations: seq<string>, row: Row, db: Database) returns (events: seq<TEvent>, failed: Option<int>, at: string)
    ensures var k := FirstFailing(destinations, db);
      events == Inserts(destinations[..k], row) &&
      (k < |destinations| ==> failed == db.insertError(destinations[k]) && at == destinations[k]) &&
      (k == |destinations| ==> failed.None?)
  {
    ghost var k := FirstFailing(destinations, db);
    FirstFailingFails(destinations, db);
    events := [];
    var i := 0;
    while i < |destinations|
      invariant 0 <= i <= k
      invariant |events| == i && forall j :: 0 <= j < i ==> events[j] == Inserted(destinations[j], row)
    {
      var error := db.insertError(destinations[i]);
      if error.Some? {
        InsertsAt(destinations[..k], row);
        assert events == Inserts(destinations[..k], row);
        return events, error, destinations[i];
      }
      events := events + [Inserted(destinations[i], row)];
      i := i + 1;
    }
    InsertsAt(destinations[..k], row);
    assert events == Inserts(destinations[..k], row);
    return events, None, "";
  }

  class SqlServerTransport {
    var listenerQueue: string
    var maxRetries: int
    var numberOfWorkerThreads: int
    const failures: FailureCounter
    const pool: WorkerPool
    /** The fault destinations, a set kept in insertion order. */
    var faultForwardDestinations: seq<string>
    var hasStarted: bool
    /** How many times the queue table was created. */
    var queueInits: nat
    var needToAbort: bool
    var messageId: string
    var releasedWaitLock: bool
    /** The free permits of transactionWaitPool, a Semaphore(1, 1). */
    var permits: int
    var trace: seq<TEvent>

    predicate Valid()
      reads this, failures
    {
      failures.Valid() && NoDup(faultForwardDestinations)
    }

    /** The configuration a message run reads and never changes. */
    function Config(): (string, int, seq<string>)
      reads this
    {
      (listenerQueue, maxRetries, faultForwardDestinations)
    }

    /** The per-call flags and the semaphore, which sending and fault reporting leave alone. */
    function Flags(): (bool, string, bool, int)
      reads this
    {
      (needToAbort, messageId, releasedWaitLock, permits)
    }

    /** The four-argument constructor: the queue name is trimmed. */
    constructor (queue: string, initialNumberOfWorkThreads: int)
      ensures Valid() && fresh(failures) && fresh(pool)
      ensures listenerQueue == Trim(queue, IsWhiteSpace) && numberOfWorkerThreads == initialNumberOfWorkThreads
      ensures maxRetries == 5 && permits == 1 && !hasStarted && queueInits == 0
      ensures failures.Snapshot() == NoFailures && pool.workers == [] && faultForwardDestinations == [] && trace == []
    {
      listenerQueue := Trim(queue, IsWhiteSpace);
      maxRetries := 5;
      numberOfWorkerThreads := initialNumberOfWorkThreads;
      failures := new FailureCounter();
      pool := new WorkerPool();
      faultForwardDestinations := [];
      hasStarted := false;
      queueInits := 0;
      needToAbort := false;
      messageId := "";
      releasedWaitLock := false;
      permits := 1;
      trace := [];
    }

    /**
     * Start: only the first successful call creates the queue table and starts the
     * workers. A failure to create the table propagates and leaves the transport
     * unstarted, so a later Start tries again.
     */
    method Start(initFault: ExcRef) returns (thrown: ExcRef)
      modifies this, pool
      ensures old(hasStarted) ==> thrown.None? && hasStarted && queueInits == old(queueInits) && pool.workers == old(pool.workers)
      ensures !old(hasStarted) && initFault.Some? ==>
        thrown == initFault && !hasStarted && queueInits == old(queueInits) && pool.workers == old(pool.workers)
      ensures !old(hasStarted) && initFault.None? ==> (thrown.None? && hasStarted && queueInits == old(queueInits) + 1 &&
        |pool.workers| == |old(pool.workers)| + (if numberOfWorkerThreads < 0 then 0 else numberOfWorkerThreads) &&
        pool.workers[..|old(pool.workers)|] == old(pool.workers) &&
        forall i :: |old(pool.workers)| <= i < |pool.workers| ==> pool.workers[i] == Worker(false))
      ensures trace == old(trace) && Config() == old(Config())
    {
      if hasStarted {
        return None;
      }
      if initFault.Some? {
        return initFault;
      }
      queueInits := queueInits + 1;
      pool.StartWorkers(numberOfWorkerThreads);
      hasStarted := true;
      return None;
    }

    method ChangeNumberOfWorkerThreads(target: int) returns (thrown: ExcRef)
      modifies pool
      ensures target < 0 ==> thrown.Some? && thrown.value.kind == ArgumentOutOfRange && pool.workers == old(pool.workers)
      ensures target >= 0 ==> (thrown.None? &&
        |pool.workers| == (if target > |old(pool.workers)| then target else |old(pool.workers)|))
      ensures target >= 0 ==> forall i :: 0 <= i < |old(pool.workers)| ==>
        pool.workers[i] == if i < target then old(pool.workers)[i] else Worker(true)
      ensures forall i :: |old(pool.workers)| <= i < |pool.workers| ==> pool.workers[i] == Worker(false)
    {
      thrown := pool.ChangeNumberOfWorkerThreads(target);
    }

    /** ForwardFaultsTo: adds each destination to the set. */
    method ForwardFaultsTo(destinations: seq<string>)
      requires Valid()
      modifies this
      ensures Valid() && faultForwardDestinations == AppendMissing(old(faultForwardDestinations), destinations)
      ensures forall d :: d in faultForwardDestinations <==> d in old(faultForwardDestinations) || d in destinations
      ensures listenerQueue == old(listenerQueue) && maxRetries == old(maxRetries) && trace == old(trace)
    {
      ghost var start := faultForwardDestinations;
      var i := 0;
      while i < |destinations|
        invariant 0 <= i <= |destinations|
        invariant faultForwardDestinations == AppendMissing(start, destinations[..i])
        invariant listenerQueue == old(listenerQueue) && maxRetries == old(maxRetries) && trace == old(trace)
      {
        AppendMissingStep(start, destinations[..i], destinations[i]);
        assert destinations[..i + 1] == destinations[..i] + [destinations[i]];
        if destinations[i] !in faultForwardDestinations {
          faultForwardDestinations := faultForwardDestinations + [destinations[i]];
        }
        i := i + 1;
      }
      assert destinations[..i] == destinations;
      AppendMissingFacts(start, destinations, "");
      forall d ensures d in faultForwardDestinations <==> d in start || d in destinations {
        AppendMissingFacts(start, destinations, d);
      }
    }

    method AbortHandlingCurrentMessage()
      modifies this
      ensures needToAbort && trace == old(trace) && messageId == old(messageId) && Config() == old(Config())
      ensures releasedWaitLock == old(releasedWaitLock) && permits == old(permits)
    {
      needToAbort := true;
    }

    /** ITransport.Send: the inserts go to the queue tables. */
    method Send(m: TransportMessage, destinations: seq<string>, ser: Serializer, db: Database) returns (thrown: ExcRef)
      modifies this, m
      ensures trace == old(trace) + SendEvents(listenerQueue, old(ViewOf(m)), destinations, ser, db)
      ensures thrown == SendFault(destinations, db)
      ensures m.id == db.freshId && m.timeSent == db.now && m.returnAddress == Some(listenerQueue)
      ensures ViewOf(m) == old(ViewOf(m)).(id := db.freshId, returnAddress := Some(listenerQueue))
      ensures Config() == old(Config()) && Flags() == old(Flags())
    {
      var events;
      events, thrown := SendEnvelope(m, destinations, ser, db);
      trace := trace + events;
    }

    /**
     * The body of Send: stamps a fresh id, the send time and this queue as return
     * address on the envelope, then inserts the same row into each destination in order.
     */
    method SendEnvelope(m: TransportMessage, destinations: seq<string>, ser: Serializer, db: Database) returns (events: seq<TEvent>, thrown: ExcRef)
      modifies m
      ensures events == SendEvents(listenerQueue, old(ViewOf(m)), destinations, ser, db)
      ensures thrown == SendFault(destinations, db)
      ensures m.id == db.freshId && m.timeSent == db.now && m.returnAddress == Some(listenerQueue)
      ensures ViewOf(m) == old(ViewOf(m)).(id := db.freshId, returnAddress := Some(listenerQueue))
    {
      var row := OutgoingRow(listenerQueue, ViewOf(m), ser, db);
      m.id := db.freshId;
      m.timeSent := db.now;
      m.returnAddress := Some(listenerQueue);
      var failed, at;
      events, failed, at := InsertAll(destinations, row, db);
      if failed == Some(208) {
        return events, Some(QueueNotFoundException(at));
      }
      return events, None;
    }

    /**
     * SetExceptionHeaders: appends the exception headers, creating the list if needed.
     * A null exception is dereferenced after the Reason header, so the call throws.
     */
    method SetExceptionHeaders(m: TransportMessage, e: ExcRef, reason: string, db: Database) returns (thrown: ExcRef)
      modifies m
      ensures e.Some? ==> (thrown.None? &&
        m.headers == Some(OrElse(old(m.headers), []) + ExceptionHeaders(e.value, reason, m.id, listenerQueue, db.timeOfFailure)))
      ensures e.None? ==> (thrown.Some? && thrown.value.kind == NullReference &&
        m.headers == Some(OrElse(old(m.headers), []) + [HeaderInfo(ReasonKey, reason)]))
      ensures ViewOf(m) == old(ViewOf(m)).(headers := m.headers)
      ensures m.messages == old(m.messages) && m.timeSent == old(m.timeSent)
    {
      var hs := OrElse(m.headers, []);
      if e.None? {
        m.headers := Some(hs + [HeaderInfo(ReasonKey, reason)]);
        return Some(Simple(NullReference, "System.NullReferenceException", ""));
      }
      m.headers := Some(hs + ExceptionHeaders(e.value, reason, m.id, listenerQueue, db.timeOfFailure));
      return None;
    }

    /**
     * SendFailureMessage: marks the envelope FaultNotification, adds the exception
     * headers and sends it to the fault destinations; a failed send is rethrown as
     * InvalidOperationException.
     */
    method SendFailureMessage(m: TransportMessage, e: ExcRef, reason: string, ser: Serializer, db: Database) returns (events: seq<TEvent>, thrown: ExcRef)
      modifies m
      ensures events == Notify(listenerQueue, faultForwardDestinations, old(ViewOf(m)), e, reason, ser, db)
      ensures e.None? ==> thrown.Some?
      ensures e.Some? ==> (thrown.Some? <==> SendFault(faultForwardDestinations, db).Some?)
      ensures m.messageIntent == FaultNotification && m.headers.Some?
    {
      m.messageIntent := FaultNotification;
      thrown := SetExceptionHeaders(m, e, reason, db);
      if thrown.Some? {
        return [], thrown;
      }
      var sendFault;
      events, sendFault := SendEnvelope(m, faultForwardDestinations, ser, db);
      if sendFault.Some? {
        return events, Some(InvalidOperationException("Could not forward failed message to error queue"));
      }
    }

    /** WriteFailedMessage: one error-table record; a failure to write it is swallowed. */
    method WriteFailedMessage(m: TransportMessage, e: ExcRef, body: string, headers: string, db: Database) returns (events: seq<TEvent>)
      ensures events == PoisonRun(listenerQueue, ViewOf(m), e, body, headers, db)
    {
      if db.poisonWriteFails || m.returnAddress.None? {
        return [];
      }
      return [PoisonRecord(listenerQueue, ViewOf(m), e, body, headers)];
    }

    /**
     * The try block of OnSerializationFailed and of ProcessMessage's max-retries branch:
     * error table, MessageFault, SendFailureMessage; every exception is swallowed.
     */
    method ReportFault(m: TransportMessage, ghost v: View, e: ExcRef, reason: string, body: string, headers: string,
                       ser: Serializer, db: Database, faultSubscriber: ExcRef) returns (events: seq<TEvent>)
      requires v == ViewOf(m)
      modifies m
      ensures events == FaultRun(listenerQueue, faultForwardDestinations, v, e, reason,
                                 body, headers, ser, db, faultSubscriber)
    {
      events := WriteFailedMessage(m, e, body, headers, db);
      events := events + [MessageFault(m.id, e, reason)];
      if faultSubscriber.Some? {
        return;
      }
      var notified, ignored := SendFailureMessage(m, e, reason, ser, db);
      events := events + notified;
    }

    /** The finally block of the read: the permit goes back and the flag records it. */
    method ReleasePermit()
      modifies this
      ensures trace == old(trace) + [TEvent.ReleasePermit] && permits == old(permits) + 1 && releasedWaitLock
      ensures Config() == old(Config()) && needToAbort == old(needToAbort) && messageId == old(messageId)
    {
      permits := permits + 1;
      releasedWaitLock := true;
      trace := trace + [TEvent.ReleasePermit];
    }

    /** HandledMaxRetries: at the ceiling, hands back the last exception and clears both maps. */
    method HandledMaxRetries(id: string) returns (atCeiling: bool, last: ExcRef)
      requires Valid()
      modifies failures
      ensures Valid()
      ensures Take(atCeiling, last, failures.Snapshot()) == TakeAtCeiling(old(failures.Snapshot()), id, maxRetries)
    {
      atCeiling, last := failures.TakeIfAtCeiling(id, maxRetries);
    }

    /**
     * ProcessMessage: StartedMessageProcessing, then the retry ceiling, then the started
     * exception, then dispatch with abort, handling and module exceptions in that order.
     */
    method ProcessMessage(m: TransportMessage, ghost v: View, bodyString: string, headersString: string,
                          ser: Serializer, db: Database, s: Subscribers, faultSubscriber: ExcRef)
      returns (thrown: ExcRef, ghost reported: seq<TEvent>)
      requires Valid() && !needToAbort && v == ViewOf(m)
      modifies this, failures, m
      ensures Valid()
      ensures var r := ProcessMessageRun(old(m.id), old(m.idForCorrelation), old(failures.Snapshot()), maxRetries, s, reported);
        trace == old(trace) + r.events && thrown == r.thrown && failures.Snapshot() == r.counts
      ensures reported == FaultRun(listenerQueue, faultForwardDestinations, v,
                                   TakeAtCeiling(old(failures.Snapshot()), old(m.id), maxRetries).last, ProcessingFailed,
                                   bodyString, headersString, ser, db, faultSubscriber)
      ensures messageId == old(m.id) && Config() == old(Config())
      ensures releasedWaitLock == old(releasedWaitLock) && permits == old(permits)
    {
      var id := m.id;
      messageId := id;
      trace := trace + [StartedProcessing(id, m.idForCorrelation)];
      var fromStarted := s.started;
      var atCeiling, last := HandledMaxRetries(id);
      reported := FaultRun(listenerQueue, faultForwardDestinations, v, last, ProcessingFailed,
                           bodyString, headersString, ser, db, faultSubscriber);
      if atCeiling {
        MaxRetriesReached(m, v, last, bodyString, headersString, ser, db, faultSubscriber);
        return None, reported;
      }
      if fromStarted.Some? {
        return fromStarted, reported;
      }
      thrown := Dispatch(id, s);
    }

    /** ProcessMessage's max-retries branch: the fault run, then FinishedMessageProcessing with its exception ignored. */
    method MaxRetriesReached(m: TransportMessage, ghost v: View, last: ExcRef, bodyString: string, headersString: string,
                             ser: Serializer, db: Database, faultSubscriber: ExcRef)
      requires v == ViewOf(m)
      modifies this, m
      ensures trace == old(trace) + FaultRun(listenerQueue, faultForwardDestinations, v, last, ProcessingFailed,
                                             bodyString, headersString, ser, db, faultSubscriber) + [FinishedProcessing]
      ensures Config() == old(Config()) && Flags() == old(Flags())
    {
      var reported := ReportFault(m, v, last, ProcessingFailed, bodyString, headersString, ser, db, faultSubscriber);
      trace := trace + reported + [FinishedProcessing];
    }

    /** The dispatch half of ProcessMessage, once no started subscriber has thrown. */
    method Dispatch(id: string, s: Subscribers) returns (thrown: ExcRef)
      requires !needToAbort
      modifies this
      ensures trace == old(trace) + [MessageReceived(id), FinishedProcessing] && thrown == AfterDispatch(s)
      ensures messageId == old(messageId) && Config() == old(Config())
      ensures releasedWaitLock == old(releasedWaitLock) && permits == old(permits)
    {
      trace := trace + [MessageReceived(id)];
      if s.abortRequested {
        AbortHandlingCurrentMessage();
      }
      var fromHandling := s.received;
      trace := trace + [FinishedProcessing];
      var fromModules := s.finished;
      if needToAbort {
        return Some(AbortException);
      }
      if fromHandling.Some? {
        return fromHandling;
      }
      return fromModules;
    }

    /** The reader's part of ReceiveMessage: a new envelope from the row, and its strings deserialized. */
    static method BuildMessage(row: Row, ser: Serializer) returns (m: TransportMessage, d: Decoding)
      ensures fresh(m) && d == Decode(row, ser) && m.idForCorrelation == ""
      ensures ViewOf(m) == match d
        case Undecodable(_, b) => RowView(row, b, None)
        case Decoded(b, h) => RowView(row, Some(b), h)
    {
      m := new TransportMessage();
      m.id := row.id;
      m.correlationId := Some(row.correlationId);
      m.returnAddress := Some(row.replyToAddress);
      m.messageIntent := row.intent;
      var body := ser.deserializeBody(row.body);
      if body.Failure? {
        return m, Undecodable(body.error, None);
      }
      var a := ToArray(body.value);
      var _ := m.SetBody(a);
      if |row.headers| > 0 {
        var headers := ser.deserializeHeaders(row.headers);
        if headers.Failure? {
          return m, Undecodable(headers.error, Some(body.value));
        }
        m.headers := Some(headers.value);
        return m, Decoded(body.value, Some(headers.value));
      }
      return m, Decoded(body.value, None);
    }

    /** ReceiveMessage: the callback Process runs inside the transaction. */
    method ReceiveMessage(rcv: SqlReceive, ser: Serializer, db: Database, s: Subscribers, faultSubscriber: ExcRef) returns (thrown: ExcRef)
      requires Valid() && !needToAbort && messageId == ""
      modifies this, failures
      ensures Valid()
      ensures var a := SqlAttempt(old(failures.Snapshot()), maxRetries, listenerQueue, faultForwardDestinations, None,
                                  rcv, ser, db, s, faultSubscriber);
        trace == old(trace) + a.events && thrown == a.thrown && failures.Snapshot() == a.counts &&
        messageId == a.messageId && releasedWaitLock && permits == old(permits) + 1
      ensures Config() == old(Config())
    {
      if rcv.ReadFailed? {
        ReleasePermit();
        return Some(rcv.error);
      }
      ghost var reported;
      thrown, reported := ReceiveRow(rcv.row, ser, db, s, faultSubscriber);
    }

    /** ReceiveMessage once the reader has produced a row. */
    method ReceiveRow(row: Row, ser: Serializer, db: Database, s: Subscribers, faultSubscriber: ExcRef)
      returns (thrown: ExcRef, ghost reported: seq<TEvent>)
      requires Valid() && !needToAbort && messageId == ""
      modifies this, failures
      ensures Valid()
      ensures reported == RowReport(old(failures.Snapshot()), maxRetries, listenerQueue, faultForwardDestinations,
                                    row, ser, db, faultSubscriber)
      ensures var a := RowAttempt(old(failures.Snapshot()), maxRetries, row, ser, s, reported);
        trace == old(trace) + a.events && thrown == a.thrown && failures.Snapshot() == a.counts &&
        messageId == a.messageId && releasedWaitLock && permits == old(permits) + 1
      ensures Config() == old(Config())
    {
      var m, d := BuildMessage(row, ser);
      if d.Undecodable? {
        var events := OnSerializationFailed(m, RowView(row, d.partial, None), d.error, row.body, row.headers,
                                            ser, db, faultSubscriber);
        trace := trace + events;
        reported := events;
        ReleasePermit();
        return None, reported;
      }
      thrown, reported := ReceiveDecoded(m, row, d.body, d.headers, ser, db, s, faultSubscriber);
    }

    /** The rest of ReceiveMessage for a decoded row: the finally block, IdForCorrelation, ProcessMessage. */
    method ReceiveDecoded(m: TransportMessage, row: Row, body: seq<Message>, headers: Option<seq<HeaderInfo>>,
                          ser: Serializer, db: Database, s: Subscribers, faultSubscriber: ExcRef)
      returns (thrown: ExcRef, ghost reported: seq<TEvent>)
      requires Valid() && !needToAbort
      requires ViewOf(m) == RowView(row, Some(body), headers) && m.idForCorrelation == ""
      modifies this, failures, m
      ensures Valid()
      ensures reported == FaultRun(listenerQueue, faultForwardDestinations, RowView(row, Some(body), headers),
                                   TakeAtCeiling(old(failures.Snapshot()), row.id, maxRetries).last, ProcessingFailed,
                                   row.body, row.headers, ser, db, faultSubscriber)
      ensures var r := ProcessMessageRun(row.id, row.id, old(failures.Snapshot()), maxRetries, s, reported);
        trace == old(trace) + [TEvent.ReleasePermit] + r.events && thrown == r.thrown && failures.Snapshot() == r.counts &&
        messageId == row.id && releasedWaitLock && permits == old(permits) + 1
      ensures Config() == old(Config())
    {
      ReleasePermit();
      if m.idForCorrelation == "" {
        m.idForCorrelation := m.id;
      }
      thrown, reported := ProcessMessage(m, RowView(row, Some(body), headers), row.body, row.headers, ser, db, s, faultSubscriber);
    }

    /** OnSerializationFailed: the fault run with reason SerializationFailed. */
    method OnSerializationFailed(m: TransportMessage, ghost v: View, e: Exception, body: string, headers: string,
                                 ser: Serializer, db: Database, faultSubscriber: ExcRef) returns (events: seq<TEvent>)
      requires v == ViewOf(m)
      modifies m
      ensures events == FaultRun(listenerQueue, faultForwardDestinations, v, Some(e), SerializationFailedReason,
                                 body, headers, ser, db, faultSubscriber)
    {
      events := ReportFault(m, v, Some(e), SerializationFailedReason, body, headers, ser, db, faultSubscriber);
    }

    /** One worker iteration. */
    method Process(wrapperFault: ExcRef, rcv: SqlReceive, ser: Serializer, db: Database, s: Subscribers, faultSubscriber: ExcRef)
      requires Valid()
      modifies this, failures
      ensures Valid()
      ensures var r := SqlProcessRun(old(failures.Snapshot()), maxRetries, listenerQueue, faultForwardDestinations,
                                     wrapperFault, rcv, ser, db, s, faultSubscriber);
        trace == old(trace) + r.events && failures.Snapshot() == r.counts
      ensures permits == old(permits) && Config() == old(Config())
    {
      ghost var c := failures.Snapshot();
      ghost var start := trace;
      releasedWaitLock := false;
      needToAbort := false;
      messageId := "";
      permits := permits - 1;
      trace := trace + [WaitPermit];
      var thrown: ExcRef;
      if wrapperFault.Some? {
        thrown := wrapperFault;
      } else {
        thrown := ReceiveMessage(rcv, ser, db, s, faultSubscriber);
      }
      ghost var a := SqlAttempt(c, maxRetries, listenerQueue, faultForwardDestinations, wrapperFault, rcv, ser, db, s, faultSubscriber);
      Conclude(thrown, a, start);
    }

    /** Process's catch blocks and finally block, for the attempt `a` that has run. */
    method Conclude(thrown: ExcRef, ghost a: Attempt, ghost start: seq<TEvent>)
      requires Valid() && Consistent(a.counts)
      requires trace == start + [WaitPermit] + a.events && thrown == a.thrown
      requires failures.Snapshot() == a.counts && messageId == a.messageId && releasedWaitLock == a.released
      modifies this, failures
      ensures Valid()
      ensures trace == start + Settle(a).events && failures.Snapshot() == Settle(a).counts
      ensures permits == old(permits) + (if a.released then 0 else 1) && Config() == old(Config())
    {
      SettleCounts(a);
      var tail: seq<TEvent> := [];
      if thrown.None? {
        failures.ClearFailuresForMessage(messageId);
      } else if thrown.value.kind != AbortHandling {
        var original := OriginalOf(thrown.value);
        failures.IncrementFailuresForMessage(messageId, original);
        tail := [FailedProcessing(original)];
      }
      if !releasedWaitLock {
        permits := permits + 1;
        tail := tail + [TEvent.ReleasePermit];
      }
      trace := trace + tail;
      assert trace == start + ([WaitPermit] + a.events + tail);
    }

    /**
     * ReceiveMessages: handles `messages` as if they had come off the bus, under the
     * fresh id the database hands out and the given correlation id, leaving the
     * failure dictionaries and the permit alone.
     */
    method ReceiveMessages(messages: array?<Message>, headers: Option<seq<HeaderInfo>>, wrapperFault: ExcRef,
                           correlation: string, db: Database, s: Subscribers) returns (thrown: ExcRef)
      modifies this
      ensures var r := InjectRun(wrapperFault, messages != null, headers.Some?, db.freshId, s);
        trace == old(trace) + r.0 && thrown == r.1
      ensures messageId == "" && permits == old(permits) && releasedWaitLock == old(releasedWaitLock)
      ensures Config() == old(Config())
    {
      needToAbort := false;
      messageId := "";
      var inner: ExcRef;
      if wrapperFault.Some? {
        inner := wrapperFault;
      } else {
        var m, built := InjectedMessage(messages, headers, db.freshId, correlation, db.now);
        if built.Some? {
          inner := built;
        } else {
          inner := Dispatch(db.freshId, s);
        }
      }
      ghost var before := trace;
      if inner.None? || inner.value.kind == AbortHandling {
        return None;
      }
      trace := trace + [FailedProcessing(OriginalOf(inner.value))];
      assert trace == old(trace) + (before[|old(trace)|..] + [FailedProcessing(OriginalOf(inner.value))]);
      return inner;
    }
  }
}
