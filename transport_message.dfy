/**
 * The envelope a transport carries: TransportMessage with its auto-properties as
 * fields, and the Body array kept in step with the Messages list only where the
 * setters and CopyMessagesToBody say so.
 *
 * A string property the code leaves null is modelled as the empty string, except
 * CorrelationId, whose null the buses set on purpose, and ReturnAddress, whose null
 * MessageContext dereferences; those two, and a null Headers or Messages list, are
 * None.
 */
module Envelopes {
  import opened Wrappers
  import opened Exceptions
  import opened TypeGraphs

  /** MessageIntentEnum, with the FaultNotification value the SQL transport sets. */
  datatype Intent = Send | Publish | Subscribe | Unsubscribe | FaultNotification

  datatype HeaderInfo = HeaderInfo(key: string, value: string)

  /** TimeSpan.MaxValue, in ticks. */
  const MaxTimeSpan: int := 0x7FFF_FFFF_FFFF_FFFF

  class TransportMessage {
    var id: string
    var idForCorrelation: string
    var correlationId: Option<string>
    var returnAddress: Option<string>
    var windowsIdentityName: string
    var recoverable: bool
    var messageIntent: Intent
    var timeToBeReceived: int
    var timeSent: int
    var headers: Option<seq<HeaderInfo>>
    var body: array?<Message>
    var messages: Option<seq<Message>>

    /** A new envelope: everything null or default, and TimeToBeReceived at its maximum. */
    constructor ()
      ensures id == "" && idForCorrelation == "" && correlationId == None
      ensures returnAddress == None && windowsIdentityName == "" && !recoverable
      ensures messageIntent == Send && timeToBeReceived == MaxTimeSpan && timeSent == 0
      ensures headers == None && body == null && messages == None
    {
      id := "";
      idForCorrelation := "";
      correlationId := None;
      returnAddress := None;
      windowsIdentityName := "";
      recoverable := false;
      messageIntent := Send;
      timeToBeReceived := MaxTimeSpan;
      timeSent := 0;
      headers := None;
      body := null;
      messages := None;
    }

    /**
     * The Body setter: keeps the array and makes Messages a list of the same elements. A
     * null array is stored, then copying it throws ArgumentNullException and Messages stays.
     */
    method SetBody(b: array?<Message>) returns (thrown: ExcRef)
      modifies this
      ensures body == b
      ensures b == null ==> thrown == Some(ArgumentNullException("collection")) && messages == old(messages)
      ensures b != null ==> thrown.None? && messages == Some(b[..])
      ensures id == old(id) && idForCorrelation == old(idForCorrelation)
      ensures correlationId == old(correlationId) && returnAddress == old(returnAddress)
      ensures messageIntent == old(messageIntent) && headers == old(headers)
      ensures timeToBeReceived == old(timeToBeReceived) && timeSent == old(timeSent)
      ensures windowsIdentityName == old(windowsIdentityName) && recoverable == old(recoverable)
    {
      body := b;
      if b == null {
        return Some(ArgumentNullException("collection"));
      }
      messages := Some(b[..]);
      return None;
    }

    /** The Messages setter: Body is left as it was. */
    method SetMessages(ms: Option<seq<Message>>)
      modifies this
      ensures messages == ms && body == old(body)
      ensures id == old(id) && idForCorrelation == old(idForCorrelation)
      ensures correlationId == old(correlationId) && returnAddress == old(returnAddress)
      ensures messageIntent == old(messageIntent) && headers == old(headers)
      ensures timeToBeReceived == old(timeToBeReceived) && timeSent == old(timeSent)
      ensures windowsIdentityName == old(windowsIdentityName) && recoverable == old(recoverable)
    {
      messages := ms;
    }

    /** The TimeToBeReceived setter. */
    method SetTimeToBeReceived(t: int)
      modifies this
      ensures timeToBeReceived == t
      ensures body == old(body) && messages == old(messages) && headers == old(headers)
      ensures id == old(id) && idForCorrelation == old(idForCorrelation)
      ensures correlationId == old(correlationId) && returnAddress == old(returnAddress)
      ensures messageIntent == old(messageIntent) && timeSent == old(timeSent)
      ensures windowsIdentityName == old(windowsIdentityName) && recoverable == old(recoverable)
    {
      timeToBeReceived := t;
    }

    /**
     * CopyMessagesToBody: a new array holding Messages in order. A null Messages list
     * is dereferenced, so the call throws and nothing changes.
     */
    method CopyMessagesToBody() returns (thrown: ExcRef)
      modifies this
      ensures old(messages).None? ==> thrown.Some? && thrown.value.kind == NullReference && body == old(body)
      ensures old(messages).Some? ==> thrown.None? && fresh(body) && body[..] == old(messages).value
      ensures messages == old(messages) && headers == old(headers)
      ensures id == old(id) && idForCorrelation == old(idForCorrelation)
      ensures correlationId == old(correlationId) && returnAddress == old(returnAddress)
      ensures messageIntent == old(messageIntent)
      ensures timeToBeReceived == old(timeToBeReceived) && timeSent == old(timeSent)
      ensures windowsIdentityName == old(windowsIdentityName) && recoverable == old(recoverable)
    {
      if messages.None? {
        return Some(Simple(NullReference, "System.NullReferenceException", ""));
      }
      body := ToArray(messages.value);
      return None;
    }
  }

  /**
   * The envelope a transport's ReceiveMessages builds around messages handed to it
   * directly: the given ids and send time, intent Send, the caller's array as Body
   * (so Messages lists its elements) and a copy of the given headers; ReturnAddress
   * stays null. A null array
   * makes the Body setter throw, and a null header sequence makes ToList throw, both
   * with ArgumentNullException; then no envelope comes out.
   */
  method InjectedMessage(messages: array?<Message>, headers: Option<seq<HeaderInfo>>, id: string, correlation: string, time: int)
    returns (m: TransportMessage?, thrown: ExcRef)
    ensures thrown.Some? <==> messages == null || headers.None?
    ensures thrown.Some? ==> m == null && thrown == Some(ArgumentNullException(if messages == null then "collection" else "source"))
    ensures thrown.None? ==> (fresh(m) && m.id == id && m.idForCorrelation == correlation && m.timeSent == time &&
      m.messageIntent == Send && m.body == messages && m.messages == Some(messages[..]) && m.headers == headers &&
      m.correlationId == None && m.returnAddress == None && m.timeToBeReceived == MaxTimeSpan)
  {
    if messages == null {
      return null, Some(ArgumentNullException("collection"));
    }
    if headers.None? {
      return null, Some(ArgumentNullException("source"));
    }
    m := new TransportMessage();
    m.id := id;
    m.idForCorrelation := correlation;
    thrown := m.SetBody(messages);
    m.timeSent := time;
    m.messageIntent := Send;
    m.headers := headers;
    return m, thrown;
  }

  /** A fresh array holding `ms` in order: what a deserializer's object[] result is. */
  method ToArray(ms: seq<Message>) returns (a: array<Message>)
    ensures fresh(a) && a[..] == ms
  {
    a := new Message[|ms|];
    var i := 0;
    while i < |ms|
      invariant 0 <= i <= |ms|
      invariant a[..i] == ms[..i]
    {
      a[i] := ms[i];
      i := i + 1;
    }
  }
}
