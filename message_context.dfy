/**
 * MessageContext: the read-only view of the envelope being handled that the bus hands
 * out as CurrentMessageContext, and BusHeaders, the two members of the bus interface
 * the header extension methods use: OutgoingHeaders and the envelope behind
 * CurrentMessageContext.
 */
module MessageContexts {
  import opened Wrappers
  import opened Seqs
  import opened Exceptions
  import opened Envelopes

  /** The keys of a header list, in order. */
  function KeysOf(hs: seq<HeaderInfo>): (r: seq<string>)
    ensures |r| == |hs| && forall i :: 0 <= i < |hs| ==> r[i] == hs[i].key
  {
    seq(|hs|, i requires 0 <= i < |hs| => hs[i].key)
  }

  const DuplicateKeyMessage: string := "An item with the same key has already been added."

  /** Enumerable.ToDictionary(x => x.Key, x => x.Value): entries are added in order and a repeated key throws. */
  function ToDictionary(hs: seq<HeaderInfo>): Result<map<string, string>, Exception>
  {
    if hs == [] then Success(map[])
    else
      var p := ToDictionary(hs[..|hs| - 1]);
      var last := hs[|hs| - 1];
      if p.Failure? then p
      else if last.key in p.value then Failure(ArgumentException(DuplicateKeyMessage))
      else Success(p.value[last.key := last.value])
  }

  /**
   * The dictionary is built exactly when the keys are distinct; it then has exactly
   * the listed keys, each with its header's value; otherwise the duplicate key throws
   * ArgumentException.
   */
  lemma {:induction false} ToDictionaryFacts(hs: seq<HeaderInfo>)
    ensures ToDictionary(hs).Success? <==> NoDup(KeysOf(hs))
    ensures ToDictionary(hs).Failure? ==> ToDictionary(hs).error == ArgumentException(DuplicateKeyMessage)
    ensures ToDictionary(hs).Success? ==>
      (forall k :: k in ToDictionary(hs).value <==> k in KeysOf(hs)) &&
      (forall i :: 0 <= i < |hs| ==> ToDictionary(hs).value[hs[i].key] == hs[i].value)
  {
    if hs != [] {
      var init := hs[..|hs| - 1];
      var last := hs[|hs| - 1];
      ToDictionaryFacts(init);
      assert KeysOf(hs) == KeysOf(init) + [last.key];
      NoDupSnoc(KeysOf(init), last.key);
      var p := ToDictionary(init);
      if p.Success? && last.key !in p.value {
        forall i | 0 <= i < |hs| ensures ToDictionary(hs).value[hs[i].key] == hs[i].value {
          if i < |init| {
            assert hs[i] == init[i];
            assert hs[i].key in KeysOf(init);
          }
        }
      }
    }
  }

  /** A Headers read: ToDictionary over the envelope's header list; a null list throws ArgumentNullException. */
  function HeaderDictionary(headers: Option<seq<HeaderInfo>>): (r: Result<map<string, string>, Exception>)
    ensures r.Success? <==> headers.Some? && NoDup(KeysOf(headers.value))
    ensures headers.None? ==> r == Failure(ArgumentNullException("source"))
    ensures headers.Some? && r.Failure? ==> r.error == ArgumentException(DuplicateKeyMessage)
    ensures r.Success? ==>
      (forall k :: k in r.value <==> k in KeysOf(headers.value)) &&
      (forall i :: 0 <= i < |headers.value| ==> r.value[headers.value[i].key] == headers.value[i].value)
  {
    if headers.None? then Failure(ArgumentNullException("source"))
    else
      ToDictionaryFacts(headers.value);
      ToDictionary(headers.value)
  }

  /** System.Guid, known by the text it was parsed from. */
  datatype Guid = Guid(text: string)

  class MessageContext {
    const transportMessage: TransportMessage

    constructor (transportMessage: TransportMessage)
      ensures this.transportMessage == transportMessage
    {
      this.transportMessage := transportMessage;
    }

    /** Headers: a new dictionary of the envelope's headers on every read. */
    function Headers(): (r: Result<map<string, string>, Exception>)
      reads transportMessage
      ensures r.Success? <==> transportMessage.headers.Some? && NoDup(KeysOf(transportMessage.headers.value))
      ensures r.Success? ==>
        var hs := transportMessage.headers.value;
        (forall k :: k in r.value <==> k in KeysOf(hs)) &&
        (forall i :: 0 <= i < |hs| ==> r.value[hs[i].key] == hs[i].value)
    {
      HeaderDictionary(transportMessage.headers)
    }

    /** MessageId: the Guid parsed, by `parseGuid`, from IdForCorrelation. Id plays no part. */
    function MessageId(parseGuid: string -> Result<Guid, Exception>): (r: Result<Guid, Exception>)
      reads transportMessage
      ensures r == parseGuid(transportMessage.idForCorrelation)
    {
      parseGuid(transportMessage.idForCorrelation)
    }

    /** ReturnAddress: the envelope's, or NullReferenceException when the envelope has none. */
    function ReturnAddress(): (r: Result<string, Exception>)
      reads transportMessage
      ensures r.Success? <==> transportMessage.returnAddress.Some?
      ensures r.Success? ==> r.value == transportMessage.returnAddress.value
      ensures r.Failure? ==> r.error == NullReferenceException()
    {
      if transportMessage.returnAddress.None? then Failure(NullReferenceException())
      else Success(transportMessage.returnAddress.value)
    }

    function TimeSent(): (r: int)
      reads transportMessage
      ensures r == transportMessage.timeSent
    {
      transportMessage.timeSent
    }
  }

  /** Two contexts over envelopes with the same IdForCorrelation report the same MessageId, whatever their Ids. */
  lemma MessageIdIgnoresId(a: MessageContext, b: MessageContext, parseGuid: string -> Result<Guid, Exception>)
    requires a.transportMessage.idForCorrelation == b.transportMessage.idForCorrelation
    ensures a.MessageId(parseGuid) == b.MessageId(parseGuid)
  {
  }

  /**
   * What the header extension methods see of a bus: its OutgoingHeaders dictionary
   * and the envelope being handled, from which CurrentMessageContext is made (null
   * when no message is being handled).
   */
  class BusHeaders {
    var outgoingHeaders: map<string, string>
    var messageBeingHandled: TransportMessage?

    constructor ()
      ensures outgoingHeaders == map[] && messageBeingHandled == null
    {
      outgoingHeaders := map[];
      messageBeingHandled := null;
    }

    /** CurrentMessageContext.Headers, or None when there is no current context. */
    function ContextHeaders(): (r: Option<Result<map<string, string>, Exception>>)
      reads this, messageBeingHandled
      ensures r.None? <==> messageBeingHandled == null
      ensures r.Some? ==> r.value == HeaderDictionary(messageBeingHandled.headers)
    {
      if messageBeingHandled == null then None else Some(HeaderDictionary(messageBeingHandled.headers))
    }
  }
}
