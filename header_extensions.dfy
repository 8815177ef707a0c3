/**
 * The core library's MessageBusExtensionsMethods: copying the current message's
 * headers into the outgoing ones (a no-op without a current message), reading a
 * header of the current message, and setting an outgoing header.
 */
module HeaderExtensions {
  import opened Wrappers
  import opened Seqs
  import opened Exceptions
  import opened Envelopes
  import opened MessageContexts

  /**
   * What GetHeader returns: the current message's value for `key`, or "" when it
   * has no such header; a missing current message dereferences null, and the
   * Headers dictionary fails on a null header list or a repeated key.
   */
  predicate GetHeaderMeans(bus: BusHeaders, key: string, r: Result<string, Exception>)
    reads bus, bus.messageBeingHandled
  {
    (bus.messageBeingHandled == null ==> r == Failure(NullReferenceException())) &&
    (bus.messageBeingHandled != null ==>
      var headers := bus.messageBeingHandled.headers;
      (r.Success? <==> headers.Some? && NoDup(KeysOf(headers.value))) &&
      (headers.None? ==> r == Failure(ArgumentNullException("source"))) &&
      (r.Success? ==>
        var hs := headers.value;
        (forall i :: 0 <= i < |hs| && hs[i].key == key ==> r.value == hs[i].value) &&
        ((forall i :: 0 <= i < |hs| ==> hs[i].key != key) ==> r.value == "")))
  }

  /** The value GetHeader reads from a current message with header list `headers`. */
  function HeaderValue(headers: Option<seq<HeaderInfo>>, key: string): Result<string, Exception> {
    var h := HeaderDictionary(headers);
    if h.Failure? then Failure(h.error)
    else Success(if key in h.value then h.value[key] else "")
  }

  function GetHeader(bus: BusHeaders, key: string): (r: Result<string, Exception>)
    reads bus, bus.messageBeingHandled
    ensures GetHeaderMeans(bus, key, r)
  {
    if bus.messageBeingHandled == null then Failure(NullReferenceException())
    else HeaderValue(bus.messageBeingHandled.headers, key)
  }

  /**
   * Copies the dictionary `h` into OutgoingHeaders, one key at a time in no particular
   * order (the enumeration order of a Dictionary): every key of `h` ends up with its
   * value, and every other outgoing header is left as it was.
   */
  method CopyInto(bus: BusHeaders, h: map<string, string>)
    modifies bus
    ensures bus.outgoingHeaders == old(bus.outgoingHeaders) + h
    ensures bus.messageBeingHandled == old(bus.messageBeingHandled)
  {
    var remaining := h.Keys;
    while remaining != {}
      invariant remaining <= h.Keys
      invariant bus.messageBeingHandled == old(bus.messageBeingHandled)
      invariant bus.outgoingHeaders == old(bus.outgoingHeaders) + map k | k in h.Keys - remaining :: h[k]
      decreases |remaining|
    {
      var k :| k in remaining;
      bus.outgoingHeaders := bus.outgoingHeaders[k := h[k]];
      remaining := remaining - {k};
    }
  }

  /**
   * CopyHeadersFromRequest: without a current message nothing happens; otherwise the
   * message's headers overwrite the outgoing ones of the same key and the rest stay,
   * so each copied header reads back through GetHeader; a Headers dictionary that
   * cannot be built throws before anything is copied.
   */
  method CopyHeadersFromRequest(bus: BusHeaders) returns (thrown: ExcRef)
    modifies bus
    ensures bus.messageBeingHandled == old(bus.messageBeingHandled)
    ensures old(bus.ContextHeaders()).None? ==> thrown.None? && bus.outgoingHeaders == old(bus.outgoingHeaders)
    ensures old(bus.ContextHeaders()).Some? && old(bus.ContextHeaders()).value.Failure? ==>
      thrown == Some(old(bus.ContextHeaders()).value.error) && bus.outgoingHeaders == old(bus.outgoingHeaders)
    ensures old(bus.ContextHeaders()).Some? && old(bus.ContextHeaders()).value.Success? ==>
      var h := old(bus.ContextHeaders()).value.value;
      thrown.None? && bus.outgoingHeaders == old(bus.outgoingHeaders) + h &&
      forall k :: k in h ==> GetHeader(bus, k) == Success(bus.outgoingHeaders[k])
  {
    if bus.messageBeingHandled == null {
      return None;
    }
    var h := HeaderDictionary(bus.messageBeingHandled.headers);
    if h.Failure? {
      return Some(h.error);
    }
    CopyInto(bus, h.value);
    return None;
  }

  /** SetHeader: stores the value under the key, overwriting, and returns it. */
  method SetHeader(bus: BusHeaders, key: string, value: string) returns (r: string)
    modifies bus
    ensures r == value && bus.outgoingHeaders == old(bus.outgoingHeaders)[key := value]
    ensures bus.messageBeingHandled == old(bus.messageBeingHandled)
  {
    bus.outgoingHeaders := bus.outgoingHeaders[key := value];
    return value;
  }
}

/**
 * The interfaces library's MessageBusExtensionsMethods: the same three members, but
 * CopyHeaderFromRequest has no guard, so without a current message it dereferences
 * null and copies nothing.
 */
module InterfaceHeaderExtensions {
  import opened Wrappers
  import opened Exceptions
  import opened MessageContexts
  import HeaderExtensions

  method CopyHeaderFromRequest(bus: BusHeaders) returns (thrown: ExcRef)
    modifies bus
    ensures bus.messageBeingHandled == old(bus.messageBeingHandled)
    ensures old(bus.ContextHeaders()).None? ==>
      thrown == Some(NullReferenceException()) && bus.outgoingHeaders == old(bus.outgoingHeaders)
    ensures old(bus.ContextHeaders()).Some? && old(bus.ContextHeaders()).value.Failure? ==>
      thrown == Some(old(bus.ContextHeaders()).value.error) && bus.outgoingHeaders == old(bus.outgoingHeaders)
    ensures old(bus.ContextHeaders()).Some? && old(bus.ContextHeaders()).value.Success? ==>
      thrown.None? && bus.outgoingHeaders == old(bus.outgoingHeaders) + old(bus.ContextHeaders()).value.value
  {
    if bus.messageBeingHandled == null {
      return Some(NullReferenceException());
    }
    thrown := HeaderExtensions.CopyHeadersFromRequest(bus);
  }

  function GetHeader(bus: BusHeaders, key: string): (r: Result<string, Exception>)
    reads bus, bus.messageBeingHandled
    ensures HeaderExtensions.GetHeaderMeans(bus, key, r)
  {
    HeaderExtensions.GetHeader(bus, key)
  }

  method SetHeader(bus: BusHeaders, key: string, value: string) returns (r: string)
    modifies bus
    ensures r == value && bus.outgoingHeaders == old(bus.outgoingHeaders)[key := value]
    ensures bus.messageBeingHandled == old(bus.messageBeingHandled)
  {
    r := HeaderExtensions.SetHeader(bus, key, value);
  }
}

/**
 * The interfaces library's ServiceBusExtensionsMethods: the interfaces library's
 * three members again, over IServiceBus.
 */
module ServiceBusHeaderExtensions {
  import opened Wrappers
  import opened Exceptions
  import opened MessageContexts
  import HeaderExtensions
  import InterfaceHeaderExtensions

  method CopyHeaderFromRequest(bus: BusHeaders) returns (thrown: ExcRef)
    modifies bus
    ensures bus.messageBeingHandled == old(bus.messageBeingHandled)
    ensures old(bus.ContextHeaders()).None? ==>
      thrown == Some(NullReferenceException()) && bus.outgoingHeaders == old(bus.outgoingHeaders)
    ensures old(bus.ContextHeaders()).Some? && old(bus.ContextHeaders()).value.Failure? ==>
      thrown == Some(old(bus.ContextHeaders()).value.error) && bus.outgoingHeaders == old(bus.outgoingHeaders)
    ensures old(bus.ContextHeaders()).Some? && old(bus.ContextHeaders()).value.Success? ==>
      thrown.None? && bus.outgoingHeaders == old(bus.outgoingHeaders) + old(bus.ContextHeaders()).value.value
  {
    thrown := InterfaceHeaderExtensions.CopyHeaderFromRequest(bus);
  }

  function GetHeader(bus: BusHeaders, key: string): (r: Result<string, Exception>)
    reads bus, bus.messageBeingHandled
    ensures HeaderExtensions.GetHeaderMeans(bus, key, r)
  {
    HeaderExtensions.GetHeader(bus, key)
  }

  method SetHeader(bus: BusHeaders, key: string, value: string) returns (r: string)
    modifies bus
    ensures r == value && bus.outgoingHeaders == old(bus.outgoingHeaders)[key := value]
    ensures bus.messageBeingHandled == old(bus.messageBeingHandled)
  {
    r := HeaderExtensions.SetHeader(bus, key, value);
  }
}
