/** DispatchExtensions: the reflection tests that recognise handler classes, handler interfaces and Handle methods. */
module DispatchExtensions {
  import opened Wrappers
  import opened Seqs
  import opened TypeGraphs

  const HandleMethodName := "Handle"

  /** The type is a closed IMessageHandler<X>. */
  predicate IsMessageHandlerInterfaceType(g: TypeGraph, t: TypeId) {
    t in g.types && g.types[t].genericDefinition == Some(g.handlerDefinition)
  }

  /** The type is IMessageHandler<X> with X assignable to messageType (X is messageType or one of its subtypes). */
  predicate IsMessageHandlerInterfaceTypeClosedBy(g: TypeGraph, t: TypeId, messageType: TypeId) {
    IsMessageHandlerInterfaceType(g, t)
    && IsAssignableFrom(g, messageType, GenericArgumentOrNull(g.types[t]))
  }

  /** A concrete class implementing some IMessageHandler<X>. */
  predicate IsMessageHandlerClassType(g: TypeGraph, t: TypeId) {
    t in g.types && g.types[t].isClass && !g.types[t].isAbstract
    && exists i :: i in g.types[t].interfaces && IsMessageHandlerInterfaceType(g, i)
  }

  /** A concrete class implementing IMessageHandler<X> for some X assignable to messageType. */
  predicate IsMessageHandlerClassTypeForMessageType(g: TypeGraph, t: TypeId, messageType: TypeId) {
    t in g.types && g.types[t].isClass && !g.types[t].isAbstract
    && exists i :: i in g.types[t].interfaces && IsMessageHandlerInterfaceTypeClosedBy(g, i, messageType)
  }

  /** A public method named Handle with one parameter whose type is assignable to messageType. */
  predicate IsHandleMethodForMessageType(g: TypeGraph, m: MethodInfo, messageType: TypeId) {
    m.name == HandleMethodName && m.isPublic && |m.parameters| == 1
    && IsAssignableFrom(g, messageType, Some(m.parameters[0]))
  }

  /** The generic interface t is, or extends, IMessageHandler<a>. */
  predicate HandlesArgument(g: TypeGraph, t: TypeId, a: TypeId) {
    exists h :: h in g.types && g.types[h].genericDefinition == Some(g.handlerDefinition)
      && g.types[h].genericArguments == [a] && IsAssignableFrom(g, h, Some(t))
  }

  /** Whether the interface at position k contributes its single generic argument. */
  predicate Yields(g: TypeGraph, t: TypeId) {
    t in g.types && g.types[t].genericDefinition.Some? && |g.types[t].genericArguments| == 1
    && HandlesArgument(g, t, g.types[t].genericArguments[0])
  }

  /**
   * GetMessageTypesIfIsMessageHandler: for each implemented generic interface with one
   * argument that is, or extends, IMessageHandler of that argument, the argument, in order.
   */
  function MessageTypesOf(g: TypeGraph, interfaces: seq<TypeId>): (r: seq<TypeId>)
    ensures forall x :: x in r <==> exists k :: 0 <= k < |interfaces| && Yields(g, interfaces[k])
                                     && g.types[interfaces[k]].genericArguments[0] == x
    ensures |r| <= |interfaces|
  {
    if interfaces == [] then []
    else
      var rest := MessageTypesOf(g, interfaces[1..]);
      assert forall k :: 1 <= k < |interfaces| ==> interfaces[k] == interfaces[1..][k - 1];
      if Yields(g, interfaces[0]) then [g.types[interfaces[0]].genericArguments[0]] + rest else rest
  }

  function GetMessageTypesIfIsMessageHandler(g: TypeGraph, t: TypeId): seq<TypeId>
    requires t in g.types
  {
    MessageTypesOf(g, g.types[t].interfaces)
  }

  /** A handler class that closes IMessageHandler directly over X reports X among its message types. */
  lemma DirectHandlerInterfaceYieldsItsArgument(g: TypeGraph, t: TypeId, i: TypeId)
    requires WellFormed(g) && t in g.types
    requires i in g.types[t].interfaces && IsMessageHandlerInterfaceType(g, i)
    ensures GenericArgumentOrNull(g.types[i]).Some?
    ensures GenericArgumentOrNull(g.types[i]).value in GetMessageTypesIfIsMessageHandler(g, t)
  {
    assert WellFormedType(g, i);
    var a := g.types[i].genericArguments[0];
    assert g.types[i].genericArguments == [a];
    assert HandlesArgument(g, i, a);
    var k :| 0 <= k < |g.types[t].interfaces| && g.types[t].interfaces[k] == i;
    assert Yields(g, g.types[t].interfaces[k]);
  }

  /** A handler for a particular message type is a handler class. */
  lemma ForMessageTypeIsHandlerClass(g: TypeGraph, t: TypeId, messageType: TypeId)
    requires IsMessageHandlerClassTypeForMessageType(g, t, messageType)
    ensures IsMessageHandlerClassType(g, t)
  {
    var i :| i in g.types[t].interfaces && IsMessageHandlerInterfaceTypeClosedBy(g, i, messageType);
    assert IsMessageHandlerInterfaceType(g, i);
  }

  /**
   * The direction of the closed-by test: a handler of X is also a handler for every
   * supertype of X, never for a subtype. Registering under a base type therefore
   * collects the handlers of all its subtypes.
   */
  lemma HandlerForSubtypeServesSupertype(g: TypeGraph, t: TypeId, x: TypeId, m: TypeId)
    requires WellFormed(g)
    requires IsMessageHandlerClassTypeForMessageType(g, t, x)
    requires IsAssignableFrom(g, m, Some(x))
    ensures IsMessageHandlerClassTypeForMessageType(g, t, m)
  {
    var i :| i in g.types[t].interfaces && IsMessageHandlerInterfaceTypeClosedBy(g, i, x);
    var arg := GenericArgumentOrNull(g.types[i]);
    if arg.value != x && x != m {
      assert WellFormedType(g, arg.value);
    }
    assert IsMessageHandlerInterfaceTypeClosedBy(g, i, m);
  }

  /** The same direction for the Handle method's parameter. */
  lemma HandleMethodForSubtypeServesSupertype(g: TypeGraph, meth: MethodInfo, x: TypeId, m: TypeId)
    requires WellFormed(g)
    requires IsHandleMethodForMessageType(g, meth, x)
    requires IsAssignableFrom(g, m, Some(x))
    ensures IsHandleMethodForMessageType(g, meth, m)
  {
    if meth.parameters[0] != x && x != m {
      assert WellFormedType(g, meth.parameters[0]);
    }
  }
}
