/**
 * The part of .NET reflection the registry relies on: a closed graph of types in which
 * every type knows its base type, the interfaces it implements, its generic definition
 * and arguments, its public methods and the set of all its proper supertypes.
 */
module TypeGraphs {
  import opened Wrappers
  import opened Seqs

  type TypeId = nat

  /** A message object: its run-time type (GetType()) and an opaque content. */
  datatype Message = Message(typeId: TypeId, content: string)

  datatype MethodInfo = MethodInfo(name: string, isPublic: bool, parameters: seq<TypeId>)

  datatype TypeInfo = TypeInfo(
    fullName: string,                   // the assembly-qualified name
    isClass: bool,
    isInterface: bool,
    isAbstract: bool,
    baseType: Option<TypeId>,           // None for interfaces and for System.Object
    interfaces: seq<TypeId>,            // GetInterfaces(): direct and inherited
    genericDefinition: Option<TypeId>,  // Some for a constructed generic type
    genericArguments: seq<TypeId>,
    methods: seq<MethodInfo>,           // GetMethods()
    ancestors: set<TypeId>)             // every proper supertype: bases and interfaces, transitively

  datatype TypeGraph = TypeGraph(
    types: map<TypeId, TypeInfo>,
    objectType: TypeId,                 // System.Object
    messageMarker: TypeId,              // CWServiceBus.IMessage
    handlerDefinition: TypeId,          // the open generic CWServiceBus.IMessageHandler<>
    controlMessage: TypeId)             // CWServiceBus.Unicast.ControlMessage

  predicate WellFormedType(g: TypeGraph, t: TypeId)
    requires t in g.types
  {
    var info := g.types[t];
    t !in info.ancestors
    && (forall a :: a in info.ancestors ==> a in g.types && g.types[a].ancestors <= info.ancestors)
    && (info.baseType.Some? ==> info.baseType.value in info.ancestors)
    && (forall i :: i in info.interfaces ==> i in info.ancestors && i in g.types && g.types[i].isInterface)
    && (forall i :: 0 <= i < |info.genericArguments| ==> info.genericArguments[i] in g.types)
    && (info.genericDefinition == Some(g.handlerDefinition) ==> |info.genericArguments| == 1)
    && NoDup(info.methods)
    && NoDup(info.interfaces)
  }

  /** The graph is closed under every reference and the supertype relation is acyclic and transitive. */
  predicate WellFormed(g: TypeGraph) {
    forall t {:trigger WellFormedType(g, t)} :: t in g.types ==> WellFormedType(g, t)
  }

  /** Type.IsAssignableFrom: a value of type source may be stored in a variable of type target. */
  predicate IsAssignableFrom(g: TypeGraph, target: TypeId, source: Option<TypeId>) {
    source.Some? &&
    (source.value == target || (source.value in g.types && target in g.types[source.value].ancestors))
  }

  /** Every proper supertype has strictly fewer supertypes: the measure the registry's recursion decreases. */
  lemma AncestorsShrink(g: TypeGraph, t: TypeId, a: TypeId)
    requires WellFormed(g) && t in g.types && a in g.types[t].ancestors
    ensures a in g.types && |g.types[a].ancestors| < |g.types[t].ancestors|
  {
    assert WellFormedType(g, t);
    var small, big := g.types[a].ancestors, g.types[t].ancestors;
    assert WellFormedType(g, a);
    assert a in big && a !in small;
    assert small < big;
    assert big == small + (big - small);
    assert a in big - small;
  }

  /** A supertype is a known type, is not the type itself, and its supertypes are supertypes too. */
  lemma AncestorIsType(g: TypeGraph, t: TypeId, a: TypeId)
    requires WellFormed(g) && t in g.types && a in g.types[t].ancestors
    ensures a in g.types && a != t && g.types[a].ancestors <= g.types[t].ancestors
  {
    assert WellFormedType(g, t);
  }

  /** The base class and the implemented interfaces are supertypes. */
  lemma DirectSupertypes(g: TypeGraph, t: TypeId)
    requires WellFormed(g) && t in g.types
    ensures g.types[t].baseType.Some? ==> g.types[t].baseType.value in g.types[t].ancestors
    ensures forall i :: i in g.types[t].interfaces ==> i in g.types[t].ancestors
  {
    assert WellFormedType(g, t);
  }

  function GenericArgumentOrNull(info: TypeInfo): Option<TypeId> {
    if |info.genericArguments| > 0 then Some(info.genericArguments[0]) else None
  }
}
