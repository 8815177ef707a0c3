/** MessageTypeConventions: the list of predicates that decide which types are messages. */
module Conventions {
  import opened Wrappers
  import opened TypeGraphs

  /** A message-type convention, a Func<Type, bool>. */
  type Convention = TypeId -> bool

  /** The convention every instance starts with: the type implements IMessage. */
  function MarkerConvention(g: TypeGraph): Convention {
    (x: TypeId) => IsAssignableFrom(g, g.messageMarker, Some(x))
  }

  /** Enumerable.Any over the conventions. */
  function AnyHolds(cs: seq<Convention>, t: TypeId): (r: bool)
    ensures r <==> exists i :: 0 <= i < |cs| && cs[i](t)
  {
    if cs == [] then false
    else if cs[0](t) then true
    else
      var rest := AnyHolds(cs[1..], t);
      assert forall i :: 1 <= i < |cs| ==> cs[i] == cs[1..][i - 1];
      rest
  }

  /** A convention added later never withdraws the verdict of an earlier one. */
  lemma {:induction false} AnyHoldsMonotone(cs: seq<Convention>, more: seq<Convention>, t: TypeId)
    requires AnyHolds(cs, t)
    ensures AnyHolds(cs + more, t)
  {
    var i :| 0 <= i < |cs| && cs[i](t);
    assert (cs + more)[i] == cs[i];
  }

  class MessageTypeConventions {
    const graph: TypeGraph
    var isMessageType: seq<Convention>

    constructor (g: TypeGraph)
      ensures graph == g && isMessageType == [MarkerConvention(g)]
    {
      graph := g;
      isMessageType := [MarkerConvention(g)];
    }

    constructor WithConventions(g: TypeGraph, conventions: seq<Convention>)
      ensures graph == g && isMessageType == [MarkerConvention(g)] + conventions
    {
      graph := g;
      isMessageType := [MarkerConvention(g)] + conventions;
    }

    method AddConvention(convention: Convention)
      modifies this
      ensures isMessageType == old(isMessageType) + [convention]
      ensures forall t :: old(IsMessageType(t)) ==> IsMessageType(t)
    {
      AddConventions([convention]);
    }

    method AddConventions(conventions: seq<Convention>)
      modifies this
      ensures isMessageType == old(isMessageType) + conventions
      ensures forall t :: old(IsMessageType(t)) ==> IsMessageType(t)
    {
      ghost var before := isMessageType;
      isMessageType := isMessageType + conventions;
      forall t | AnyHolds(before, t) ensures AnyHolds(isMessageType, t) {
        AnyHoldsMonotone(before, conventions, t);
      }
    }

    /** A type is a message type when any convention accepts it. */
    function IsMessageType(t: TypeId): (r: bool)
      reads this
      ensures r <==> exists i :: 0 <= i < |isMessageType| && isMessageType[i](t)
    {
      AnyHolds(isMessageType, t)
    }
  }

  /** With only the initial convention, exactly the types implementing IMessage are messages. */
  lemma DefaultConventionsAreTheMarker(c: MessageTypeConventions, t: TypeId)
    requires c.isMessageType == [MarkerConvention(c.graph)]
    ensures c.IsMessageType(t) <==> IsAssignableFrom(c.graph, c.graph.messageMarker, Some(t))
  {
    assert c.isMessageType[0] == MarkerConvention(c.graph);
  }
}
