/**
 * MessageHandlerCollection: the registry that scans assemblies for handler classes and
 * indexes, per message type, the ordered list of handler methods to invoke.
 */
module Registry {
  import opened Wrappers
  import opened Seqs
  import opened Exceptions
  import opened TypeGraphs
  import opened Conventions
  import opened DispatchExtensions

  /** One invocable handler method: the key it is listed under, the handler class and its Handle method. */
  datatype DispatchInfo = DispatchInfo(messageType: TypeId, instanceType: TypeId, methodInfo: MethodInfo)

  datatype Assembly = Assembly(name: string, types: seq<TypeId>)

  const AlreadyInitialized := "Collection already initialized"
  const NotInitialized := "Collection has not been initialized"

  /** The handler classes among the given types, in order (Where(IsMessageHandlerClassType)). */
  function HandlerClassesIn(g: TypeGraph, types: seq<TypeId>): (r: seq<TypeId>)
    ensures forall t :: t in r <==> t in types && IsMessageHandlerClassType(g, t)
  {
    if types == [] then []
    else
      var p := HandlerClassesIn(g, types[..|types| - 1]);
      var t := types[|types| - 1];
      assert types == types[..|types| - 1] + [t];
      if IsMessageHandlerClassType(g, t) then p + [t] else p
  }

  /** The handler classes of every assembly, assembly by assembly, before duplicates are dropped. */
  function ScannedHandlerClasses(g: TypeGraph, assemblies: seq<Assembly>): (r: seq<TypeId>)
    ensures forall t :: t in r <==>
      IsMessageHandlerClassType(g, t) && exists k :: 0 <= k < |assemblies| && t in assemblies[k].types
  {
    if assemblies == [] then []
    else
      var init := assemblies[..|assemblies| - 1];
      var p := ScannedHandlerClasses(g, init);
      assert forall k :: 0 <= k < |init| ==> init[k] == assemblies[k];
      p + HandlerClassesIn(g, assemblies[|assemblies| - 1].types)
  }

  /** What FindAllMessageHandlerTypes returns. */
  function MessageHandlerTypes(g: TypeGraph, assemblies: seq<Assembly>): seq<TypeId> {
    Distinct(ScannedHandlerClasses(g, assemblies))
  }

  /**
   * FindAllMessageHandlerTypes: every handler class of every assembly, each once, in
   * order of first appearance.
   */
  method FindAllMessageHandlerTypes(g: TypeGraph, assemblies: seq<Assembly>) returns (r: seq<TypeId>)
    ensures r == MessageHandlerTypes(g, assemblies)
    ensures NoDup(r)
    ensures forall t :: t in r <==>
      IsMessageHandlerClassType(g, t) && exists k :: 0 <= k < |assemblies| && t in assemblies[k].types
  {
    var types: seq<TypeId> := [];
    var i := 0;
    while i < |assemblies|
      invariant 0 <= i <= |assemblies|
      invariant types == ScannedHandlerClasses(g, assemblies[..i])
    {
      assert assemblies[..i + 1][..i] == assemblies[..i];
      types := types + HandlerClassesIn(g, assemblies[i].types);
      i := i + 1;
    }
    assert assemblies[..i] == assemblies;
    r := Distinct(types);
  }

  /** The message types handled through the IMessageHandler interfaces of the given types. */
  function HandledArguments(g: TypeGraph, interfaces: seq<TypeId>): (r: seq<TypeId>)
    ensures forall x :: x in r <==>
      (exists k :: 0 <= k < |interfaces| && IsMessageHandlerInterfaceType(g, interfaces[k])
                   && GenericArgumentOrNull(g.types[interfaces[k]]) == Some(x))
  {
    if interfaces == [] then []
    else
      var init := interfaces[..|interfaces| - 1];
      var i := interfaces[|interfaces| - 1];
      var p := HandledArguments(g, init);
      assert forall k :: 0 <= k < |init| ==> init[k] == interfaces[k];
      if IsMessageHandlerInterfaceType(g, i) && GenericArgumentOrNull(g.types[i]).Some?
      then p + [GenericArgumentOrNull(g.types[i]).value] else p
  }

  predicate HandlesMessageType(g: TypeGraph, h: TypeId, x: TypeId) {
    h in g.types && x in HandledArguments(g, g.types[h].interfaces)
  }

  function AllHandledArguments(g: TypeGraph, handlerTypes: seq<TypeId>): (r: seq<TypeId>)
    ensures forall x :: x in r <==> exists k :: 0 <= k < |handlerTypes| && HandlesMessageType(g, handlerTypes[k], x)
  {
    if handlerTypes == [] then []
    else
      var init := handlerTypes[..|handlerTypes| - 1];
      var h := handlerTypes[|handlerTypes| - 1];
      assert forall k :: 0 <= k < |init| ==> init[k] == handlerTypes[k];
      AllHandledArguments(g, init) + (if h in g.types then HandledArguments(g, g.types[h].interfaces) else [])
  }

  /**
   * FindAllMessageTypesForDispatch: every X for which some scanned handler implements
   * IMessageHandler<X>, each once.
   */
  function FindAllMessageTypesForDispatch(g: TypeGraph, handlerTypes: seq<TypeId>): (r: seq<TypeId>)
    ensures NoDup(r)
    ensures forall x :: x in r <==> exists k :: 0 <= k < |handlerTypes| && HandlesMessageType(g, handlerTypes[k], x)
  {
    var all := AllHandledArguments(g, handlerTypes);
    assert forall x :: x in Distinct(all) <==> x in all by {
      forall x ensures x in Distinct(all) <==> x in all { DistinctHas(all, x); }
    }
    Distinct(all)
  }

  lemma DispatchTypesAreTypes(g: TypeGraph, handlerTypes: seq<TypeId>)
    requires WellFormed(g)
    ensures forall x :: x in FindAllMessageTypesForDispatch(g, handlerTypes) ==> x in g.types
  {
    forall x | x in FindAllMessageTypesForDispatch(g, handlerTypes) ensures x in g.types {
      HandledArgumentsAreTypes(g, handlerTypes, x);
    }
  }

  lemma HandledArgumentsAreTypes(g: TypeGraph, handlerTypes: seq<TypeId>, x: TypeId)
    requires WellFormed(g)
    requires x in FindAllMessageTypesForDispatch(g, handlerTypes)
    ensures x in g.types
  {
    var k :| 0 <= k < |handlerTypes| && HandlesMessageType(g, handlerTypes[k], x);
    var ifaces := g.types[handlerTypes[k]].interfaces;
    var q :| 0 <= q < |ifaces| && IsMessageHandlerInterfaceType(g, ifaces[q])
             && GenericArgumentOrNull(g.types[ifaces[q]]) == Some(x);
    assert WellFormedType(g, ifaces[q]);
  }

  /** The Handle methods of handler class h that serve message type m, in method order. */
  function Matching(g: TypeGraph, m: TypeId, h: TypeId, methods: seq<MethodInfo>): seq<DispatchInfo>
  {
    if methods == [] then []
    else
      var p := Matching(g, m, h, methods[..|methods| - 1]);
      var meth := methods[|methods| - 1];
      if IsHandleMethodForMessageType(g, meth, m) then p + [DispatchInfo(m, h, meth)] else p
  }

  lemma {:induction false} MatchingFacts(g: TypeGraph, m: TypeId, h: TypeId, methods: seq<MethodInfo>)
    ensures forall d :: d in Matching(g, m, h, methods) <==>
      (d.messageType == m && d.instanceType == h && d.methodInfo in methods
       && IsHandleMethodForMessageType(g, d.methodInfo, m))
    ensures NoDup(methods) ==> NoDup(Matching(g, m, h, methods))
  {
    if methods != [] {
      var init := methods[..|methods| - 1];
      var meth := methods[|methods| - 1];
      MatchingFacts(g, m, h, init);
      assert methods == init + [meth];
      if NoDup(methods) {
        assert NoDup(init) by {
          forall i, j | 0 <= i < j < |init| ensures init[i] != init[j] { assert init[i] == methods[i] && init[j] == methods[j]; }
        }
        assert meth !in init by {
          forall i | 0 <= i < |init| ensures init[i] != meth { assert init[i] == methods[i]; }
        }
      }
    }
  }

  /** The entries contributed by one candidate handler type (empty unless it handles m). */
  function Block(g: TypeGraph, m: TypeId, h: TypeId): seq<DispatchInfo> {
    if IsMessageHandlerClassTypeForMessageType(g, h, m) then Matching(g, m, h, g.types[h].methods) else []
  }

  /**
   * The entries RegisterDispatchHandler lists under key m: for each handler type in scan
   * order that handles some subtype of m, each of its Handle methods that accepts a
   * subtype of m.
   */
  function Candidates(g: TypeGraph, m: TypeId, handlerTypes: seq<TypeId>): seq<DispatchInfo>
  {
    if handlerTypes == [] then []
    else Candidates(g, m, handlerTypes[..|handlerTypes| - 1]) + Block(g, m, handlerTypes[|handlerTypes| - 1])
  }

  /** One more handler type scanned adds its block at the end. */
  lemma CandidatesStep(g: TypeGraph, m: TypeId, handlerTypes: seq<TypeId>, i: nat)
    requires i < |handlerTypes|
    ensures Candidates(g, m, handlerTypes[..i + 1]) == Candidates(g, m, handlerTypes[..i]) + Block(g, m, handlerTypes[i])
  {
    assert handlerTypes[..i + 1][..i] == handlerTypes[..i];
  }

  /** Exactly the handler methods that serve m are listed under m, each once. */
  lemma {:induction false} CandidatesExactly(g: TypeGraph, m: TypeId, handlerTypes: seq<TypeId>, d: DispatchInfo)
    ensures d in Candidates(g, m, handlerTypes) <==>
      d.messageType == m && d.instanceType in handlerTypes
      && IsMessageHandlerClassTypeForMessageType(g, d.instanceType, m)
      && d.methodInfo in g.types[d.instanceType].methods
      && IsHandleMethodForMessageType(g, d.methodInfo, m)
  {
    if handlerTypes != [] {
      var init := handlerTypes[..|handlerTypes| - 1];
      var h := handlerTypes[|handlerTypes| - 1];
      CandidatesExactly(g, m, init, d);
      if IsMessageHandlerClassTypeForMessageType(g, h, m) {
        MatchingFacts(g, m, h, g.types[h].methods);
      }
      assert handlerTypes == init + [h];
    }
  }

  lemma {:induction false} CandidatesNoDup(g: TypeGraph, m: TypeId, handlerTypes: seq<TypeId>)
    requires WellFormed(g) && NoDup(handlerTypes)
    ensures NoDup(Candidates(g, m, handlerTypes))
  {
    if handlerTypes != [] {
      var init := handlerTypes[..|handlerTypes| - 1];
      var h := handlerTypes[|handlerTypes| - 1];
      assert NoDup(init) by {
        forall i, j | 0 <= i < j < |init| ensures init[i] != init[j] { assert init[i] == handlerTypes[i] && init[j] == handlerTypes[j]; }
      }
      assert h !in init by {
        forall i | 0 <= i < |init| ensures init[i] != h { assert init[i] == handlerTypes[i]; }
      }
      CandidatesNoDup(g, m, init);
      var p, b := Candidates(g, m, init), Block(g, m, h);
      if IsMessageHandlerClassTypeForMessageType(g, h, m) {
        assert WellFormedType(g, h);
        MatchingFacts(g, m, h, g.types[h].methods);
      }
      assert NoDup(b);
      assert forall d :: d in b ==> d.instanceType == h;
      forall i, j | 0 <= i < j < |p + b| ensures (p + b)[i] != (p + b)[j] {
        if i < |p| && j >= |p| {
          assert (p + b)[i] in p && (p + b)[j] in b;
          CandidatesExactly(g, m, init, (p + b)[i]);
        }
      }
    }
  }

  /** The first listed handler whose class is assignable to the requested type (FirstOrDefault). */
  function FirstMatch(g: TypeGraph, handlers: seq<DispatchInfo>, requested: TypeId): Option<DispatchInfo>
  {
    if handlers == [] then None
    else if IsAssignableFrom(g, requested, Some(handlers[0].instanceType)) then Some(handlers[0])
    else FirstMatch(g, handlers[1..], requested)
  }

  /** FirstOrDefault: the match at the lowest index, or null when nothing matches. */
  lemma {:induction false} FirstMatchIsFirst(g: TypeGraph, handlers: seq<DispatchInfo>, requested: TypeId)
    ensures FirstMatch(g, handlers, requested).None? <==>
      forall i :: 0 <= i < |handlers| ==> !IsAssignableFrom(g, requested, Some(handlers[i].instanceType))
    ensures FirstMatch(g, handlers, requested).Some? ==>
      exists i :: 0 <= i < |handlers| && handlers[i] == FirstMatch(g, handlers, requested).value
        && IsAssignableFrom(g, requested, Some(handlers[i].instanceType))
        && forall j :: 0 <= j < i ==> !IsAssignableFrom(g, requested, Some(handlers[j].instanceType))
  {
    if handlers != [] && !IsAssignableFrom(g, requested, Some(handlers[0].instanceType)) {
      FirstMatchIsFirst(g, handlers[1..], requested);
      assert forall i :: 1 <= i < |handlers| ==> handlers[1..][i - 1] == handlers[i];
      var r := FirstMatch(g, handlers[1..], requested);
      if r.Some? {
        var i :| 0 <= i < |handlers[1..]| && handlers[1..][i] == r.value
                 && IsAssignableFrom(g, requested, Some(handlers[1..][i].instanceType))
                 && forall j :: 0 <= j < i ==> !IsAssignableFrom(g, requested, Some(handlers[1..][j].instanceType));
        assert handlers[i + 1] == r.value;
      }
    } else if handlers != [] {
      assert handlers[0] == FirstMatch(g, handlers, requested).value;
    }
  }

  lemma {:induction false} FirstMatchIsListed(g: TypeGraph, handlers: seq<DispatchInfo>, requested: TypeId)
    ensures FirstMatch(g, handlers, requested).Some? ==> FirstMatch(g, handlers, requested).value in handlers
  {
    if handlers != [] && !IsAssignableFrom(g, requested, Some(handlers[0].instanceType)) {
      FirstMatchIsListed(g, handlers[1..], requested);
    }
  }

  /** The handlers chosen to run first: per requested type in order, its first match, each once. */
  function Picks(g: TypeGraph, handlers: seq<DispatchInfo>, requested: seq<TypeId>): (r: seq<DispatchInfo>)
    ensures NoDup(r)
    ensures forall d :: d in r ==> d in handlers
  {
    if requested == [] then []
    else
      var p := Picks(g, handlers, requested[..|requested| - 1]);
      var x := FirstMatch(g, handlers, requested[|requested| - 1]);
      FirstMatchIsListed(g, handlers, requested[|requested| - 1]);
      if x.Some? && x.value !in p then p + [x.value] else p
  }

  /** The first match of each requested type, in request order, skipping the types nothing matches. */
  function MatchesOf(g: TypeGraph, handlers: seq<DispatchInfo>, requested: seq<TypeId>): (r: seq<DispatchInfo>)
    ensures |r| <= |requested|
  {
    if requested == [] then []
    else
      var p := MatchesOf(g, handlers, requested[..|requested| - 1]);
      var x := FirstMatch(g, handlers, requested[|requested| - 1]);
      if x.Some? then p + [x.value] else p
  }

  /** A type's first match is among the matches of every request list that names the type. */
  lemma {:induction false} MatchesOfHas(g: TypeGraph, handlers: seq<DispatchInfo>, requested: seq<TypeId>, i: nat)
    requires i < |requested| && FirstMatch(g, handlers, requested[i]).Some?
    ensures FirstMatch(g, handlers, requested[i]).value in MatchesOf(g, handlers, requested)
  {
    var init := requested[..|requested| - 1];
    if i < |requested| - 1 {
      assert init[i] == requested[i];
      MatchesOfHas(g, handlers, init, i);
    }
  }

  /**
   * The picks are the first matches of the requested types taken in request order, each
   * once at its first appearance: Distinct of the matches, which DistinctOrder orders.
   */
  lemma {:induction false} PicksAreDistinctMatches(g: TypeGraph, handlers: seq<DispatchInfo>, requested: seq<TypeId>)
    ensures Picks(g, handlers, requested) == Distinct(MatchesOf(g, handlers, requested))
    ensures InFirstOccurrenceOrder(Picks(g, handlers, requested), MatchesOf(g, handlers, requested))
  {
    var m := MatchesOf(g, handlers, requested);
    if requested != [] {
      var init := requested[..|requested| - 1];
      PicksAreDistinctMatches(g, handlers, init);
      var p := MatchesOf(g, handlers, init);
      var x := FirstMatch(g, handlers, requested[|requested| - 1]);
      if x.Some? {
        assert m == p + [x.value];
        assert m[..|m| - 1] == p;
        DistinctHas(p, x.value);
      }
    }
    DistinctOrder(m);
  }

  /** The new order of one key's list: the picks first, then every other handler in its previous order. */
  function ReorderFirst(g: TypeGraph, handlers: seq<DispatchInfo>, requested: seq<TypeId>): seq<DispatchInfo> {
    var first := Picks(g, handlers, requested);
    first + Except(handlers, first)
  }

  /**
   * ExecuteTheseHandlersFirst on one list: the distinct first matches lead in request order,
   * and every other handler of a duplicate-free list follows in the order it had.
   */
  lemma ReorderFirstOrder(g: TypeGraph, handlers: seq<DispatchInfo>, requested: seq<TypeId>)
    requires NoDup(handlers)
    ensures var first := Distinct(MatchesOf(g, handlers, requested));
      var r := ReorderFirst(g, handlers, requested);
      |first| <= |r| && r[..|first|] == first
      && (forall d :: d in r[|first|..] <==> d in handlers && d !in first)
      && InFirstOccurrenceOrder(r[|first|..], handlers)
  {
    PicksAreDistinctMatches(g, handlers, requested);
    var first := Picks(g, handlers, requested);
    var r := ReorderFirst(g, handlers, requested);
    var rest := Except(handlers, first);
    assert r[..|first|] == first;
    assert r[|first|..] == rest;
    ExceptOrder(handlers, first);
    forall d | d in handlers && d !in first ensures d in rest {
      var k :| 0 <= k < |handlers| && handlers[k] == d;
    }
    forall d | d in rest ensures d in handlers && d !in first {
      var k :| 0 <= k < |rest| && rest[k] == d;
    }
  }

  /** Reordering every entry of a registry keeps each entry a duplicate-free arrangement of its candidates. */
  lemma ReorderAllKeepsCandidates(g: TypeGraph, before: map<TypeId, seq<DispatchInfo>>, after: map<TypeId, seq<DispatchInfo>>,
                                  requested: seq<TypeId>, hts: seq<TypeId>)
    requires forall k :: k in before ==> NoDup(before[k]) && multiset(before[k]) == multiset(Candidates(g, k, hts))
    requires after.Keys == before.Keys
    requires forall k :: k in after ==> after[k] == ReorderFirst(g, before[k], requested)
    ensures forall k :: k in after ==> NoDup(after[k]) && multiset(after[k]) == multiset(Candidates(g, k, hts))
  {
    forall k | k in after
      ensures NoDup(after[k]) && multiset(after[k]) == multiset(Candidates(g, k, hts))
    {
      ReorderIsPermutation(g, before[k], requested);
    }
  }

  /** Reordering neither loses nor duplicates a handler. */
  lemma ReorderIsPermutation(g: TypeGraph, handlers: seq<DispatchInfo>, requested: seq<TypeId>)
    requires NoDup(handlers)
    ensures NoDup(ReorderFirst(g, handlers, requested))
    ensures multiset(ReorderFirst(g, handlers, requested)) == multiset(handlers)
  {
    var first := Picks(g, handlers, requested);
    var rest := Except(handlers, first);
    var r := first + rest;
    forall i, j | 0 <= i < j < |r| ensures r[i] != r[j] {
      if i < |first| && j >= |first| {
        assert r[j] == rest[j - |first|];
      }
    }
    forall x ensures multiset(r)[x] == multiset(handlers)[x] {
      NoDupMultiset(r, x);
      NoDupMultiset(handlers, x);
      if x in handlers && x !in first {
        var k :| 0 <= k < |handlers| && handlers[k] == x;
      }
      if x in r && x !in first {
        var k :| 0 <= k < |rest| && rest[k] == x;
      }
    }
  }

  /** The handler chosen for the first requested type runs first. */
  lemma ReorderPutsFirstRequestFirst(g: TypeGraph, handlers: seq<DispatchInfo>, requested: seq<TypeId>)
    requires |requested| > 0 && FirstMatch(g, handlers, requested[0]).Some?
    ensures ReorderFirst(g, handlers, requested)[0] == FirstMatch(g, handlers, requested[0]).value
  {
    PicksStartWithFirst(g, handlers, requested);
  }

  lemma {:induction false} PicksStartWithFirst(g: TypeGraph, handlers: seq<DispatchInfo>, requested: seq<TypeId>)
    requires |requested| > 0 && FirstMatch(g, handlers, requested[0]).Some?
    ensures |Picks(g, handlers, requested)| > 0
    ensures Picks(g, handlers, requested)[0] == FirstMatch(g, handlers, requested[0]).value
  {
    if |requested| > 1 {
      var init := requested[..|requested| - 1];
      assert init[0] == requested[0];
      PicksStartWithFirst(g, handlers, init);
    }
  }

  /**
   * A counterexample to idempotence: class 1 implements 11 and 12, class 2 implements 12
   * and 14, class 3 implements 13; one handler per class, all for message type 0.
   */
  const ExampleGraph: TypeGraph :=
    var info := TypeInfo("", true, false, false, None, [], None, [], [], {});
    TypeGraph(map[1 := info.(ancestors := {11, 12}), 2 := info.(ancestors := {12, 14}),
                  3 := info.(ancestors := {13})], 0, 0, 0, 0)
  const ExampleMethod := MethodInfo(HandleMethodName, true, [0])
  const D1 := DispatchInfo(0, 1, ExampleMethod)
  const D2 := DispatchInfo(0, 2, ExampleMethod)
  const D3 := DispatchInfo(0, 3, ExampleMethod)
  const ExampleRequest: seq<TypeId> := [11, 12, 13, 14]

  lemma ExampleFirstPass()
    ensures ReorderFirst(ExampleGraph, [D2, D1, D3], ExampleRequest) == [D1, D2, D3]
  {
    var g, requested := ExampleGraph, ExampleRequest;
    assert [D2, D1, D3][1..] == [D1, D3] && [D1, D3][1..] == [D3];
    assert FirstMatch(g, [D2, D1, D3], 11) == Some(D1);
    assert FirstMatch(g, [D2, D1, D3], 12) == Some(D2);
    assert FirstMatch(g, [D3], 13) == Some(D3) && FirstMatch(g, [D1, D3], 13) == Some(D3);
    assert FirstMatch(g, [D2, D1, D3], 13) == Some(D3);
    assert FirstMatch(g, [D2, D1, D3], 14) == Some(D2);
    assert requested[..3] == [11, 12, 13] && requested[..2] == [11, 12] && requested[..1] == [11];
    assert requested[..3][..2] == requested[..2] && requested[..2][..1] == requested[..1];
    assert requested[..1][..0] == [] && requested[..4] == requested;
    assert Picks(g, [D2, D1, D3], requested[..1]) == [D1];
    assert Picks(g, [D2, D1, D3], requested[..2]) == [D1, D2];
    assert Picks(g, [D2, D1, D3], requested[..3]) == [D1, D2, D3];
    assert Picks(g, [D2, D1, D3], requested) == [D1, D2, D3];
    assert Except([D3], [D1, D2, D3]) == [] && Except([D1, D3], [D1, D2, D3]) == [];
    assert Except([D2, D1, D3], [D1, D2, D3]) == [];
  }

  lemma ExampleSecondPass()
    ensures Picks(ExampleGraph, [D1, D2, D3], ExampleRequest) == [D1, D3, D2]
  {
    var g, requested := ExampleGraph, ExampleRequest;
    assert [D1, D2, D3][1..] == [D2, D3] && [D2, D3][1..] == [D3];
    assert FirstMatch(g, [D1, D2, D3], 11) == Some(D1);
    assert FirstMatch(g, [D1, D2, D3], 12) == Some(D1);
    assert FirstMatch(g, [D3], 13) == Some(D3) && FirstMatch(g, [D2, D3], 13) == Some(D3);
    assert FirstMatch(g, [D1, D2, D3], 13) == Some(D3);
    assert FirstMatch(g, [D1, D2, D3], 14) == Some(D2);
    assert requested[..3] == [11, 12, 13] && requested[..2] == [11, 12] && requested[..1] == [11];
    assert requested[..3][..2] == requested[..2] && requested[..2][..1] == requested[..1];
    assert requested[..1][..0] == [] && requested[..4] == requested;
    assert Picks(g, [D1, D2, D3], requested[..1]) == [D1];
    assert Picks(g, [D1, D2, D3], requested[..2]) == [D1];
    assert Picks(g, [D1, D2, D3], requested[..3]) == [D1, D3];
    assert Picks(g, [D1, D2, D3], requested) == [D1, D3, D2];
  }

  /**
   * Reordering is not idempotent: applying the same request twice can change the order
   * again, because a handler picked for one requested type can shadow another type's pick.
   */
  lemma ReorderNotIdempotent()
    ensures exists g: TypeGraph, handlers: seq<DispatchInfo>, requested: seq<TypeId> ::
      NoDup(handlers) &&
      ReorderFirst(g, ReorderFirst(g, handlers, requested), requested) != ReorderFirst(g, handlers, requested)
  {
    ExampleFirstPass();
    ExampleSecondPass();
    var g, handlers, requested := ExampleGraph, [D2, D1, D3], ExampleRequest;
    assert NoDup(handlers);
    assert ReorderFirst(g, [D1, D2, D3], requested)[1] == D3;
    assert ReorderFirst(g, ReorderFirst(g, handlers, requested), requested) != ReorderFirst(g, handlers, requested);
  }

  /** The loop of ExecuteTheseHandlersFirst: every entry of the registry reordered, one key at a time. */
  method ReorderAll(g: TypeGraph, handlers: map<TypeId, seq<DispatchInfo>>, requested: seq<TypeId>)
    returns (r: map<TypeId, seq<DispatchInfo>>)
    ensures r.Keys == handlers.Keys
    ensures forall k :: k in r ==> r[k] == ReorderFirst(g, handlers[k], requested)
  {
    r := handlers;
    var pending := handlers.Keys;
    while pending != {}
      invariant pending <= r.Keys && r.Keys == handlers.Keys
      invariant forall k :: k in r ==> r[k] == if k in pending then handlers[k] else ReorderFirst(g, handlers[k], requested)
      decreases pending
    {
      var key :| key in pending;
      var first := ChooseFirst(g, r[key], requested);
      r := r[key := first + Except(r[key], first)];
      pending := pending - {key};
    }
  }

  /** The handlers chosen to run first, computed by the loop of ExecuteTheseHandlersFirst. */
  method ChooseFirst(g: TypeGraph, handlers: seq<DispatchInfo>, requested: seq<TypeId>) returns (first: seq<DispatchInfo>)
    ensures first == Picks(g, handlers, requested)
    ensures NoDup(first) && forall d :: d in first ==> d in handlers
  {
    first := [];
    var j := 0;
    while j < |requested|
      invariant 0 <= j <= |requested|
      invariant first == Picks(g, handlers, requested[..j])
    {
      assert requested[..j + 1][..j] == requested[..j];
      var chosen := FirstMatch(g, handlers, requested[j]);
      if chosen.Some? && chosen.value !in first {
        first := first + [chosen.value];
      }
      j := j + 1;
    }
    assert requested[..j] == requested;
  }

  /** The inner loop of RegisterDispatchHandler: appends each unlisted Handle method of h that serves m. */
  method CollectMethods(g: TypeGraph, m: TypeId, h: TypeId, list0: seq<DispatchInfo>) returns (list: seq<DispatchInfo>)
    requires h in g.types
    ensures list == AppendMissing(list0, Matching(g, m, h, g.types[h].methods))
  {
    var methods := g.types[h].methods;
    list := list0;
    var j := 0;
    while j < |methods|
      invariant 0 <= j <= |methods|
      invariant list == AppendMissing(list0, Matching(g, m, h, methods[..j]))
    {
      assert methods[..j + 1][..j] == methods[..j];
      var d := DispatchInfo(m, h, methods[j]);
      if IsHandleMethodForMessageType(g, methods[j], m) {
        AppendMissingStep(list0, Matching(g, m, h, methods[..j]), d);
        if d !in list {
          list := list + [d];
        }
      }
      j := j + 1;
    }
    assert methods[..j] == methods;
  }

  /** The outer loop of RegisterDispatchHandler, over the scanned handler types in order. */
  method CollectHandlers(g: TypeGraph, m: TypeId, handlerTypes: seq<TypeId>, list0: seq<DispatchInfo>)
    returns (list: seq<DispatchInfo>)
    ensures list == AppendMissing(list0, Candidates(g, m, handlerTypes))
  {
    list := list0;
    var i := 0;
    while i < |handlerTypes|
      invariant 0 <= i <= |handlerTypes|
      invariant list == AppendMissing(list0, Candidates(g, m, handlerTypes[..i]))
    {
      var h := handlerTypes[i];
      CandidatesStep(g, m, handlerTypes, i);
      AppendMissingConcat(list0, Candidates(g, m, handlerTypes[..i]), Block(g, m, h));
      if IsMessageHandlerClassTypeForMessageType(g, h, m) {
        list := CollectMethods(g, m, h, list);
      }
      i := i + 1;
    }
    assert handlerTypes[..i] == handlerTypes;
  }

  class MessageHandlerCollection {
    const graph: TypeGraph
    const conventions: MessageTypeConventions
    var isInit: bool
    /** A HashSet in the source; kept duplicate-free in insertion order, the order it enumerates in. */
    var assembliesToScan: seq<Assembly>
    var messageHandlers: map<TypeId, seq<DispatchInfo>>

    ghost predicate Valid()
      reads this
    {
      WellFormed(graph)
      && NoDup(assembliesToScan)
      && (forall k :: k in messageHandlers ==> k in graph.types)
      && (!isInit ==> messageHandlers == map[])
      && (isInit ==> forall k :: k in messageHandlers ==>
            NoDup(messageHandlers[k])
            && multiset(messageHandlers[k]) == multiset(Candidates(graph, k, MessageHandlerTypes(graph, assembliesToScan))))
    }

    /** The base class registration follows from m: one other than object that the conventions approve. */
    function ApprovedBase(m: TypeId): (r: Option<TypeId>)
      reads conventions
      requires m in graph.types
    {
      var info := graph.types[m];
      if info.isClass && info.baseType.Some? && info.baseType.value != graph.objectType
         && conventions.IsMessageType(info.baseType.value)
      then info.baseType else None
    }

    /** The supertypes that registration follows from m: its approved base class and approved interfaces. */
    function Parents(m: TypeId): (r: set<TypeId>)
      reads conventions
      requires m in graph.types
    {
      (if ApprovedBase(m).Some? then {ApprovedBase(m).value} else {})
      + (set i | i in graph.types[m].interfaces && conventions.IsMessageType(i))
    }

    constructor (g: TypeGraph, c: MessageTypeConventions)
      requires WellFormed(g)
      ensures Valid() && graph == g && conventions == c
      ensures !isInit && assembliesToScan == [] && messageHandlers == map[]
    {
      graph, conventions := g, c;
      isInit, assembliesToScan, messageHandlers := false, [], map[];
    }

    /** Every key is a known type and lists exactly its candidates. */
    ghost predicate Indexed(handlerTypes: seq<TypeId>)
      reads this`messageHandlers
    {
      (forall k :: k in messageHandlers ==> k in graph.types)
      && forall k :: k in messageHandlers ==> messageHandlers[k] == Candidates(graph, k, handlerTypes)
    }

    /** Every key of `keys` not in `before` is a known type whose approved supertypes are in `keys`. */
    ghost predicate Closed(before: set<TypeId>, keys: set<TypeId>)
      reads conventions
    {
      forall q :: q in keys && q !in before ==> q in graph.types && Parents(q) <= keys
    }

    /** The key set grew from `before` to `keys` by keys drawn from `bound`, each with its approved supertypes. */
    ghost predicate Grows(before: set<TypeId>, keys: set<TypeId>, bound: set<TypeId>)
      reads conventions
    {
      before <= keys && (forall q :: q in keys && q !in before ==> q in bound) && Closed(before, keys)
    }

    lemma GrowsTrans(k0: set<TypeId>, k1: set<TypeId>, k2: set<TypeId>, b1: set<TypeId>, b2: set<TypeId>)
      requires Grows(k0, k1, b1) && Grows(k1, k2, b2)
      ensures Grows(k0, k2, b1 + b2)
    {
      forall q | q in k2 && q !in k0 ensures q in graph.types && Parents(q) <= k2 {
        if q in k1 {
          assert Parents(q) <= k1;
        }
      }
    }

    /**
     * The types registration reaches from m by following approved parents: those that every
     * key set holding m and closed under approved parents holds (its least such set).
     */
    ghost function Reach(m: TypeId): set<TypeId>
      reads conventions
    {
      set q | q in graph.types && forall keys: set<TypeId> {:trigger Closed({}, keys)} :: m in keys && Closed({}, keys) ==> q in keys
    }

    /** The types registration reaches from any of the handled message types. */
    ghost function ReachAll(messageTypes: seq<TypeId>): set<TypeId>
      reads conventions
    {
      set x, q | x in messageTypes && q in Reach(x) :: q
    }

    /** A known type reaches itself, and an approved parent reaches no more than its child does. */
    lemma ReachParent(m: TypeId, p: TypeId)
      requires m in graph.types && p in Parents(m)
      ensures m in Reach(m) && Reach(p) <= Reach(m)
    {
    }

    /** A key set that holds m and the approved parents of each of its keys holds all m reaches. */
    lemma ClosedHoldsReach(keys: set<TypeId>, m: TypeId)
      requires m in keys && Closed({}, keys)
      ensures Reach(m) <= keys
    {
    }

    /** Every handled message type is reached. */
    lemma ReachAllHoldsMessageTypes(messageTypes: seq<TypeId>)
      requires forall x :: x in messageTypes ==> x in graph.types
      ensures forall x :: x in messageTypes ==> x in ReachAll(messageTypes)
    {
      forall x | x in messageTypes ensures x in ReachAll(messageTypes) {
        assert x in Reach(x);
      }
    }

    /** What is reached holds the approved parents of each of its members. */
    lemma ReachAllIsClosed(messageTypes: seq<TypeId>)
      requires WellFormed(graph)
      ensures Closed({}, ReachAll(messageTypes))
    {
      var all := ReachAll(messageTypes);
      forall q | q in all ensures q in graph.types && Parents(q) <= all {
        var x :| x in messageTypes && q in Reach(x);
        DirectSupertypes(graph, q);
        forall p | p in Parents(q) ensures p in all {
          AncestorIsType(graph, q, p);
          forall keys: set<TypeId> | x in keys && Closed({}, keys) ensures p in keys {
            assert q in keys;
          }
          assert p in Reach(x);
        }
      }
    }

    /** Any key set that holds every handled message type and is closed holds all that is reached. */
    lemma ReachAllIsLeast(messageTypes: seq<TypeId>, keys: set<TypeId>)
      requires Closed({}, keys) && forall x :: x in messageTypes ==> x in keys
      ensures ReachAll(messageTypes) <= keys
    {
      forall q | q in ReachAll(messageTypes) ensures q in keys {
        var x :| x in messageTypes && q in Reach(x);
        ClosedHoldsReach(keys, x);
      }
    }

    /** A closed key set that holds each handled message type and nothing unreached is what is reached. */
    lemma ReachedExactly(messageTypes: seq<TypeId>, keys: set<TypeId>)
      requires Closed({}, keys) && keys <= ReachAll(messageTypes)
      requires forall q :: 0 <= q < |messageTypes| ==> messageTypes[q] in keys
      ensures keys == ReachAll(messageTypes)
    {
      forall x | x in messageTypes ensures x in keys {
        var q :| 0 <= q < |messageTypes| && messageTypes[q] == x;
      }
      ReachAllIsLeast(messageTypes, keys);
    }

    /**
     * RegisterDispatchHandler: lists the handlers of m under m (an existing key gains
     * nothing new), then registers m's approved base class and interfaces.
     */
    method RegisterDispatchHandler(m: TypeId, handlerTypes: seq<TypeId>)
      requires WellFormed(graph) && m in graph.types && NoDup(handlerTypes)
      requires Indexed(handlerTypes)
      modifies this`messageHandlers
      decreases |graph.types[m].ancestors|, 3
      ensures Indexed(handlerTypes) && m in messageHandlers
      ensures Grows(old(messageHandlers).Keys, messageHandlers.Keys, Reach(m))
    {
      var list := if m in messageHandlers then messageHandlers[m] else [];
      ghost var l0 := list;
      ghost var k0 := messageHandlers.Keys;
      list := CollectHandlers(graph, m, handlerTypes, list);
      CandidatesNoDup(graph, m, handlerTypes);
      if m in messageHandlers {
        AppendMissingKnown(l0, Candidates(graph, m, handlerTypes));
      } else {
        AppendMissingFresh(Candidates(graph, m, handlerTypes));
      }
      messageHandlers := messageHandlers[m := list];
      ghost var k1 := messageHandlers.Keys;
      RegisterBase(m, handlerTypes);
      ghost var k2 := messageHandlers.Keys;
      RegisterInterfaces(m, handlerTypes);
      ghost var k3 := messageHandlers.Keys;
      ghost var anc := Reach(m);
      GrowsTrans(k1, k2, k3, anc, anc);
      assert m in Reach(m);
      assert Parents(m) <= k3;
      forall q | q in k3 && q !in k0 ensures q in graph.types && Parents(q) <= k3 {
        if q != m {
          assert q !in k1;
        }
      }
    }

    /** The base-class step of RegisterDispatchHandler. */
    method RegisterBase(m: TypeId, handlerTypes: seq<TypeId>)
      requires WellFormed(graph) && m in graph.types && NoDup(handlerTypes)
      requires Indexed(handlerTypes)
      modifies this`messageHandlers
      decreases |graph.types[m].ancestors|, 1
      ensures Indexed(handlerTypes)
      ensures Grows(old(messageHandlers).Keys, messageHandlers.Keys, Reach(m))
      ensures ApprovedBase(m).Some? ==> ApprovedBase(m).value in messageHandlers
    {
      var info := graph.types[m];
      if info.isClass && info.baseType != Some(graph.objectType) {
        if info.baseType.Some? && conventions.IsMessageType(info.baseType.value) {
          var base := info.baseType.value;
          DirectSupertypes(graph, m);
          AncestorsShrink(graph, m, base);
          RegisterDispatchHandler(base, handlerTypes);
          AncestorIsType(graph, m, base);
          ReachParent(m, base);
        }
      }
    }

    /** One interface of m: registered when the conventions approve it. */
    method RegisterInterface(m: TypeId, iface: TypeId, handlerTypes: seq<TypeId>)
      requires WellFormed(graph) && m in graph.types && NoDup(handlerTypes)
      requires iface in graph.types[m].interfaces
      requires Indexed(handlerTypes)
      modifies this`messageHandlers
      decreases |graph.types[m].ancestors|, 0
      ensures Indexed(handlerTypes)
      ensures Grows(old(messageHandlers).Keys, messageHandlers.Keys, Reach(m))
      ensures conventions.IsMessageType(iface) ==> iface in messageHandlers
    {
      if conventions.IsMessageType(iface) {
        DirectSupertypes(graph, m);
        AncestorsShrink(graph, m, iface);
        RegisterDispatchHandler(iface, handlerTypes);
        AncestorIsType(graph, m, iface);
        ReachParent(m, iface);
      }
    }

    /** The interface loop of RegisterDispatchHandler, in GetInterfaces order. */
    method RegisterInterfaces(m: TypeId, handlerTypes: seq<TypeId>)
      requires WellFormed(graph) && m in graph.types && NoDup(handlerTypes)
      requires Indexed(handlerTypes)
      modifies this`messageHandlers
      decreases |graph.types[m].ancestors|, 1
      ensures Indexed(handlerTypes)
      ensures Grows(old(messageHandlers).Keys, messageHandlers.Keys, Reach(m))
      ensures forall i :: i in graph.types[m].interfaces && conventions.IsMessageType(i) ==> i in messageHandlers
    {
      var interfaces := graph.types[m].interfaces;
      ghost var anc := Reach(m);
      ghost var k0 := messageHandlers.Keys;
      var k := 0;
      while k < |interfaces|
        invariant 0 <= k <= |interfaces|
        invariant Indexed(handlerTypes)
        invariant Grows(k0, messageHandlers.Keys, anc)
        invariant forall q :: 0 <= q < k && conventions.IsMessageType(interfaces[q]) ==> interfaces[q] in messageHandlers
      {
        ghost var k1 := messageHandlers.Keys;
        RegisterInterface(m, interfaces[k], handlerTypes);
        GrowsTrans(k0, k1, messageHandlers.Keys, anc, anc);
        k := k + 1;
      }
      forall i | i in interfaces && conventions.IsMessageType(i) ensures i in messageHandlers {
        var q :| 0 <= q < |interfaces| && interfaces[q] == i;
      }
    }

    /** One iteration of Init's loop. */
    method RegisterMessageType(messageTypes: seq<TypeId>, i: nat, handlerTypes: seq<TypeId>, ghost all: set<TypeId>)
      requires WellFormed(graph) && NoDup(handlerTypes) && i < |messageTypes|
      requires messageTypes[i] in graph.types
      requires Indexed(handlerTypes)
      requires Closed({}, messageHandlers.Keys)
      requires all == ReachAll(messageTypes) && messageHandlers.Keys <= all
      modifies this`messageHandlers
      ensures Indexed(handlerTypes)
      ensures old(messageHandlers).Keys <= messageHandlers.Keys && messageTypes[i] in messageHandlers
      ensures Closed({}, messageHandlers.Keys)
      ensures messageHandlers.Keys <= all
    {
      var m := messageTypes[i];
      ghost var before := messageHandlers.Keys;
      RegisterDispatchHandler(m, handlerTypes);
      assert Grows({}, before, before);
      GrowsTrans({}, before, messageHandlers.Keys, before, Reach(m));
      forall k | k in messageHandlers ensures k in all {
        if k !in before {
          assert k in Reach(m);
        }
      }
    }

    /** The loop of Init: registers every handled message type, in the order found. */
    method RegisterAll(messageTypes: seq<TypeId>, handlerTypes: seq<TypeId>)
      requires WellFormed(graph) && NoDup(handlerTypes)
      requires forall x :: x in messageTypes ==> x in graph.types
      requires messageHandlers == map[]
      modifies this`messageHandlers
      ensures Indexed(handlerTypes)
      ensures messageHandlers.Keys == ReachAll(messageTypes)
    {
      ghost var all := ReachAll(messageTypes);
      var i := 0;
      while i < |messageTypes|
        invariant 0 <= i <= |messageTypes|
        invariant Indexed(handlerTypes)
        invariant forall q :: 0 <= q < i ==> messageTypes[q] in messageHandlers
        invariant Closed({}, messageHandlers.Keys)
        invariant all == ReachAll(messageTypes) && messageHandlers.Keys <= all
      {
        RegisterMessageType(messageTypes, i, handlerTypes, all);
        i := i + 1;
      }
      ReachedExactly(messageTypes, messageHandlers.Keys);
    }

    /**
     * Scans the assemblies once and indexes every handled message type and the supertypes
     * reached from it through approved parents, and no other type. A second call does nothing.
     */
    method Init()
      requires Valid()
      modifies this`messageHandlers, this`isInit
      ensures Valid() && isInit
      ensures old(isInit) ==> messageHandlers == old(messageHandlers)
      ensures !old(isInit) ==>
        var handlerTypes := MessageHandlerTypes(graph, assembliesToScan);
        var messageTypes := FindAllMessageTypesForDispatch(graph, handlerTypes);
        messageHandlers.Keys == ReachAll(messageTypes)
        && (forall k :: k in messageHandlers ==> messageHandlers[k] == Candidates(graph, k, handlerTypes))
    {
      if isInit {
        return;
      }
      Scan();
    }

    /** The body of Init once it knows it has not run before. */
    method Scan()
      requires Valid() && !isInit
      modifies this`messageHandlers, this`isInit
      ensures Valid() && isInit
      ensures var handlerTypes := MessageHandlerTypes(graph, assembliesToScan);
        var messageTypes := FindAllMessageTypesForDispatch(graph, handlerTypes);
        messageHandlers.Keys == ReachAll(messageTypes)
        && (forall k :: k in messageHandlers ==> messageHandlers[k] == Candidates(graph, k, handlerTypes))
    {
      var handlerTypes := FindAllMessageHandlerTypes(graph, assembliesToScan);
      var messageTypes := FindAllMessageTypesForDispatch(graph, handlerTypes);
      DispatchTypesAreTypes(graph, handlerTypes);
      RegisterAll(messageTypes, handlerTypes);
      label indexed:
      isInit := true;
      ReachAllFramed@indexed(messageTypes);
      IndexedIsValid(handlerTypes);
    }

    /** ReachAll depends on the conventions alone. */
    twostate lemma ReachAllFramed(messageTypes: seq<TypeId>)
      requires unchanged(conventions)
      ensures old(ReachAll(messageTypes)) == ReachAll(messageTypes)
    {
    }

    /** Once initialized, an index of the scanned handler types is a valid registry. */
    lemma IndexedIsValid(handlerTypes: seq<TypeId>)
      requires WellFormed(graph) && NoDup(assembliesToScan) && isInit
      requires handlerTypes == MessageHandlerTypes(graph, assembliesToScan)
      requires Indexed(handlerTypes)
      ensures Valid()
    {
      forall k | k in messageHandlers
        ensures NoDup(messageHandlers[k])
      {
        CandidatesNoDup(graph, k, handlerTypes);
      }
    }

    /**
     * ExecuteTheseHandlersFirst: under every key, the first handler assignable to each
     * requested type, in request order, moves to the front; the rest keep their order
     * (ReorderFirstOrder).
     */
    method ExecuteTheseHandlersFirst(requested: seq<TypeId>) returns (error: ExcRef)
      requires Valid()
      modifies this`messageHandlers
      ensures Valid()
      ensures !isInit ==> error == Some(InvalidOperationException(NotInitialized))
                          && messageHandlers == old(messageHandlers)
      ensures isInit ==> error.None? && messageHandlers.Keys == old(messageHandlers).Keys
      ensures isInit ==> forall k :: k in messageHandlers ==>
                messageHandlers[k] == ReorderFirst(graph, old(messageHandlers)[k], requested)
    {
      if !isInit {
        return Some(InvalidOperationException(NotInitialized));
      }
      error := None;
      messageHandlers := ReorderAll(graph, messageHandlers, requested);
      ReorderAllKeepsCandidates(graph, old(messageHandlers), messageHandlers, requested, MessageHandlerTypes(graph, assembliesToScan));
    }

    /** AddAssembliesToScan: adds each assembly not yet present; refused once initialised. */
    method AddAssembliesToScan(assemblies: seq<Assembly>) returns (error: ExcRef)
      requires Valid()
      modifies this`assembliesToScan
      ensures Valid()
      ensures isInit ==> error == Some(InvalidOperationException(AlreadyInitialized))
                         && assembliesToScan == old(assembliesToScan)
      ensures !isInit ==> error.None? && assembliesToScan == AppendMissing(old(assembliesToScan), assemblies)
    {
      if isInit {
        return Some(InvalidOperationException(AlreadyInitialized));
      }
      var i := 0;
      while i < |assemblies|
        invariant 0 <= i <= |assemblies|
        invariant assembliesToScan == AppendMissing(old(assembliesToScan), assemblies[..i])
      {
        AppendMissingStep(old(assembliesToScan), assemblies[..i], assemblies[i]);
        assert assemblies[..i + 1] == assemblies[..i] + [assemblies[i]];
        if assemblies[i] !in assembliesToScan {
          assembliesToScan := assembliesToScan + [assemblies[i]];
        }
        i := i + 1;
      }
      assert assemblies[..i] == assemblies;
      if |assemblies| > 0 {
        AppendMissingFacts(old(assembliesToScan), assemblies, assemblies[0]);
      }
      error := None;
    }

    method AddAssemblyToScan(assembly: Assembly) returns (error: ExcRef)
      requires Valid()
      modifies this`assembliesToScan
      ensures Valid()
      ensures isInit ==> error == Some(InvalidOperationException(AlreadyInitialized))
                         && assembliesToScan == old(assembliesToScan)
      ensures !isInit ==> error.None? && assembliesToScan == AppendMissing(old(assembliesToScan), [assembly])
    {
      error := AddAssembliesToScan([assembly]);
    }

    /** AllMessageTypes: the indexed keys, once initialised. */
    function AllMessageTypes(): (r: Result<set<TypeId>, Exception>)
      reads this
      ensures r.Failure? <==> !isInit
      ensures r.Success? ==> r.value == messageHandlers.Keys
    {
      if !isInit then Failure(InvalidOperationException(NotInitialized)) else Success(messageHandlers.Keys)
    }

    /** GetOrderedHandlersFor: the list under the key, or nothing for a type that was never indexed. */
    function GetOrderedHandlersFor(m: TypeId): (r: Result<seq<DispatchInfo>, Exception>)
      reads this
      ensures r.Failure? <==> !isInit
      ensures r.Failure? ==> r.error == InvalidOperationException(NotInitialized)
      ensures r.Success? && m !in messageHandlers ==> r.value == []
    {
      if !isInit then Failure(InvalidOperationException(NotInitialized))
      else if m in messageHandlers then Success(messageHandlers[m])
      else Success([])
    }
  }

  /**
   * After initialisation, the handlers returned for an indexed type are exactly the
   * handler methods that serve it, each once; every entry names the key, a concrete
   * handler class for a subtype of the key and a Handle method accepting a subtype of it.
   */
  lemma OrderedHandlersAreTheCandidates(c: MessageHandlerCollection, m: TypeId, d: DispatchInfo)
    requires c.Valid() && c.isInit && m in c.messageHandlers
    ensures c.GetOrderedHandlersFor(m).Success?
    ensures NoDup(c.GetOrderedHandlersFor(m).value)
    ensures d in c.GetOrderedHandlersFor(m).value <==>
      d.messageType == m && d.instanceType in MessageHandlerTypes(c.graph, c.assembliesToScan)
      && IsMessageHandlerClassTypeForMessageType(c.graph, d.instanceType, m)
      && d.methodInfo in c.graph.types[d.instanceType].methods
      && IsHandleMethodForMessageType(c.graph, d.methodInfo, m)
  {
    var hts := MessageHandlerTypes(c.graph, c.assembliesToScan);
    CandidatesExactly(c.graph, m, hts, d);
    assert d in c.messageHandlers[m] <==> multiset(c.messageHandlers[m])[d] > 0;
    assert d in Candidates(c.graph, m, hts) <==> multiset(Candidates(c.graph, m, hts))[d] > 0;
  }
}
