/**
 * The SQL Server transport's SqlServerTransactionWrapper: a re-entrant
 * RunInTransaction whose thread-static loopLevel counter decides which call level
 * opens, commits, rolls back and closes. Connections and transactions are known by
 * the number they were created under; the callback is a tree of nested calls.
 */
module SqlTransactions {
  import opened Wrappers
  import opened Exceptions

  /**
   * One RunInTransaction call: its skipOpenConnection argument, the nested calls its
   * callback makes in order, and the exception the callback throws at its end.
   */
  datatype Call = Call(skipOpenConnection: bool, nested: seq<Nested>, fault: ExcRef)

  /** A nested call, and whether the callback catches what it throws. */
  datatype Nested = Nested(call: Call, caught: bool)

  /** The thread-static fields, and the number the next connection or transaction gets. */
  datatype Ambient = Ambient(loopLevel: int, connection: Option<nat>, transaction: Option<nat>, next: nat)

  const Idle: Ambient := Ambient(0, None, None, 0)

  /** What the wrapper does to the database, and each callback invocation with its level and transaction. */
  datatype WEvent =
    | Opened(connection: nat)
    | Began(transaction: nat)
    | Invoked(level: int, current: Option<nat>)
    | Committed(transaction: nat)
    | RolledBack(transaction: nat)
    | Disposed(transaction: nat)
    | Closed(connection: nat)

  datatype Run = Run(events: seq<WEvent>, thrown: ExcRef, after: Ambient)

  /**
   * The try block up to the callback: the level goes up; unless told to skip, a
   * missing connection is opened and, on an open connection, a missing transaction
   * is begun.
   */
  function Enter(a: Ambient, skip: bool): (seq<WEvent>, Ambient) {
    var a1 := a.(loopLevel := a.loopLevel + 1);
    var open := a1.connection.None? && !skip;
    var a2 := if open then a1.(connection := Some(a1.next), next := a1.next + 1) else a1;
    var begin := a2.transaction.None? && a2.connection.Some? && !skip;
    var a3 := if begin then a2.(transaction := Some(a2.next), next := a2.next + 1) else a2;
    ((if open then [Opened(a1.next)] else []) + (if begin then [Began(a2.next)] else []), a3)
  }

  /**
   * After the callback: the top-level call commits its transaction or, on an
   * exception, rolls it back; then the finally block lowers the level and the
   * top-level call disposes the transaction and closes the connection.
   */
  function Leave(a: Ambient, isTopLevel: bool, thrown: ExcRef): (seq<WEvent>, Ambient) {
    var ends := if isTopLevel && a.transaction.Some? then
      [if thrown.None? then Committed(a.transaction.value) else RolledBack(a.transaction.value)] else [];
    var a1 := a.(loopLevel := a.loopLevel - 1);
    var dispose := isTopLevel && a1.transaction.Some?;
    var a2 := if dispose then a1.(transaction := None) else a1;
    var close := isTopLevel && a2.connection.Some?;
    var a3 := if close then a2.(connection := None) else a2;
    (ends + (if dispose then [Disposed(a1.transaction.value)] else []) + (if close then [Closed(a2.connection.value)] else []), a3)
  }

  /** RunInTransaction from the thread-static state `a`. */
  function RunCall(a: Ambient, call: Call): Run
    decreases call, 1, 0
  {
    var e := Enter(a, call.skipOpenConnection);
    var body := RunNested(e.1, call, |call.nested|);
    var thrown := if body.thrown.Some? then body.thrown else call.fault;
    var l := Leave(body.after, a.loopLevel == 0, thrown);
    Run(e.0 + [Invoked(e.1.loopLevel, e.1.transaction)] + body.events + l.0, thrown, l.1)
  }

  /** The first `k` nested calls of `call`'s callback, up to the first exception it does not catch. */
  function RunNested(a: Ambient, call: Call, k: nat): Run
    requires k <= |call.nested|
    decreases call, 0, k
  {
    if k == 0 then Run([], None, a)
    else
      var p := RunNested(a, call, k - 1);
      if p.thrown.Some? then p
      else
        var last := call.nested[k - 1];
        var r := RunCall(p.after, last.call);
        Run(p.events + r.events, if last.caught then None else r.thrown, r.after)
  }

  /** What the callback tree throws, whatever the wrapper does. */
  function Outcome(call: Call): ExcRef
    decreases call, 1, 0
  {
    var b := NestedOutcome(call, |call.nested|);
    if b.Some? then b else call.fault
  }

  function NestedOutcome(call: Call, k: nat): ExcRef
    requires k <= |call.nested|
    decreases call, 0, k
  {
    if k == 0 then None
    else
      var p := NestedOutcome(call, k - 1);
      if p.Some? then p
      else if call.nested[k - 1].caught then None
      else Outcome(call.nested[k - 1].call)
  }

  /** RunCall in its three parts, for the method that performs them one after the other. */
  lemma RunCallParts(a: Ambient, call: Call)
    ensures var e := Enter(a, call.skipOpenConnection);
      var body := RunNested(e.1, call, |call.nested|);
      var thrown := if body.thrown.Some? then body.thrown else call.fault;
      var l := Leave(body.after, a.loopLevel == 0, thrown);
      RunCall(a, call) == Run(e.0 + [Invoked(e.1.loopLevel, e.1.transaction)] + body.events + l.0, thrown, l.1)
  {
  }

  /** One more nested call, for the loop that makes them one after the other. */
  lemma RunNestedStep(a: Ambient, call: Call, k: nat)
    requires k < |call.nested|
    ensures var p := RunNested(a, call, k);
      var r := RunCall(p.after, call.nested[k].call);
      p.thrown.None? ==>
        RunNested(a, call, k + 1) == Run(p.events + r.events, if call.nested[k].caught then None else r.thrown, r.after)
  {
  }

  /** Once an exception escapes the callback's nested calls, later ones are not made. */
  lemma {:induction false} NestedStops(a: Ambient, call: Call, i: nat, k: nat)
    requires i <= k <= |call.nested| && RunNested(a, call, i).thrown.Some?
    ensures RunNested(a, call, k) == RunNested(a, call, i)
    decreases k
  {
    if k > i {
      NestedStops(a, call, i, k - 1);
    }
  }

  /** RunInTransaction rethrows exactly what the callback tree throws: the wrapper adds and removes no exception. */
  lemma {:induction false} ThrownIsOutcome(a: Ambient, call: Call)
    ensures RunCall(a, call).thrown == Outcome(call)
    decreases call, 1, 0
  {
    NestedThrownIsOutcome(Enter(a, call.skipOpenConnection).1, call, |call.nested|);
  }

  lemma {:induction false} NestedThrownIsOutcome(a: Ambient, call: Call, k: nat)
    requires k <= |call.nested|
    ensures RunNested(a, call, k).thrown == NestedOutcome(call, k)
    decreases call, 0, k
  {
    if k > 0 {
      NestedThrownIsOutcome(a, call, k - 1);
      var p := RunNested(a, call, k - 1);
      if p.thrown.None? {
        ThrownIsOutcome(p.after, call.nested[k - 1].call);
      }
    }
  }

  /** The finally block undoes the increment: every call leaves loopLevel as it found it. */
  lemma {:induction false} LevelRestored(a: Ambient, call: Call)
    ensures RunCall(a, call).after.loopLevel == a.loopLevel
    decreases call, 1, 0
  {
    NestedLevelRestored(Enter(a, call.skipOpenConnection).1, call, |call.nested|);
  }

  lemma {:induction false} NestedLevelRestored(a: Ambient, call: Call, k: nat)
    requires k <= |call.nested|
    ensures RunNested(a, call, k).after.loopLevel == a.loopLevel
    decreases call, 0, k
  {
    if k > 0 {
      NestedLevelRestored(a, call, k - 1);
      var p := RunNested(a, call, k - 1);
      if p.thrown.None? {
        LevelRestored(p.after, call.nested[k - 1].call);
      }
    }
  }

  /** Committing, rolling back, disposing and closing: what only the top-level call does. */
  predicate Ends(x: WEvent) {
    x.Committed? || x.RolledBack? || x.Disposed? || x.Closed?
  }

  predicate NoEnds(events: seq<WEvent>) {
    forall i :: 0 <= i < |events| ==> !Ends(events[i])
  }

  lemma NoEndsConcat(u: seq<WEvent>, v: seq<WEvent>)
    requires NoEnds(u) && NoEnds(v)
    ensures NoEnds(u + v)
  {
    forall i | 0 <= i < |u + v|
      ensures !Ends((u + v)[i])
    {
      if i >= |u| {
        assert (u + v)[i] == v[i - |u|];
      }
    }
  }

  /**
   * A nested call (loopLevel above zero on entry) never commits, rolls back,
   * disposes or closes, and leaves an existing connection and transaction in place.
   */
  lemma {:induction false} NestedCallsNeverEnd(a: Ambient, call: Call)
    requires a.loopLevel > 0
    ensures var r := RunCall(a, call);
      NoEnds(r.events) &&
      (a.connection.Some? ==> r.after.connection == a.connection) &&
      (a.transaction.Some? ==> r.after.transaction == a.transaction)
    decreases call, 1, 0
  {
    var e := Enter(a, call.skipOpenConnection);
    NestedNeverEnd(e.1, call, |call.nested|);
    var body := RunNested(e.1, call, |call.nested|);
    var thrown := if body.thrown.Some? then body.thrown else call.fault;
    var l := Leave(body.after, false, thrown);
    assert l.0 == [];
    assert NoEnds(e.0 + [Invoked(e.1.loopLevel, e.1.transaction)]);
    NoEndsConcat(e.0 + [Invoked(e.1.loopLevel, e.1.transaction)], body.events);
  }

  lemma {:induction false} NestedNeverEnd(a: Ambient, call: Call, k: nat)
    requires k <= |call.nested| && a.loopLevel > 0
    ensures var r := RunNested(a, call, k);
      NoEnds(r.events) && r.after.loopLevel == a.loopLevel &&
      (a.connection.Some? ==> r.after.connection == a.connection) &&
      (a.transaction.Some? ==> r.after.transaction == a.transaction)
    decreases call, 0, k
  {
    if k > 0 {
      NestedNeverEnd(a, call, k - 1);
      var p := RunNested(a, call, k - 1);
      if p.thrown.None? {
        NestedCallsNeverEnd(p.after, call.nested[k - 1].call);
        LevelRestored(p.after, call.nested[k - 1].call);
        NoEndsConcat(p.events, RunCall(p.after, call.nested[k - 1].call).events);
      }
    }
  }

  /** Every event is a callback invocation handed transaction `t`. */
  predicate OnlyInvoked(events: seq<WEvent>, t: Option<nat>) {
    forall i :: 0 <= i < |events| ==> events[i].Invoked? && events[i].current == t
  }

  lemma OnlyInvokedConcat(u: seq<WEvent>, v: seq<WEvent>, t: Option<nat>)
    requires OnlyInvoked(u, t) && OnlyInvoked(v, t)
    ensures OnlyInvoked(u + v, t)
  {
    forall i | 0 <= i < |u + v|
      ensures (u + v)[i].Invoked? && (u + v)[i].current == t
    {
      if i >= |u| {
        assert (u + v)[i] == v[i - |u|];
      }
    }
  }

  /**
   * Inside an open transaction a nested call is transparent: it opens, begins and
   * ends nothing, hands every callback the ambient transaction, and leaves the
   * thread-static state exactly as it found it.
   */
  lemma {:induction false} InsideTransactionTransparent(a: Ambient, call: Call)
    requires a.loopLevel > 0 && a.connection.Some? && a.transaction.Some?
    ensures var r := RunCall(a, call);
      r.after == a && OnlyInvoked(r.events, a.transaction)
    decreases call, 1, 0
  {
    var e := Enter(a, call.skipOpenConnection);
    assert e.0 == [] && e.1 == a.(loopLevel := a.loopLevel + 1);
    NestedTransparent(e.1, call, |call.nested|);
    var body := RunNested(e.1, call, |call.nested|);
    var thrown := if body.thrown.Some? then body.thrown else call.fault;
    assert Leave(body.after, false, thrown).0 == [];
    OnlyInvokedConcat([Invoked(e.1.loopLevel, e.1.transaction)], body.events, a.transaction);
  }

  lemma {:induction false} NestedTransparent(a: Ambient, call: Call, k: nat)
    requires k <= |call.nested| && a.loopLevel > 0 && a.connection.Some? && a.transaction.Some?
    ensures var r := RunNested(a, call, k);
      r.after == a && OnlyInvoked(r.events, a.transaction)
    decreases call, 0, k
  {
    if k > 0 {
      NestedTransparent(a, call, k - 1);
      var p := RunNested(a, call, k - 1);
      if p.thrown.None? {
        InsideTransactionTransparent(a, call.nested[k - 1].call);
        OnlyInvokedConcat(p.events, RunCall(a, call.nested[k - 1].call).events, a.transaction);
      }
    }
  }

  /**
   * A top-level call with nothing open: it opens a connection, begins a transaction on
   * it and hands it to the callback; everything the nested calls do is a callback
   * invocation with that transaction; then the transaction is committed when nothing
   * was thrown and rolled back otherwise, disposed, and the connection closed.
   */
  lemma TopLevelTransaction(a: Ambient, call: Call)
    requires a.loopLevel == 0 && a.connection.None? && a.transaction.None? && !call.skipOpenConnection
    ensures var r := RunCall(a, call);
      var c, t := a.next, a.next + 1;
      var outcome := Outcome(call);
      exists middle ::
        OnlyInvoked(middle, Some(t)) &&
        r.events == [Opened(c), Began(t), Invoked(1, Some(t))] + middle +
                    [if outcome.None? then Committed(t) else RolledBack(t), Disposed(t), Closed(c)] &&
        r.thrown == outcome && r.after == Ambient(0, None, None, a.next + 2)
  {
    var e := Enter(a, false);
    var t := a.next + 1;
    assert e.0 == [Opened(a.next), Began(t)] && e.1 == Ambient(1, Some(a.next), Some(t), a.next + 2);
    NestedTransparent(e.1, call, |call.nested|);
    ThrownIsOutcome(a, call);
    var body := RunNested(e.1, call, |call.nested|);
    var r := RunCall(a, call);
    assert r.events == [Opened(a.next), Began(t), Invoked(1, Some(t))] + body.events +
      [if r.thrown.None? then Committed(t) else RolledBack(t), Disposed(t), Closed(a.next)];
  }

  /**
   * Whatever the callback tree and the skipOpenConnection flags, the top-level call
   * leaves no connection or transaction behind, and nothing before its own end
   * events commits, rolls back, disposes or closes.
   */
  lemma TopLevelCleansUp(a: Ambient, call: Call)
    requires a.loopLevel == 0
    ensures var r := RunCall(a, call);
      r.after.loopLevel == 0 && r.after.connection.None? && r.after.transaction.None? &&
      exists front, ends :: r.events == front + ends && NoEnds(front) && |ends| <= 3
  {
    var e := Enter(a, call.skipOpenConnection);
    NestedNeverEnd(e.1, call, |call.nested|);
    var body := RunNested(e.1, call, |call.nested|);
    var thrown := if body.thrown.Some? then body.thrown else call.fault;
    var l := Leave(body.after, true, thrown);
    var head := e.0 + [Invoked(e.1.loopLevel, e.1.transaction)];
    assert NoEnds(head);
    NoEndsConcat(head, body.events);
    assert RunCall(a, call).events == (head + body.events) + l.0;
  }

  /**
   * skipOpenConnection at the top level: the callback gets no transaction, and a
   * nested call that does not skip opens and begins one that stays open until the
   * top-level call commits it and closes its connection.
   */
  lemma SkippedTopLevelCommitsNestedWork()
    ensures RunCall(Idle, Call(true, [Nested(Call(false, [], None), false)], None)).events ==
      [Invoked(1, None), Opened(0), Began(1), Invoked(2, Some(1)), Committed(1), Disposed(1), Closed(0)]
  {
    var inner := Call(false, [], None);
    var outer := Call(true, [Nested(inner, false)], None);
    var e := Enter(Idle, true);
    assert e.0 == [] && e.1 == Ambient(1, None, None, 0);
    var ri := RunCall(e.1, inner);
    assert Enter(e.1, false).1 == Ambient(2, Some(0), Some(1), 2);
    assert ri.events == [Opened(0), Began(1), Invoked(2, Some(1))] && ri.after == Ambient(1, Some(0), Some(1), 2);
    assert RunNested(e.1, outer, 1).events == ri.events;
  }

  class SqlServerTransactionWrapper {
    var loopLevel: int
    var connection: Option<nat>
    var transaction: Option<nat>
    var next: nat
    var trace: seq<WEvent>

    function State(): Ambient
      reads this
    {
      Ambient(loopLevel, connection, transaction, next)
    }

    constructor ()
      ensures State() == Idle && trace == []
    {
      loopLevel := 0;
      connection := None;
      transaction := None;
      next := 0;
      trace := [];
    }

    /** The part of the try block before the callback. */
    method Open(skipOpenConnection: bool)
      modifies this
      ensures var e := Enter(old(State()), skipOpenConnection);
        State() == e.1 && trace == old(trace) + e.0
    {
      loopLevel := loopLevel + 1;
      if connection.None? && !skipOpenConnection {
        connection := Some(next);
        next := next + 1;
        trace := trace + [Opened(connection.value)];
      }
      if transaction.None? && connection.Some? && !skipOpenConnection {
        transaction := Some(next);
        next := next + 1;
        trace := trace + [Began(transaction.value)];
      }
    }

    /** The commit or rollback of the try and catch blocks, and the finally block. */
    method Close(isTopLevel: bool, thrown: ExcRef)
      modifies this
      ensures var l := Leave(old(State()), isTopLevel, thrown);
        State() == l.1 && trace == old(trace) + l.0
    {
      ghost var start := trace;
      if isTopLevel && transaction.Some? {
        if thrown.None? {
          trace := trace + [Committed(transaction.value)];
        } else {
          trace := trace + [RolledBack(transaction.value)];
        }
      }
      loopLevel := loopLevel - 1;
      if isTopLevel && transaction.Some? {
        trace := trace + [Disposed(transaction.value)];
        transaction := None;
      }
      if isTopLevel && connection.Some? {
        trace := trace + [Closed(connection.value)];
        connection := None;
      }
    }

    method RunInTransaction(call: Call) returns (thrown: ExcRef)
      modifies this
      decreases call, 1, 0
      ensures var r := RunCall(old(State()), call);
        trace == old(trace) + r.events && thrown == r.thrown && State() == r.after
    {
      ghost var a, t0 := State(), trace;
      var isTopLevel := loopLevel == 0;
      Open(call.skipOpenConnection);
      ghost var e := Enter(a, call.skipOpenConnection);
      ghost var head := e.0 + [Invoked(e.1.loopLevel, e.1.transaction)];
      trace := trace + [Invoked(loopLevel, transaction)];
      assert trace == t0 + head;
      thrown := RunCallback(call);
      ghost var body := RunNested(e.1, call, |call.nested|);
      assert trace == t0 + (head + body.events);
      Close(isTopLevel, thrown);
      ghost var l := Leave(body.after, isTopLevel, thrown);
      assert trace == t0 + (head + body.events + l.0);
      RunCallParts(a, call);
    }

    /** The callback: its nested calls in order, stopping at the first exception it does not catch, then its own exception. */
    method RunCallback(call: Call) returns (thrown: ExcRef)
      modifies this
      decreases call, 0, 0
      ensures var r := RunNested(old(State()), call, |call.nested|);
        trace == old(trace) + r.events && State() == r.after &&
        thrown == if r.thrown.Some? then r.thrown else call.fault
    {
      ghost var a := State();
      var i := 0;
      while i < |call.nested|
        invariant 0 <= i <= |call.nested|
        invariant RunNested(a, call, i).thrown.None?
        invariant trace == old(trace) + RunNested(a, call, i).events
        invariant State() == RunNested(a, call, i).after
      {
        ghost var p := RunNested(a, call, i);
        ghost var r := RunCall(p.after, call.nested[i].call);
        RunNestedStep(a, call, i);
        var t := RunInTransaction(call.nested[i].call);
        assert trace == old(trace) + (p.events + r.events);
        if t.Some? && !call.nested[i].caught {
          NestedStops(a, call, i + 1, |call.nested|);
          return t;
        }
        i := i + 1;
      }
      return call.fault;
    }
  }
}
