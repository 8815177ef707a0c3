/**
 * The Service Broker transport's SqlServerTransactionWrapper: a re-entrant
 * RunInTransaction with no level counter. A call owns whatever it found missing: if
 * the thread-static connection was null it opens and closes it, and if the
 * transaction was null it begins, commits or rolls back, and disposes it.
 */
module BrokerTransactions {
  import opened Wrappers
  import opened Exceptions

  /** One RunInTransaction call: the nested calls its callback makes in order, and the exception it throws at its end. */
  datatype BrokerCall = BrokerCall(nested: seq<BrokerNested>, fault: ExcRef)

  /** A nested call, and whether the callback catches what it throws. */
  datatype BrokerNested = BrokerNested(call: BrokerCall, caught: bool)

  /** The thread-static connection and transaction, and the number the next one gets. */
  datatype Held = Held(connection: Option<nat>, transaction: Option<nat>, next: nat)

  const NothingHeld: Held := Held(None, None, 0)

  /** What the wrapper does to the database, and each callback invocation with the transaction it is handed. */
  datatype BrokerEvent =
    | Opened(connection: nat)
    | Began(transaction: nat)
    | Invoked(current: Option<nat>)
    | Committed(transaction: nat)
    | RolledBack(transaction: nat)
    | Disposed(transaction: nat)
    | Closed(connection: nat)

  datatype BrokerRun = BrokerRun(events: seq<BrokerEvent>, thrown: ExcRef, after: Held)

  /** The try block up to the callback: a missing connection is opened, then a missing transaction begun. */
  function Acquire(h: Held): (seq<BrokerEvent>, Held) {
    var open := h.connection.None?;
    var h1 := if open then h.(connection := Some(h.next), next := h.next + 1) else h;
    var begin := h1.transaction.None?;
    var h2 := if begin then h1.(transaction := Some(h1.next), next := h1.next + 1) else h1;
    ((if open then [Opened(h.next)] else []) + (if begin then [Began(h1.next)] else []), h2)
  }

  /**
   * After the callback: a call that began the transaction commits it, or rolls it
   * back on an exception, and disposes it; a call that opened the connection closes it.
   */
  function Release(h: Held, closeConnection: bool, disposeTransaction: bool, thrown: ExcRef): (seq<BrokerEvent>, Held) {
    var ends := if disposeTransaction && h.transaction.Some? then
      [if thrown.None? then Committed(h.transaction.value) else RolledBack(h.transaction.value)] else [];
    var disposed := if disposeTransaction && h.transaction.Some? then [Disposed(h.transaction.value)] else [];
    var h1 := if disposeTransaction then h.(transaction := None) else h;
    var closed := if closeConnection && h1.connection.Some? then [Closed(h1.connection.value)] else [];
    var h2 := if closeConnection then h1.(connection := None) else h1;
    (ends + disposed + closed, h2)
  }

  /** RunInTransaction from the thread-static state `h`. */
  function RunBroker(h: Held, call: BrokerCall): BrokerRun
    decreases call, 1, 0
  {
    var e := Acquire(h);
    var body := RunBrokerNested(e.1, call, |call.nested|);
    var thrown := if body.thrown.Some? then body.thrown else call.fault;
    var l := Release(body.after, h.connection.None?, h.transaction.None?, thrown);
    BrokerRun(e.0 + [Invoked(e.1.transaction)] + body.events + l.0, thrown, l.1)
  }

  /** The first `k` nested calls of `call`'s callback, up to the first exception it does not catch. */
  function RunBrokerNested(h: Held, call: BrokerCall, k: nat): BrokerRun
    requires k <= |call.nested|
    decreases call, 0, k
  {
    if k == 0 then BrokerRun([], None, h)
    else
      var p := RunBrokerNested(h, call, k - 1);
      if p.thrown.Some? then p
      else
        var last := call.nested[k - 1];
        var r := RunBroker(p.after, last.call);
        BrokerRun(p.events + r.events, if last.caught then None else r.thrown, r.after)
  }

  /** What the callback tree throws, whatever the wrapper does. */
  function BrokerOutcome(call: BrokerCall): ExcRef
    decreases call, 1, 0
  {
    var b := BrokerNestedOutcome(call, |call.nested|);
    if b.Some? then b else call.fault
  }

  function BrokerNestedOutcome(call: BrokerCall, k: nat): ExcRef
    requires k <= |call.nested|
    decreases call, 0, k
  {
    if k == 0 then None
    else
      var p := BrokerNestedOutcome(call, k - 1);
      if p.Some? then p
      else if call.nested[k - 1].caught then None
      else BrokerOutcome(call.nested[k - 1].call)
  }

  /** RunBroker in its three parts, for the method that performs them one after the other. */
  lemma RunBrokerParts(h: Held, call: BrokerCall)
    ensures var e := Acquire(h);
      var body := RunBrokerNested(e.1, call, |call.nested|);
      var thrown := if body.thrown.Some? then body.thrown else call.fault;
      var l := Release(body.after, h.connection.None?, h.transaction.None?, thrown);
      RunBroker(h, call) == BrokerRun(e.0 + [Invoked(e.1.transaction)] + body.events + l.0, thrown, l.1)
  {
  }

  /** One more nested call, for the loop that makes them one after the other. */
  lemma RunBrokerNestedStep(h: Held, call: BrokerCall, k: nat)
    requires k < |call.nested|
    ensures var p := RunBrokerNested(h, call, k);
      var r := RunBroker(p.after, call.nested[k].call);
      p.thrown.None? ==>
        RunBrokerNested(h, call, k + 1) == BrokerRun(p.events + r.events, if call.nested[k].caught then None else r.thrown, r.after)
  {
  }

  /** Once an exception escapes the callback's nested calls, later ones are not made. */
  lemma {:induction false} BrokerNestedStops(h: Held, call: BrokerCall, i: nat, k: nat)
    requires i <= k <= |call.nested| && RunBrokerNested(h, call, i).thrown.Some?
    ensures RunBrokerNested(h, call, k) == RunBrokerNested(h, call, i)
    decreases k
  {
    if k > i {
      BrokerNestedStops(h, call, i, k - 1);
    }
  }

  /** RunInTransaction rethrows exactly what the callback tree throws. */
  lemma {:induction false} BrokerThrownIsOutcome(h: Held, call: BrokerCall)
    ensures RunBroker(h, call).thrown == BrokerOutcome(call)
    decreases call, 1, 0
  {
    BrokerNestedThrownIsOutcome(Acquire(h).1, call, |call.nested|);
  }

  lemma {:induction false} BrokerNestedThrownIsOutcome(h: Held, call: BrokerCall, k: nat)
    requires k <= |call.nested|
    ensures RunBrokerNested(h, call, k).thrown == BrokerNestedOutcome(call, k)
    decreases call, 0, k
  {
    if k > 0 {
      BrokerNestedThrownIsOutcome(h, call, k - 1);
      var p := RunBrokerNested(h, call, k - 1);
      if p.thrown.None? {
        BrokerThrownIsOutcome(p.after, call.nested[k - 1].call);
      }
    }
  }

  /**
   * Every call hands back the thread-static connection and transaction as it found
   * them: what it found missing it releases, and what it found held it leaves held.
   */
  lemma {:induction false} HeldRestored(h: Held, call: BrokerCall)
    ensures var r := RunBroker(h, call);
      r.after.connection == h.connection && r.after.transaction == h.transaction
    decreases call, 1, 0
  {
    var e := Acquire(h);
    BrokerNestedHeldRestored(e.1, call, |call.nested|);
  }

  lemma {:induction false} BrokerNestedHeldRestored(h: Held, call: BrokerCall, k: nat)
    requires k <= |call.nested|
    ensures var r := RunBrokerNested(h, call, k);
      r.after.connection == h.connection && r.after.transaction == h.transaction
    decreases call, 0, k
  {
    if k > 0 {
      BrokerNestedHeldRestored(h, call, k - 1);
      var p := RunBrokerNested(h, call, k - 1);
      if p.thrown.None? {
        HeldRestored(p.after, call.nested[k - 1].call);
      }
    }
  }

  /** Every event is a callback invocation handed transaction `t`. */
  predicate OnlyInvoked(events: seq<BrokerEvent>, t: Option<nat>) {
    forall i :: 0 <= i < |events| ==> events[i].Invoked? && events[i].current == t
  }

  lemma OnlyInvokedConcat(u: seq<BrokerEvent>, v: seq<BrokerEvent>, t: Option<nat>)
    requires OnlyInvoked(u, t) && OnlyInvoked(v, t)
    ensures OnlyInvoked(u + v, t)
  {
    forall i | 0 <= i < |u + v|
      ensures (u + v)[i].Invoked? && (u + v)[i].current == t
    {
      if i >= |u| {
        assert (u + v)[i] == v[i - |u|];
      }
    }
  }

  /**
   * With a connection and a transaction already held, a call is transparent: it
   * opens, begins, commits and closes nothing, hands every callback the held
   * transaction, and leaves the state exactly as it found it.
   */
  lemma {:induction false} HeldTransactionTransparent(h: Held, call: BrokerCall)
    requires h.connection.Some? && h.transaction.Some?
    ensures var r := RunBroker(h, call);
      r.after == h && OnlyInvoked(r.events, h.transaction)
    decreases call, 1, 0
  {
    assert Acquire(h) == ([], h);
    BrokerNestedTransparent(h, call, |call.nested|);
    var body := RunBrokerNested(h, call, |call.nested|);
    var thrown := if body.thrown.Some? then body.thrown else call.fault;
    assert Release(body.after, false, false, thrown) == ([], h);
    OnlyInvokedConcat([Invoked(h.transaction)], body.events, h.transaction);
  }

  lemma {:induction false} BrokerNestedTransparent(h: Held, call: BrokerCall, k: nat)
    requires k <= |call.nested| && h.connection.Some? && h.transaction.Some?
    ensures var r := RunBrokerNested(h, call, k);
      r.after == h && OnlyInvoked(r.events, h.transaction)
    decreases call, 0, k
  {
    if k > 0 {
      BrokerNestedTransparent(h, call, k - 1);
      var p := RunBrokerNested(h, call, k - 1);
      if p.thrown.None? {
        HeldTransactionTransparent(h, call.nested[k - 1].call);
        OnlyInvokedConcat(p.events, RunBroker(h, call.nested[k - 1].call).events, h.transaction);
      }
    }
  }

  /**
   * The outermost call, with nothing held: it opens a connection, begins a
   * transaction on it and hands it to the callback; everything nested calls do is a
   * callback invocation with that transaction; then the transaction is committed
   * when nothing was thrown and rolled back otherwise, disposed, and the connection
   * closed, leaving nothing held.
   */
  lemma OutermostTransaction(h: Held, call: BrokerCall)
    requires h.connection.None? && h.transaction.None?
    ensures var r := RunBroker(h, call);
      var c, t := h.next, h.next + 1;
      var outcome := BrokerOutcome(call);
      exists middle ::
        OnlyInvoked(middle, Some(t)) &&
        r.events == [Opened(c), Began(t), Invoked(Some(t))] + middle +
                    [if outcome.None? then Committed(t) else RolledBack(t), Disposed(t), Closed(c)] &&
        r.thrown == outcome && r.after == Held(None, None, h.next + 2)
  {
    var t := h.next + 1;
    var e := Acquire(h);
    assert e.0 == [Opened(h.next), Began(t)] && e.1 == Held(Some(h.next), Some(t), h.next + 2);
    BrokerNestedTransparent(e.1, call, |call.nested|);
    BrokerThrownIsOutcome(h, call);
    var body := RunBrokerNested(e.1, call, |call.nested|);
    var r := RunBroker(h, call);
    assert r.events == [Opened(h.next), Began(t), Invoked(Some(t))] + body.events +
      [if r.thrown.None? then Committed(t) else RolledBack(t), Disposed(t), Closed(h.next)];
  }

  /**
   * A callback that calls nothing further, run with nothing held: what it throws is
   * what RunInTransaction throws, and its transaction is committed exactly when it
   * threw nothing and rolled back exactly when it threw.
   */
  lemma LeafCallOutcome(fault: ExcRef)
    ensures var r := RunBroker(NothingHeld, BrokerCall([], fault));
      r.thrown == fault
      && (Committed(1) in r.events <==> fault.None?)
      && (RolledBack(1) in r.events <==> fault.Some?)
  {
    var call := BrokerCall([], fault);
    OutermostTransaction(NothingHeld, call);
    assert BrokerOutcome(call) == fault;
    var r := RunBroker(NothingHeld, call);
    var middle: seq<BrokerEvent> :| OnlyInvoked(middle, Some(1)) &&
      r.events == [Opened(0), Began(1), Invoked(Some(1))] + middle +
                  [if fault.None? then Committed(1) else RolledBack(1), Disposed(1), Closed(0)];
    assert Committed(1) !in middle && RolledBack(1) !in middle;
  }

  /** The callback is never handed a null transaction: a missing one is begun first, a held one is passed on. */
  lemma CallbackGetsTransaction(h: Held, call: BrokerCall)
    ensures var e := Acquire(h);
      var r := RunBroker(h, call);
      e.1.transaction.Some? && (h.transaction.Some? ==> e.1.transaction == h.transaction) &&
      |e.0| < |r.events| && r.events[..|e.0| + 1] == e.0 + [Invoked(e.1.transaction)]
  {
    var e := Acquire(h);
    var r := RunBroker(h, call);
    var body := RunBrokerNested(e.1, call, |call.nested|);
    var rest := body.events + Release(body.after, h.connection.None?, h.transaction.None?, r.thrown).0;
    assert r.events == (e.0 + [Invoked(e.1.transaction)]) + rest;
  }

  class BrokerTransactionWrapper {
    var connection: Option<nat>
    var transaction: Option<nat>
    var next: nat
    var trace: seq<BrokerEvent>

    function State(): Held
      reads this
    {
      Held(connection, transaction, next)
    }

    constructor ()
      ensures State() == NothingHeld && trace == []
    {
      connection := None;
      transaction := None;
      next := 0;
      trace := [];
    }

    /** The part of the try block before the callback. */
    method Open()
      modifies this
      ensures var e := Acquire(old(State()));
        State() == e.1 && trace == old(trace) + e.0
    {
      if connection.None? {
        connection := Some(next);
        next := next + 1;
        trace := trace + [Opened(connection.value)];
      }
      if transaction.None? {
        transaction := Some(next);
        next := next + 1;
        trace := trace + [Began(transaction.value)];
      }
    }

    /** The commit or rollback of the try and catch blocks, and the finally block. */
    method Close(closeConnection: bool, disposeTransaction: bool, thrown: ExcRef)
      modifies this
      ensures var l := Release(old(State()), closeConnection, disposeTransaction, thrown);
        State() == l.1 && trace == old(trace) + l.0
    {
      if disposeTransaction && transaction.Some? {
        if thrown.None? {
          trace := trace + [Committed(transaction.value)];
        } else {
          trace := trace + [RolledBack(transaction.value)];
        }
      }
      if disposeTransaction {
        if transaction.Some? {
          trace := trace + [Disposed(transaction.value)];
        }
        transaction := None;
      }
      if closeConnection {
        if connection.Some? {
          trace := trace + [Closed(connection.value)];
        }
        connection := None;
      }
    }

    method RunInTransaction(call: BrokerCall) returns (thrown: ExcRef)
      modifies this
      decreases call, 1, 0
      ensures var r := RunBroker(old(State()), call);
        trace == old(trace) + r.events && thrown == r.thrown && State() == r.after
    {
      ghost var h, t0 := State(), trace;
      var closeConnection := connection.None?;
      var disposeTransaction := transaction.None?;
      Open();
      ghost var e := Acquire(h);
      ghost var head := e.0 + [Invoked(e.1.transaction)];
      trace := trace + [Invoked(transaction)];
      assert trace == t0 + head;
      thrown := RunCallback(call);
      ghost var body := RunBrokerNested(e.1, call, |call.nested|);
      assert trace == t0 + (head + body.events);
      Close(closeConnection, disposeTransaction, thrown);
      ghost var l := Release(body.after, h.connection.None?, h.transaction.None?, thrown);
      assert trace == t0 + (head + body.events + l.0);
      RunBrokerParts(h, call);
    }

    /** The callback: its nested calls in order, stopping at the first exception it does not catch, then its own exception. */
    method RunCallback(call: BrokerCall) returns (thrown: ExcRef)
      modifies this
      decreases call, 0, 0
      ensures var r := RunBrokerNested(old(State()), call, |call.nested|);
        trace == old(trace) + r.events && State() == r.after &&
        thrown == if r.thrown.Some? then r.thrown else call.fault
    {
      ghost var h := State();
      var i := 0;
      while i < |call.nested|
        invariant 0 <= i <= |call.nested|
        invariant RunBrokerNested(h, call, i).thrown.None?
        invariant trace == old(trace) + RunBrokerNested(h, call, i).events
        invariant State() == RunBrokerNested(h, call, i).after
      {
        ghost var p := RunBrokerNested(h, call, i);
        ghost var r := RunBroker(p.after, call.nested[i].call);
        RunBrokerNestedStep(h, call, i);
        var t := RunInTransaction(call.nested[i].call);
        assert trace == old(trace) + (p.events + r.events);
        if t.Some? && !call.nested[i].caught {
          BrokerNestedStops(h, call, i + 1, |call.nested|);
          return t;
        }
        i := i + 1;
      }
      return call.fault;
    }
  }
}
