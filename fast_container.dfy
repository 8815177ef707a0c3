/**
 * FastContainerRegistration: one registration of the container, built from a
 * factory or from an instance. It resolves by calling the factory (every time once
 * InstancePerCall was called, otherwise once, caching the result), can be cloned,
 * and is disposed at most once, disposing a disposable cached instance.
 *
 * The objects the container hands out and the factories are opaque: what a factory
 * call returns or throws, and what the instance's own Dispose throws, are
 * parameters; factory calls and instance disposals are recorded in a trace.
 */
module FastContainers {
  import opened Wrappers
  import opened Exceptions

  /** An object the container hands out: its identity and whether it implements IDisposable. */
  datatype Instance = Instance(id: nat, disposable: bool)

  /** A Func<FastContainer, object>, by identity. */
  datatype Factory = Factory(id: nat)

  datatype ContainerEvent =
    | FactoryCalled(factory: Factory)      // resolve(container)
    | InstanceDisposed(instance: Instance) // ((IDisposable)instance).Dispose()

  /** The fields of a registration: resolve, instance, instancePerCall and _disposed. */
  datatype Registration = Registration(factory: Option<Factory>, instance: Option<Instance>, perCall: bool, disposed: bool)

  /** What an operation returns, the registration afterwards and what it did. */
  datatype Step<T> = Step(result: T, after: Registration, events: seq<ContainerEvent>)

  type Resolved = Result<Option<Instance>, Exception>

  /** The object name AssertNotDisposed reports. */
  const DisposedName: string := "TinyContainerRegistration"

  function DisposedError(): Exception {
    ObjectDisposedException(DisposedName)
  }

  /** Calling the factory: a registration built from an instance has none, and calling it throws. */
  function CallFactory(s: Registration, built: Resolved): (r: Step<Resolved>)
    ensures r.after == s
    ensures s.factory.None? ==> r.result == Failure(NullReferenceException()) && r.events == []
    ensures s.factory.Some? ==> r.result == built && r.events == [FactoryCalled(s.factory.value)]
  {
    if s.factory.None? then Step(Failure(NullReferenceException()), s, [])
    else Step(built, s, [FactoryCalled(s.factory.value)])
  }

  /**
   * Resolve, `built` being what the factory returns or throws if it is called: a
   * per-call registration calls it every time; otherwise a cached instance is
   * returned and, without one, the factory's result is returned and stored.
   */
  function ResolveStep(s: Registration, built: Resolved): Step<Resolved> {
    if s.disposed then Step(Failure(DisposedError()), s, [])
    else if s.perCall then CallFactory(s, built)
    else if s.instance.Some? then Step(Success(s.instance), s, [])
    else
      var c := CallFactory(s, built);
      if c.result.Success? then Step(c.result, s.(instance := c.result.value), c.events) else c
  }

  function InstancePerCallStep(s: Registration): Step<ExcRef> {
    if s.disposed then Step(Some(DisposedError()), s, [])
    else Step(None, s.(perCall := true), [])
  }

  /** Clone: a registration with the same factory, per-call flag and cached instance, not disposed. */
  function CloneStep(s: Registration): Result<Registration, Exception> {
    if s.disposed then Failure(DisposedError())
    else Success(Registration(s.factory, s.instance, s.perCall, false))
  }

  /**
   * Dispose, `fault` being what the instance's own Dispose throws: the first call
   * disposes a disposable cached instance and marks the registration disposed even
   * when that throws; later calls do nothing.
   */
  function DisposeStep(s: Registration, fault: ExcRef): Step<ExcRef> {
    if s.disposed then Step(None, s, [])
    else if s.instance.Some? && s.instance.value.disposable then
      Step(fault, s.(disposed := true), [InstanceDisposed(s.instance.value)])
    else Step(None, s.(disposed := true), [])
  }

  /** A registration built from an instance resolves to that instance and never calls a factory. */
  lemma InstanceRegistrationResolvesToIt(x: Instance, built: Resolved)
    ensures var s := Registration(None, Some(x), false, false);
      var r := ResolveStep(s, built);
      r.result == Success(Some(x)) && r.after == s && r.events == []
  {
  }

  /**
   * A factory registration calls the factory on its first Resolve and caches a
   * non-null result: the second Resolve returns the same object without calling it.
   */
  lemma FactoryResultCached(f: Factory, built: Instance, later: Resolved)
    ensures var s := Registration(Some(f), None, false, false);
      var first := ResolveStep(s, Success(Some(built)));
      var second := ResolveStep(first.after, later);
      first.result == Success(Some(built)) && first.events == [FactoryCalled(f)] &&
      second.result == Success(Some(built)) && second.events == [] && second.after == first.after
  {
  }

  /** After InstancePerCall every Resolve calls the factory, returns what it returns and caches nothing. */
  lemma PerCallNeverCaches(s: Registration, built: Resolved)
    requires !s.disposed && s.factory.Some?
    ensures var p := InstancePerCallStep(s).after;
      var r := ResolveStep(p, built);
      r.result == built && r.after == p && r.events == [FactoryCalled(s.factory.value)]
  {
  }

  /** A clone behaves as the original did before it was disposed, cache included. */
  lemma CloneResolvesAlike(s: Registration, built: Resolved)
    requires !s.disposed
    ensures CloneStep(s) == Success(s)
    ensures ResolveStep(CloneStep(s).value, built) == ResolveStep(s, built)
  {
  }

  /** Once disposed, Resolve, Clone and InstancePerCall throw ObjectDisposedException and change nothing. */
  lemma DisposedRejectsEverything(s: Registration, fault: ExcRef, built: Resolved)
    ensures var d := DisposeStep(s, fault).after;
      d.disposed &&
      ResolveStep(d, built) == Step(Failure(DisposedError()), d, []) &&
      InstancePerCallStep(d) == Step(Some(DisposedError()), d, []) &&
      CloneStep(d) == Failure(DisposedError())
  {
  }

  /** Dispose is idempotent: a second call returns normally and does nothing. */
  lemma DisposeIdempotent(s: Registration, fault: ExcRef, again: ExcRef)
    ensures var d := DisposeStep(s, fault);
      DisposeStep(d.after, again) == Step(None, d.after, [])
  {
  }

  /** An operation on a registration, with what its callee returns or throws. */
  datatype Op =
    | DoResolve(built: Resolved)
    | DoInstancePerCall
    | DoDispose(fault: ExcRef)

  function Apply(s: Registration, op: Op): Step<ExcRef> {
    match op
    case DoResolve(built) =>
      var r := ResolveStep(s, built);
      Step(if r.result.Failure? then Some(r.result.error) else None, r.after, r.events)
    case DoInstancePerCall => InstancePerCallStep(s)
    case DoDispose(fault) => DisposeStep(s, fault)
  }

  /** The registration after a sequence of operations, and everything they did. */
  function Run(s: Registration, ops: seq<Op>): (Registration, seq<ContainerEvent>)
    decreases |ops|
  {
    if ops == [] then (s, [])
    else
      var p := Run(s, ops[..|ops| - 1]);
      var st := Apply(p.0, ops[|ops| - 1]);
      (st.after, p.1 + st.events)
  }

  function Disposals(events: seq<ContainerEvent>): nat
    decreases |events|
  {
    if events == [] then 0
    else Disposals(events[..|events| - 1]) + (if events[|events| - 1].InstanceDisposed? then 1 else 0)
  }

  lemma {:induction false} DisposalsAppend(a: seq<ContainerEvent>, b: seq<ContainerEvent>)
    ensures Disposals(a + b) == Disposals(a) + Disposals(b)
    decreases |b|
  {
    if b == [] {
      assert a + b == a;
    } else {
      assert (a + b)[..|a + b| - 1] == a + b[..|b| - 1];
      DisposalsAppend(a, b[..|b| - 1]);
    }
  }

  /** One operation disposes the instance only on a registration not yet disposed, and then marks it disposed. */
  lemma ApplyDisposals(s: Registration, op: Op)
    ensures var st := Apply(s, op);
      Disposals(st.events) <= (if s.disposed then 0 else 1) &&
      (s.disposed ==> st.after.disposed) &&
      (Disposals(st.events) == 1 ==> st.after.disposed)
  {
    var st := Apply(s, op);
    assert |st.events| <= 1;
    if |st.events| == 1 {
      assert st.events[..0] == [];
    }
  }

  /**
   * Whatever is done with a registration, its instance is disposed at most once,
   * and not at all once the registration is disposed; disposal is never undone.
   */
  lemma {:induction false} DisposedAtMostOnce(s: Registration, ops: seq<Op>)
    ensures var r := Run(s, ops);
      Disposals(r.1) <= (if s.disposed then 0 else 1) &&
      (s.disposed ==> r.0.disposed) &&
      (Disposals(r.1) == 1 ==> r.0.disposed)
    decreases |ops|
  {
    if ops != [] {
      var init := ops[..|ops| - 1];
      DisposedAtMostOnce(s, init);
      var p := Run(s, init);
      var st := Apply(p.0, ops[|ops| - 1]);
      DisposalsAppend(p.1, st.events);
      ApplyDisposals(p.0, ops[|ops| - 1]);
    }
  }

  class FastContainerRegistration {
    const factory: Option<Factory>
    var instance: Option<Instance>
    var instancePerCall: bool
    var disposed: bool
    var trace: seq<ContainerEvent>

    function State(): Registration
      reads this
    {
      Registration(factory, instance, instancePerCall, disposed)
    }

    /** A registration that builds its object with `resolve`. */
    constructor FromFactory(resolve: Factory)
      ensures State() == Registration(Some(resolve), None, false, false) && trace == []
    {
      factory := Some(resolve);
      instance := None;
      instancePerCall := false;
      disposed := false;
      trace := [];
    }

    /** A registration of an existing object. */
    constructor FromInstance(x: Option<Instance>)
      ensures State() == Registration(None, x, false, false) && trace == []
    {
      factory := None;
      instance := x;
      instancePerCall := false;
      disposed := false;
      trace := [];
    }

    /** The copy constructor Clone uses. */
    constructor Copy(other: FastContainerRegistration)
      ensures State() == Registration(other.factory, other.instance, other.instancePerCall, false) && trace == []
    {
      factory := other.factory;
      instance := other.instance;
      instancePerCall := other.instancePerCall;
      disposed := false;
      trace := [];
    }

    method AssertNotDisposed() returns (thrown: ExcRef)
      ensures thrown.Some? <==> disposed
      ensures thrown.Some? ==> thrown == Some(DisposedError())
    {
      if disposed {
        return Some(DisposedError());
      }
      return None;
    }

    method InstancePerCall() returns (thrown: ExcRef)
      modifies this
      ensures var st := InstancePerCallStep(old(State()));
        thrown == st.result && State() == st.after && trace == old(trace)
    {
      thrown := AssertNotDisposed();
      if thrown.Some? {
        return;
      }
      instancePerCall := true;
    }

    /** Resolve, `built` being what the factory returns or throws if it is called. */
    method Resolve(built: Resolved) returns (r: Resolved)
      modifies this
      ensures var st := ResolveStep(old(State()), built);
        r == st.result && State() == st.after && trace == old(trace) + st.events
    {
      var thrown := AssertNotDisposed();
      if thrown.Some? {
        return Failure(thrown.value);
      }
      if instancePerCall {
        r := Call(built);
        return;
      }
      if instance.Some? {
        return Success(instance);
      }
      r := Call(built);
      if r.Success? {
        instance := r.value;
      }
    }

    /** this.resolve(container): a registration built from an instance has no delegate to call. */
    method Call(built: Resolved) returns (r: Resolved)
      modifies this
      ensures var st := CallFactory(old(State()), built);
        r == st.result && State() == old(State()) && trace == old(trace) + st.events
    {
      if factory.None? {
        return Failure(NullReferenceException());
      }
      trace := trace + [FactoryCalled(factory.value)];
      return built;
    }

    method Clone() returns (c: FastContainerRegistration?, thrown: ExcRef)
      ensures CloneStep(State()).Failure? ==> c == null && thrown == Some(CloneStep(State()).error)
      ensures CloneStep(State()).Success? ==>
        thrown.None? && c != null && fresh(c) && c.State() == CloneStep(State()).value && c.trace == []
    {
      thrown := AssertNotDisposed();
      if thrown.Some? {
        return null, thrown;
      }
      c := new FastContainerRegistration.Copy(this);
    }

    /** Dispose, `fault` being what the cached instance's own Dispose throws. */
    method Dispose(fault: ExcRef) returns (thrown: ExcRef)
      modifies this
      ensures var st := DisposeStep(old(State()), fault);
        thrown == st.result && State() == st.after && trace == old(trace) + st.events
    {
      thrown := None;
      if !disposed {
        if instance.Some? && instance.value.disposable {
          trace := trace + [InstanceDisposed(instance.value)];
          thrown := fault;
        }
        disposed := true;
      }
    }
  }
}
