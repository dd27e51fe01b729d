/**
 * `ClassInstantiator`: builds one instance of a class from its dependency
 * desires and the providers that satisfy them. The construction runs in
 * phases, each stopping at its first failure:
 *   1. choose the constructor (the one behind the first constructor-parameter
 *      desire, else the declared no-argument constructor);
 *   2. fill the argument array by parameter index, null-checking each value,
 *      and invoke the constructor;
 *   3. inject every desire's member, in list order;
 *   4. register the instance with the lifecycle manager, if there is one;
 *   5. invoke the post-construct hooks: zero-argument `@Inject` methods,
 *      supertypes first, then the `@PostConstruct` methods.
 *
 * The code the engine calls out to (providers, the reflective constructor
 * and method invocations, the member injection strategy) is a `Behaviour`
 * value; every call into it is recorded as an `Event`, so that a run is an
 * outcome together with the trace of calls it made.
 */
module ClassInstantiation {
  import opened Seqs
  import opened Reflect

  // ---------------------------------------------------------- collaborators

  /** Where a desire is injected: a constructor parameter, or a member (field or setter) of the built object. */
  datatype InjectionPoint =
    | ConstructorParameter(ctor: Ctor, parameterIndex: nat, optional: bool)
    | MemberPoint(key: nat, optional: bool)

  datatype Desire = Desire(key: nat, injectionPoint: InjectionPoint)

  /** An `Instantiator` that provides a dependency. */
  datatype Provider = Provider(key: nat)

  datatype LifecycleManager = LifecycleManager(key: nat)

  /** The checked exceptions of `Constructor.newInstance`: `InvocationTargetException`, `InstantiationException`, `IllegalAccessException`. */
  datatype InvokeFailure = TargetThrew | NotInstantiable | AccessViolation

  /** The checked exceptions of `Method.invoke` on a hook: `InvocationTargetException`, `IllegalAccessException`. */
  datatype HookRaise = HookThrew | HookAccessViolation

  /** What a reflective constructor call does: return the new object or raise. */
  datatype Invocation = Returned(value: Obj) | Raised(kind: InvokeFailure)

  /** Why an instantiation fails. */
  datatype Failure =
    | Thrown(exception: Exception)                      // an unchecked exception
    | NullDependency(point: InjectionPoint)             // `NullDependencyException`
    | ConstructorFailed(ctor: Ctor, kind: InvokeFailure) // `ConstructionException` from the constructor call
    | HookFailed(hook: MethodInfo, raised: HookRaise)    // `ConstructionException` from a post-construct hook

  datatype Outcome<T> = Done(value: T) | Fails(failure: Failure)

  /** The value an `InjectionArgs` holds: one slot per setter parameter, and whether it was set. */
  datatype ArgSlots = ArgSlots(arguments: seq<Option<Obj>>, injected: seq<bool>)

  /** The `settersAndArguments` map that member injection threads from desire to desire. */
  type SetterTable = map<MethodInfo, ArgSlots>

  /**
   * The code outside this class: `Instantiator.instantiate` of a provider,
   * `Constructor.newInstance`, `InjectionStrategy.inject` and `Method.invoke`
   * of a hook (`None` when the hook returns normally).
   */
  datatype Behaviour = Behaviour(
    provide: Provider -> Outcome<Option<Obj>>,
    construct: (Ctor, seq<Option<Obj>>) -> Invocation,
    inject: (InjectionPoint, Obj, Option<Provider>, SetterTable) -> Outcome<SetterTable>,
    hook: (MethodInfo, Obj) -> Option<HookRaise>)

  /** One call into the code outside this class. */
  datatype Event =
    | ProviderCalled(desire: Desire)
    | ConstructorCalled(ctor: Ctor, args: seq<Option<Obj>>)
    | MemberInjected(desire: Desire)
    | Registered(manager: LifecycleManager, instance: Obj)
    | HookCalled(hook: MethodInfo)

  /** A run: how it ended, and the calls it made, in order. */
  datatype Run = Run(outcome: Outcome<Obj>, trace: seq<Event>)

  // ---------------------------------------------------------- the instantiator

  datatype ClassInstantiator = ClassInstantiator(
    classType: ClassRef,
    desires: seq<Desire>,
    providers: map<Desire, Provider>,
    manager: Option<LifecycleManager>)

  /** The constructor: a null type, desire list or provider map is a null-pointer error; the manager may be null. */
  function NewClassInstantiator(
    classType: Option<ClassRef>, desires: Option<seq<Desire>>,
    providers: Option<map<Desire, Provider>>, manager: Option<LifecycleManager>): (r: Result<ClassInstantiator>)
    ensures r.Ok? <==> classType.Some? && desires.Some? && providers.Some?
    ensures classType.None? ==> r == Throws(NullPointer("type"))
    ensures classType.Some? && desires.None? ==> r == Throws(NullPointer("desires"))
    ensures classType.Some? && desires.Some? && providers.None? ==> r == Throws(NullPointer("providers"))
    ensures r.Ok? ==> GetType(r.value) == classType.value && r.value.desires == desires.value &&
                      r.value.providers == providers.value && r.value.manager == manager
  {
    if classType.None? then Throws(NullPointer("type"))
    else if desires.None? then Throws(NullPointer("desires"))
    else if providers.None? then Throws(NullPointer("providers"))
    else Ok(ClassInstantiator(classType.value, desires.value, providers.value, manager))
  }

  function GetType(ci: ClassInstantiator): ClassRef { ci.classType }

  predicate IsConstructorParameter(d: Desire)
  {
    d.injectionPoint.ConstructorParameter?
  }

  /** `ds[i]` is the first constructor-parameter desire of `ds`. */
  predicate IsFirstConstructorParameter(ds: seq<Desire>, i: int)
  {
    0 <= i < |ds| && IsConstructorParameter(ds[i]) && forall j :: 0 <= j < i ==> !IsConstructorParameter(ds[j])
  }

  /** The index of a constructor-parameter desire. */
  function ParameterIndex(d: Desire): nat
    requires IsConstructorParameter(d)
  {
    d.injectionPoint.parameterIndex
  }

  /** No constructor-parameter desire of `ds` has index `k`. */
  predicate Untargeted(ds: seq<Desire>, k: int)
  {
    forall i :: 0 <= i < |ds| && IsConstructorParameter(ds[i]) ==> ParameterIndex(ds[i]) != k
  }

  /** `ds[i]` is a constructor-parameter desire and no later one has the same index. */
  predicate IsLastForIndex(ds: seq<Desire>, i: int)
  {
    0 <= i < |ds| && IsConstructorParameter(ds[i]) && Untargeted(ds[i + 1..], ParameterIndex(ds[i]))
  }

  /** `providers.get(d)`. */
  function Lookup(providers: map<Desire, Provider>, d: Desire): Option<Provider>
  {
    if d in providers then Some(providers[d]) else None
  }

  // ---------------------------------------------------------- choosing the constructor

  /** `getDeclaredConstructor()`: the declared constructor with no parameters, if there is one. */
  function DeclaredNoArgConstructor(table: ClassTable, t: ClassRef): (r: Option<Ctor>)
    ensures r.Some? ==> r.value in Info(table, t).constructors && |r.value.params| == 0
    ensures r.None? <==> forall k :: 0 <= k < |Info(table, t).constructors| ==> |Info(table, t).constructors[k].params| != 0
  {
    var ctors := Info(table, t).constructors;
    match FindFirst(ctors, (c: Ctor) => |c.params| == 0)
    case None => None
    case Some(k) => Some(ctors[k])
  }

  /**
   * The constructor `getConstructor` chooses: that of the first
   * constructor-parameter desire; failing any, the declared no-argument
   * constructor; failing that, a runtime exception.
   */
  function ChosenConstructor(ci: ClassInstantiator, table: ClassTable): (r: Result<Ctor>)
    ensures forall i :: IsFirstConstructorParameter(ci.desires, i) ==> r == Ok(ci.desires[i].injectionPoint.ctor)
    ensures (forall i :: 0 <= i < |ci.desires| ==> !IsConstructorParameter(ci.desires[i])) ==>
      (r.Ok? <==> DeclaredNoArgConstructor(table, ci.classType).Some?) &&
      (r.Ok? ==> |r.value.params| == 0 && r.value in Info(table, ci.classType).constructors)
    ensures r.Throws? ==> r.exception == RuntimeFailure("Unexpected exception")
  {
    match FindFirst(ci.desires, IsConstructorParameter)
    case Some(i) => Ok(ci.desires[i].injectionPoint.ctor)
    case None =>
      match DeclaredNoArgConstructor(table, ci.classType)
      case Some(c) => Ok(c)
      case None => Throws(RuntimeFailure("Unexpected exception"))
  }

  /** `getConstructor`: scans the desires in order for a constructor parameter. */
  method GetConstructor(ci: ClassInstantiator, table: ClassTable) returns (r: Result<Ctor>)
    ensures r == ChosenConstructor(ci, table)
  {
    var i := 0;
    while i < |ci.desires|
      invariant 0 <= i <= |ci.desires|
      invariant forall j :: 0 <= j < i ==> !IsConstructorParameter(ci.desires[j])
    {
      if IsConstructorParameter(ci.desires[i]) {
        return Ok(ci.desires[i].injectionPoint.ctor);
      }
      i := i + 1;
    }
    match DeclaredNoArgConstructor(table, ci.classType)
    case Some(c) => r := Ok(c);
    case None => r := Throws(RuntimeFailure("Unexpected exception"));
  }

  // ---------------------------------------------------------- phases

  /** The state after some steps of a phase, the calls made so far, and the failure that stopped it, if any. */
  datatype Step<S> = Step(state: S, trace: seq<Event>, failure: Option<Failure>)

  /** Runs `step` on each element of `xs` in order, threading the state, until the first failure. */
  function RunPhase<S, X>(s0: S, xs: seq<X>, step: (S, X) -> Step<S>): Step<S>
    decreases |xs|
  {
    if |xs| == 0 then Step(s0, [], None)
    else
      var prev := RunPhase(s0, xs[..|xs| - 1], step);
      if prev.failure.Some? then prev
      else
        var next := step(prev.state, xs[|xs| - 1]);
        Step(next.state, prev.trace + next.trace, next.failure)
  }

  /** The calls `e(x)` for each `x` of `xs`, in order. */
  function Each<X>(xs: seq<X>, e: X -> seq<Event>): seq<Event>
    decreases |xs|
  {
    if |xs| == 0 then [] else Each(xs[..|xs| - 1], e) + e(xs[|xs| - 1])
  }

  /** One more element of a phase: nothing happens after a failure, otherwise the next step runs. */
  lemma RunPhaseExtend<S, X>(s0: S, xs: seq<X>, step: (S, X) -> Step<S>, i: nat)
    requires i < |xs|
    ensures var prev := RunPhase(s0, xs[..i], step);
      var next := step(prev.state, xs[i]);
      RunPhase(s0, xs[..i + 1], step) ==
        if prev.failure.Some? then prev else Step(next.state, prev.trace + next.trace, next.failure)
  {
    assert xs[..i + 1][..i] == xs[..i];
  }

  /** Once a phase has failed, the remaining elements change nothing. */
  lemma {:induction false} RunPhaseStops<S, X>(s0: S, xs: seq<X>, step: (S, X) -> Step<S>, i: nat)
    requires i <= |xs|
    requires RunPhase(s0, xs[..i], step).failure.Some?
    ensures RunPhase(s0, xs, step) == RunPhase(s0, xs[..i], step)
    decreases |xs| - i
  {
    if i == |xs| {
      assert xs[..i] == xs;
    } else {
      RunPhaseExtend(s0, xs, step, i);
      RunPhaseStops(s0, xs, step, i + 1);
    }
  }

  /** In a phase that ends without failure, every step succeeded. */
  lemma {:induction false} RunPhaseEveryStepSucceeded<S, X>(s0: S, xs: seq<X>, step: (S, X) -> Step<S>)
    requires RunPhase(s0, xs, step).failure.None?
    ensures forall i :: 0 <= i < |xs| ==> step(RunPhase(s0, xs[..i], step).state, xs[i]).failure.None?
    decreases |xs|
  {
    if |xs| > 0 {
      var n := |xs| - 1;
      RunPhaseExtend(s0, xs, step, n);
      assert xs[..n + 1] == xs;
      RunPhaseEveryStepSucceeded(s0, xs[..n], step);
      forall i | 0 <= i < n
        ensures step(RunPhase(s0, xs[..i], step).state, xs[i]).failure.None?
      {
        assert xs[..n][..i] == xs[..i];
      }
    }
  }

  /** A phase that ends without failure made, for each element in order, the calls its step makes on success. */
  lemma {:induction false} RunPhaseTrace<S, X>(s0: S, xs: seq<X>, step: (S, X) -> Step<S>, e: X -> seq<Event>)
    requires RunPhase(s0, xs, step).failure.None?
    requires forall s, x :: step(s, x).failure.None? ==> step(s, x).trace == e(x)
    ensures RunPhase(s0, xs, step).trace == Each(xs, e)
    decreases |xs|
  {
    if |xs| > 0 {
      var n := |xs| - 1;
      RunPhaseExtend(s0, xs, step, n);
      assert xs[..n + 1] == xs;
      RunPhaseTrace(s0, xs[..n], step, e);
    }
  }

  // ---------------------------------------------------------- constructor arguments

  /** `checkNull`: a null value is refused unless the injection point is optional; any other value passes unchanged. */
  function CheckNull(point: InjectionPoint, value: Option<Obj>): (r: Outcome<Option<Obj>>)
    ensures r.Fails? <==> value.None? && !point.optional
    ensures r.Fails? ==> r.failure == NullDependency(point)
    ensures r.Done? ==> r.value == value
  {
    if value.None? && !point.optional then Fails(NullDependency(point)) else Done(value)
  }

  /**
   * One desire of `createInstance`'s loop. A member desire is skipped. For a
   * constructor parameter the provider is called (a missing provider is a
   * null dereference before any call), its value null-checked, and stored at
   * the parameter index, which the array store bounds-checks last.
   */
  function FillStep(ci: ClassInstantiator, b: Behaviour, args: seq<Option<Obj>>, d: Desire): Step<seq<Option<Obj>>>
  {
    match d.injectionPoint
    case MemberPoint(_, _) => Step(args, [], None)
    case ConstructorParameter(_, index, _) =>
      if d !in ci.providers then Step(args, [], Some(Thrown(NullPointer(""))))
      else
        var called := [ProviderCalled(d)];
        match b.provide(ci.providers[d])
        case Fails(f) => Step(args, called, Some(f))
        case Done(v) =>
          match CheckNull(d.injectionPoint, v)
          case Fails(f) => Step(args, called, Some(f))
          case Done(checked) =>
            if index < |args| then Step(args[index := checked], called, None)
            else Step(args, called, Some(Thrown(IndexOutOfBounds(index))))
  }

  function FillStepOf(ci: ClassInstantiator, b: Behaviour): (seq<Option<Obj>>, Desire) -> Step<seq<Option<Obj>>>
  {
    (args: seq<Option<Obj>>, d: Desire) => FillStep(ci, b, args, d)
  }

  /** A fresh `Object[n]`: every slot null. */
  function NoArgs(n: nat): (r: seq<Option<Obj>>)
    ensures |r| == n && forall k :: 0 <= k < n ==> r[k].None?
  {
    seq(n, _ => None)
  }

  /** The argument array after running the loop over `ds`, for a constructor of `n` parameters. */
  function Fill(ci: ClassInstantiator, b: Behaviour, n: nat, ds: seq<Desire>): Step<seq<Option<Obj>>>
  {
    RunPhase(NoArgs(n), ds, FillStepOf(ci, b))
  }

  /** The value provided for a constructor-parameter desire, when its provider exists and returns. */
  function Provided(ci: ClassInstantiator, b: Behaviour, d: Desire): Option<Obj>
  {
    if d in ci.providers && b.provide(ci.providers[d]).Done? then b.provide(ci.providers[d]).value else None
  }

  /** Whether the loop gets past desire `d` for a constructor of `n` parameters. */
  predicate ArgumentReady(ci: ClassInstantiator, b: Behaviour, n: nat, d: Desire)
  {
    IsConstructorParameter(d) ==>
      d in ci.providers && b.provide(ci.providers[d]).Done? &&
      CheckNull(d.injectionPoint, b.provide(ci.providers[d]).value).Done? &&
      d.injectionPoint.parameterIndex < n
  }

  /** The loop never changes the array's length. */
  lemma {:induction false} FillKeepsLength(ci: ClassInstantiator, b: Behaviour, n: nat, ds: seq<Desire>)
    ensures |Fill(ci, b, n, ds).state| == n
    decreases |ds|
  {
    if |ds| > 0 {
      var m := |ds| - 1;
      RunPhaseExtend(NoArgs(n), ds, FillStepOf(ci, b), m);
      assert ds[..m + 1] == ds;
      FillKeepsLength(ci, b, n, ds[..m]);
    }
  }

  /**
   * The loop completes exactly when every desire is ready; then every
   * constructor parameter had a provider that returned a value passing
   * `checkNull`, at an index inside the array, and the loop called exactly
   * the providers of the constructor-parameter desires, in list order.
   */
  lemma {:induction false} FillSucceedsIffReady(ci: ClassInstantiator, b: Behaviour, n: nat, ds: seq<Desire>)
    ensures Fill(ci, b, n, ds).failure.None? <==> forall i :: 0 <= i < |ds| ==> ArgumentReady(ci, b, n, ds[i])
    ensures Fill(ci, b, n, ds).failure.None? ==> Fill(ci, b, n, ds).trace == Each(ds, ProviderCall)
    decreases |ds|
  {
    if |ds| > 0 {
      var m := |ds| - 1;
      RunPhaseExtend(NoArgs(n), ds, FillStepOf(ci, b), m);
      assert ds[..m + 1] == ds;
      FillSucceedsIffReady(ci, b, n, ds[..m]);
      FillKeepsLength(ci, b, n, ds[..m]);
      assert forall i :: 0 <= i < m ==> ds[..m][i] == ds[i];
    }
  }

  /** The call the loop makes for one desire when it gets past it. */
  function ProviderCall(d: Desire): seq<Event>
  {
    if IsConstructorParameter(d) then [ProviderCalled(d)] else []
  }

  /**
   * Where the loop puts each value: when it completes, slot `k` holds the
   * value provided for the last constructor-parameter desire with index `k`,
   * and stays null when no desire has that index.
   */
  lemma {:induction false} FillPlacesArguments(ci: ClassInstantiator, b: Behaviour, n: nat, ds: seq<Desire>)
    requires Fill(ci, b, n, ds).failure.None?
    ensures |Fill(ci, b, n, ds).state| == n
    ensures forall k :: 0 <= k < n && Untargeted(ds, k) ==> Fill(ci, b, n, ds).state[k].None?
    ensures forall i :: IsLastForIndex(ds, i) ==>
      ParameterIndex(ds[i]) < n && Fill(ci, b, n, ds).state[ParameterIndex(ds[i])] == Provided(ci, b, ds[i])
    decreases |ds|
  {
    FillKeepsLength(ci, b, n, ds);
    if |ds| > 0 {
      var m := |ds| - 1;
      RunPhaseExtend(NoArgs(n), ds, FillStepOf(ci, b), m);
      assert ds[..m + 1] == ds;
      FillPlacesArguments(ci, b, n, ds[..m]);
      FillKeepsLength(ci, b, n, ds[..m]);
      assert forall i :: 0 <= i < m ==> ds[..m][i] == ds[i];
    }
  }

  /** `createInstance` for a chosen constructor: fill the arguments, then invoke the constructor once. */
  function Creation(ci: ClassInstantiator, b: Behaviour, ctor: Ctor): Run
  {
    var fill := Fill(ci, b, |ctor.params|, ci.desires);
    if fill.failure.Some? then Run(Fails(fill.failure.value), fill.trace)
    else
      var trace := fill.trace + [ConstructorCalled(ctor, fill.state)];
      match b.construct(ctor, fill.state)
      case Returned(o) => Run(Done(o), trace)
      case Raised(kind) => Run(Fails(ConstructorFailed(ctor, kind)), trace)
  }

  /** `createInstance`: fills a fresh argument array desire by desire, then invokes the constructor. */
  method CreateInstance(ci: ClassInstantiator, b: Behaviour, ctor: Ctor) returns (r: Outcome<Obj>, trace: seq<Event>)
    ensures Run(r, trace) == Creation(ci, b, ctor)
  {
    var n := |ctor.params|;
    var ctorArgs := new Option<Obj>[n](_ => None);
    assert ctorArgs[..] == NoArgs(n);
    trace := [];
    var i := 0;
    while i < |ci.desires|
      invariant 0 <= i <= |ci.desires|
      invariant Fill(ci, b, n, ci.desires[..i]).failure.None?
      invariant ctorArgs[..] == Fill(ci, b, n, ci.desires[..i]).state
      invariant trace == Fill(ci, b, n, ci.desires[..i]).trace
    {
      var d := ci.desires[i];
      RunPhaseExtend(NoArgs(n), ci.desires, FillStepOf(ci, b), i);
      if d.injectionPoint.ConstructorParameter? {
        if d !in ci.providers {
          RunPhaseStops(NoArgs(n), ci.desires, FillStepOf(ci, b), i + 1);
          return Fails(Thrown(NullPointer(""))), trace;
        }
        trace := trace + [ProviderCalled(d)];
        var provided := b.provide(ci.providers[d]);
        if provided.Fails? {
          RunPhaseStops(NoArgs(n), ci.desires, FillStepOf(ci, b), i + 1);
          return Fails(provided.failure), trace;
        }
        var checked := CheckNull(d.injectionPoint, provided.value);
        if checked.Fails? {
          RunPhaseStops(NoArgs(n), ci.desires, FillStepOf(ci, b), i + 1);
          return Fails(checked.failure), trace;
        }
        var index := d.injectionPoint.parameterIndex;
        if index >= ctorArgs.Length {
          RunPhaseStops(NoArgs(n), ci.desires, FillStepOf(ci, b), i + 1);
          return Fails(Thrown(IndexOutOfBounds(index))), trace;
        }
        ctorArgs[index] := checked.value;
      }
      i := i + 1;
    }
    assert ci.desires[..i] == ci.desires;
    trace := trace + [ConstructorCalled(ctor, ctorArgs[..])];
    match b.construct(ctor, ctorArgs[..])
    case Returned(o) => r := Done(o);
    case Raised(kind) => r := Fails(ConstructorFailed(ctor, kind));
  }

  // ---------------------------------------------------------- member injection

  /** One desire of `instantiate`'s injection loop: its injection strategy is handed the instance, the provider and the setter table. */
  function InjectStep(ci: ClassInstantiator, b: Behaviour, instance: Obj, setters: SetterTable, d: Desire): Step<SetterTable>
  {
    var called := [MemberInjected(d)];
    match b.inject(d.injectionPoint, instance, Lookup(ci.providers, d), setters)
    case Done(next) => Step(next, called, None)
    case Fails(f) => Step(setters, called, Some(f))
  }

  function InjectStepOf(ci: ClassInstantiator, b: Behaviour, instance: Obj): (SetterTable, Desire) -> Step<SetterTable>
  {
    (setters: SetterTable, d: Desire) => InjectStep(ci, b, instance, setters, d)
  }

  /** The injection loop over all desires, starting from an empty setter table. */
  function MemberInjection(ci: ClassInstantiator, b: Behaviour, instance: Obj): Step<SetterTable>
  {
    RunPhase(map[], ci.desires, InjectStepOf(ci, b, instance))
  }

  /** The call the injection loop makes for one desire. */
  function MemberInjectionCall(d: Desire): seq<Event> { [MemberInjected(d)] }

  /** `registerComponent`, made only when there is a manager. */
  function Registration(ci: ClassInstantiator, instance: Obj): seq<Event>
  {
    if ci.manager.Some? then [Registered(ci.manager.value, instance)] else []
  }

  // ---------------------------------------------------------- post-construct hooks

  /** The depth of the class declaring `m`; a supertype is shallower than its subtypes. */
  function Depth(table: ClassTable, m: MethodInfo): nat
  {
    Info(table, m.declaringClass).depth
  }

  /** Methods of supertypes come before methods of their subtypes. */
  predicate SupertypesFirst(table: ClassTable, ms: seq<MethodInfo>)
  {
    forall i, j :: 0 <= i < j < |ms| ==> Depth(table, ms[i]) <= Depth(table, ms[j])
  }

  /** Inserts `m` before the first method that is no shallower, keeping earlier methods of equal depth in front. */
  function InsertByDepth(table: ClassTable, m: MethodInfo, ms: seq<MethodInfo>): (r: seq<MethodInfo>)
    ensures multiset(r) == multiset(ms) + multiset{m}
    decreases |ms|
  {
    if |ms| == 0 || Depth(table, m) <= Depth(table, ms[0]) then [m] + ms
    else
      assert ms == [ms[0]] + ms[1..];
      [ms[0]] + InsertByDepth(table, m, ms[1..])
  }

  /**
   * Inserting into a supertypes-first list keeps it supertypes first, and
   * every method of the result is at least as deep as `m` or as the list's head.
   */
  lemma {:induction false} InsertKeepsOrder(table: ClassTable, m: MethodInfo, ms: seq<MethodInfo>)
    requires SupertypesFirst(table, ms)
    ensures SupertypesFirst(table, InsertByDepth(table, m, ms))
    ensures forall j :: 0 <= j < |InsertByDepth(table, m, ms)| ==>
      Depth(table, InsertByDepth(table, m, ms)[j]) >= Depth(table, m) ||
      (|ms| > 0 && Depth(table, InsertByDepth(table, m, ms)[j]) >= Depth(table, ms[0]))
    decreases |ms|
  {
    if |ms| > 0 && Depth(table, m) > Depth(table, ms[0]) {
      var tail := ms[1..];
      assert SupertypesFirst(table, tail) by {
        forall i, j | 0 <= i < j < |tail| ensures Depth(table, tail[i]) <= Depth(table, tail[j]) {
          assert tail[i] == ms[i + 1] && tail[j] == ms[j + 1];
        }
      }
      InsertKeepsOrder(table, m, tail);
      var rest := InsertByDepth(table, m, tail);
      assert forall j :: 0 <= j < |rest| ==> Depth(table, ms[0]) <= Depth(table, rest[j]);
      assert InsertByDepth(table, m, ms) == [ms[0]] + rest;
    }
  }

  /** The `sorted(comparing(declaringClass, supertypesFirst()))` stage: a supertypes-first permutation. */
  function SortSupertypesFirst(table: ClassTable, ms: seq<MethodInfo>): (r: seq<MethodInfo>)
    ensures multiset(r) == multiset(ms)
    ensures SupertypesFirst(table, r)
    decreases |ms|
  {
    if |ms| == 0 then []
    else
      assert ms == [ms[0]] + ms[1..];
      var rest := SortSupertypesFirst(table, ms[1..]);
      InsertKeepsOrder(table, ms[0], rest);
      InsertByDepth(table, ms[0], rest)
  }

  /** A zero-argument `@Inject` method. */
  predicate IsInjectHook(m: MethodInfo)
  {
    HasAnnotationOfType(m.annotations, InjectType) && |m.params| == 0
  }

  /** A public `@PostConstruct` method. */
  predicate IsPostConstructHook(m: MethodInfo)
  {
    m.isPublic && HasAnnotationOfType(m.annotations, PostConstructType)
  }

  /** `getPostConstructMethods`: the zero-argument `@Inject` methods supertypes first, then the `@PostConstruct` methods. */
  function PostConstructMethods(table: ClassTable, t: ClassRef): seq<MethodInfo>
  {
    var ms := Info(table, t).methods;
    SortSupertypesFirst(table, Filter(ms, IsInjectHook)) + Filter(ms, IsPostConstructHook)
  }

  /**
   * The hook list begins with every zero-argument `@Inject` method of the
   * class, each as often as it is listed, ordered supertypes first; after
   * them come the public `@PostConstruct` methods in their listed order.
   */
  lemma PostConstructOrder(table: ClassTable, t: ClassRef)
    ensures var ms := Info(table, t).methods;
      var injectHooks := Filter(ms, IsInjectHook);
      var hooks := PostConstructMethods(table, t);
      var k := |injectHooks|;
      k <= |hooks| &&
      SupertypesFirst(table, hooks[..k]) &&
      multiset(hooks[..k]) == multiset(injectHooks) &&
      (forall i :: 0 <= i < k ==> IsInjectHook(hooks[i]) && hooks[i] in ms) &&
      hooks[k..] == Filter(ms, IsPostConstructHook)
  {
    var ms := Info(table, t).methods;
    var injectHooks := Filter(ms, IsInjectHook);
    var sorted := SortSupertypesFirst(table, injectHooks);
    var hooks := PostConstructMethods(table, t);
    assert |sorted| == |multiset(sorted)| == |multiset(injectHooks)| == |injectHooks|;
    assert hooks[..|injectHooks|] == sorted;
    forall i | 0 <= i < |injectHooks|
      ensures IsInjectHook(hooks[i]) && hooks[i] in ms
    {
      assert hooks[i] in multiset(injectHooks);
    }
  }

  /** One post-construct hook: it is invoked; if it raises, the run fails with a `ConstructionException` naming it. */
  function HookStep(b: Behaviour, instance: Obj, m: MethodInfo): Step<()>
  {
    match b.hook(m, instance)
    case None => Step((), [HookCalled(m)], None)
    case Some(kind) => Step((), [HookCalled(m)], Some(HookFailed(m, kind)))
  }

  function HookStepOf(b: Behaviour, instance: Obj): ((), MethodInfo) -> Step<()>
  {
    (u: (), m: MethodInfo) => HookStep(b, instance, m)
  }

  /** The call the hook loop makes for one hook. */
  function HookCall(m: MethodInfo): seq<Event> { [HookCalled(m)] }

  /** When every hook returns normally, each is invoked once, in order. */
  lemma {:induction false} HooksAllReturn(b: Behaviour, instance: Obj, hooks: seq<MethodInfo>)
    requires forall j :: 0 <= j < |hooks| ==> b.hook(hooks[j], instance).None?
    ensures RunPhase((), hooks, HookStepOf(b, instance)) == Step((), Each(hooks, HookCall), None)
    decreases |hooks|
  {
    if |hooks| > 0 {
      var n := |hooks| - 1;
      RunPhaseExtend((), hooks, HookStepOf(b, instance), n);
      assert hooks[..n + 1] == hooks;
      HooksAllReturn(b, instance, hooks[..n]);
    }
  }

  /** The hooks run in order up to the first one that raises; that one fails the run and no later hook is invoked. */
  lemma HooksStopAtFirstFailure(b: Behaviour, instance: Obj, hooks: seq<MethodInfo>, i: nat)
    requires i < |hooks| && b.hook(hooks[i], instance).Some?
    requires forall j :: 0 <= j < i ==> b.hook(hooks[j], instance).None?
    ensures RunPhase((), hooks, HookStepOf(b, instance)) ==
      Step((), Each(hooks[..i + 1], HookCall), Some(HookFailed(hooks[i], b.hook(hooks[i], instance).value)))
  {
    HooksAllReturn(b, instance, hooks[..i]);
    RunPhaseExtend((), hooks, HookStepOf(b, instance), i);
    assert hooks[..i + 1][..i] == hooks[..i];
    RunPhaseStops((), hooks, HookStepOf(b, instance), i + 1);
  }

  // ---------------------------------------------------------- instantiate

  /** `instantiate`: constructor choice, creation, member injection, registration, hooks; each failure ends the run. */
  function Instantiation(ci: ClassInstantiator, table: ClassTable, b: Behaviour): Run
  {
    match ChosenConstructor(ci, table)
    case Throws(e) => Run(Fails(Thrown(e)), [])
    case Ok(ctor) =>
      var created := Creation(ci, b, ctor);
      if created.outcome.Fails? then created
      else
        var instance := created.outcome.value;
        var injection := MemberInjection(ci, b, instance);
        var injected := created.trace + injection.trace;
        if injection.failure.Some? then Run(Fails(injection.failure.value), injected)
        else
          var hooks := RunPhase((), PostConstructMethods(table, ci.classType), HookStepOf(b, instance));
          var trace := injected + Registration(ci, instance) + hooks.trace;
          if hooks.failure.Some? then Run(Fails(hooks.failure.value), trace) else Run(Done(instance), trace)
  }

  /** The injection loop of `instantiate`: each desire in order, threading the setter table, until a failure. */
  method InjectMembers(ci: ClassInstantiator, b: Behaviour, instance: Obj) returns (p: Step<SetterTable>)
    ensures p == MemberInjection(ci, b, instance)
  {
    var settersAndArguments: SetterTable := map[];
    var trace: seq<Event> := [];
    var i := 0;
    while i < |ci.desires|
      invariant 0 <= i <= |ci.desires|
      invariant RunPhase(map[], ci.desires[..i], InjectStepOf(ci, b, instance)) == Step(settersAndArguments, trace, None)
    {
      var d := ci.desires[i];
      RunPhaseExtend(map[], ci.desires, InjectStepOf(ci, b, instance), i);
      trace := trace + [MemberInjected(d)];
      var injected := b.inject(d.injectionPoint, instance, Lookup(ci.providers, d), settersAndArguments);
      if injected.Fails? {
        RunPhaseStops(map[], ci.desires, InjectStepOf(ci, b, instance), i + 1);
        return Step(settersAndArguments, trace, Some(injected.failure));
      }
      settersAndArguments := injected.value;
      i := i + 1;
    }
    assert ci.desires[..i] == ci.desires;
    p := Step(settersAndArguments, trace, None);
  }

  /** The hook loop of `instantiate`: each hook in order until one raises. */
  method InvokeHooks(b: Behaviour, instance: Obj, hooks: seq<MethodInfo>) returns (p: Step<()>)
    ensures p == RunPhase((), hooks, HookStepOf(b, instance))
  {
    var trace: seq<Event> := [];
    var k := 0;
    while k < |hooks|
      invariant 0 <= k <= |hooks|
      invariant RunPhase((), hooks[..k], HookStepOf(b, instance)) == Step((), trace, None)
    {
      RunPhaseExtend((), hooks, HookStepOf(b, instance), k);
      trace := trace + [HookCalled(hooks[k])];
      var raised := b.hook(hooks[k], instance);
      if raised.Some? {
        RunPhaseStops((), hooks, HookStepOf(b, instance), k + 1);
        return Step((), trace, Some(HookFailed(hooks[k], raised.value)));
      }
      k := k + 1;
    }
    assert hooks[..k] == hooks;
    p := Step((), trace, None);
  }

  /** `instantiate`. */
  method Instantiate(ci: ClassInstantiator, table: ClassTable, b: Behaviour) returns (r: Outcome<Obj>, trace: seq<Event>)
    ensures Run(r, trace) == Instantiation(ci, table, b)
  {
    var chosen := GetConstructor(ci, table);
    if chosen.Throws? {
      return Fails(Thrown(chosen.exception)), [];
    }
    var created;
    created, trace := CreateInstance(ci, b, chosen.value);
    if created.Fails? {
      return created, trace;
    }
    var instance := created.value;
    var injection := InjectMembers(ci, b, instance);
    trace := trace + injection.trace;
    if injection.failure.Some? {
      return Fails(injection.failure.value), trace;
    }
    if ci.manager.Some? {
      trace := trace + [Registered(ci.manager.value, instance)];
    }
    var hooks := InvokeHooks(b, instance, PostConstructMethods(table, ci.classType));
    trace := trace + hooks.trace;
    if hooks.failure.Some? {
      return Fails(hooks.failure.value), trace;
    }
    r := Done(instance);
  }

  // ---------------------------------------------------------- properties of a run

  /** The calls the argument loop makes are all provider calls: no constructor, member or hook call among them. */
  lemma {:induction false} ProviderCallsOnly(ds: seq<Desire>)
    ensures forall k :: 0 <= k < |Each(ds, ProviderCall)| ==> Each(ds, ProviderCall)[k].ProviderCalled?
    decreases |ds|
  {
    if |ds| > 0 {
      ProviderCallsOnly(ds[..|ds| - 1]);
    }
  }

  /**
   * A required constructor argument whose provider returns null ends the run
   * with a `NullDependencyException` before the constructor is invoked: the
   * only calls made were to the providers up to and including that one.
   */
  lemma NullDependencyStopsConstruction(ci: ClassInstantiator, table: ClassTable, b: Behaviour, i: nat)
    requires ChosenConstructor(ci, table).Ok?
    requires i < |ci.desires| && IsConstructorParameter(ci.desires[i]) && !ci.desires[i].injectionPoint.optional
    requires ci.desires[i] in ci.providers && b.provide(ci.providers[ci.desires[i]]) == Done(None)
    requires forall j :: 0 <= j < i ==> ArgumentReady(ci, b, |ChosenConstructor(ci, table).value.params|, ci.desires[j])
    ensures Instantiation(ci, table, b).outcome == Fails(NullDependency(ci.desires[i].injectionPoint))
    ensures Instantiation(ci, table, b).trace == Each(ci.desires[..i + 1], ProviderCall)
    ensures forall k :: 0 <= k < |Instantiation(ci, table, b).trace| ==> Instantiation(ci, table, b).trace[k].ProviderCalled?
  {
    var n := |ChosenConstructor(ci, table).value.params|;
    NullDependencyStopsFill(ci, b, n, i);
    ProviderCallsOnly(ci.desires[..i + 1]);
  }

  /** The argument loop part of `NullDependencyStopsConstruction`: the fill stops at that desire with its provider call last. */
  lemma NullDependencyStopsFill(ci: ClassInstantiator, b: Behaviour, n: nat, i: nat)
    requires i < |ci.desires| && IsConstructorParameter(ci.desires[i]) && !ci.desires[i].injectionPoint.optional
    requires ci.desires[i] in ci.providers && b.provide(ci.providers[ci.desires[i]]) == Done(None)
    requires forall j :: 0 <= j < i ==> ArgumentReady(ci, b, n, ci.desires[j])
    ensures Fill(ci, b, n, ci.desires).failure == Some(NullDependency(ci.desires[i].injectionPoint))
    ensures Fill(ci, b, n, ci.desires).trace == Each(ci.desires[..i + 1], ProviderCall)
  {
    var ds := ci.desires;
    assert forall j :: 0 <= j < i ==> ds[..i][j] == ds[j];
    FillSucceedsIffReady(ci, b, n, ds[..i]);
    FillKeepsLength(ci, b, n, ds[..i]);
    RunPhaseExtend(NoArgs(n), ds, FillStepOf(ci, b), i);
    assert ds[..i + 1][..i] == ds[..i];
    RunPhaseStops(NoArgs(n), ds, FillStepOf(ci, b), i + 1);
  }

  /**
   * A successful run called, in this order: the provider of every
   * constructor-parameter desire, the constructor once (with arguments that
   * all passed `checkNull`), the injection strategy of every desire, the
   * manager if there is one, and every post-construct hook; it returns the
   * object the constructor built.
   */
  lemma SuccessfulRun(ci: ClassInstantiator, table: ClassTable, b: Behaviour)
    requires Instantiation(ci, table, b).outcome.Done?
    ensures ChosenConstructor(ci, table).Ok?
    ensures var n := |ChosenConstructor(ci, table).value.params|;
      forall i :: 0 <= i < |ci.desires| ==> ArgumentReady(ci, b, n, ci.desires[i])
    ensures var ctor := ChosenConstructor(ci, table).value;
      var args := Fill(ci, b, |ctor.params|, ci.desires).state;
      var instance := Instantiation(ci, table, b).outcome.value;
      b.construct(ctor, args) == Returned(instance) &&
      Instantiation(ci, table, b).trace ==
        Each(ci.desires, ProviderCall) + [ConstructorCalled(ctor, args)] + Each(ci.desires, MemberInjectionCall) +
        Registration(ci, instance) + Each(PostConstructMethods(table, ci.classType), HookCall)
  {
    var ctor := ChosenConstructor(ci, table).value;
    FillSucceedsIffReady(ci, b, |ctor.params|, ci.desires);
    var instance := Instantiation(ci, table, b).outcome.value;
    var inject := InjectStepOf(ci, b, instance);
    forall s, d ensures inject(s, d).failure.None? ==> inject(s, d).trace == MemberInjectionCall(d) {
      assert inject(s, d) == InjectStep(ci, b, instance, s, d);
    }
    RunPhaseTrace(map[], ci.desires, inject, MemberInjectionCall);
    var hook := HookStepOf(b, instance);
    forall u, m ensures hook(u, m).failure.None? ==> hook(u, m).trace == HookCall(m) {
      assert hook(u, m) == HookStep(b, instance, m);
    }
    RunPhaseTrace((), PostConstructMethods(table, ci.classType), hook, HookCall);
  }

  /**
   * Once the instance is built and injected, the first post-construct hook
   * that raises ends the run with a `ConstructionException` naming it; the
   * manager was already called, and no later hook is.
   */
  lemma FailingHookEndsRun(ci: ClassInstantiator, table: ClassTable, b: Behaviour, i: nat)
    requires ChosenConstructor(ci, table).Ok?
    requires Creation(ci, b, ChosenConstructor(ci, table).value).outcome.Done?
    requires MemberInjection(ci, b, Creation(ci, b, ChosenConstructor(ci, table).value).outcome.value).failure.None?
    requires var instance := Creation(ci, b, ChosenConstructor(ci, table).value).outcome.value;
      var hooks := PostConstructMethods(table, ci.classType);
      i < |hooks| && b.hook(hooks[i], instance).Some? && forall j :: 0 <= j < i ==> b.hook(hooks[j], instance).None?
    ensures var created := Creation(ci, b, ChosenConstructor(ci, table).value);
      var instance := created.outcome.value;
      var hooks := PostConstructMethods(table, ci.classType);
      Instantiation(ci, table, b) ==
        Run(Fails(HookFailed(hooks[i], b.hook(hooks[i], instance).value)),
            created.trace + MemberInjection(ci, b, instance).trace + Registration(ci, instance) + Each(hooks[..i + 1], HookCall))
  {
    var instance := Creation(ci, b, ChosenConstructor(ci, table).value).outcome.value;
    HooksStopAtFirstFailure(b, instance, PostConstructMethods(table, ci.classType), i);
  }

  // ---------------------------------------------------------- InjectionArgs

  /** `set(i, o)` on the value of an `InjectionArgs`: slot `i` takes `o` and is marked; an index outside the array fails. */
  function SetSlot(s: ArgSlots, i: int, o: Option<Obj>): (r: Result<ArgSlots>)
    requires |s.arguments| == |s.injected|
    ensures r.Ok? <==> 0 <= i < |s.arguments|
    ensures r.Throws? ==> r.exception == IndexOutOfBounds(i)
    ensures r.Ok? ==> |r.value.arguments| == |r.value.injected| == |s.arguments|
    ensures r.Ok? ==> r.value.arguments[i] == o && r.value.injected[i]
    ensures r.Ok? ==> forall k :: 0 <= k < |s.arguments| && k != i ==>
      r.value.arguments[k] == s.arguments[k] && r.value.injected[k] == s.injected[k]
  {
    if 0 <= i < |s.arguments| then Ok(ArgSlots(s.arguments[i := o], s.injected[i := true])) else Throws(IndexOutOfBounds(i))
  }

  /** Every slot is marked. */
  predicate AllInjected(s: ArgSlots)
  {
    forall k :: 0 <= k < |s.injected| ==> s.injected[k]
  }

  /**
   * Setting a slot never unmarks another, so a completed value stays
   * completed; and it completes the value exactly when every other slot was
   * already marked.
   */
  lemma SetSlotCompletes(s: ArgSlots, i: int, o: Option<Obj>)
    requires |s.arguments| == |s.injected| && 0 <= i < |s.arguments|
    ensures AllInjected(s) ==> AllInjected(SetSlot(s, i, o).value)
    ensures AllInjected(SetSlot(s, i, o).value) <==> forall k :: 0 <= k < |s.injected| && k != i ==> s.injected[k]
  {
    var r := SetSlot(s, i, o).value;
    if forall k :: 0 <= k < |s.injected| && k != i ==> s.injected[k] {
      assert forall k :: 0 <= k < |r.injected| ==> r.injected[k];
    }
  }

  /** `InjectionArgs`: the arguments collected so far for one setter, and which of them have been set. */
  class InjectionArgs {
    const arguments: array<Option<Obj>>
    const injected: array<bool>

    predicate Valid()
      reads this
    {
      arguments.Length == injected.Length
    }

    /** The value the two arrays hold. */
    function Slots(): (s: ArgSlots)
      reads this, arguments, injected
      ensures |s.arguments| == arguments.Length && |s.injected| == injected.Length
    {
      ArgSlots(arguments[..], injected[..])
    }

    /** `new InjectionArgs(num)`: `num` null slots, none marked. */
    constructor(num: nat)
      ensures Valid() && fresh(arguments) && fresh(injected)
      ensures Slots() == ArgSlots(NoArgs(num), seq(num, _ => false))
    {
      arguments := new Option<Obj>[num](_ => None);
      injected := new bool[num](_ => false);
      new;
      assert arguments[..] == NoArgs(num);
      assert injected[..] == seq(num, _ => false);
    }

    /** `set`: stores `o` at `i` and marks slot `i`; an index outside the array throws before anything changes. */
    method Set(i: int, o: Option<Obj>) returns (error: Option<Exception>)
      requires Valid()
      modifies arguments, injected
      ensures Valid()
      ensures SetSlot(old(Slots()), i, o).Ok? ==> error.None? && Slots() == SetSlot(old(Slots()), i, o).value
      ensures SetSlot(old(Slots()), i, o).Throws? ==> error == Some(SetSlot(old(Slots()), i, o).exception) && Slots() == old(Slots())
    {
      if i < 0 || i >= arguments.Length {
        return Some(IndexOutOfBounds(i));
      }
      arguments[i] := o;
      injected[i] := true;
      error := None;
    }

    /** `isCompleted`: scans the marks for one still unset. */
    method IsCompleted() returns (r: bool)
      ensures r <==> AllInjected(Slots())
    {
      var i := 0;
      while i < injected.Length
        invariant 0 <= i <= injected.Length
        invariant forall k :: 0 <= k < i ==> injected[k]
      {
        if !injected[i] {
          return false;
        }
        i := i + 1;
      }
      return true;
    }
  }

  /** A fresh `InjectionArgs(num)` is completed exactly when it has no slots. */
  method NewArgsCompleted(num: nat) returns (r: bool)
    ensures r <==> num == 0
  {
    var args := new InjectionArgs(num);
    r := args.IsCompleted();
    if num > 0 {
      assert !args.Slots().injected[0];
    }
  }
}
