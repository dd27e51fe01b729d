/**
 * `InstanceSatisfaction`: a satisfaction that wraps one already-built
 * object. It has no dependencies, its type is the object's runtime class,
 * its default cache policy comes from `@Singleton` on that class, and the
 * instantiator it makes always yields the object.
 */
module InstanceSatisfactions {
  import opened Seqs
  import opened Reflect

  datatype CachePolicy = NoPreference | NewInstance | Memoize

  /** A desire of the grapht `reflect` API; its classes are not part of this model. */
  datatype DesireRef = DesireRef(key: nat)

  datatype LifecycleManager = LifecycleManager(key: nat)

  /** What `Instantiators.ofInstance` builds: an instantiator holding one object. */
  datatype Instantiator = InstanceInstantiator(instance: Obj)

  /** Invoking an instance instantiator yields its object. */
  function Instantiate(i: Instantiator): Obj
  {
    i.instance
  }

  datatype InstanceSatisfaction = InstanceSatisfaction(instance: Obj)

  /** The constructor: a null instance is a null-pointer error. */
  function NewInstanceSatisfaction(obj: Option<Obj>): (r: Result<InstanceSatisfaction>)
    ensures r.Ok? <==> obj.Some?
    ensures r.Ok? ==> r.value.instance == obj.value
    ensures r.Throws? ==> r.exception.NullPointer?
  {
    if obj.None? then Throws(NullPointer("instance")) else Ok(InstanceSatisfaction(obj.value))
  }

  function GetInstance(s: InstanceSatisfaction): Obj { s.instance }

  /** An instance satisfaction has no dependencies. */
  function GetDependencies(s: InstanceSatisfaction): (ds: seq<DesireRef>)
    ensures |ds| == 0
  {
    []
  }

  /** Its type is the runtime class of the instance, which has no type arguments and so is its own erasure. */
  function GetType(s: InstanceSatisfaction): (t: ClassRef)
    ensures t == GetInstance(s).cls && t == GetErasedType(s)
  {
    s.instance.cls
  }

  /** Its erased type is the runtime class of the instance. */
  function GetErasedType(s: InstanceSatisfaction): (t: ClassRef)
    ensures t == GetInstance(s).cls
  {
    s.instance.cls
  }

  /** An instance satisfaction always has an instance. */
  function HasInstance(s: InstanceSatisfaction): (r: bool)
    ensures r
  {
    true
  }

  /** The satisfaction the constructor builds holds the object it was given, and nothing else. */
  lemma ConstructorRoundTrip(obj: Obj, s: InstanceSatisfaction)
    ensures GetInstance(NewInstanceSatisfaction(Some(obj)).value) == obj
    ensures NewInstanceSatisfaction(Some(GetInstance(s))) == Ok(s)
  {
  }

  /** `getDefaultCachePolicy`: memoize when the erased type is `@Singleton`, otherwise no preference. */
  function GetDefaultCachePolicy(table: ClassTable, s: InstanceSatisfaction): (p: CachePolicy)
    ensures p == Memoize <==> HasAnnotationOfType(Info(table, GetErasedType(s)).annotations, SingletonType)
    ensures p != NewInstance
  {
    if HasAnnotationOfType(Info(table, GetErasedType(s)).annotations, SingletonType) then Memoize else NoPreference
  }

  /** `makeInstantiator`: the dependency map and the lifecycle manager are not consulted. */
  function MakeInstantiator(
    s: InstanceSatisfaction, dependencies: map<DesireRef, Instantiator>,
    manager: Option<LifecycleManager>): (i: Instantiator)
    ensures Instantiate(i) == GetInstance(s)
  {
    InstanceInstantiator(s.instance)
  }

  /** The instantiator is the same whatever dependencies and manager are passed, and yields the wrapped object. */
  lemma MakeInstantiatorIgnoresInputs(
    s: InstanceSatisfaction,
    deps1: map<DesireRef, Instantiator>, manager1: Option<LifecycleManager>,
    deps2: map<DesireRef, Instantiator>, manager2: Option<LifecycleManager>)
    ensures MakeInstantiator(s, deps1, manager1) == MakeInstantiator(s, deps2, manager2)
    ensures Instantiate(MakeInstantiator(s, deps1, manager1)) == GetInstance(s)
  {
  }

  /** `equals`: two instance satisfactions are equal when their instances are, that is, when they are the same value. */
  predicate Equals(s: InstanceSatisfaction, o: InstanceSatisfaction): (eq: bool)
    ensures eq <==> s == o
  {
    o.instance == s.instance
  }

  /** `hashCode`: the instance's own hash code. */
  function HashCode(s: InstanceSatisfaction, hashOf: Obj -> int): int
  {
    hashOf(s.instance)
  }

  /** Equal satisfactions hash alike, whatever hash the instances' class defines. */
  lemma EqualsAndHashCode(s: InstanceSatisfaction, o: InstanceSatisfaction, hashOf: Obj -> int)
    ensures Equals(s, o) ==> HashCode(s, hashOf) == HashCode(o, hashOf)
  {
  }
}
