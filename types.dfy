/**
 * The type helpers of grapht's `util.Types`: boxing of primitives, erasure
 * of generic types, the subclass distance between two classes, the type a
 * provider class produces, and the annotation and constructor scans that
 * decide whether a class can be instantiated.
 */
module Types {
  import opened Seqs
  import opened Reflect

  // ---------------------------------------------------------------- boxing

  /** A primitive type that has a wrapper class (every primitive but void). */
  predicate Boxable(t: ClassRef)
  {
    t.PrimitiveClass? && t.kind != Void
  }

  /** The boxed version of a primitive type; any other type is returned as it is. */
  function Box(t: ClassRef): (r: ClassRef)
    ensures !Boxable(r)
    ensures !Boxable(t) ==> r == t
    ensures Boxable(t) ==> r.RefClass? && r.pkg == "java.lang"
  {
    match t
    case PrimitiveClass(Int) => JavaLang("Integer")
    case PrimitiveClass(Short) => JavaLang("Short")
    case PrimitiveClass(Byte) => JavaLang("Byte")
    case PrimitiveClass(Long) => JavaLang("Long")
    case PrimitiveClass(Boolean) => JavaLang("Boolean")
    case PrimitiveClass(Char) => JavaLang("Character")
    case PrimitiveClass(Float) => JavaLang("Float")
    case PrimitiveClass(Double) => JavaLang("Double")
    case _ => t
  }

  /** Boxing is idempotent: a boxed type is its own box. */
  lemma BoxIdempotent(t: ClassRef)
    ensures Box(Box(t)) == Box(t)
  {
  }

  /** Distinct primitives have distinct wrappers, and no wrapper is a primitive's own class. */
  lemma BoxSeparatesPrimitives(a: ClassRef, b: ClassRef)
    requires Boxable(a) && Boxable(b)
    ensures Box(a) == Box(b) <==> a == b
    ensures Box(a) != a
  {
  }

  // --------------------------------------------------------------- erasure

  /** A `java.lang.reflect.Type`. */
  datatype JavaType =
    | ClassType(cls: ClassRef)
    | ParameterizedType(raw: JavaType, arguments: seq<JavaType>)
    | TypeVariable(name: string)
    | WildcardType(upper: seq<JavaType>, lower: seq<JavaType>)
    | GenericArrayType(component: JavaType)

  /**
   * The erasure of a type: a class stays itself, a parameterized type gives
   * its raw class; a raw type that is not a class is a runtime failure, and
   * every other kind of type is an illegal argument.
   */
  function Erase(t: JavaType): (r: Result<ClassRef>)
    ensures r.Ok? <==> t.ClassType? || (t.ParameterizedType? && t.raw.ClassType?)
    ensures t.ClassType? ==> r == Ok(t.cls)
    ensures t.ParameterizedType? && r.Ok? ==> r.value == t.raw.cls
    ensures r.Throws? && t.ParameterizedType? ==> r.exception.RuntimeFailure?
    ensures r.Throws? && !t.ParameterizedType? ==> r.exception.IllegalArgument?
  {
    match t
    case ClassType(c) => Ok(c)
    case ParameterizedType(raw, _) =>
      if raw.ClassType? then Ok(raw.cls) else Throws(RuntimeFailure("raw type not a Class"))
    case _ => Throws(IllegalArgument(""))
  }

  /** Erasing the erasure of a type gives it back: erasure is a projection onto classes. */
  lemma EraseIsProjection(t: JavaType)
    requires Erase(t).Ok?
    ensures Erase(ClassType(Erase(t).value)) == Erase(t)
  {
  }

  // --------------------------------------------------------- type distance

  /** The superclass chain of `c`, starting with `c` itself and ending at a class with no superclass. */
  function Chain(table: ClassTable, c: ClassRef): (r: seq<ClassRef>)
    requires WellFormed(table)
    ensures |r| >= 1 && r[0] == c
    decreases Info(table, c).depth
  {
    match Superclass(table, c)
    case None => [c]
    case Some(s) => [c] + Chain(table, s)
  }

  /** The class reached from `c` after `k` calls of `getSuperclass`, or `None` once the chain has ended. */
  function Ascend(table: ClassTable, c: ClassRef, k: nat): Option<ClassRef>
    decreases k
  {
    if k == 0 then Some(c)
    else match Superclass(table, c)
      case None => None
      case Some(s) => Ascend(table, s, k - 1)
  }

  /**
   * `parent.isAssignableFrom(child)`: `parent` is on the child's superclass
   * chain, is one of the other supertypes the descriptor lists, or is
   * `Object` while `child` is an interface.
   */
  predicate IsAssignableFrom(table: ClassTable, parent: ClassRef, child: ClassRef)
    requires WellFormed(table)
  {
    parent in Chain(table, child) || parent in Info(table, child).interfaces ||
    (Info(table, child).isInterface && parent == JavaLang("Object"))
  }

  /** The position of the first occurrence of `x` in `s`. */
  function IndexOf<T(==)>(s: seq<T>, x: T): (i: nat)
    requires x in s
    ensures i < |s| && s[i] == x && x !in s[..i]
  {
    var r := FindFirst(s, y => y == x);
    assert r.Some? by {
      var k :| 0 <= k < |s| && s[k] == x;
    }
    r.value
  }

  /**
   * The type distance of `child` from `parent`: -1 when `parent` is not
   * assignable from `child`; otherwise the number of superclass steps from
   * `child` up to `parent`. When `parent` is assignable only as an interface,
   * the walk up the superclass chain runs past its root and dereferences null.
   */
  function TypeDistance(table: ClassTable, child: ClassRef, parent: ClassRef): (r: Result<int>)
    requires WellFormed(table)
  {
    if !IsAssignableFrom(table, parent, child) then Ok(-1)
    else if parent in Chain(table, child) then Ok(IndexOf(Chain(table, child), parent))
    else Throws(NullPointer("superclass chain ended before reaching the parent"))
  }

  /** The chain and `Ascend` agree: the k-th class of the chain is k superclass steps up, and past the chain there is none. */
  lemma {:induction false} AscendAlongChain(table: ClassTable, c: ClassRef, k: nat)
    requires WellFormed(table)
    ensures k < |Chain(table, c)| ==> Ascend(table, c, k) == Some(Chain(table, c)[k])
    ensures k >= |Chain(table, c)| ==> Ascend(table, c, k) == None
    decreases k
  {
    if k > 0 {
      match Superclass(table, c)
      case None =>
      case Some(s) => AscendAlongChain(table, s, k - 1);
    }
  }

  /** One more superclass step from the k-th ancestor. */
  lemma {:induction false} AscendStep(table: ClassTable, c: ClassRef, k: nat)
    requires Ascend(table, c, k).Some?
    ensures Ascend(table, c, k + 1) == Superclass(table, Ascend(table, c, k).value)
    decreases k
  {
    if k > 0 {
      match Superclass(table, c)
      case None =>
      case Some(s) => AscendStep(table, s, k - 1);
    }
  }

  /** Every class on the chain above `c` is strictly shallower than `c`. */
  lemma {:induction false} ChainDepthDecreases(table: ClassTable, c: ClassRef, k: nat)
    requires WellFormed(table)
    requires 1 <= k < |Chain(table, c)|
    ensures Info(table, Chain(table, c)[k]).depth < Info(table, c).depth
    decreases Info(table, c).depth
  {
    var s := Superclass(table, c).value;
    if k > 1 {
      ChainDepthDecreases(table, s, k - 1);
    }
  }

  /**
   * `getTypeDistance`: walks up the superclass chain from `child`, counting
   * steps until it reaches `parent`.
   */
  method GetTypeDistance(table: ClassTable, child: ClassRef, parent: ClassRef) returns (r: Result<int>)
    requires WellFormed(table)
    ensures r == TypeDistance(table, child, parent)
  {
    if !IsAssignableFrom(table, parent, child) {
      return Ok(-1);
    }
    ghost var chain := Chain(table, child);
    var distance: nat := 0;
    var current := Some(child);
    while current != Some(parent)
      invariant distance <= |chain|
      invariant current == Ascend(table, child, distance)
      invariant parent !in chain[..distance]
      decreases |chain| - distance
    {
      AscendAlongChain(table, child, distance);
      if current.None? {
        assert chain[..distance] == chain;
        assert parent !in chain;
        return Throws(NullPointer("superclass chain ended before reaching the parent"));
      }
      AscendStep(table, child, distance);
      assert chain[..distance + 1] == chain[..distance] + [chain[distance]];
      distance := distance + 1;
      current := Superclass(table, current.value);
    }
    AscendAlongChain(table, child, distance);
    assert distance < |chain| && chain[distance] == parent;
    assert IndexOf(chain, parent) == distance;
    return Ok(distance);
  }

  /** A class is at distance 0 from itself. */
  lemma TypeDistanceToSelf(table: ClassTable, t: ClassRef)
    requires WellFormed(table)
    ensures TypeDistance(table, t, t) == Ok(0)
  {
    var i := IndexOf(Chain(table, t), t);
  }

  /** A direct subclass is at distance 1 from its superclass. */
  lemma TypeDistanceToSuperclass(table: ClassTable, child: ClassRef, parent: ClassRef)
    requires WellFormed(table)
    requires Superclass(table, child) == Some(parent)
    ensures TypeDistance(table, child, parent) == Ok(1)
  {
    var chain := Chain(table, child);
    assert chain == [child] + Chain(table, parent);
    assert chain[1] == parent;
    ChainDepthDecreases(table, child, 1);
    var i := IndexOf(chain, parent);
  }

  /** The distance is the -1 sentinel exactly when `parent` is not assignable from `child`. */
  lemma TypeDistanceUnrelated(table: ClassTable, child: ClassRef, parent: ClassRef)
    requires WellFormed(table)
    ensures TypeDistance(table, child, parent) == Ok(-1) <==> !IsAssignableFrom(table, parent, child)
  {
  }

  /**
   * An interface has no superclass, yet `Object` is assignable from it: the
   * walk from the interface ends at once, short of `Object`, and dereferences
   * null instead of returning -1.
   */
  lemma InterfaceToObjectDereferencesNull(table: ClassTable, i: ClassRef)
    requires WellFormed(table)
    requires Info(table, i).isInterface && Superclass(table, i).None? && i != JavaLang("Object")
    ensures IsAssignableFrom(table, JavaLang("Object"), i)
    ensures TypeDistance(table, i, JavaLang("Object")).Throws?
    ensures TypeDistance(table, i, JavaLang("Object")).exception.NullPointer?
  {
    assert Chain(table, i) == [i];
  }

  /**
   * When `parent` is on the chain of `child`, the distance is the number of
   * `getSuperclass` steps that first reach it; otherwise no number of steps
   * reaches it.
   */
  lemma TypeDistanceCountsSteps(table: ClassTable, child: ClassRef, parent: ClassRef)
    requires WellFormed(table)
    ensures parent in Chain(table, child) <==> TypeDistance(table, child, parent).Ok? && TypeDistance(table, child, parent).value >= 0
    ensures parent in Chain(table, child) ==>
      var d := TypeDistance(table, child, parent).value;
      Ascend(table, child, d) == Some(parent) && forall k :: 0 <= k < d ==> Ascend(table, child, k) != Some(parent)
    ensures parent !in Chain(table, child) ==> forall k :: Ascend(table, child, k) != Some(parent)
  {
    var chain := Chain(table, child);
    if parent in chain {
      var d := IndexOf(chain, parent);
      AscendAlongChain(table, child, d);
      forall k | 0 <= k < d
        ensures Ascend(table, child, k) != Some(parent)
      {
        AscendAlongChain(table, child, k);
        assert chain[..d][k] == chain[k];
      }
    } else {
      forall k: nat
        ensures Ascend(table, child, k) != Some(parent)
      {
        AscendAlongChain(table, child, k);
      }
    }
  }

  // ------------------------------------------------------ provided types

  /** A public zero-argument method named `get`: what `getMethod("get")` looks up. */
  predicate IsGetMethod(m: MethodInfo)
  {
    m.isPublic && m.name == "get" && |m.params| == 0
  }

  /** The boxed return type of the provider class's `get()`; an illegal argument when it has none. */
  function GetProvidedType(table: ClassTable, providerClass: ClassRef): (r: Result<ClassRef>)
    ensures var ms := Info(table, providerClass).methods;
      (r.Ok? <==> exists i :: 0 <= i < |ms| && IsGetMethod(ms[i])) &&
      (r.Ok? ==> exists i :: 0 <= i < |ms| && IsGetMethod(ms[i]) && r.value == Box(ms[i].returnType)) &&
      (r.Throws? ==> r.exception == IllegalArgument("Class does not implement get()"))
    ensures r.Ok? ==> !Boxable(r.value)
  {
    var ms := Info(table, providerClass).methods;
    match FindFirst(ms, IsGetMethod)
    case None => Throws(IllegalArgument("Class does not implement get()"))
    case Some(i) => Ok(Box(ms[i].returnType))
  }

  /** The type a provider instance produces: the boxed return type of its runtime class's `get()`. */
  function GetProvidedTypeOfInstance(table: ClassTable, provider: Obj): (r: Result<ClassRef>)
    ensures var ms := Info(table, provider.cls).methods;
      (r.Ok? <==> exists i :: 0 <= i < |ms| && IsGetMethod(ms[i])) &&
      (r.Ok? ==> !Boxable(r.value)) &&
      (r.Throws? ==> r.exception == IllegalArgument("Class does not implement get()"))
  {
    GetProvidedType(table, provider.cls)
  }

  // ------------------------------------------------------ instantiability

  /** Whether a constructor carries `@Inject`. */
  predicate IsInjectConstructor(c: Ctor)
  {
    HasAnnotationOfType(c.annotations, InjectType)
  }

  predicate IsPublicConstructor(c: Ctor) { c.isPublic }

  /** `getConstructors()`: the public constructors, in declaration order. */
  function PublicConstructors(table: ClassTable, t: ClassRef): seq<Ctor>
  {
    Filter(Info(table, t).constructors, IsPublicConstructor)
  }

  /**
   * A concrete class is instantiable when one of its public constructors is
   * marked `@Inject`, or when its only public constructor takes no
   * parameters. Abstract classes and interfaces never are.
   */
  function IsInstantiable(table: ClassTable, t: ClassRef): (r: bool)
    ensures r ==> !Info(table, t).isAbstract && !Info(table, t).isInterface
    ensures r ==> |PublicConstructors(table, t)| > 0
  {
    var info := Info(table, t);
    if !info.isAbstract && !info.isInterface then
      var ctors := PublicConstructors(table, t);
      if FindFirst(ctors, IsInjectConstructor).Some? then true
      else |ctors| == 1 && |ctors[0].params| == 0
    else false
  }

  /** The instantiability rule stated over the declared constructors. */
  lemma IsInstantiableMeaning(table: ClassTable, t: ClassRef)
    ensures var info := Info(table, t); var cs := info.constructors;
      IsInstantiable(table, t) <==>
        !info.isAbstract && !info.isInterface &&
        ((exists i :: 0 <= i < |cs| && cs[i].isPublic && IsInjectConstructor(cs[i])) ||
         (|PublicConstructors(table, t)| == 1 && |PublicConstructors(table, t)[0].params| == 0))
  {
    var cs := Info(table, t).constructors;
    var pub := PublicConstructors(table, t);
    if exists i :: 0 <= i < |cs| && cs[i].isPublic && IsInjectConstructor(cs[i]) {
      var i :| 0 <= i < |cs| && cs[i].isPublic && IsInjectConstructor(cs[i]);
      assert cs[i] in pub;
      var j :| 0 <= j < |pub| && pub[j] == cs[i];
    }
  }

  /** A concrete class whose one public constructor is unmarked and takes no parameters is instantiable. */
  lemma SoleNoArgConstructorIsInstantiable(table: ClassTable, t: ClassRef, c: Ctor)
    requires !Info(table, t).isAbstract && !Info(table, t).isInterface
    requires Info(table, t).constructors == [c] && c.isPublic && |c.params| == 0
    ensures IsInstantiable(table, t)
  {
    assert PublicConstructors(table, t) == [c];
  }

  /** A class whose public constructors are all unmarked and all take parameters is not instantiable. */
  lemma UnmarkedParameterizedConstructorsNotInstantiable(table: ClassTable, t: ClassRef)
    requires var cs := Info(table, t).constructors;
      forall i :: 0 <= i < |cs| ==> !IsInjectConstructor(cs[i]) && |cs[i].params| > 0
    ensures !IsInstantiable(table, t)
  {
    var pub := PublicConstructors(table, t);
    if |pub| == 1 {
      assert pub[0] in Info(table, t).constructors;
    }
  }

  // ------------------------------------------------------ annotation scans

  predicate IsNullable(a: Annotation) { SimpleName(a.annotType) == "Nullable" }

  predicate IsTransient(a: Annotation) { a.annotType == TransientType }

  /** Whether some annotation's type has the simple name `Nullable`, from whatever package. */
  function HasNullableAnnotation(annotations: seq<Annotation>): (r: bool)
    ensures r <==> exists i :: 0 <= i < |annotations| && SimpleName(annotations[i].annotType) == "Nullable"
  {
    FindFirst(annotations, IsNullable).Some?
  }

  /** Whether some annotation is grapht's `@Transient`. */
  function HasTransientAnnotation(annotations: seq<Annotation>): (r: bool)
    ensures r <==> HasAnnotationOfType(annotations, TransientType)
  {
    FindFirst(annotations, IsTransient).Some?
  }
}
