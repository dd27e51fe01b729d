/**
 * Abstract stand-ins for the parts of Java reflection that the injector
 * consults: Class objects, annotations, constructors, methods, and a table
 * that describes each class (its superclass, modifiers, constructors,
 * methods and annotations). Everything the engine asks of the JVM is
 * answered from this table.
 */
module Reflect {
  import opened Seqs

  /** The exceptions the modelled code throws or lets escape. */
  datatype Exception =
    | NullPointer(detail: string)
    | IllegalArgument(detail: string)
    | RuntimeFailure(detail: string)
    | IndexOutOfBounds(index: int)

  datatype Result<T> = Ok(value: T) | Throws(exception: Exception)

  /** The eight primitive types, plus void, which has a Class object but no wrapper. */
  datatype Primitive = Int | Short | Byte | Long | Boolean | Char | Float | Double | Void

  /** A Class object: either a primitive type or a reference type named by package and simple name. */
  datatype ClassRef =
    | PrimitiveClass(kind: Primitive)
    | RefClass(pkg: string, simpleName: string)

  function JavaLang(name: string): ClassRef { RefClass("java.lang", name) }

  /** `Class.getSimpleName()`. */
  function SimpleName(c: ClassRef): string
  {
    match c
    case RefClass(_, n) => n
    case PrimitiveClass(p) =>
      match p
      case Int => "int"
      case Short => "short"
      case Byte => "byte"
      case Long => "long"
      case Boolean => "boolean"
      case Char => "char"
      case Float => "float"
      case Double => "double"
      case Void => "void"
  }

  // Annotation types the engine looks for.
  const InjectType := RefClass("javax.inject", "Inject")
  const QualifierMetaType := RefClass("javax.inject", "Qualifier")
  const SingletonType := RefClass("javax.inject", "Singleton")
  const PostConstructType := RefClass("javax.annotation", "PostConstruct")
  const TransientType := RefClass("org.grouplens.grapht.annotation", "Transient")

  /** An annotation instance: its annotation type and its member values. Java annotation equality is value equality. */
  datatype Annotation = Annotation(annotType: ClassRef, members: map<string, string>)

  /** `getAnnotation(t) != null` over a list of annotations. */
  predicate HasAnnotationOfType(annots: seq<Annotation>, t: ClassRef)
  {
    exists i :: 0 <= i < |annots| && annots[i].annotType == t
  }

  datatype Ctor = Ctor(declaringClass: ClassRef, params: seq<ClassRef>, isPublic: bool, annotations: seq<Annotation>)

  datatype MethodInfo = MethodInfo(
    declaringClass: ClassRef,
    name: string,
    params: seq<ClassRef>,
    returnType: ClassRef,
    isPublic: bool,
    annotations: seq<Annotation>)

  /**
   * What reflection knows of one class. `interfaces` holds every supertype
   * that `isAssignableFrom` accepts for the class and that is not on its
   * superclass chain: every interface it implements, directly or through
   * ancestors, and for an array class the covariant array types such as
   * `Object[]`. (`Object` for an interface is implied and need not be listed.)
   * `constructors` are the declared constructors; `methods` are the class's
   * unique methods (declared or inherited, overridden ones removed), with
   * bridge methods omitted; `depth` is the number of superclasses.
   */
  datatype ClassInfo = ClassInfo(
    superclass: Option<ClassRef>,
    depth: nat,
    isAbstract: bool,
    isInterface: bool,
    interfaces: set<ClassRef>,
    constructors: seq<Ctor>,
    methods: seq<MethodInfo>,
    annotations: seq<Annotation>)

  type ClassTable = map<ClassRef, ClassInfo>

  /** A class the table does not describe has no superclass, no members and no annotations. */
  function Info(table: ClassTable, c: ClassRef): ClassInfo
  {
    if c in table then table[c] else ClassInfo(None, 0, false, false, {}, [], [], [])
  }

  /** Java class hierarchies are finite and acyclic: a superclass is described and is strictly shallower. */
  predicate WellFormed(table: ClassTable)
  {
    forall c :: c in table && table[c].superclass.Some? ==>
      table[c].superclass.value in table && table[table[c].superclass.value].depth < table[c].depth
  }

  /** `Class.getSuperclass()`, with `None` for null. */
  function Superclass(table: ClassTable, c: ClassRef): Option<ClassRef>
  {
    Info(table, c).superclass
  }

  /** A Java object: its runtime class and an identity. Equality is value equality. */
  datatype Obj = Obj(cls: ClassRef, identity: nat)
}
