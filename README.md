# grapht core, modelled in Dafny

This project models the part of the grapht dependency-injection engine that
decides how objects are built and ordered:

- **`Types`** holds the type helpers. Boxing of primitives, erasure of generic
  types, the subclass distance between two classes, the type a `Provider`
  produces, whether a class is instantiable, and the `@Nullable` and
  `@Transient` annotation scans.
- **`Qualifiers`** covers qualifier annotations and the four qualifier
  matchers. It gives what each matcher accepts, how each can fail to be
  built, and the priority order that ranks competing matchers
  (any < by annotation type < null = by annotation value).
- **`BindRules`** is the `ReflectionBindRule` of the older `inject` SPI: a
  rule that matches desires by boxed source type and inherited qualifier and
  rewrites them to an implementation type or satisfaction. It includes the
  rule's constructor checks, equality and its 32-bit hash.
- **`InstanceSatisfactions`** is the satisfaction that wraps one existing
  object.
- **`ReflectionSatisfactions`** holds the defaults shared by reflective
  satisfactions and the context comparator. The comparator orders the
  matchers competing at one point by type distance, then by qualifier
  priority.
- **`ClassInstantiation`** is `ClassInstantiator`, which builds an instance.
  It chooses a constructor, fills and null-checks its arguments, invokes it,
  injects members, registers the instance with the lifecycle manager and
  runs the post-construct hooks. It also includes the `InjectionArgs`
  helper class.

Java reflection is replaced by a descriptor table, `Reflect.ClassTable`. The
table gives each class its superclass and depth, its interfaces, its
constructors, its methods and its annotations.

Code the instantiator calls out to is a `Behaviour` value of functions:
- providers;
- `Constructor.newInstance`;
- the member injection strategy;
- `Method.invoke` of a hook.

A run of the instantiator returns its outcome together with the trace of
calls it made into that code. The methods (`GetConstructor`,
`CreateInstance`, `InjectMembers`, `InvokeHooks`, `Instantiate`,
`GetTypeDistance`, `InjectionArgs.IsCompleted`) follow the Java loops.

Each method is proved equal to a specification function on its inputs. The
properties are then proved about those functions: which calls a successful
run makes and in what order, where a failing provider or hook stops the run,
and the order of the hooks.

Where the code and the description of its behaviour disagree, the model
follows the code:
- `getTypeDistance` is described as giving -1 when the child does not extend
  the parent, with interfaces not traversed. The code tests with
  `isAssignableFrom`, which also accepts supertypes off the superclass
  chain: an interface the child implements, `Object` when the child is
  itself an interface, and a covariant array type such as `Object[]` for
  `String[]`. For each of those parents the superclass walk ends without
  reaching the parent and dereferences null. `Types.TypeDistance` models
  that outcome as a `NullPointer` exception.
- The post-construct hooks are described as running supertypes first. The
  code sorts only the zero-argument `@Inject` methods that way, then appends
  the `@PostConstruct` methods in the order they were found.
  `ClassInstantiation.PostConstructMethods` builds the list the same way.
- The comment on `getQualifier` promises a `NamedQualifier` for `@Named`. The
  code always wraps the annotation in an `AnnotationQualifier`, and so does
  the model.

## Model

| member | source | states |
|---|---|---|
| Types.Box | src/main/java/org/grouplens/grapht/util/Types.java:46-66 | The result is never a boxable primitive. A non-primitive (or `void`) is returned unchanged. A primitive becomes a `java.lang` wrapper class. |
| Types.BoxIdempotent | src/main/java/org/grouplens/grapht/util/Types.java:46-66 | Boxing twice is boxing once. |
| Types.BoxSeparatesPrimitives | src/main/java/org/grouplens/grapht/util/Types.java:46-66 | Two primitives box to the same wrapper exactly when they are the same primitive, and no primitive is its own wrapper. |
| Types.Erase | src/main/java/org/grouplens/grapht/util/Types.java:76-90 | Erasure succeeds exactly for a class or a parameterized type with a class as raw type. It gives that class. A non-class raw type is a runtime failure; any other kind of type is an illegal argument. |
| Types.EraseIsProjection | src/main/java/org/grouplens/grapht/util/Types.java:76-90 | Erasing the erasure of a type gives the same class. |
| Types.GetTypeDistance | src/main/java/org/grouplens/grapht/util/Types.java:104-118 | The loop that counts `getSuperclass` steps returns exactly `TypeDistance`: -1 when unrelated, the chain position otherwise, or the null dereference for a parent assignable only off the superclass chain. |
| Types.TypeDistanceCountsSteps | src/main/java/org/grouplens/grapht/util/Types.java:104-118 | The distance is a non-negative number if and only if the parent is on the child's superclass chain. It is then the least number of `getSuperclass` steps that reach the parent. Off the chain, no number of steps reaches it. |
| Types.TypeDistanceToSelf | src/main/java/org/grouplens/grapht/util/Types.java:112-117 | A class is at distance 0 from itself. |
| Types.TypeDistanceToSuperclass | src/main/java/org/grouplens/grapht/util/Types.java:112-116 | A class is at distance 1 from its direct superclass. |
| Types.TypeDistanceUnrelated | src/main/java/org/grouplens/grapht/util/Types.java:105-108 | The distance is -1 exactly when the parent is not assignable from the child. |
| Types.InterfaceToObjectDereferencesNull | src/main/java/org/grouplens/grapht/util/Types.java:104-118 | `Object` is assignable from an interface, yet the walk from the interface ends at once without reaching it, so the distance is a null-pointer failure, not -1. |
| Types.GetProvidedType | src/main/java/org/grouplens/grapht/util/Types.java:129-137 | A provider class yields the boxed return type of a public no-argument `get` exactly when it has one. Otherwise it is the illegal-argument "Class does not implement get()". The result is never a boxable primitive (a `void` return type stays `void`). |
| Types.GetProvidedTypeOfInstance | src/main/java/org/grouplens/grapht/util/Types.java:147-149 | A provider instance yields a type that is never a boxable primitive exactly when its runtime class has a `get()`, and fails with the same illegal argument otherwise. |
| Types.IsInstantiable | src/main/java/org/grouplens/grapht/util/Types.java:159-179 | Only a concrete class with at least one public constructor can be instantiable. The full condition is stated by `Types.IsInstantiableMeaning`. |
| Types.IsInstantiableMeaning | src/main/java/org/grouplens/grapht/util/Types.java:159-179 | A class is instantiable if and only if it is concrete and either a public constructor carries `@Inject` or its only public constructor takes no parameters. |
| Types.SoleNoArgConstructorIsInstantiable | src/main/java/org/grouplens/grapht/util/Types.java:170-174 | A concrete class whose single public constructor takes no parameters is instantiable. |
| Types.UnmarkedParameterizedConstructorsNotInstantiable | src/main/java/org/grouplens/grapht/util/Types.java:159-179 | A class whose constructors all take parameters and none carries `@Inject` is not instantiable. |
| Types.HasNullableAnnotation | src/main/java/org/grouplens/grapht/util/Types.java:190-197 | True exactly when some annotation's type has simple name `Nullable`, in any package. |
| Types.HasTransientAnnotation | src/main/java/org/grouplens/grapht/util/Types.java:207-214 | True exactly when some annotation is grapht's `@Transient`. |
| Qualifiers.GetQualifier | src/main/java/org/grouplens/grapht/spi/reflect/Qualifiers.java:51-58 | Null exactly when no parameter annotation is a qualifier. Otherwise it wraps the first annotation whose type carries `@Qualifier`. |
| Qualifiers.IsQualifier | src/main/java/org/grouplens/grapht/spi/reflect/Qualifiers.java:68-70 | Specified by `Qualifiers.GetQualifier`, `Qualifiers.MatchAnnotationType` and `Qualifiers.MatchAnnotation`: a type is a qualifier exactly when it carries `@javax.inject.Qualifier`. |
| Qualifiers.MatchAnnotationType | src/main/java/org/grouplens/grapht/spi/reflect/Qualifiers.java:176-184 | Builds a type matcher exactly for a qualifier annotation type. Null is a null-pointer error and a non-qualifier type an illegal argument, each with the source's message. |
| Qualifiers.MatchAnnotation | src/main/java/org/grouplens/grapht/spi/reflect/Qualifiers.java:209-217 | Builds a value matcher exactly for a qualifier annotation. Null and non-qualifier annotations fail with the source's messages. |
| Qualifiers.Matches | src/main/java/org/grouplens/grapht/spi/reflect/Qualifiers.java:133-223 | The any-matcher accepts everything. The null qualifier is accepted exactly by the any- and null-matchers. The per-kind acceptance sets are stated by the four lemmas below. |
| Qualifiers.MatchAnyAcceptsAll | src/main/java/org/grouplens/grapht/spi/reflect/Qualifiers.java:133-137 | The any-matcher accepts every qualifier, null included. |
| Qualifiers.MatchNoneAcceptsOnlyNull | src/main/java/org/grouplens/grapht/spi/reflect/Qualifiers.java:153-157 | The null-matcher accepts a qualifier if and only if it is null. |
| Qualifiers.AnnotationTypeMatcherAccepts | src/main/java/org/grouplens/grapht/spi/reflect/Qualifiers.java:186-190 | A type matcher accepts exactly the qualifiers whose annotation has its type, and never null. |
| Qualifiers.AnnotationMatcherAccepts | src/main/java/org/grouplens/grapht/spi/reflect/Qualifiers.java:219-223 | A value matcher accepts exactly the qualifier wrapping an equal annotation, and never null. |
| Qualifiers.PriorityFollowsSpecificity | src/main/java/org/grouplens/grapht/spi/reflect/Qualifiers.java:103-114 | Higher priority is more specific. What a value matcher accepts, its type matcher accepts, and what a type matcher accepts, the any-matcher accepts. The null-matcher shares nothing with the annotation matchers. |
| Qualifiers.Priority | src/main/java/org/grouplens/grapht/spi/reflect/Qualifiers.java:105-114 | Each of the four matcher kinds has an entry in the priority table, between 0 and 2. |
| Qualifiers.TypePriority | src/main/java/org/grouplens/grapht/spi/reflect/Qualifiers.java:105-114 | The priority table has an entry exactly for the four matcher kinds of this file, each between 0 and 2. |
| Qualifiers.CompareTo | src/main/java/org/grouplens/grapht/spi/reflect/Qualifiers.java:118-130 | Against a matcher of unknown kind the result is 1. Otherwise it is the other matcher's priority minus this one's. |
| Qualifiers.CompareToAntisymmetric | src/main/java/org/grouplens/grapht/spi/reflect/Qualifiers.java:118-130 | Between known kinds `compareTo` is antisymmetric, zero exactly for equal priorities, and zero on itself. |
| Qualifiers.CompareToTransitive | src/main/java/org/grouplens/grapht/spi/reflect/Qualifiers.java:118-130 | "Sorts no later than" is transitive between known kinds. |
| Qualifiers.CompareToSortsHigherPriorityFirst | src/main/java/org/grouplens/grapht/spi/reflect/Qualifiers.java:127-129 | `compareTo` is negative exactly when this matcher has the higher priority, so an ascending sort puts it first. |
| Qualifiers.CompareToRanks | src/main/java/org/grouplens/grapht/spi/reflect/Qualifiers.java:103-111 | The concrete order: any after by-type, by-type after by-value and after null, null tied with by-value. |
| Qualifiers.Equals | src/main/java/org/grouplens/grapht/spi/reflect/Qualifiers.java:140-231 | Two matchers are `equals` exactly when they are the same kind with the same payload, that is, the same matcher value. |
| BindRules.NewSatisfactionRule | src/main/java/org/grouplens/inject/spi/reflect/ReflectionBindRule.java:63-78 | Succeeds exactly when source type and satisfaction are non-null. Each null gives its own null-pointer message, the source type checked first. The rule keeps the satisfaction and qualifier. |
| BindRules.NewTypeRule | src/main/java/org/grouplens/inject/spi/reflect/ReflectionBindRule.java:92-107 | Succeeds exactly when source and implementation types are non-null, with the source's messages otherwise. The rule keeps the implementation type and qualifier. |
| BindRules.ConstructorsBoxSourceType | src/main/java/org/grouplens/inject/spi/reflect/ReflectionBindRule.java:63-107 | Both constructors store the boxed source type, which is then a fixed point of boxing. |
| BindRules.ConstructorsKeepTarget | src/main/java/org/grouplens/inject/spi/reflect/ReflectionBindRule.java:63-107 | A satisfaction rule targets the satisfaction's erased type. A type rule has no satisfaction. Both keep weight and terminate flag as given. |
| BindRules.Matches | src/main/java/org/grouplens/inject/spi/reflect/ReflectionBindRule.java:148-160 | A match implies the desired type equals the rule's source type and the desire's qualifier inherits the rule's. The converse is `BindRules.MatchesIsTypeThenQualifier`. |
| BindRules.MatchesIsTypeThenQualifier | src/main/java/org/grouplens/inject/spi/reflect/ReflectionBindRule.java:148-160 | A rule never matches a desire for another type. For its own type it matches if and only if the desire's qualifier inherits the rule's. |
| BindRules.MatchesIgnoresTarget | src/main/java/org/grouplens/inject/spi/reflect/ReflectionBindRule.java:148-160 | Matching is unaffected by satisfaction, implementation type, weight and terminate flag. |
| BindRules.PrimitiveAndWrapperRulesMatchAlike | src/main/java/org/grouplens/inject/spi/reflect/ReflectionBindRule.java:63-78 | A rule for a primitive and one for its wrapper are the same rule and match the same desires. |
| BindRules.Apply | src/main/java/org/grouplens/inject/spi/reflect/ReflectionBindRule.java:136-140 | The rewritten desire keeps the input's injection point and hence its qualifier. |
| BindRules.ApplyKeepsInjectionPoint | src/main/java/org/grouplens/inject/spi/reflect/ReflectionBindRule.java:136-140 | Applying a rule keeps the injection point and qualifier. The result depends on the desire only through its injection point, so applying twice is applying once. |
| BindRules.ApplySatisfactionRule | src/main/java/org/grouplens/inject/spi/reflect/ReflectionBindRule.java:136-140 | A satisfaction rule rewrites any desire to its satisfaction and that satisfaction's erased type, at the same point, with default source `TYPE`. |
| BindRules.Equals | src/main/java/org/grouplens/inject/spi/reflect/ReflectionBindRule.java:163-174 | Two rules are `equals` if and only if they are the same value: all six fields agree, null-safely. |
| BindRules.Int32 | src/main/java/org/grouplens/inject/spi/reflect/ReflectionBindRule.java:177-192 | Java `int` arithmetic: the result is in 32-bit range and congruent to the exact value modulo 2^32. |
| BindRules.HashCode | src/main/java/org/grouplens/inject/spi/reflect/ReflectionBindRule.java:177-192 | The hash, folded with wrap-around, is a 32-bit value. |
| BindRules.EqualRulesHashAlike | src/main/java/org/grouplens/inject/spi/reflect/ReflectionBindRule.java:163-192 | Rules that are `equals` have equal hash codes. |
| InstanceSatisfactions.NewInstanceSatisfaction | src/main/java/org/grouplens/grapht/reflect/internal/InstanceSatisfaction.java:58-61 | Succeeds exactly for a non-null object and holds it. Null is a null-pointer error. |
| InstanceSatisfactions.ConstructorRoundTrip | src/main/java/org/grouplens/grapht/reflect/internal/InstanceSatisfaction.java:58-68 | `getInstance` returns the object the satisfaction was built from, and rebuilding from it gives the same satisfaction. |
| InstanceSatisfactions.GetDependencies | src/main/java/org/grouplens/grapht/reflect/internal/InstanceSatisfaction.java:75-78 | An instance satisfaction has no dependencies. |
| InstanceSatisfactions.GetType | src/main/java/org/grouplens/grapht/reflect/internal/InstanceSatisfaction.java:80-83 | The type is the instance's runtime class, and equals the erased type. |
| InstanceSatisfactions.GetErasedType | src/main/java/org/grouplens/grapht/reflect/internal/InstanceSatisfaction.java:85-88 | The erased type is the instance's runtime class. |
| InstanceSatisfactions.HasInstance | src/main/java/org/grouplens/grapht/reflect/internal/InstanceSatisfaction.java:90-93 | Always true. |
| InstanceSatisfactions.GetDefaultCachePolicy | src/main/java/org/grouplens/grapht/reflect/internal/InstanceSatisfaction.java:70-73 | `MEMOIZE` if and only if the erased type carries `@Singleton`, never `NEW_INSTANCE`. |
| InstanceSatisfactions.MakeInstantiator | src/main/java/org/grouplens/grapht/reflect/internal/InstanceSatisfaction.java:100-105 | The instantiator yields the wrapped object. |
| InstanceSatisfactions.MakeInstantiatorIgnoresInputs | src/main/java/org/grouplens/grapht/reflect/internal/InstanceSatisfaction.java:101-105 | The instantiator is the same for any dependencies and manager, and yields the wrapped object. |
| InstanceSatisfactions.Equals | src/main/java/org/grouplens/grapht/reflect/internal/InstanceSatisfaction.java:107-113 | Two instance satisfactions are `equals` exactly when they wrap the same instance, that is, when they are the same value. |
| InstanceSatisfactions.HashCode | src/main/java/org/grouplens/grapht/reflect/internal/InstanceSatisfaction.java:115-118 | Specified by `InstanceSatisfactions.EqualsAndHashCode`: it is the instance's own hash, so equal satisfactions hash alike. |
| InstanceSatisfactions.EqualsAndHashCode | src/main/java/org/grouplens/grapht/reflect/internal/InstanceSatisfaction.java:107-118 | Satisfactions that are `equals` have equal hash codes, for any hash function on instances. |
| ReflectionSatisfactions.CanProduceNull | src/main/java/org/grouplens/grapht/spi/reflect/ReflectionSatisfaction.java:37-39 | A reflective satisfaction does not produce null by default. |
| ReflectionSatisfactions.Compare | src/main/java/org/grouplens/grapht/spi/reflect/ReflectionSatisfaction.java:45-58 | The comparison succeeds exactly when both type distances are defined. Its only failure is the distance's null-pointer failure. |
| ReflectionSatisfactions.CompareByDistance | src/main/java/org/grouplens/grapht/spi/reflect/ReflectionSatisfaction.java:45-58 | With both distances defined, differing distances give their difference, so the closer type sorts first. Equal distances defer to the qualifier matchers' `compareTo`. |
| ReflectionSatisfactions.CompareSelfIsZero | src/main/java/org/grouplens/grapht/spi/reflect/ReflectionSatisfaction.java:45-58 | A matcher of known qualifier kind compares equal to itself. |
| ReflectionSatisfactions.CompareAntisymmetric | src/main/java/org/grouplens/grapht/spi/reflect/ReflectionSatisfaction.java:45-58 | The comparator is antisymmetric between matchers of known qualifier kinds. |
| ReflectionSatisfactions.CompareTransitive | src/main/java/org/grouplens/grapht/spi/reflect/ReflectionSatisfaction.java:45-58 | The comparator's "sorts no later than" is transitive between matchers of known qualifier kinds. |
| ReflectionSatisfactions.ExactTypeBeforeSuperclass | src/main/java/org/grouplens/grapht/spi/reflect/ReflectionSatisfaction.java:49-54 | A matcher on the erased type itself sorts before one on its direct superclass, whatever the qualifiers. |
| ReflectionSatisfactions.UnrelatedSortsFirst | src/main/java/org/grouplens/grapht/spi/reflect/ReflectionSatisfaction.java:49-54 | A matcher on an unrelated type (distance -1) sorts before any matcher on the superclass chain. |
| ClassInstantiation.NewClassInstantiator | src/main/java/org/grouplens/grapht/reflect/internal/ClassInstantiator.java:66-77 | Succeeds exactly when type, desires and providers are non-null, checked in that order. It keeps all four arguments. The manager may be null. |
| ClassInstantiation.DeclaredNoArgConstructor | src/main/java/org/grouplens/grapht/reflect/internal/ClassInstantiator.java:183-185 | Finds a declared constructor with no parameters if and only if one exists. |
| ClassInstantiation.ChosenConstructor | src/main/java/org/grouplens/grapht/reflect/internal/ClassInstantiator.java:172-192 | The constructor of the first constructor-parameter desire. Without one, the declared no-argument constructor. Without that, the runtime exception "Unexpected exception". |
| ClassInstantiation.GetConstructor | src/main/java/org/grouplens/grapht/reflect/internal/ClassInstantiator.java:172-192 | The scanning loop returns exactly `ChosenConstructor`. |
| ClassInstantiation.CheckNull | src/main/java/org/grouplens/grapht/reflect/internal/ClassInstantiator.java:194-200 | Fails with `NullDependencyException` for the point if and only if the value is null and the point is not optional. Otherwise it passes the value through. |
| ClassInstantiation.FillSucceedsIffReady | src/main/java/org/grouplens/grapht/reflect/internal/ClassInstantiator.java:145-157 | Filling the arguments succeeds if and only if every constructor-parameter desire has a provider, its provider succeeds, its value passes `checkNull` and its index fits. It then called exactly those providers, in order. |
| ClassInstantiation.FillKeepsLength | src/main/java/org/grouplens/grapht/reflect/internal/ClassInstantiator.java:144-157 | The argument array keeps the constructor's arity. |
| ClassInstantiation.FillPlacesArguments | src/main/java/org/grouplens/grapht/reflect/internal/ClassInstantiator.java:144-157 | After a successful fill, a slot no desire targets stays null. A targeted slot holds the value provided for the last desire targeting it. |
| ClassInstantiation.ProviderCallsOnly | src/main/java/org/grouplens/grapht/reflect/internal/ClassInstantiator.java:145-157 | The argument loop calls providers only. |
| ClassInstantiation.CreateInstance | src/main/java/org/grouplens/grapht/reflect/internal/ClassInstantiator.java:141-169 | The loop over a fresh argument array, followed by the constructor call, gives exactly the run `Creation` specifies. The constructor's three checked failures become a `ConstructionException` naming it. |
| ClassInstantiation.InjectMembers | src/main/java/org/grouplens/grapht/reflect/internal/ClassInstantiator.java:97-104 | The member-injection loop threads the setter table through every desire in order and stops at the first failure, as `MemberInjection` specifies. |
| ClassInstantiation.InsertByDepth | src/main/java/org/grouplens/grapht/reflect/internal/ClassInstantiator.java:133-134 | Insertion keeps the multiset of methods plus the inserted one. |
| ClassInstantiation.InsertKeepsOrder | src/main/java/org/grouplens/grapht/reflect/internal/ClassInstantiator.java:133-134 | Inserting into a supertypes-first list keeps it supertypes-first. |
| ClassInstantiation.SortSupertypesFirst | src/main/java/org/grouplens/grapht/reflect/internal/ClassInstantiator.java:133-134 | The sort is a permutation of its input with declaring classes in non-decreasing depth, supertypes before subtypes. |
| ClassInstantiation.PostConstructMethods | src/main/java/org/grouplens/grapht/reflect/internal/ClassInstantiator.java:126-139 | Specified by `ClassInstantiation.PostConstructOrder`: the sorted zero-argument `@Inject` methods, then the `@PostConstruct` methods. |
| ClassInstantiation.PostConstructOrder | src/main/java/org/grouplens/grapht/reflect/internal/ClassInstantiator.java:126-139 | The hook list is the zero-argument `@Inject` methods, supertypes first and exactly those methods, followed by the public `@PostConstruct` methods. |
| ClassInstantiation.InvokeHooks | src/main/java/org/grouplens/grapht/reflect/internal/ClassInstantiator.java:111-120 | The hook loop invokes hooks in order and stops at the first that raises, as the hook phase specifies. |
| ClassInstantiation.HooksAllReturn | src/main/java/org/grouplens/grapht/reflect/internal/ClassInstantiator.java:111-120 | When every hook returns normally, the phase succeeds having called each hook once, in order. |
| ClassInstantiation.HooksStopAtFirstFailure | src/main/java/org/grouplens/grapht/reflect/internal/ClassInstantiator.java:111-120 | The first hook that raises ends the phase with a failure naming it, and no later hook is called. |
| ClassInstantiation.Instantiate | src/main/java/org/grouplens/grapht/reflect/internal/ClassInstantiator.java:85-124 | The whole method gives exactly the outcome and call trace of `Instantiation`. |
| ClassInstantiation.SuccessfulRun | src/main/java/org/grouplens/grapht/reflect/internal/ClassInstantiator.java:85-124 | A successful run returns what the constructor built, after every argument passed `checkNull`. Its calls are, in order: the argument providers, the constructor once, every member injection, the manager if any, and every hook. |
| ClassInstantiation.NullDependencyStopsConstruction | src/main/java/org/grouplens/grapht/reflect/internal/ClassInstantiator.java:155-160 | A required constructor argument whose provider returns null ends the run with a `NullDependencyException` for that point before the constructor is invoked, after calls to providers only. |
| ClassInstantiation.NullDependencyStopsFill | src/main/java/org/grouplens/grapht/reflect/internal/ClassInstantiator.java:145-157 | When earlier arguments are all ready and a required argument's provider returns null, the argument loop fails with `NullDependencyException` for that point. Its last call is to that provider. |
| ClassInstantiation.FailingHookEndsRun | src/main/java/org/grouplens/grapht/reflect/internal/ClassInstantiator.java:107-120 | After construction and injection, the first failing hook ends the run with a `ConstructionException` naming it. The manager was called before it, and no later hook is. |
| ClassInstantiation.SetSlot | src/main/java/org/grouplens/grapht/reflect/internal/ClassInstantiator.java:211-214 | Setting slot `i` stores the value and marks it, leaving every other slot unchanged. An index outside the array is an `ArrayIndexOutOfBoundsException`. |
| ClassInstantiation.SetSlotCompletes | src/main/java/org/grouplens/grapht/reflect/internal/ClassInstantiator.java:211-223 | Setting a slot never unmarks one, and completes the arguments if and only if every other slot was marked. |
| ClassInstantiation.InjectionArgs.constructor | src/main/java/org/grouplens/grapht/reflect/internal/ClassInstantiator.java:206-209 | A new `InjectionArgs(num)` has `num` null, unmarked slots in fresh arrays. |
| ClassInstantiation.InjectionArgs.Set | src/main/java/org/grouplens/grapht/reflect/internal/ClassInstantiator.java:211-214 | Updates the two arrays in place to `SetSlot` of their old contents. A bad index throws and changes nothing. |
| ClassInstantiation.InjectionArgs.IsCompleted | src/main/java/org/grouplens/grapht/reflect/internal/ClassInstantiator.java:216-223 | True if and only if every slot is marked. |
| ClassInstantiation.NewArgsCompleted | src/main/java/org/grouplens/grapht/reflect/internal/ClassInstantiator.java:206-223 | A freshly made `InjectionArgs(num)` is completed if and only if `num` is 0. |

## Left out

- Java reflection itself is not modelled. `Class`, `Constructor`, `Method` and annotation lookups are read from the `Reflect.ClassTable` descriptor. `setAccessible` and the `SecurityException` branch of `getProvidedType` have no counterpart.
- Logging and `LogContext` are left out. They do not affect results.
- Lifecycle managers are opaque. Registration is recorded as a `Registered` event, and what the manager does with the instance is not modelled.
- `InjectionStrategy.inject` and the contents of the `settersAndArguments` map are a parameter of `Behaviour`. The strategies are not part of this model.
- `Types.getUniqueMethods` is taken as given: `ClassInfo.methods` is its result, with bridge methods omitted.
- `Types.supertypesFirst` is not part of this model. It is modelled as ascending depth of the declaring class.
- ClassInstantiation.SortSupertypesFirst: proves a permutation ordered by depth, but not that the sort is stable, which `Stream.sorted` also guarantees.
- `MethodUtils.getMethodsWithAnnotation` is not part of this model. It is modelled as the public `@PostConstruct` methods in descriptor order.
- BindRules.NewSatisfactionRule: boxes with grapht's `util.Types.box`. `ReflectionBindRule` imports the `inject` package's own `Types`, which is not part of this model, and is taken to box primitives the same way. `BindRules.ConstructorsBoxSourceType` and `BindRules.PrimitiveAndWrapperRulesMatchAlike` rest on that.
- BindRules.NewTypeRule: boxes the same way, under the same assumption.
- Qualifiers.Matches: qualifiers are modelled only as `AnnotationQualifier`. The `ClassCastException` that the type and value matchers throw for any other `Qualifier` implementation is not modelled. Matchers do keep a case for implementations from elsewhere.
- The `inject` SPI's `Qualifiers.inheritsQualifier` is not part of this model. It is a function parameter of `BindRules.Matches`.
- `ReflectionDesire` and `ReflectionContextMatcher` are reduced to the fields the core reads.
- `Instantiators.ofInstance` is reduced to an instantiator holding its object.
- The `compareTo` of a qualifier matcher from outside `Qualifiers` is a function parameter.
- Providers are pure functions of the provider. Calling the same provider twice yields the same outcome, so the model does not capture providers with side effects.
- `Constructor.newInstance` can fail in ways not modelled. Only its three checked failures and a normal return are modelled. An unchecked exception from it (such as `IllegalArgumentException` for an argument of the wrong type) is not.
- `Preconditions.notNull` is not part of this model. Its messages are unknown, so the model uses the checked parameter's name as the exception detail.
- `equals` and `hashCode` of instances, classes, qualifiers and satisfactions are not modelled. The model uses value equality of the modelled data, and the hash codes of those objects are function parameters.
- Matcher `hashCode`, every `toString`, `visit` and the serialization code are left out. They produce no behaviour the core depends on.
- Types.GetProvidedType: picks the first public no-argument `get` in descriptor order. The JVM's choice between a bridge method and its override is not modelled.
- Types.GetTypeDistance: assumes a non-null child and parent. The null-argument `NullPointerException` of `isAssignableFrom` is not modelled. For a parent assignable only off the superclass chain, the source's null dereference appears as a `NullPointer` outcome.
- ReflectionSatisfactions.Compare: `td1 - td2` is computed on unbounded integers. Distances are bounded by hierarchy depth, so 32-bit overflow cannot arise there.
- ClassInstantiation.InjectionArgs.constructor: takes a `nat`. The `NegativeArraySizeException` for a negative count is not modelled.
