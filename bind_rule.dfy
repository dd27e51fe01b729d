/**
 * `ReflectionBindRule` of the older `inject.spi.reflect` package: an
 * immutable partial function from desires to desires. A rule matches a
 * desire whose desired type equals the rule's (boxed) source type and whose
 * qualifier inherits from the rule's qualifier; applying it rewrites the
 * desire to the rule's implementation type and satisfaction. Lower weights
 * take precedence, and a terminating rule ends the rewrite chain.
 */
module BindRules {
  import opened Seqs
  import opened Reflect
  import Types

  /** A qualifier of the `inject` SPI. Its classes are not part of this model, so it is an opaque value. */
  datatype Qualifier = Qualifier(key: nat)

  /** An injection point of the `inject` SPI: an opaque identity and the qualifier attached to it. */
  datatype InjectionPoint = InjectionPoint(key: nat, qualifier: Option<Qualifier>)

  /** A satisfaction, seen only through its erased type and its identity. */
  datatype SatisfactionRef = SatisfactionRef(erasedType: ClassRef, key: nat)

  /** Where a desire's default satisfaction comes from; `TypeSource` is `DefaultSource.TYPE`. */
  datatype DefaultSource = TypeSource | OtherSource(name: string)

  /** A `ReflectionDesire`: the desired type, the injection point, a satisfaction if one is chosen, and the default source. */
  datatype Desire = Desire(
    desiredType: ClassRef,
    injectionPoint: InjectionPoint,
    satisfaction: Option<SatisfactionRef>,
    source: DefaultSource)

  /** A desire's qualifier is the one on its injection point. */
  function DesireQualifier(d: Desire): Option<Qualifier>
  {
    d.injectionPoint.qualifier
  }

  /** `Qualifiers.inheritsQualifier(desireQualifier, ruleQualifier)` of the `inject` SPI, which is not part of this model. */
  type InheritsQualifier = (Option<Qualifier>, Option<Qualifier>) -> bool

  datatype BindRule = BindRule(
    satisfaction: Option<SatisfactionRef>,
    terminateChain: bool,
    qualifier: Option<Qualifier>,
    sourceType: ClassRef,
    implType: ClassRef,
    weight: int)

  /** The constructor taking a satisfaction: a null source type or satisfaction is a null-pointer error. */
  function NewSatisfactionRule(
    sourceType: Option<ClassRef>, satisfaction: Option<SatisfactionRef>,
    qualifier: Option<Qualifier>, weight: int, terminateChain: bool): (r: Result<BindRule>)
    ensures r.Ok? <==> sourceType.Some? && satisfaction.Some?
    ensures sourceType.None? ==> r == Throws(NullPointer("Source type cannot be null"))
    ensures sourceType.Some? && satisfaction.None? ==> r == Throws(NullPointer("Satisfaction cannot be null"))
    ensures r.Ok? ==> r.value.satisfaction == satisfaction && r.value.qualifier == qualifier
  {
    if sourceType.None? then Throws(NullPointer("Source type cannot be null"))
    else if satisfaction.None? then Throws(NullPointer("Satisfaction cannot be null"))
    else Ok(BindRule(satisfaction, terminateChain, qualifier, Types.Box(sourceType.value),
                     satisfaction.value.erasedType, weight))
  }

  /** The constructor taking an implementation type: a null source or implementation type is a null-pointer error. */
  function NewTypeRule(
    sourceType: Option<ClassRef>, implType: Option<ClassRef>,
    qualifier: Option<Qualifier>, weight: int, terminateChain: bool): (r: Result<BindRule>)
    ensures r.Ok? <==> sourceType.Some? && implType.Some?
    ensures sourceType.None? ==> r == Throws(NullPointer("Source type cannot be null"))
    ensures sourceType.Some? && implType.None? ==> r == Throws(NullPointer("Impl type cannot be null"))
    ensures r.Ok? ==> r.value.qualifier == qualifier && r.value.implType == implType.value
  {
    if sourceType.None? then Throws(NullPointer("Source type cannot be null"))
    else if implType.None? then Throws(NullPointer("Impl type cannot be null"))
    else Ok(BindRule(None, terminateChain, qualifier, Types.Box(sourceType.value), implType.value, weight))
  }

  /** Both constructors store the boxed source type, which is then already in boxed form. */
  lemma ConstructorsBoxSourceType(
    sourceType: ClassRef, satisfaction: SatisfactionRef, implType: ClassRef,
    qualifier: Option<Qualifier>, weight: int, terminateChain: bool)
    ensures var r := NewSatisfactionRule(Some(sourceType), Some(satisfaction), qualifier, weight, terminateChain).value;
      r.sourceType == Types.Box(sourceType) && Types.Box(r.sourceType) == r.sourceType
    ensures var r := NewTypeRule(Some(sourceType), Some(implType), qualifier, weight, terminateChain).value;
      r.sourceType == Types.Box(sourceType) && Types.Box(r.sourceType) == r.sourceType
  {
    Types.BoxIdempotent(sourceType);
  }

  /**
   * The satisfaction constructor targets the satisfaction's erased type; the
   * type constructor has no satisfaction. Weight and terminate flag are kept
   * as given, and `getWeight`/`terminatesChain` return them.
   */
  lemma ConstructorsKeepTarget(
    sourceType: ClassRef, satisfaction: SatisfactionRef, implType: ClassRef,
    qualifier: Option<Qualifier>, weight: int, terminateChain: bool)
    ensures var r := NewSatisfactionRule(Some(sourceType), Some(satisfaction), qualifier, weight, terminateChain).value;
      r.implType == satisfaction.erasedType && r.satisfaction == Some(satisfaction) &&
      r.weight == weight && r.terminateChain == terminateChain
    ensures var r := NewTypeRule(Some(sourceType), Some(implType), qualifier, weight, terminateChain).value;
      r.implType == implType && r.satisfaction.None? && r.weight == weight && r.terminateChain == terminateChain
  {
  }

  // -------------------------------------------------------------- matching

  /** `matches`: the desired type must equal the source type; then the desire's qualifier must inherit the rule's. */
  function Matches(r: BindRule, d: Desire, inherits: InheritsQualifier): (matched: bool)
    ensures matched ==> d.desiredType == r.sourceType
    ensures matched ==> inherits(DesireQualifier(d), r.qualifier)
  {
    if d.desiredType == r.sourceType then inherits(DesireQualifier(d), r.qualifier) else false
  }

  /** A rule never matches a desire for another type; for its own type it matches exactly when the qualifier inherits. */
  lemma MatchesIsTypeThenQualifier(r: BindRule, d: Desire, inherits: InheritsQualifier)
    ensures d.desiredType != r.sourceType ==> !Matches(r, d, inherits)
    ensures d.desiredType == r.sourceType ==> (Matches(r, d, inherits) <==> inherits(DesireQualifier(d), r.qualifier))
  {
  }

  /** Matching depends on the source type and qualifier only, never on what the rule produces. */
  lemma MatchesIgnoresTarget(
    r: BindRule, d: Desire, inherits: InheritsQualifier,
    satisfaction: Option<SatisfactionRef>, implType: ClassRef, weight: int, terminateChain: bool)
    ensures Matches(r.(satisfaction := satisfaction, implType := implType, weight := weight, terminateChain := terminateChain), d, inherits)
         == Matches(r, d, inherits)
  {
  }

  /** A rule for a primitive type and a rule for its wrapper, otherwise alike, match the same desires. */
  lemma PrimitiveAndWrapperRulesMatchAlike(
    t: ClassRef, satisfaction: SatisfactionRef, qualifier: Option<Qualifier>, weight: int,
    terminateChain: bool, d: Desire, inherits: InheritsQualifier)
    ensures var fromPrimitive := NewSatisfactionRule(Some(t), Some(satisfaction), qualifier, weight, terminateChain).value;
      var fromWrapper := NewSatisfactionRule(Some(Types.Box(t)), Some(satisfaction), qualifier, weight, terminateChain).value;
      fromPrimitive == fromWrapper && Matches(fromPrimitive, d, inherits) == Matches(fromWrapper, d, inherits)
  {
    Types.BoxIdempotent(t);
  }

  // ------------------------------------------------------------- rewriting

  /** `apply`: a new desire for the implementation type, at the same injection point, with the rule's satisfaction. */
  function Apply(r: BindRule, d: Desire): (a: Desire)
    ensures a.injectionPoint == d.injectionPoint
    ensures DesireQualifier(a) == DesireQualifier(d)
  {
    Desire(r.implType, d.injectionPoint, r.satisfaction, TypeSource)
  }

  /**
   * Applying a rule keeps the injection point, and with it the qualifier;
   * the result depends on the input only through that injection point, so
   * applying the same rule again changes nothing.
   */
  lemma ApplyKeepsInjectionPoint(r: BindRule, d: Desire, e: Desire)
    ensures Apply(r, d).injectionPoint == d.injectionPoint
    ensures DesireQualifier(Apply(r, d)) == DesireQualifier(d)
    ensures d.injectionPoint == e.injectionPoint ==> Apply(r, d) == Apply(r, e)
    ensures Apply(r, Apply(r, d)) == Apply(r, d)
  {
  }

  /** A rule built from a satisfaction rewrites every desire to that satisfaction and its erased type, with the default source `TYPE`. */
  lemma ApplySatisfactionRule(
    sourceType: ClassRef, satisfaction: SatisfactionRef, qualifier: Option<Qualifier>,
    weight: int, terminateChain: bool, d: Desire)
    ensures var r := NewSatisfactionRule(Some(sourceType), Some(satisfaction), qualifier, weight, terminateChain).value;
      var a := Apply(r, d);
      a.desiredType == satisfaction.erasedType && a.satisfaction == Some(satisfaction) &&
      a.injectionPoint == d.injectionPoint && a.source == TypeSource
  {
  }

  // -------------------------------------------------------- equality, hash

  /** Java's `a == null ? b == null : a.equals(b)`. */
  predicate NullSafeEquals<T(==)>(a: Option<T>, b: Option<T>)
  {
    if a.None? then b.None? else b.Some? && a.value == b.value
  }

  /** `equals`: weight, source type, implementation type, terminate flag, qualifier and satisfaction all agree; that is, the rules are the same value. */
  predicate Equals(r: BindRule, o: BindRule): (eq: bool)
    ensures eq <==> r == o
  {
    o.weight == r.weight && o.sourceType == r.sourceType && o.implType == r.implType &&
    o.terminateChain == r.terminateChain &&
    NullSafeEquals(o.qualifier, r.qualifier) && NullSafeEquals(o.satisfaction, r.satisfaction)
  }

  /** Java `int` arithmetic: the value reduced to 32-bit two's complement. */
  function Int32(x: int): (r: int)
    ensures -0x8000_0000 <= r < 0x8000_0000
    ensures (r - x) % 0x1_0000_0000 == 0
  {
    (x + 0x8000_0000) % 0x1_0000_0000 - 0x8000_0000
  }

  /** One `result += 31 * result + v` step of `hashCode`. */
  function HashStep(result: int, v: int): int
  {
    Int32(result + 31 * result + v)
  }

  /** The hash codes of the collaborating objects, which their own classes define. */
  datatype HashCodes = HashCodes(
    ofClass: ClassRef -> int,
    ofSatisfaction: SatisfactionRef -> int,
    ofQualifier: Qualifier -> int)

  /** `hashCode`: folds weight, flag, both types and the non-null satisfaction and qualifier into a 32-bit hash. */
  function HashCode(r: BindRule, h: HashCodes): (code: int)
    ensures -0x8000_0000 <= code < 0x8000_0000
  {
    var h1 := HashStep(17, r.weight);
    var h2 := HashStep(h1, if r.terminateChain then 1 else 0);
    var h3 := HashStep(h2, h.ofClass(r.sourceType));
    var h4 := HashStep(h3, h.ofClass(r.implType));
    var h5 := if r.satisfaction.Some? then HashStep(h4, h.ofSatisfaction(r.satisfaction.value)) else h4;
    if r.qualifier.Some? then HashStep(h5, h.ofQualifier(r.qualifier.value)) else h5
  }

  /** Equal rules have equal hash codes. */
  lemma EqualRulesHashAlike(r: BindRule, o: BindRule, h: HashCodes)
    requires Equals(r, o)
    ensures HashCode(r, h) == HashCode(o, h)
  {
  }
}
