/**
 * `ReflectionSatisfaction` of grapht's `spi.reflect` package: the defaults
 * shared by reflective satisfactions, and the comparator that orders the
 * context matchers competing at one resolution point. The comparator puts
 * the matcher whose matched type is closest to the satisfaction's erased
 * type first, and breaks ties by qualifier-matcher priority.
 */
module ReflectionSatisfactions {
  import opened Seqs
  import opened Reflect
  import Types
  import Q = Qualifiers

  /** `canProduceNull`: a reflective satisfaction cannot produce null unless a subclass says otherwise. */
  function CanProduceNull(): (r: bool)
    ensures !r
  {
    false
  }

  /** A `ReflectionContextMatcher`, seen through the type and the qualifier matcher it matched. */
  datatype ContextMatcher = ContextMatcher(matchedType: ClassRef, matchedQualifier: Q.QualifierMatcher)

  /** The `compareTo` of a qualifier matcher of unknown kind, which is not part of this model. */
  type ForeignCompareTo = (nat, Q.QualifierMatcher) -> int

  /** `m1.compareTo(m2)`, dispatched on the receiver's kind. */
  function QualifierCompareTo(m1: Q.QualifierMatcher, m2: Q.QualifierMatcher, foreign: ForeignCompareTo): int
  {
    match m1
    case Own(m) => Q.CompareTo(m, m2)
    case Foreign(k) => foreign(k, m2)
  }

  /**
   * `contextComparator().compare(cm1, cm2)` for a satisfaction whose erased
   * type is `erasedType`: the difference of the two type distances when they
   * differ, otherwise the qualifier comparison. A null-pointer failure of
   * either distance propagates.
   */
  function Compare(
    table: ClassTable, erasedType: ClassRef,
    cm1: ContextMatcher, cm2: ContextMatcher, foreign: ForeignCompareTo): (r: Result<int>)
    requires WellFormed(table)
    ensures r.Ok? <==>
      Types.TypeDistance(table, erasedType, cm1.matchedType).Ok? && Types.TypeDistance(table, erasedType, cm2.matchedType).Ok?
    ensures r.Throws? ==> r.exception.NullPointer?
  {
    var td1 := Types.TypeDistance(table, erasedType, cm1.matchedType);
    if td1.Throws? then td1
    else
      var td2 := Types.TypeDistance(table, erasedType, cm2.matchedType);
      if td2.Throws? then td2
      else if td1.value != td2.value then Ok(td1.value - td2.value)
      else Ok(QualifierCompareTo(cm1.matchedQualifier, cm2.matchedQualifier, foreign))
  }

  /** When both distances are defined and differ, the result is their difference, so the closer type sorts first. */
  lemma CompareByDistance(
    table: ClassTable, erasedType: ClassRef, cm1: ContextMatcher, cm2: ContextMatcher, foreign: ForeignCompareTo)
    requires WellFormed(table)
    requires Types.TypeDistance(table, erasedType, cm1.matchedType).Ok?
    requires Types.TypeDistance(table, erasedType, cm2.matchedType).Ok?
    ensures var td1 := Types.TypeDistance(table, erasedType, cm1.matchedType).value;
      var td2 := Types.TypeDistance(table, erasedType, cm2.matchedType).value;
      (td1 != td2 ==> Compare(table, erasedType, cm1, cm2, foreign) == Ok(td1 - td2)) &&
      (td1 < td2 ==> Compare(table, erasedType, cm1, cm2, foreign).value < 0)
    ensures var td1 := Types.TypeDistance(table, erasedType, cm1.matchedType).value;
      var td2 := Types.TypeDistance(table, erasedType, cm2.matchedType).value;
      var byQualifier := QualifierCompareTo(cm1.matchedQualifier, cm2.matchedQualifier, foreign);
      td1 == td2 ==> Compare(table, erasedType, cm1, cm2, foreign) == Ok(byQualifier)
  {
  }

  /** A matcher with a known qualifier kind and a defined distance compares equal to itself. */
  lemma CompareSelfIsZero(table: ClassTable, erasedType: ClassRef, cm: ContextMatcher, foreign: ForeignCompareTo)
    requires WellFormed(table)
    requires cm.matchedQualifier.Own?
    requires Types.TypeDistance(table, erasedType, cm.matchedType).Ok?
    ensures Compare(table, erasedType, cm, cm, foreign) == Ok(0)
  {
    Q.CompareToAntisymmetric(cm.matchedQualifier.matcher, cm.matchedQualifier.matcher);
  }

  /** Between matchers of known qualifier kinds the comparator is antisymmetric. */
  lemma CompareAntisymmetric(
    table: ClassTable, erasedType: ClassRef, cm1: ContextMatcher, cm2: ContextMatcher, foreign: ForeignCompareTo)
    requires WellFormed(table)
    requires cm1.matchedQualifier.Own? && cm2.matchedQualifier.Own?
    requires Types.TypeDistance(table, erasedType, cm1.matchedType).Ok?
    requires Types.TypeDistance(table, erasedType, cm2.matchedType).Ok?
    ensures Compare(table, erasedType, cm1, cm2, foreign).Ok?
    ensures Compare(table, erasedType, cm2, cm1, foreign).Ok?
    ensures Compare(table, erasedType, cm1, cm2, foreign).value == -Compare(table, erasedType, cm2, cm1, foreign).value
  {
    Q.CompareToAntisymmetric(cm1.matchedQualifier.matcher, cm2.matchedQualifier.matcher);
  }

  /**
   * Between matchers of known qualifier kinds with defined distances, "sorts
   * no later than" is transitive: distance first, then priority.
   */
  lemma CompareTransitive(
    table: ClassTable, erasedType: ClassRef, a: ContextMatcher, b: ContextMatcher, c: ContextMatcher,
    foreign: ForeignCompareTo)
    requires WellFormed(table)
    requires a.matchedQualifier.Own? && b.matchedQualifier.Own? && c.matchedQualifier.Own?
    requires Types.TypeDistance(table, erasedType, a.matchedType).Ok?
    requires Types.TypeDistance(table, erasedType, b.matchedType).Ok?
    requires Types.TypeDistance(table, erasedType, c.matchedType).Ok?
    requires Compare(table, erasedType, a, b, foreign).value <= 0
    requires Compare(table, erasedType, b, c, foreign).value <= 0
    ensures Compare(table, erasedType, a, c, foreign).value <= 0
  {
    var ta := Types.TypeDistance(table, erasedType, a.matchedType).value;
    var tb := Types.TypeDistance(table, erasedType, b.matchedType).value;
    var tc := Types.TypeDistance(table, erasedType, c.matchedType).value;
    if ta == tb && tb == tc {
      Q.CompareToTransitive(a.matchedQualifier.matcher, b.matchedQualifier.matcher, c.matchedQualifier.matcher);
    }
  }

  /** A matcher for the erased type itself sorts before one for its direct superclass. */
  lemma ExactTypeBeforeSuperclass(
    table: ClassTable, erasedType: ClassRef, parent: ClassRef,
    q1: Q.QualifierMatcher, q2: Q.QualifierMatcher, foreign: ForeignCompareTo)
    requires WellFormed(table)
    requires Superclass(table, erasedType) == Some(parent)
    ensures Compare(table, erasedType, ContextMatcher(erasedType, q1), ContextMatcher(parent, q2), foreign) == Ok(-1)
  {
    Types.TypeDistanceToSelf(table, erasedType);
    Types.TypeDistanceToSuperclass(table, erasedType, parent);
  }

  /**
   * The unrelated sentinel is not special-cased: a matcher whose type the
   * erased type is not assignable to sorts ahead of any matcher on the
   * erased type's superclass chain.
   */
  lemma UnrelatedSortsFirst(
    table: ClassTable, erasedType: ClassRef, cm1: ContextMatcher, cm2: ContextMatcher, foreign: ForeignCompareTo)
    requires WellFormed(table)
    requires !Types.IsAssignableFrom(table, cm1.matchedType, erasedType)
    requires cm2.matchedType in Types.Chain(table, erasedType)
    ensures Compare(table, erasedType, cm1, cm2, foreign).Ok?
    ensures Compare(table, erasedType, cm1, cm2, foreign).value < 0
  {
    Types.TypeDistanceCountsSteps(table, erasedType, cm2.matchedType);
  }
}
