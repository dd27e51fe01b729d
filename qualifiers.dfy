/**
 * Qualifiers and qualifier matchers (grapht's `spi.reflect.Qualifiers`).
 * A qualifier is a `@Qualifier`-annotated annotation on an injection point;
 * a matcher decides which qualifiers a binding applies to. There are four
 * matcher kinds, ranked by a fixed priority table that orders competing
 * matchers: any < by annotation type < {null, by annotation value}.
 */
module Qualifiers {
  import opened Seqs
  import opened Reflect

  /** An `AnnotationQualifier`: the qualifier wrapping one annotation. */
  datatype AnnotationQualifier = AnnotationQualifier(annotation: Annotation)

  /** The qualifier of an injection point; `None` stands for the null (absent) qualifier. */
  type Qualifier = Option<AnnotationQualifier>

  /** The four matcher kinds defined in this file. */
  datatype Matcher =
    | AnyMatcher
    | NullMatcher
    | AnnotationClassMatcher(annotType: ClassRef)
    | AnnotationMatcher(annot: Annotation)

  /** A `QualifierMatcher`: one of the four above, or an implementation from elsewhere, of unknown kind. */
  datatype QualifierMatcher = Own(matcher: Matcher) | Foreign(kind: nat)

  /** An annotation type is a qualifier when it is itself annotated `@javax.inject.Qualifier`. */
  predicate IsQualifier(table: ClassTable, annotType: ClassRef)
  {
    HasAnnotationOfType(Info(table, annotType).annotations, QualifierMetaType)
  }

  /** The qualifier of a parameter: the first of its annotations whose type is a qualifier, or null. */
  function GetQualifier(table: ClassTable, parameterAnnots: seq<Annotation>): (r: Qualifier)
    ensures r.None? <==> forall i :: 0 <= i < |parameterAnnots| ==> !IsQualifier(table, parameterAnnots[i].annotType)
    ensures r.Some? ==>
      exists i :: 0 <= i < |parameterAnnots| &&
        r.value == AnnotationQualifier(parameterAnnots[i]) && IsQualifier(table, parameterAnnots[i].annotType) &&
        forall j :: 0 <= j < i ==> !IsQualifier(table, parameterAnnots[j].annotType)
  {
    match FindFirst(parameterAnnots, (a: Annotation) => IsQualifier(table, a.annotType))
    case None => None
    case Some(i) => Some(AnnotationQualifier(parameterAnnots[i]))
  }

  // ---------------------------------------------------------- construction

  function MatchAny(): Matcher { AnyMatcher }

  function MatchNone(): Matcher { NullMatcher }

  /** `new AnnotationClassMatcher(type)`: null is a null-pointer error, a non-qualifier type an illegal argument. */
  function MatchAnnotationType(table: ClassTable, annotType: Option<ClassRef>): (r: Result<Matcher>)
    ensures r.Ok? <==> annotType.Some? && IsQualifier(table, annotType.value)
    ensures r.Ok? ==> r.value == AnnotationClassMatcher(annotType.value)
    ensures annotType.None? ==> r == Throws(NullPointer("Annotation type cannot be null"))
    ensures annotType.Some? && !IsQualifier(table, annotType.value) ==>
      r == Throws(IllegalArgument("Annotation is not a Qualifier annotation"))
  {
    if annotType.None? then Throws(NullPointer("Annotation type cannot be null"))
    else if !IsQualifier(table, annotType.value) then Throws(IllegalArgument("Annotation is not a Qualifier annotation"))
    else Ok(AnnotationClassMatcher(annotType.value))
  }

  /** `new AnnotationMatcher(annot)`: null is a null-pointer error, a non-qualifier annotation an illegal argument. */
  function MatchAnnotation(table: ClassTable, annot: Option<Annotation>): (r: Result<Matcher>)
    ensures r.Ok? <==> annot.Some? && IsQualifier(table, annot.value.annotType)
    ensures r.Ok? ==> r.value == AnnotationMatcher(annot.value)
    ensures annot.None? ==> r == Throws(NullPointer("Annotationcannot be null"))
    ensures annot.Some? && !IsQualifier(table, annot.value.annotType) ==>
      r == Throws(IllegalArgument("Annotation is not a Qualifier annotation"))
  {
    if annot.None? then Throws(NullPointer("Annotationcannot be null"))
    else if !IsQualifier(table, annot.value.annotType) then Throws(IllegalArgument("Annotation is not a Qualifier annotation"))
    else Ok(AnnotationMatcher(annot.value))
  }

  // -------------------------------------------------------------- matching

  /** Whether matcher `m` accepts qualifier `q`. */
  function Matches(m: Matcher, q: Qualifier): (r: bool)
    ensures m.AnyMatcher? ==> r
    ensures q.None? ==> (r <==> m.AnyMatcher? || m.NullMatcher?)
  {
    match m
    case AnyMatcher => true
    case NullMatcher => q.None?
    case AnnotationClassMatcher(t) => q.Some? && q.value.annotation.annotType == t
    case AnnotationMatcher(a) => q.Some? && q.value.annotation == a
  }

  /** The any-matcher accepts every qualifier, the null one included. */
  lemma MatchAnyAcceptsAll(q: Qualifier)
    ensures Matches(MatchAny(), q)
  {
  }

  /** The null-matcher accepts the null qualifier and nothing else. */
  lemma MatchNoneAcceptsOnlyNull(q: Qualifier)
    ensures Matches(MatchNone(), q) <==> q.None?
  {
  }

  /** A type matcher built from `t` accepts exactly the qualifiers whose annotation has type `t`; never null. */
  lemma AnnotationTypeMatcherAccepts(table: ClassTable, t: ClassRef, q: Qualifier)
    requires MatchAnnotationType(table, Some(t)).Ok?
    ensures var m := MatchAnnotationType(table, Some(t)).value;
      (Matches(m, q) <==> q.Some? && q.value.annotation.annotType == t) && !Matches(m, None)
  {
  }

  /** A value matcher built from `a` accepts exactly the qualifiers wrapping an annotation equal to `a`; never null. */
  lemma AnnotationMatcherAccepts(table: ClassTable, a: Annotation, q: Qualifier)
    requires MatchAnnotation(table, Some(a)).Ok?
    ensures var m := MatchAnnotation(table, Some(a)).value;
      (Matches(m, q) <==> q == Some(AnnotationQualifier(a))) && !Matches(m, None)
  {
  }

  /**
   * Higher priority means more specific: a value matcher accepts a subset of
   * what the type matcher for its annotation type accepts, which accepts a
   * subset of what the any-matcher accepts; the null-matcher shares nothing
   * with the two annotation matchers.
   */
  lemma PriorityFollowsSpecificity(a: Annotation, t: ClassRef, q: Qualifier)
    ensures Matches(AnnotationMatcher(a), q) ==> Matches(AnnotationClassMatcher(a.annotType), q)
    ensures Matches(AnnotationClassMatcher(t), q) ==> Matches(AnyMatcher, q)
    ensures Matches(NullMatcher, q) ==> !Matches(AnnotationClassMatcher(t), q) && !Matches(AnnotationMatcher(a), q)
  {
  }

  // -------------------------------------------------------------- ordering

  /** `TYPE_PRIORITIES`: the rank of each known matcher kind; other kinds have no entry. */
  function TypePriority(m: QualifierMatcher): (r: Option<int>)
    ensures r.Some? <==> m.Own?
    ensures r.Some? ==> 0 <= r.value <= 2
  {
    match m
    case Own(AnyMatcher) => Some(0)
    case Own(AnnotationClassMatcher(_)) => Some(1)
    case Own(NullMatcher) => Some(2)
    case Own(AnnotationMatcher(_)) => Some(2)
    case Foreign(_) => None
  }

  /** The rank of one of this file's matchers, which always has an entry. */
  function Priority(m: Matcher): (p: int)
    ensures TypePriority(Own(m)) == Some(p)
    ensures 0 <= p <= 2
  {
    TypePriority(Own(m)).value
  }

  /**
   * `compareTo`: the other matcher's priority minus this one's, so that a
   * sort puts higher priorities first; a matcher of unknown kind is put in
   * front of this one.
   */
  function CompareTo(self: Matcher, o: QualifierMatcher): (r: int)
    ensures o.Foreign? ==> r == 1
    ensures o.Own? ==> r == Priority(o.matcher) - Priority(self)
  {
    var p1 := Priority(self);
    match TypePriority(o)
    case None => 1
    case Some(p2) => p2 - p1
  }

  /** The comparison is antisymmetric between known kinds, and zero exactly for kinds of equal priority. */
  lemma CompareToAntisymmetric(a: Matcher, b: Matcher)
    ensures CompareTo(a, Own(b)) == -CompareTo(b, Own(a))
    ensures CompareTo(a, Own(b)) == 0 <==> Priority(a) == Priority(b)
    ensures CompareTo(a, Own(a)) == 0
  {
  }

  /** Sorting ascending by `compareTo` puts the higher priority first. */
  lemma CompareToSortsHigherPriorityFirst(a: Matcher, b: Matcher)
    ensures CompareTo(a, Own(b)) < 0 <==> Priority(a) > Priority(b)
  {
  }

  /** The order any < by-type < {null, by-value}, with null and by-value tied. */
  lemma CompareToRanks(t: ClassRef, a: Annotation)
    ensures CompareTo(AnyMatcher, Own(AnnotationClassMatcher(t))) > 0
    ensures CompareTo(AnnotationClassMatcher(t), Own(AnnotationMatcher(a))) > 0
    ensures CompareTo(AnnotationClassMatcher(t), Own(NullMatcher)) > 0
    ensures CompareTo(NullMatcher, Own(AnnotationMatcher(a))) == 0
  {
  }

  /** `compareTo` is a total preorder on the known kinds: the "sorts no later than" relation is transitive. */
  lemma CompareToTransitive(a: Matcher, b: Matcher, c: Matcher)
    requires CompareTo(a, Own(b)) <= 0 && CompareTo(b, Own(c)) <= 0
    ensures CompareTo(a, Own(c)) <= 0
  {
  }

  // -------------------------------------------------------------- equality

  /** `equals`: same kind and, for the annotation matchers, equal payload; that is, value equality of the matcher. */
  function Equals(self: Matcher, o: QualifierMatcher): (r: bool)
    ensures r <==> o == Own(self)
  {
    match self
    case AnyMatcher => o.Own? && o.matcher.AnyMatcher?
    case NullMatcher => o.Own? && o.matcher.NullMatcher?
    case AnnotationClassMatcher(t) => o.Own? && o.matcher.AnnotationClassMatcher? && o.matcher.annotType == t
    case AnnotationMatcher(a) => o.Own? && o.matcher.AnnotationMatcher? && o.matcher.annot == a
  }
}
