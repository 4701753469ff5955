/**
 * The attribute path a value was read from (AttributeTrail): an optional
 * attribute, a root variable name followed by a sequence of qualifiers.
 * An empty trail means the path is unknown or not tracked.
 */
module AttributeTrails {

  /** cel::AttributeQualifier: one selection step of an attribute path. */
  datatype Qualifier =
    | StringQualifier(s: string)
    | IntQualifier(i: int)
    | UintQualifier(u: nat)
    | BoolQualifier(b: bool)

  /** cel::Attribute: a variable name and the qualifiers applied to it. */
  datatype Attribute = Attribute(variableName: string, qualifiers: seq<Qualifier>)

  /** The trail holds `absl::optional<cel::Attribute>`. */
  datatype AttributeTrail = Trail(attr: AttributeOption)

  datatype AttributeOption = NoAttribute | HasAttribute(value: Attribute)

  /** The default constructor: a trail without an attribute. */
  function EmptyTrail(): (t: AttributeTrail)
    ensures Empty(t)
  {
    Trail(NoAttribute)
  }

  /** The constructor from a variable name: the path is just that variable. */
  function FromVariable(variableName: string): (t: AttributeTrail)
    ensures !Empty(t)
    ensures GetAttribute(t) == Attribute(variableName, [])
  {
    Trail(HasAttribute(Attribute(variableName, [])))
  }

  /** AttributeTrail::empty(). */
  predicate Empty(t: AttributeTrail)
  {
    t.attr.NoAttribute?
  }

  /** AttributeTrail::attribute(): reads the optional, so only defined on a non-empty trail. */
  function GetAttribute(t: AttributeTrail): (a: Attribute)
    requires !Empty(t)
    ensures HasAttribute(a) == t.attr
  {
    t.attr.value
  }

  /**
   * AttributeTrail::Step(qualifier): a new trail whose path is this one's
   * extended by the qualifier; an empty trail stays empty. The receiver is a
   * value and is left as it was.
   */
  function Step(t: AttributeTrail, q: Qualifier): (r: AttributeTrail)
    ensures Empty(r) <==> Empty(t)
    ensures !Empty(t) ==> GetAttribute(r).variableName == GetAttribute(t).variableName
    ensures !Empty(t) ==> GetAttribute(r).qualifiers == GetAttribute(t).qualifiers + [q]
  {
    match t.attr
    case NoAttribute => t
    case HasAttribute(a) => Trail(HasAttribute(Attribute(a.variableName, a.qualifiers + [q])))
  }

  /** AttributeTrail::Step(const std::string*): stepping by a string is stepping by its string qualifier. */
  function StepString(t: AttributeTrail, s: string): (r: AttributeTrail)
    ensures r == Step(t, StringQualifier(s))
  {
    Step(t, StringQualifier(s))
  }

  /** Stepping through several qualifiers in turn. */
  function StepAll(t: AttributeTrail, qs: seq<Qualifier>): (r: AttributeTrail)
    decreases |qs|
  {
    if qs == [] then t else StepAll(Step(t, qs[0]), qs[1..])
  }

  /**
   * A trail rooted at a variable and stepped through a path records exactly
   * that variable and that path.
   */
  lemma {:induction false} StepAllRecordsPath(t: AttributeTrail, qs: seq<Qualifier>)
    requires !Empty(t)
    ensures !Empty(StepAll(t, qs))
    ensures GetAttribute(StepAll(t, qs)) ==
            Attribute(GetAttribute(t).variableName, GetAttribute(t).qualifiers + qs)
    decreases |qs|
  {
    if qs != [] {
      StepAllRecordsPath(Step(t, qs[0]), qs[1..]);
      assert [qs[0]] + qs[1..] == qs;
      assert GetAttribute(t).qualifiers + [qs[0]] + qs[1..] == GetAttribute(t).qualifiers + qs;
    }
  }

  /** An empty trail stays empty however far it is stepped. */
  lemma {:induction false} StepAllEmpty(t: AttributeTrail, qs: seq<Qualifier>)
    requires Empty(t)
    ensures StepAll(t, qs) == t
    decreases |qs|
  {
    if qs != [] {
      StepAllEmpty(Step(t, qs[0]), qs[1..]);
    }
  }

  /** Distinct paths from the same trail give distinct trails. */
  lemma StepInjective(t: AttributeTrail, q1: Qualifier, q2: Qualifier)
    requires !Empty(t)
    requires Step(t, q1) == Step(t, q2)
    ensures q1 == q2
  {
    var qs := GetAttribute(t).qualifiers;
    assert (qs + [q1])[|qs|] == q1;
    assert (qs + [q2])[|qs|] == q2;
  }
}
