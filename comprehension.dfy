/**
 * The comprehension step machine (eval/eval/comprehension_step.cc): the
 * Next, Cond, Finish and ListKeys instructions over an execution frame
 * that holds the evaluator stack, the comprehension slots, the program
 * counter and the iteration counter.
 *
 * Each instruction is specified by a function from the frame's state
 * before to its outcome and state after (NextSpec, CondSpec, FinishSpec,
 * ListKeysSpec); the frame's Evaluate methods are proved to follow them,
 * and the lemmas state what the instructions promise.
 */
module Comprehensions {
  import opened Kinds
  import opened Statuses
  import opened Values
  import opened AttributeTrails
  import opened EvaluatorStacks
  import ListValues
  import MapValues

  /** One comprehension slot: cleared, or a value with its attribute trail. */
  datatype Slot = EmptySlot | Filled(value: Value, trail: AttributeTrail)

  /**
   * What the frame supplies besides its state: the options the steps
   * consult, the length of the execution path (the range of a jump), the
   * iteration budget (0: none) and the collaborators whose bodies are not
   * part of this model: AttributeUtility::IdentifyAndMergeUnknowns,
   * MutableListValue::Build, and the error, if any, a map's ListKeys
   * reports.
   */
  datatype Config = Config(
    enableUnknowns: bool,
    enableListAppend: bool,
    maxIterations: nat,
    pathLength: nat,
    identifyUnknowns: (seq<Value>, seq<AttributeTrail>) -> Option<Value>,
    buildList: Value -> StatusOr<Value>,
    listKeysFailure: Value -> Option<Status>)

  /** The frame's state: both stacks, the slots, the program counter and the iteration count. */
  datatype State = State(values: seq<Value>, trails: seq<AttributeTrail>, slots: seq<Slot>, pc: int, iterations: nat)

  /** The evaluator stack's invariant: values and trails have the same height. */
  predicate Wf(s: State)
  {
    |s.values| == |s.trails|
  }

  /** ComprehensionNextStep: its two slots and its two jump offsets. */
  datatype NextStep = NextStep(iterSlot: nat, accuSlot: nat, jumpOffset: int, errorJumpOffset: int)

  /** ComprehensionCondStep: its two slots, whether it short-circuits, and its two jump offsets. */
  datatype CondStep = CondStep(iterSlot: nat, accuSlot: nat, shortCircuiting: bool, jumpOffset: int, errorJumpOffset: int)

  /** ComprehensionFinish: its accumulator slot. */
  datatype FinishStep = FinishStep(accuSlot: nat)

  /** The status a step returns when the stack is shallower than its window. */
  const Underflow: Status := Status(Internal, "Value stack underflow")

  /** CreateNoMatchingOverloadError(fn), as an error value. */
  function NoMatchingOverload(fn: string): (v: Value)
    ensures v.ErrorValue? && v.status.code == Unknown
  {
    ErrorValue(Status(Unknown, "No matching overloads found : " + fn))
  }

  /**
   * What a step pushes for an operand of the wrong type: the operand itself
   * when it is an error or unknown, a no-matching-overload error otherwise.
   */
  function Propagate(v: Value, fn: string): (r: Value)
    ensures r.ErrorValue? || r.UnknownValue?
    ensures (v.ErrorValue? || v.UnknownValue?) ==> r == v
    ensures !(v.ErrorValue? || v.UnknownValue?) ==> r == NoMatchingOverload(fn)
  {
    if v.ErrorValue? || v.UnknownValue? then v else NoMatchingOverload(fn)
  }

  /** static_cast<size_t> of a 64-bit index: negative indices wrap to huge ones. */
  function ToSizeT(i: int): (r: nat)
    ensures 0 <= i < 0x1_0000_0000_0000_0000 ==> r == i
    ensures -0x8000_0000_0000_0000 <= i < 0 ==> r >= 0x8000_0000_0000_0000
  {
    i % 0x1_0000_0000_0000_0000
  }

  /**
   * The largest list size that `static_cast<int64_t>` keeps: Next's break
   * test compares the index with `static_cast<int64_t>(size) - 1`, which
   * agrees with the mathematical `size - 1` only up to this size.
   */
  const MaxListSize: nat := 0x7FFF_FFFF_FFFF_FFFF

  function Top(s: State): Value
    requires |s.values| > 0
  {
    s.values[|s.values| - 1]
  }

  /** EvaluatorStack::Pop(n) on the state. */
  function Pop(s: State, n: nat): (r: State)
    requires Wf(s) && n <= |s.values|
    ensures Wf(r) && |r.values| == |s.values| - n && r.slots == s.slots
  {
    s.(values := s.values[..|s.values| - n], trails := s.trails[..|s.trails| - n])
  }

  /** EvaluatorStack::Push(v, t) on the state. */
  function Push(s: State, v: Value, t: AttributeTrail): (r: State)
    requires Wf(s)
    ensures Wf(r) && |r.values| == |s.values| + 1 && r.slots == s.slots
  {
    s.(values := s.values + [v], trails := s.trails + [t])
  }

  /** EvaluatorStack::PopAndPush(v, t) on the state. */
  function ReplaceTop(s: State, v: Value, t: AttributeTrail): (r: State)
    requires Wf(s) && |s.values| > 0
    ensures Wf(r) && |r.values| == |s.values| && r.slots == s.slots
  {
    s.(values := s.values[|s.values| - 1 := v], trails := s.trails[|s.trails| - 1 := t])
  }

  /** ComprehensionSlots::Set(i, v, t) on the state. */
  function SlotSet(s: State, i: nat, v: Value, t: AttributeTrail): (r: State)
    requires i < |s.slots|
    ensures |r.slots| == |s.slots|
  {
    s.(slots := s.slots[i := Filled(v, t)])
  }

  /** ComprehensionSlots::ClearSlot(i) on the state. */
  function SlotCleared(s: State, i: nat): (r: State)
    requires i < |s.slots|
    ensures |r.slots| == |s.slots|
  {
    s.(slots := s.slots[i := EmptySlot])
  }

  /**
   * ExecutionFrame::JumpTo(offset): move the program counter by the
   * offset; a target outside the execution path is an internal error and
   * leaves the counter where it was.
   */
  function Jump(c: Config, s: State, offset: int): (r: (Outcome, State))
    ensures r.1 == s.(pc := r.1.pc)
    ensures r.0.Pass? <==> 0 <= s.pc + offset <= c.pathLength
    ensures r.0.Pass? ==> r.1.pc == s.pc + offset
    ensures r.0.Fail? ==> r.1.pc == s.pc && r.0.status.code == Internal
  {
    var target := s.pc + offset;
    if target < 0 || target > c.pathLength then (Fail(Status(Internal, "Jump address out of range")), s)
    else (Pass, s.(pc := target))
  }

  /**
   * ExecutionFrame::IncrementIterations(): count one more iteration; with
   * a budget, exceeding it is a resource-exhaustion error.
   */
  function Increment(c: Config, s: State): (r: (Outcome, State))
    ensures r.1 == s.(iterations := s.iterations + 1)
    ensures r.0.Fail? <==> c.maxIterations > 0 && s.iterations + 1 > c.maxIterations
    ensures r.0.Fail? ==> r.0.status.code == ResourceExhausted
  {
    var t := s.(iterations := s.iterations + 1);
    if c.maxIterations > 0 && t.iterations > c.maxIterations then (Fail(Status(ResourceExhausted, "Iteration budget exceeded")), t)
    else (Pass, t)
  }

  /** Both slot indices name existing slots. */
  predicate SlotsFit(s: State, iterSlot: nat, accuSlot: nat)
  {
    iterSlot < |s.slots| && accuSlot < |s.slots|
  }

  /**
   * ComprehensionNextStep::Evaluate. The window is, bottom to top: the
   * previous loop step, iter_range, the current index, the current value
   * and the new loop step.
   */
  function NextSpec(c: Config, step: NextStep, s: State): (r: (Outcome, State))
    requires Wf(s) && SlotsFit(s, step.iterSlot, step.accuSlot)
    ensures Wf(r.1) && |r.1.slots| == |s.slots|
  {
    var n := |s.values|;
    if n < 5 then (Fail(Underflow), s)
    else
      var range := s.values[n - 4];
      var index := s.values[n - 3];
      if !range.ListValue? then
        Jump(c, Push(Pop(s, 5), Propagate(range, "<iter_range>"), EmptyTrail()), step.errorJumpOffset)
      else if !index.IntValue? then
        (Fail(Status(Internal, "ComprehensionNextStep: want int, got " + KindToString(KindOfValue(index)))), s)
      else
        var (counted, s1) := Increment(c, s);
        if counted.Fail? then (counted, s1)
        else Advance(c, step, s1)
  }

  /**
   * The part of Next after the iteration is counted, on a window whose
   * range is a list and whose index is an int: the loop step becomes the
   * accumulator; past the last element the loop breaks, otherwise the
   * window moves on to the next element.
   */
  function Advance(c: Config, step: NextStep, s: State): (r: (Outcome, State))
    requires Wf(s) && SlotsFit(s, step.iterSlot, step.accuSlot) && |s.values| >= 5
    requires s.values[|s.values| - 4].ListValue? && s.values[|s.values| - 3].IntValue?
    ensures Wf(r.1) && |r.1.slots| == |s.slots|
  {
    var n := |s.values|;
    var range := s.values[n - 4];
    var index := s.values[n - 3].i;
    var rangeTrail := if c.enableUnknowns then s.trails[n - 4] else EmptyTrail();
    var iterTrail := if c.enableUnknowns then Step(s.trails[n - 4], IntQualifier(index + 1)) else EmptyTrail();
    var loopStep := s.values[n - 1];
    var s2 := SlotSet(Push(Pop(s, 5), loopStep, EmptyTrail()), step.accuSlot, loopStep, EmptyTrail());
    if index >= |range.elements| - 1 then
      Jump(c, SlotCleared(s2, step.iterSlot), step.jumpOffset)
    else
      var s3 := Push(s2, range, rangeTrail);
      match ListValues.Get(range, ToSizeT(index + 1))
      case Failure(st) => (Fail(st), s3)
      case Success(current) =>
        (Pass, SlotSet(Push(Push(s3, IntValue(index + 1), EmptyTrail()), current, iterTrail), step.iterSlot, current, iterTrail))
  }

  /**
   * ComprehensionCondStep::Evaluate. The top of the stack is the loop
   * condition, above the four-entry window Next left.
   */
  function CondSpec(c: Config, step: CondStep, s: State): (r: (Outcome, State))
    requires Wf(s) && SlotsFit(s, step.iterSlot, step.accuSlot)
    ensures Wf(r.1) && |r.1.slots| == |s.slots|
  {
    var n := |s.values|;
    if n < 5 then (Fail(Underflow), s)
    else
      var condition := Top(s);
      if !condition.BoolValue? then
        var s1 := Push(Pop(s, 5), Propagate(condition, "<loop_condition>"), EmptyTrail());
        Jump(c, SlotCleared(SlotCleared(s1, step.iterSlot), step.accuSlot), step.errorJumpOffset)
      else
        var s1 := Pop(s, 1);
        if !condition.b && step.shortCircuiting then Jump(c, Pop(s1, 3), step.jumpOffset)
        else (Pass, s1)
  }

  /** A value MutableListValue::Build applies to: an opaque mutable list. */
  predicate IsMutableList(v: Value)
  {
    v.OpaqueValue? && v.isMutableList
  }

  /**
   * ComprehensionFinish::Evaluate: the result replaces the result and the
   * accumulator entry below it; a mutable list is built first when list
   * append is enabled.
   */
  function FinishSpec(c: Config, step: FinishStep, s: State): (r: (Outcome, State))
    requires Wf(s) && step.accuSlot < |s.slots|
    ensures Wf(r.1) && |r.1.slots| == |s.slots|
  {
    var n := |s.values|;
    if n < 2 then (Fail(Underflow), s)
    else
      var result := Top(s);
      var s1 := Pop(s, 2);
      if c.enableListAppend && IsMutableList(result) then
        match c.buildList(result)
        case Failure(st) => (Fail(st), s1)
        case Success(built) => (Pass, SlotCleared(Push(s1, built, EmptyTrail()), step.accuSlot))
      else (Pass, SlotCleared(Push(s1, result, EmptyTrail()), step.accuSlot))
  }

  /**
   * ListKeysStep::Evaluate and ProjectKeys: a map on top of the stack is
   * replaced by the unknown its attribute identifies, when unknowns are
   * enabled and there is one, or else by the list of its keys; an error
   * from ListKeys is returned with the map left on the stack.
   */
  function ListKeysSpec(c: Config, s: State): (r: (Outcome, State))
    requires Wf(s)
    ensures Wf(r.1) && |r.1.slots| == |s.slots|
  {
    var n := |s.values|;
    if n < 1 then (Fail(Underflow), s)
    else if !Top(s).MapValue? then (Pass, s)
    else
      var unknown := if c.enableUnknowns then c.identifyUnknowns(s.values[n - 1..], s.trails[n - 1..]) else None;
      if unknown.Some? then (Pass, ReplaceTop(s, unknown.value, EmptyTrail()))
      else match MapValues.ListKeys(Top(s), c.listKeysFailure(Top(s)))
        case Failure(st) => (Fail(st), s)
        case Success(keys) => (Pass, ReplaceTop(s, keys, EmptyTrail()))
  }

  /** The values below the top `k` entries. */
  function Below(s: State, k: nat): seq<Value>
    requires k <= |s.values|
  {
    s.values[..|s.values| - k]
  }

  /** Next on a stack shallower than its window fails internally and changes nothing. */
  lemma NextUnderflow(c: Config, step: NextStep, s: State)
    requires Wf(s) && SlotsFit(s, step.iterSlot, step.accuSlot) && |s.values| < 5
    ensures NextSpec(c, step, s) == (Fail(Status(Internal, "Value stack underflow")), s)
  {
  }

  /**
   * Next on a range that is not a list: the window is replaced by the
   * range itself (an error or unknown) or by a no-matching-overload error,
   * and control goes to the error target.
   */
  lemma NextRangeNotList(c: Config, step: NextStep, s: State)
    requires Wf(s) && SlotsFit(s, step.iterSlot, step.accuSlot) && |s.values| >= 5
    requires !s.values[|s.values| - 4].ListValue?
    ensures var (o, t) := NextSpec(c, step, s);
      && t.values == Below(s, 5) + [Propagate(s.values[|s.values| - 4], "<iter_range>")]
      && |t.values| == |s.values| - 4
      && t.slots == s.slots && t.iterations == s.iterations
      && (o, t) == Jump(c, t.(pc := s.pc), step.errorJumpOffset)
  {
  }

  /** Next on an index that is not an int fails internally before counting the iteration. */
  lemma NextIndexNotInt(c: Config, step: NextStep, s: State)
    requires Wf(s) && SlotsFit(s, step.iterSlot, step.accuSlot) && |s.values| >= 5
    requires s.values[|s.values| - 4].ListValue? && !s.values[|s.values| - 3].IntValue?
    ensures NextSpec(c, step, s).1 == s
    ensures NextSpec(c, step, s).0.Fail? && NextSpec(c, step, s).0.status.code == Internal
  {
  }

  /** Next past the iteration budget fails with resource exhaustion, leaving the stack as it was. */
  lemma NextOverBudget(c: Config, step: NextStep, s: State)
    requires Wf(s) && SlotsFit(s, step.iterSlot, step.accuSlot) && |s.values| >= 5
    requires s.values[|s.values| - 4].ListValue? && s.values[|s.values| - 3].IntValue?
    requires c.maxIterations > 0 && s.iterations >= c.maxIterations
    ensures NextSpec(c, step, s).0.Fail? && NextSpec(c, step, s).0.status.code == ResourceExhausted
    ensures NextSpec(c, step, s).1 == s.(iterations := s.iterations + 1)
  {
  }

  /** Next within the budget: the counter goes up by one whatever happens next. */
  predicate WithinBudget(c: Config, s: State)
  {
    c.maxIterations == 0 || s.iterations < c.maxIterations
  }

  /**
   * Next at or past the last element breaks: only the loop step is left in
   * place of the window, it is the accumulator, the iteration variable is
   * cleared and control goes to the loop exit.
   */
  lemma NextBreaks(c: Config, step: NextStep, s: State)
    requires Wf(s) && SlotsFit(s, step.iterSlot, step.accuSlot) && step.iterSlot != step.accuSlot && |s.values| >= 5
    requires s.values[|s.values| - 4].ListValue? && s.values[|s.values| - 3].IntValue?
    requires s.values[|s.values| - 3].i >= |s.values[|s.values| - 4].elements| - 1
    requires WithinBudget(c, s)
    ensures var (o, t) := NextSpec(c, step, s);
      && t.values == Below(s, 5) + [Top(s)]
      && t.slots == s.slots[step.accuSlot := Filled(Top(s), EmptyTrail())][step.iterSlot := EmptySlot]
      && t.slots[step.accuSlot] == Filled(Top(s), EmptyTrail()) && t.slots[step.iterSlot] == EmptySlot
      && t.iterations == s.iterations + 1
      && (o, t) == Jump(c, t.(pc := s.pc), step.jumpOffset)
  {
  }

  /** An empty range breaks on the first Next, whose index is -1. */
  lemma EmptyRangeBreaksAtOnce(c: Config, step: NextStep, s: State)
    requires Wf(s) && SlotsFit(s, step.iterSlot, step.accuSlot) && step.iterSlot != step.accuSlot && |s.values| >= 5
    requires s.values[|s.values| - 4].ListValue? && s.values[|s.values| - 4].elements == []
    requires s.values[|s.values| - 3] == IntValue(-1)
    requires WithinBudget(c, s) && 0 <= s.pc + step.jumpOffset <= c.pathLength
    ensures NextSpec(c, step, s).0 == Pass
    ensures NextSpec(c, step, s).1.values == Below(s, 5) + [Top(s)]
    ensures NextSpec(c, step, s).1.slots[step.iterSlot] == EmptySlot
  {
    NextBreaks(c, step, s);
  }

  /**
   * Next before the last element moves the window on: the loop step, the
   * range, the next index and the element there, which is also the
   * iteration variable; the loop step is the accumulator.
   */
  lemma NextContinues(c: Config, step: NextStep, s: State)
    requires Wf(s) && SlotsFit(s, step.iterSlot, step.accuSlot) && step.iterSlot != step.accuSlot && |s.values| >= 5
    requires s.values[|s.values| - 4].ListValue? && s.values[|s.values| - 3].IntValue?
    requires -1 <= s.values[|s.values| - 3].i < |s.values[|s.values| - 4].elements| - 1
    requires |s.values[|s.values| - 4].elements| <= MaxListSize
    requires WithinBudget(c, s)
    ensures var (o, t) := NextSpec(c, step, s);
      var n := |s.values|;
      var range := s.values[n - 4];
      var i := s.values[n - 3].i;
      && o == Pass
      && t.values == Below(s, 5) + [Top(s), range, IntValue(i + 1), range.elements[i + 1]]
      && |t.values| == n - 1
      && t.slots[step.accuSlot] == Filled(Top(s), EmptyTrail())
      && t.slots[step.iterSlot].Filled? && t.slots[step.iterSlot].value == range.elements[i + 1]
      && t.slots[step.iterSlot].trail == t.trails[n - 2]
      && (c.enableUnknowns ==> t.trails[n - 2] == Step(s.trails[n - 4], IntQualifier(i + 1)))
      && (c.enableUnknowns ==> t.trails[n - 4] == s.trails[n - 4])
      && (forall j :: 0 <= j < |t.slots| && j != step.iterSlot && j != step.accuSlot ==> t.slots[j] == s.slots[j])
      && t.pc == s.pc && t.iterations == s.iterations + 1
  {
    var n := |s.values|;
    var i := s.values[n - 3].i;
    assert ToSizeT(i + 1) == i + 1;
  }

  /**
   * An index below -1 passes the break test but not the list access: the
   * size_t conversion makes it out of range, after the loop step and the
   * range were pushed.
   */
  lemma NextNegativeIndexFails(c: Config, step: NextStep, s: State)
    requires Wf(s) && SlotsFit(s, step.iterSlot, step.accuSlot) && |s.values| >= 5
    requires s.values[|s.values| - 4].ListValue? && s.values[|s.values| - 3].IntValue?
    requires -0x8000_0000_0000_0000 <= s.values[|s.values| - 3].i < -1
    requires |s.values[|s.values| - 4].elements| <= MaxListSize
    requires WithinBudget(c, s)
    ensures NextSpec(c, step, s).0.Fail? && NextSpec(c, step, s).0.status.code == OutOfRange
    ensures NextSpec(c, step, s).1.values == Below(s, 5) + [Top(s), s.values[|s.values| - 4]]
  {
  }

  /** Whatever Next does, it leaves the entries below its window alone. */
  lemma NextKeepsBelowWindow(c: Config, step: NextStep, s: State)
    requires Wf(s) && SlotsFit(s, step.iterSlot, step.accuSlot) && |s.values| >= 5
    ensures var t := NextSpec(c, step, s).1;
      |t.values| >= |s.values| - 5 && t.values[..|s.values| - 5] == Below(s, 5)
  {
  }

  /**
   * Cond on a condition that is not a bool: the window is replaced by the
   * condition itself (an error or unknown) or by a no-matching-overload
   * error, both slots are cleared, and control goes to the error target.
   */
  lemma CondNotBool(c: Config, step: CondStep, s: State)
    requires Wf(s) && SlotsFit(s, step.iterSlot, step.accuSlot) && |s.values| >= 5
    requires !Top(s).BoolValue?
    ensures var (o, t) := CondSpec(c, step, s);
      && t.values == Below(s, 5) + [Propagate(Top(s), "<loop_condition>")]
      && t.slots[step.iterSlot] == EmptySlot && t.slots[step.accuSlot] == EmptySlot
      && (o, t) == Jump(c, t.(pc := s.pc), step.errorJumpOffset)
  {
  }

  /** Cond on true, or on false without short-circuiting, pops the condition and falls through. */
  lemma CondContinues(c: Config, step: CondStep, s: State)
    requires Wf(s) && SlotsFit(s, step.iterSlot, step.accuSlot) && |s.values| >= 5
    requires Top(s).BoolValue? && (Top(s).b || !step.shortCircuiting)
    ensures CondSpec(c, step, s) == (Pass, Pop(s, 1))
    ensures CondSpec(c, step, s).1.values == Below(s, 1)
  {
  }

  /** Cond on false with short-circuiting pops the condition and the range, index and value, and exits. */
  lemma CondShortCircuits(c: Config, step: CondStep, s: State)
    requires Wf(s) && SlotsFit(s, step.iterSlot, step.accuSlot) && |s.values| >= 5
    requires Top(s) == BoolValue(false) && step.shortCircuiting
    ensures var (o, t) := CondSpec(c, step, s);
      && t.values == Below(s, 4)
      && t.slots == s.slots
      && (o, t) == Jump(c, t.(pc := s.pc), step.jumpOffset)
  {
  }

  /** Finish replaces the two top entries by the result and clears the accumulator. */
  lemma FinishReplacesTwo(c: Config, step: FinishStep, s: State)
    requires Wf(s) && step.accuSlot < |s.slots| && |s.values| >= 2
    requires !(c.enableListAppend && IsMutableList(Top(s)))
    ensures var (o, t) := FinishSpec(c, step, s);
      && o == Pass
      && t.values == Below(s, 2) + [Top(s)]
      && t.trails[|t.trails| - 1] == EmptyTrail()
      && t.slots == s.slots[step.accuSlot := EmptySlot]
  {
  }

  /** Finish on a mutable list with list append enabled leaves the built list, or the build error. */
  lemma FinishBuildsList(c: Config, step: FinishStep, s: State)
    requires Wf(s) && step.accuSlot < |s.slots| && |s.values| >= 2
    requires c.enableListAppend && IsMutableList(Top(s))
    ensures var (o, t) := FinishSpec(c, step, s);
      match c.buildList(Top(s))
      case Success(l) => o == Pass && t.values == Below(s, 2) + [l] && t.slots[step.accuSlot] == EmptySlot
      case Failure(st) => o == Fail(st) && t.values == Below(s, 2) && t.slots == s.slots
  {
  }

  /** ListKeys leaves a stack whose top is not a map as it is. */
  lemma ListKeysIgnoresNonMaps(c: Config, s: State)
    requires Wf(s) && |s.values| >= 1 && !Top(s).MapValue?
    ensures ListKeysSpec(c, s) == (Pass, s)
  {
  }

  /**
   * ListKeys replaces a map on top of the stack, at the same depth, by the
   * merged unknown when unknowns are enabled and the map's attribute
   * identifies one, or else by the list of its keys; when listing the keys
   * fails, that error is returned and the stack keeps the map.
   */
  lemma ListKeysReplacesMap(c: Config, s: State)
    requires Wf(s) && |s.values| >= 1 && Top(s).MapValue?
    ensures var (o, t) := ListKeysSpec(c, s);
      var n := |s.values|;
      var unknown := c.identifyUnknowns(s.values[n - 1..], s.trails[n - 1..]);
      var failure := c.listKeysFailure(Top(s));
      && (o.Pass? ==> |t.values| == n && Below(t, 1) == Below(s, 1) && t.slots == s.slots)
      && (c.enableUnknowns && unknown.Some? ==> o == Pass && Top(t) == unknown.value)
      && (!(c.enableUnknowns && unknown.Some?) && failure.Some? ==> o == Fail(failure.value) && t == s)
      && (!(c.enableUnknowns && unknown.Some?) && failure.None? ==>
            o == Pass && Top(t).ListValue? &&
            (forall k :: k in Top(t).elements <==> k in MapValues.KeysOf(Top(s).entries)))
  {
    var n := |s.values|;
    var t := ListKeysSpec(c, s).1;
    if ListKeysSpec(c, s).0.Pass? {
      assert Below(t, 1) == Below(s, 1);
    }
    if !(c.enableUnknowns && c.identifyUnknowns(s.values[n - 1..], s.trails[n - 1..]).Some?) && c.listKeysFailure(Top(s)).None? {
      forall k ensures k in Top(t).elements <==> k in MapValues.KeysOf(Top(s).entries) {
        assert (k in Top(t).elements) == MapValues.Lookup(Top(s).entries, k).Some?;
      }
    }
  }

  /**
   * The execution frame as the steps use it: the evaluator stack, the
   * comprehension slots, the program counter and the iteration counter.
   */
  class ExecutionFrame {
    const stack: EvaluatorStack
    var slots: seq<Slot>
    var pc: int
    var iterations: nat
    const config: Config

    ghost predicate Valid()
      reads this, stack
    {
      stack.Valid()
    }

    /** The frame's state as a value. */
    function Snapshot(): State
      reads this, stack
    {
      State(stack.stack, stack.attributeStack, slots, pc, iterations)
    }

    constructor (stack: EvaluatorStack, slotCount: nat, config: Config)
      requires stack.Valid()
      ensures Valid() && this.stack == stack && this.config == config
      ensures slots == seq(slotCount, _ => EmptySlot) && pc == 0 && iterations == 0
    {
      this.stack := stack;
      this.config := config;
      slots := seq(slotCount, _ => EmptySlot);
      pc := 0;
      iterations := 0;
    }

    /** ExecutionFrame::JumpTo. */
    method JumpTo(offset: int) returns (status: Outcome)
      modifies this
      ensures (status, Snapshot()) == Jump(config, old(Snapshot()), offset)
    {
      var target := pc + offset;
      if target < 0 || target > config.pathLength {
        return Fail(Status(Internal, "Jump address out of range"));
      }
      pc := target;
      status := Pass;
    }

    /** ExecutionFrame::IncrementIterations. */
    method IncrementIterations() returns (status: Outcome)
      modifies this
      ensures (status, Snapshot()) == Increment(config, old(Snapshot()))
    {
      iterations := iterations + 1;
      if config.maxIterations > 0 && iterations > config.maxIterations {
        return Fail(Status(ResourceExhausted, "Iteration budget exceeded"));
      }
      status := Pass;
    }

    /** ComprehensionSlots::Set. */
    method SetSlot(i: nat, v: Value, t: AttributeTrail)
      requires i < |slots|
      modifies this
      ensures Snapshot() == SlotSet(old(Snapshot()), i, v, t)
    {
      slots := slots[i := Filled(v, t)];
    }

    /** ComprehensionSlots::ClearSlot. */
    method ClearSlot(i: nat)
      requires i < |slots|
      modifies this
      ensures Snapshot() == SlotCleared(old(Snapshot()), i)
    {
      slots := slots[i := EmptySlot];
    }

    /** ComprehensionNextStep::Evaluate, proved to follow NextSpec. */
    method EvaluateNext(step: NextStep) returns (status: Outcome)
      requires Valid() && SlotsFit(Snapshot(), step.iterSlot, step.accuSlot)
      modifies this, stack
      ensures Valid()
      ensures (status, Snapshot()) == NextSpec(config, step, old(Snapshot()))
    {
      ghost var s := Snapshot();
      if !stack.HasEnough(5) {
        return Fail(Underflow);
      }
      var state := stack.GetSpan(5);
      var range := state[1];
      if !range.ListValue? {
        stack.Pop(5);
        stack.PushValue(Propagate(range, "<iter_range>"));
        assert Snapshot() == Push(Pop(s, 5), Propagate(range, "<iter_range>"), EmptyTrail());
        status := JumpTo(step.errorJumpOffset);
        return;
      }
      var index := state[2];
      if !index.IntValue? {
        return Fail(Status(Internal, "ComprehensionNextStep: want int, got " + KindToString(KindOfValue(index))));
      }
      status := IncrementIterations();
      if status.Fail? {
        return;
      }
      status := AdvanceWindow(step);
    }

    /** The rest of ComprehensionNextStep::Evaluate once the iteration is counted. */
    method AdvanceWindow(step: NextStep) returns (status: Outcome)
      requires Valid() && SlotsFit(Snapshot(), step.iterSlot, step.accuSlot) && |stack.stack| >= 5
      requires stack.stack[|stack.stack| - 4].ListValue? && stack.stack[|stack.stack| - 3].IntValue?
      modifies this, stack
      ensures Valid()
      ensures (status, Snapshot()) == Advance(config, step, old(Snapshot()))
    {
      ghost var s := Snapshot();
      var state := stack.GetSpan(5);
      var range := state[1];
      var index := state[2].i;
      var rangeTrail := EmptyTrail();
      var iterTrail := EmptyTrail();
      if config.enableUnknowns {
        var attr := stack.GetAttributeSpan(5);
        rangeTrail := attr[1];
        iterTrail := Step(rangeTrail, IntQualifier(index + 1));
      }
      var loopStep := state[4];
      assert range == s.values[|s.values| - 4] && index == s.values[|s.values| - 3].i && loopStep == Top(s);
      assert rangeTrail == if config.enableUnknowns then s.trails[|s.values| - 4] else EmptyTrail();
      stack.Pop(5);
      stack.PushValue(loopStep);
      SetSlot(step.accuSlot, loopStep, EmptyTrail());
      ghost var s2 := Snapshot();
      assert s2 == SlotSet(Push(Pop(s, 5), loopStep, EmptyTrail()), step.accuSlot, loopStep, EmptyTrail());
      if index >= |range.elements| - 1 {
        ClearSlot(step.iterSlot);
        status := JumpTo(step.jumpOffset);
        return;
      }
      stack.Push(range, rangeTrail);
      ghost var s3 := Snapshot();
      var current := ListValues.Get(range, ToSizeT(index + 1));
      if current.Failure? {
        return Fail(current.status);
      }
      stack.PushValue(IntValue(index + 1));
      stack.Push(current.value, iterTrail);
      SetSlot(step.iterSlot, current.value, iterTrail);
      assert Snapshot() == SlotSet(Push(Push(s3, IntValue(index + 1), EmptyTrail()), current.value, iterTrail), step.iterSlot, current.value, iterTrail);
      status := Pass;
    }

    /** ComprehensionCondStep::Evaluate, proved to follow CondSpec. */
    method EvaluateCond(step: CondStep) returns (status: Outcome)
      requires Valid() && SlotsFit(Snapshot(), step.iterSlot, step.accuSlot)
      modifies this, stack
      ensures Valid()
      ensures (status, Snapshot()) == CondSpec(config, step, old(Snapshot()))
    {
      ghost var s := Snapshot();
      if !stack.HasEnough(5) {
        return Fail(Underflow);
      }
      var condition := stack.Peek();
      if !condition.BoolValue? {
        stack.Pop(5);
        stack.PushValue(Propagate(condition, "<loop_condition>"));
        ClearSlot(step.iterSlot);
        ClearSlot(step.accuSlot);
        assert Snapshot() == SlotCleared(SlotCleared(
          Push(Pop(s, 5), Propagate(condition, "<loop_condition>"), EmptyTrail()), step.iterSlot), step.accuSlot);
        status := JumpTo(step.errorJumpOffset);
        return;
      }
      stack.Pop(1);
      if !condition.b && step.shortCircuiting {
        stack.Pop(3);
        assert Snapshot() == Pop(Pop(s, 1), 3);
        status := JumpTo(step.jumpOffset);
        return;
      }
      status := Pass;
    }

    /** ComprehensionFinish::Evaluate, proved to follow FinishSpec. */
    method EvaluateFinish(step: FinishStep) returns (status: Outcome)
      requires Valid() && step.accuSlot < |slots|
      modifies this, stack
      ensures Valid()
      ensures (status, Snapshot()) == FinishSpec(config, step, old(Snapshot()))
    {
      ghost var s := Snapshot();
      if !stack.HasEnough(2) {
        return Fail(Underflow);
      }
      var result := stack.Peek();
      stack.Pop(2);
      if config.enableListAppend && IsMutableList(result) {
        var built := config.buildList(result);
        if built.Failure? {
          return Fail(built.status);
        }
        result := built.value;
      }
      stack.PushValue(result);
      ClearSlot(step.accuSlot);
      status := Pass;
    }

    /** ListKeysStep::Evaluate with ProjectKeys, proved to follow ListKeysSpec. */
    method EvaluateListKeys() returns (status: Outcome)
      requires Valid()
      modifies this, stack
      ensures Valid()
      ensures (status, Snapshot()) == ListKeysSpec(config, old(Snapshot()))
    {
      ghost var s := Snapshot();
      if !stack.HasEnough(1) {
        return Fail(Underflow);
      }
      if !stack.Peek().MapValue? {
        return Pass;
      }
      if config.enableUnknowns {
        var unknown := config.identifyUnknowns(stack.GetSpan(1), stack.GetAttributeSpan(1));
        if unknown.Some? {
          stack.PopAndPushValue(unknown.value);
          assert Snapshot() == ReplaceTop(s, unknown.value, EmptyTrail());
          return Pass;
        }
      }
      var keys := MapValues.ListKeys(stack.Peek(), config.listKeysFailure(stack.Peek()));
      assert keys == MapValues.ListKeys(Top(s), config.listKeysFailure(Top(s)));
      if keys.Failure? {
        return Fail(keys.status);
      }
      stack.PopAndPushValue(keys.value);
      assert Snapshot() == ReplaceTop(s, keys.value, EmptyTrail());
      status := Pass;
    }
  }
}
