/**
 * A whole comprehension, run through the step specifications in the order
 * the compiled execution path lays them out:
 *
 *   Next; loop condition; Cond; loop step; back to Next ... ; result; Finish
 *
 * with the loop condition the constant `true` and the loop step a function
 * of the accumulator and iteration variables, read from their slots. The
 * theorems: such a loop leaves exactly the left fold of the loop step over
 * the range, with both slots cleared afterwards, and it fails with
 * resource exhaustion exactly when the range needs more iterations than
 * the budget allows.
 */
module ComprehensionLoops {
  import opened Statuses
  import opened Values
  import opened AttributeTrails
  import opened Comprehensions

  /** The value a slot holds, null for a cleared one. */
  function SlotValue(slot: Slot): Value
  {
    if slot.Filled? then slot.value else NullValue
  }

  /** The loop step applied to the accumulator and each element in turn. */
  function FoldLeft(f: (Value, Value) -> Value, accu: Value, xs: seq<Value>): Value
    decreases |xs|
  {
    if xs == [] then accu else FoldLeft(f, f(accu, xs[0]), xs[1..])
  }

  /** Folding from index `j` is folding the element at `j` in, then the rest. */
  lemma FoldLeftStep(f: (Value, Value) -> Value, accu: Value, xs: seq<Value>, j: nat)
    requires j < |xs|
    ensures FoldLeft(f, accu, xs[j..]) == FoldLeft(f, f(accu, xs[j]), xs[j + 1..])
  {
    assert xs[j..][1..] == xs[j + 1..];
  }

  /** The steps of one compiled loop and their slot indices. */
  predicate LoopFits(s: State, next: NextStep, cond: CondStep)
  {
    && SlotsFit(s, next.iterSlot, next.accuSlot)
    && SlotsFit(s, cond.iterSlot, cond.accuSlot)
    && next.iterSlot != next.accuSlot
  }

  /**
   * One round of the loop from a Next step: Next; when it moved on to an
   * element, the condition `true` is pushed, Cond runs and the loop step
   * `f(accumulator, element)` is pushed. The flag says whether the goto
   * back to Next follows.
   */
  function Round(c: Config, next: NextStep, cond: CondStep, f: (Value, Value) -> Value, s: State): (r: (Outcome, State, bool))
    requires Wf(s) && LoopFits(s, next, cond)
    ensures Wf(r.1) && |r.1.slots| == |s.slots|
    ensures r.2 ==> r.0 == Pass
  {
    var (o, s1) := NextSpec(c, next, s);
    if o.Fail? || |s1.values| != |s.values| - 1 then (o, s1, false)
    else
      var s2 := Push(s1, BoolValue(true), EmptyTrail());
      var (o2, s3) := CondSpec(c, cond, s2);
      if o2.Fail? then (o2, s3, false)
      else (Pass, Push(s3, f(SlotValue(s3.slots[next.accuSlot]), SlotValue(s3.slots[next.iterSlot])), EmptyTrail()), true)
  }

  /**
   * The loop from a Next step, for at most `fuel` rounds after the first.
   * RunLoop and Resume only forward to Iterate, which runs a round and
   * goes back to RunLoop; each call within the three spends one unit of
   * the verifier's fuel, so a proof that mentions RunLoop does not unfold
   * a round unless it asks for one.
   */
  function RunLoop(c: Config, next: NextStep, cond: CondStep, f: (Value, Value) -> Value, s: State, fuel: nat): (r: (Outcome, State))
    requires Wf(s) && LoopFits(s, next, cond)
    ensures Wf(r.1) && |r.1.slots| == |s.slots|
    decreases fuel, 2
  {
    Resume(c, next, cond, f, s, fuel)
  }

  function Resume(c: Config, next: NextStep, cond: CondStep, f: (Value, Value) -> Value, s: State, fuel: nat): (r: (Outcome, State))
    requires Wf(s) && LoopFits(s, next, cond)
    ensures Wf(r.1) && |r.1.slots| == |s.slots|
    decreases fuel, 1
  {
    Iterate(c, next, cond, f, s, fuel)
  }

  /** One round, then stop or go back to Next. */
  function Iterate(c: Config, next: NextStep, cond: CondStep, f: (Value, Value) -> Value, s: State, fuel: nat): (r: (Outcome, State))
    requires Wf(s) && LoopFits(s, next, cond)
    ensures Wf(r.1) && |r.1.slots| == |s.slots|
    decreases fuel, 0
  {
    var (o, t, more) := Round(c, next, cond, f, s);
    if !more || fuel == 0 then (o, t) else RunLoop(c, next, cond, f, t, fuel - 1)
  }

  /** The loop window at Next: the range is a list whose size fits an int64_t, and the index is `i`. */
  predicate AtNext(s: State, i: int)
  {
    && |s.values| >= 5
    && s.values[|s.values| - 4].ListValue?
    && |s.values[|s.values| - 4].elements| <= MaxListSize
    && s.values[|s.values| - 3] == IntValue(i)
    && -1 <= i <= |s.values[|s.values| - 4].elements| - 1
  }

  function Range(s: State): seq<Value>
    requires |s.values| >= 5 && s.values[|s.values| - 4].ListValue?
  {
    s.values[|s.values| - 4].elements
  }

  /**
   * The state Next leaves when it moves on from index `i`: the window for
   * index `i + 1`, the element as the iteration variable and the old top
   * as the accumulator.
   */
  function AfterNext(c: Config, next: NextStep, s: State, i: int): (t: State)
    requires Wf(s) && SlotsFit(s, next.iterSlot, next.accuSlot) && AtNext(s, i) && i < |Range(s)| - 1
    ensures Wf(t) && |t.slots| == |s.slots| && |t.values| == |s.values| - 1
  {
    var n := |s.values|;
    var iterTrail := if c.enableUnknowns then Step(s.trails[n - 4], IntQualifier(i + 1)) else EmptyTrail();
    State(
      Below(s, 5) + [Top(s), s.values[n - 4], IntValue(i + 1), Range(s)[i + 1]],
      s.trails[..n - 5] + [EmptyTrail(), if c.enableUnknowns then s.trails[n - 4] else EmptyTrail(), EmptyTrail(), iterTrail],
      s.slots[next.accuSlot := Filled(Top(s), EmptyTrail())][next.iterSlot := Filled(Range(s)[i + 1], iterTrail)],
      s.pc, s.iterations + 1)
  }

  /** Next within the budget and before the last element leaves AfterNext. */
  lemma NextMovesOn(c: Config, next: NextStep, s: State, i: int)
    requires Wf(s) && SlotsFit(s, next.iterSlot, next.accuSlot) && AtNext(s, i) && i < |Range(s)| - 1
    requires WithinBudget(c, s)
    ensures NextSpec(c, next, s) == (Pass, AfterNext(c, next, s, i))
  {
    var n := |s.values|;
    var range := s.values[n - 4];
    var s1 := s.(iterations := s.iterations + 1);
    assert Increment(c, s) == (Pass, s1);
    assert NextSpec(c, next, s) == Advance(c, next, s1);
    assert ToSizeT(i + 1) == i + 1;
    assert ListValues.Get(range, ToSizeT(i + 1)) == Success(Range(s)[i + 1]);
    var s2 := SlotSet(Push(Pop(s1, 5), Top(s), EmptyTrail()), next.accuSlot, Top(s), EmptyTrail());
    var rangeTrail := if c.enableUnknowns then s.trails[n - 4] else EmptyTrail();
    var iterTrail := if c.enableUnknowns then Step(s.trails[n - 4], IntQualifier(i + 1)) else EmptyTrail();
    var s3 := Push(s2, range, rangeTrail);
    var s5 := SlotSet(Push(Push(s3, IntValue(i + 1), EmptyTrail()), Range(s)[i + 1], iterTrail), next.iterSlot, Range(s)[i + 1], iterTrail);
    assert Advance(c, next, s1) == (Pass, s5);
    assert s5.values == Below(s, 5) + [Top(s), range, IntValue(i + 1), Range(s)[i + 1]];
    assert s5.trails == s.trails[..n - 5] + [EmptyTrail(), rangeTrail, EmptyTrail(), iterTrail];
  }

  /**
   * The state one round leaves when Next moves on from index `i`: the
   * window for index `i + 1` with `f(accumulator, element)` on top.
   */
  function NextWindow(c: Config, next: NextStep, f: (Value, Value) -> Value, s: State, i: int): (t: State)
    requires Wf(s) && SlotsFit(s, next.iterSlot, next.accuSlot) && next.iterSlot != next.accuSlot
    requires AtNext(s, i) && i < |Range(s)| - 1
    ensures Wf(t) && |t.slots| == |s.slots| && AtNext(t, i + 1)
    ensures Range(t) == Range(s) && Top(t) == f(Top(s), Range(s)[i + 1]) && Below(t, 5) == Below(s, 5)
    ensures t.pc == s.pc && t.iterations == s.iterations + 1
  {
    var a := AfterNext(c, next, s, i);
    var t := Push(a, f(SlotValue(a.slots[next.accuSlot]), SlotValue(a.slots[next.iterSlot])), EmptyTrail());
    assert Below(t, 5) == Below(s, 5);
    t
  }

  /** One round, when Next moves on, leaves NextWindow and the loop goes on from there. */
  lemma RoundAdvances(c: Config, next: NextStep, cond: CondStep, f: (Value, Value) -> Value, s: State, i: int, fuel: nat)
      returns (t: State)
    requires Wf(s) && LoopFits(s, next, cond) && AtNext(s, i) && i < |Range(s)| - 1
    requires WithinBudget(c, s) && fuel > 0
    ensures Wf(t) && LoopFits(t, next, cond) && AtNext(t, i + 1)
    ensures Range(t) == Range(s) && Top(t) == f(Top(s), Range(s)[i + 1]) && Below(t, 5) == Below(s, 5)
    ensures t.pc == s.pc && t.iterations == s.iterations + 1
    ensures RunLoop(c, next, cond, f, s, fuel) == RunLoop(c, next, cond, f, t, fuel - 1)
  {
    NextMovesOn(c, next, s, i);
    var s1 := AfterNext(c, next, s, i);
    var s2 := Push(s1, BoolValue(true), EmptyTrail());
    assert CondSpec(c, cond, s2) == (Pass, Pop(s2, 1));
    assert Pop(s2, 1) == s1;
    assert Round(c, next, cond, f, s) == (Pass, NextWindow(c, next, f, s, i), true);
    assert RunLoop(c, next, cond, f, s, fuel) == Resume(c, next, cond, f, s, fuel) == Iterate(c, next, cond, f, s, fuel);
    t := NextWindow(c, next, f, s, i);
  }

  /** A Next that fails or breaks ends the loop with its outcome and state. */
  lemma NextStopsLoop(c: Config, next: NextStep, cond: CondStep, f: (Value, Value) -> Value, s: State, fuel: nat)
    requires Wf(s) && LoopFits(s, next, cond)
    requires NextSpec(c, next, s).0.Fail? || |NextSpec(c, next, s).1.values| != |s.values| - 1
    ensures RunLoop(c, next, cond, f, s, fuel) == NextSpec(c, next, s)
  {
    assert RunLoop(c, next, cond, f, s, fuel) == Resume(c, next, cond, f, s, fuel) == Iterate(c, next, cond, f, s, fuel);
  }

  /** At the last element the loop ends at once, with the top of the window as the result. */
  lemma LoopBreaks(c: Config, next: NextStep, cond: CondStep, f: (Value, Value) -> Value, s: State, i: int)
    requires Wf(s) && LoopFits(s, next, cond) && AtNext(s, i) && i >= |Range(s)| - 1
    requires WithinBudget(c, s)
    requires 0 <= s.pc + next.jumpOffset <= c.pathLength
    ensures var r := RunLoop(c, next, cond, f, s, 0);
      && r.0 == Pass
      && r.1.values == Below(s, 5) + [Top(s)]
      && r.1.slots[next.accuSlot] == Filled(Top(s), EmptyTrail())
      && r.1.slots[next.iterSlot] == EmptySlot
      && r.1.pc == s.pc + next.jumpOffset
      && r.1.iterations == s.iterations + 1
  {
    NextBreaks(c, next, s);
    NextStopsLoop(c, next, cond, f, s, 0);
  }

  /**
   * What the loop leaves when it started from the window `s` at index `i`:
   * the fold of the loop step over the remaining elements in place of the
   * window, that value as the accumulator, the iteration variable cleared
   * and control at the loop exit, having counted one iteration per Next.
   */
  predicate Folded(next: NextStep, f: (Value, Value) -> Value, s: State, i: int, r: (Outcome, State))
    requires |s.values| >= 5 && s.values[|s.values| - 4].ListValue? && -1 <= i < |Range(s)|
  {
    var result := FoldLeft(f, Top(s), Range(s)[i + 1..]);
    && r.0 == Pass
    && r.1.values == Below(s, 5) + [result]
    && next.accuSlot < |r.1.slots| && r.1.slots[next.accuSlot] == Filled(result, EmptyTrail())
    && next.iterSlot < |r.1.slots| && r.1.slots[next.iterSlot] == EmptySlot
    && r.1.pc == s.pc + next.jumpOffset
    && r.1.iterations == s.iterations + (|Range(s)| - i)
  }

  /** What the loop leaves from the next window is what it leaves from this one. */
  lemma FoldedStep(next: NextStep, f: (Value, Value) -> Value, s: State, t: State, i: int, r: (Outcome, State))
    requires AtNext(s, i) && AtNext(t, i + 1) && i < |Range(s)| - 1
    requires Range(t) == Range(s) && Top(t) == f(Top(s), Range(s)[i + 1]) && Below(t, 5) == Below(s, 5)
    requires t.pc == s.pc && t.iterations == s.iterations + 1
    requires Folded(next, f, t, i + 1, r)
    ensures Folded(next, f, s, i, r)
  {
    FoldLeftStep(f, Top(s), Range(s), i + 1);
  }

  /** From the window at index `i`, the loop ends Folded. */
  lemma {:induction false} LoopFolds(c: Config, next: NextStep, cond: CondStep, f: (Value, Value) -> Value, s: State, i: int)
    requires Wf(s) && LoopFits(s, next, cond) && AtNext(s, i)
    requires c.maxIterations == 0 || s.iterations + (|Range(s)| - i) <= c.maxIterations
    requires 0 <= s.pc + next.jumpOffset <= c.pathLength
    ensures Folded(next, f, s, i, RunLoop(c, next, cond, f, s, |Range(s)| - 1 - i))
    decreases |Range(s)| - i
  {
    var xs := Range(s);
    if i >= |xs| - 1 {
      LoopBreaks(c, next, cond, f, s, i);
      assert xs[i + 1..] == [];
    } else {
      var t := RoundAdvances(c, next, cond, f, s, i, |xs| - 1 - i);
      LoopFolds(c, next, cond, f, t, i + 1);
      var r := RunLoop(c, next, cond, f, t, |Range(t)| - 1 - (i + 1));
      FoldedStep(next, f, s, t, i, r);
    }
  }

  /**
   * With a budget, the loop fails with resource exhaustion exactly when
   * the remaining elements need more Next steps than the budget has left.
   */
  lemma {:induction false} LoopExhaustsBudget(c: Config, next: NextStep, cond: CondStep, f: (Value, Value) -> Value, s: State, i: int)
    requires Wf(s) && LoopFits(s, next, cond) && AtNext(s, i)
    requires c.maxIterations > 0 && s.iterations + (|Range(s)| - i) > c.maxIterations
    ensures RunLoop(c, next, cond, f, s, |Range(s)| - 1 - i).0.Fail?
    ensures RunLoop(c, next, cond, f, s, |Range(s)| - 1 - i).0.status.code == ResourceExhausted
    decreases |Range(s)| - i
  {
    var xs := Range(s);
    if s.iterations >= c.maxIterations {
      NextOverBudget(c, next, s);
      NextStopsLoop(c, next, cond, f, s, |xs| - 1 - i);
    } else {
      var t := RoundAdvances(c, next, cond, f, s, i, |xs| - 1 - i);
      LoopExhaustsBudget(c, next, cond, f, t, i + 1);
    }
  }

  /**
   * The whole comprehension: the loop, then the result expression (the
   * accumulator variable) and Finish.
   */
  function RunComprehension(c: Config, next: NextStep, cond: CondStep, finish: FinishStep, f: (Value, Value) -> Value, s: State, fuel: nat): (r: (Outcome, State))
    requires Wf(s) && LoopFits(s, next, cond) && finish.accuSlot < |s.slots|
    ensures Wf(r.1)
  {
    var (o, t) := RunLoop(c, next, cond, f, s, fuel);
    if o.Fail? then (o, t)
    else FinishSpec(c, finish, Push(t, SlotValue(t.slots[finish.accuSlot]), EmptyTrail()))
  }

  /**
   * A comprehension over a list, started as the execution path lays it out
   * (index -1, accumulator `init` on top), leaves exactly
   * FoldLeft(f, init, elements) in place of its five entries, and both of
   * its slots cleared, so no loop variable outlives the loop.
   */
  lemma ComprehensionFolds(c: Config, next: NextStep, cond: CondStep, finish: FinishStep, f: (Value, Value) -> Value, s: State)
    requires Wf(s) && LoopFits(s, next, cond) && finish.accuSlot == next.accuSlot
    requires AtNext(s, -1)
    requires c.maxIterations == 0 || s.iterations + |Range(s)| + 1 <= c.maxIterations
    requires 0 <= s.pc + next.jumpOffset <= c.pathLength
    requires !c.enableListAppend
    ensures var (o, t) := RunComprehension(c, next, cond, finish, f, s, |Range(s)|);
      && o == Pass
      && t.values == Below(s, 5) + [FoldLeft(f, Top(s), Range(s))]
      && t.slots[next.accuSlot] == EmptySlot && t.slots[next.iterSlot] == EmptySlot
  {
    LoopFolds(c, next, cond, f, s, -1);
    assert Range(s)[0..] == Range(s);
    var t := RunLoop(c, next, cond, f, s, |Range(s)|).1;
    var u := Push(t, SlotValue(t.slots[finish.accuSlot]), EmptyTrail());
    FinishReplacesTwo(c, finish, u);
    assert Below(u, 2) == Below(s, 5);
  }
}
