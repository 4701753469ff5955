/**
 * The evaluator's value stack (EvaluatorStack): two parallel stacks, one
 * of values and one of the attribute trails they were read through, kept
 * at the same height, with a nominal maximum size.
 */
module EvaluatorStacks {
  import opened Types
  import opened Values
  import opened AttributeTrails

  /**
   * interop_internal::CreateNullStructValue: a legacy struct value that
   * wraps no message, the typed null an overload on messages accepts.
   */
  const NullStructValue: Value := StructValue(StructType(""), Legacy(0))

  /** What CoerceNullValues makes of one stack entry. */
  function CoerceNull(v: Value): (r: Value)
    ensures r.NullValue? ==> false
    ensures v.NullValue? ==> r == NullStructValue
    ensures !v.NullValue? ==> r == v
  {
    if v.NullValue? then NullStructValue else v
  }

  class EvaluatorStack {
    var stack: seq<Value>
    var attributeStack: seq<AttributeTrail>
    const maxSize: nat
    var currentSize: nat
    /** The capacity reserved in the two vectors. */
    var capacity: nat

    /** The two stacks always have the height `currentSize`. */
    ghost predicate Valid()
      reads this
    {
      |stack| == currentSize && |attributeStack| == currentSize
    }

    /** EvaluatorStack(max_size): empty, with room reserved for `max_size` entries. */
    constructor (maxSize: nat)
      ensures Valid() && this.maxSize == maxSize
      ensures stack == [] && attributeStack == [] && currentSize == 0
      ensures capacity == maxSize
    {
      this.maxSize := maxSize;
      stack := [];
      attributeStack := [];
      currentSize := 0;
      capacity := 0;
      new;
      Reserve(maxSize);
    }

    /** size() and attribute_size(): the height of both stacks. */
    function Size(): (n: nat)
      reads this
      requires Valid()
      ensures n == |stack| && n == |attributeStack|
    {
      currentSize
    }

    /** empty(). */
    predicate IsEmpty()
      reads this
      ensures Valid() ==> (IsEmpty() <==> stack == [] && attributeStack == [])
    {
      currentSize == 0
    }

    /** HasEnough(size): at least `size` entries are on the stack. */
    predicate HasEnough(size: nat)
      reads this
      ensures Valid() ==> (HasEnough(size) <==> size <= |stack| && size <= |attributeStack|)
    {
      currentSize >= size
    }

    /** GetSpan(size): the top `size` values, deepest first; the caller checks HasEnough. */
    function GetSpan(size: nat): (span: seq<Value>)
      reads this
      requires Valid() && HasEnough(size)
      ensures |span| == size
      ensures stack == stack[..currentSize - size] + span
      ensures size > 0 ==> span[size - 1] == Peek()
    {
      stack[currentSize - size..]
    }

    /** GetAttributeSpan(size): the top `size` attribute trails, deepest first. */
    function GetAttributeSpan(size: nat): (span: seq<AttributeTrail>)
      reads this
      requires Valid() && HasEnough(size)
      ensures |span| == size
      ensures attributeStack == attributeStack[..currentSize - size] + span
      ensures size > 0 ==> span[size - 1] == PeekAttribute()
    {
      attributeStack[currentSize - size..]
    }

    /** Peek(): the top value; the caller checks the stack is not empty. */
    function Peek(): (v: Value)
      reads this
      requires Valid() && !IsEmpty()
      ensures v == stack[|stack| - 1]
    {
      stack[currentSize - 1]
    }

    /** PeekAttribute(): the top attribute trail. */
    function PeekAttribute(): (t: AttributeTrail)
      reads this
      requires Valid() && !IsEmpty()
      ensures t == attributeStack[|attributeStack| - 1]
    {
      attributeStack[currentSize - 1]
    }

    /** Pop(size): remove the top `size` entries, one pair at a time. */
    method Pop(size: nat)
      requires Valid() && HasEnough(size)
      modifies this
      ensures Valid()
      ensures currentSize == old(currentSize) - size
      ensures stack == old(stack)[..currentSize]
      ensures attributeStack == old(attributeStack)[..currentSize]
      ensures capacity == old(capacity)
    {
      var remaining: nat := size;
      while remaining > 0
        invariant Valid()
        invariant remaining <= currentSize
        invariant currentSize == old(currentSize) - (size - remaining)
        invariant stack == old(stack)[..currentSize]
        invariant attributeStack == old(attributeStack)[..currentSize]
        invariant capacity == old(capacity)
      {
        stack := stack[..|stack| - 1];
        attributeStack := attributeStack[..|attributeStack| - 1];
        currentSize := currentSize - 1;
        remaining := remaining - 1;
      }
    }

    /**
     * Push(value, attribute): add a pair on top. Pushing past the maximum
     * size only logs an error, so it is not a precondition.
     */
    method Push(value: Value, attribute: AttributeTrail)
      requires Valid()
      modifies this
      ensures Valid()
      ensures stack == old(stack) + [value] && attributeStack == old(attributeStack) + [attribute]
      ensures currentSize == old(currentSize) + 1
      ensures capacity == old(capacity)
    {
      stack := stack + [value];
      attributeStack := attributeStack + [attribute];
      currentSize := currentSize + 1;
    }

    /** Push(value): push with an empty attribute trail. */
    method PushValue(value: Value)
      requires Valid()
      modifies this
      ensures Valid()
      ensures stack == old(stack) + [value] && attributeStack == old(attributeStack) + [EmptyTrail()]
      ensures currentSize == old(currentSize) + 1
      ensures capacity == old(capacity)
    {
      Push(value, EmptyTrail());
    }

    /** PopAndPush(value, attribute): replace the top pair; the caller checks the stack is not empty. */
    method PopAndPush(value: Value, attribute: AttributeTrail)
      requires Valid() && !IsEmpty()
      modifies this
      ensures Valid()
      ensures currentSize == old(currentSize)
      ensures stack == old(stack)[currentSize - 1 := value]
      ensures attributeStack == old(attributeStack)[currentSize - 1 := attribute]
      ensures capacity == old(capacity)
    {
      stack := stack[currentSize - 1 := value];
      attributeStack := attributeStack[currentSize - 1 := attribute];
    }

    /** PopAndPush(value): replace the top pair, with an empty attribute trail. */
    method PopAndPushValue(value: Value)
      requires Valid() && !IsEmpty()
      modifies this
      ensures Valid()
      ensures currentSize == old(currentSize)
      ensures stack == old(stack)[currentSize - 1 := value]
      ensures attributeStack == old(attributeStack)[currentSize - 1 := EmptyTrail()]
      ensures capacity == old(capacity)
    {
      PopAndPush(value, EmptyTrail());
    }

    /**
     * Reserve(size): grow the reserved capacity to `size`, clamped to the
     * maximum size; the contents do not change.
     */
    method Reserve(size: nat)
      modifies this
      ensures stack == old(stack) && attributeStack == old(attributeStack)
      ensures currentSize == old(currentSize)
      ensures capacity == Max(old(capacity), Min(size, maxSize))
    {
      var n := size;
      if n > maxSize {
        n := maxSize;
      }
      if n > capacity {
        capacity := n;
      }
    }

    /**
     * CoerceNullValues(size): replace every null among the top `size`
     * values by the null struct value; true when any was replaced.
     */
    method CoerceNullValues(size: nat) returns (updated: bool)
      requires Valid() && HasEnough(size)
      modifies this
      ensures Valid()
      ensures currentSize == old(currentSize) && attributeStack == old(attributeStack)
      ensures stack[..currentSize - size] == old(stack)[..currentSize - size]
      ensures forall i :: currentSize - size <= i < currentSize ==> stack[i] == CoerceNull(old(stack)[i])
      ensures updated <==> exists i :: currentSize - size <= i < currentSize && old(stack)[i].NullValue?
      ensures capacity == old(capacity)
    {
      updated := false;
      for i := currentSize - size to |stack|
        invariant Valid()
        invariant currentSize == old(currentSize) && attributeStack == old(attributeStack)
        invariant capacity == old(capacity)
        invariant forall j :: 0 <= j < currentSize - size ==> stack[j] == old(stack)[j]
        invariant forall j :: currentSize - size <= j < i ==> stack[j] == CoerceNull(old(stack)[j])
        invariant forall j :: i <= j < currentSize ==> stack[j] == old(stack)[j]
        invariant updated <==> exists j :: currentSize - size <= j < i && old(stack)[j].NullValue?
      {
        if stack[i].NullValue? {
          stack := stack[i := NullStructValue];
          updated := true;
        }
      }
    }

    /** Clear(): drop every entry of both stacks. */
    method Clear()
      requires Valid()
      modifies this
      ensures Valid() && IsEmpty()
      ensures stack == [] && attributeStack == []
      ensures capacity == old(capacity)
    {
      stack := [];
      attributeStack := [];
      currentSize := 0;
    }
  }

  function Max(a: nat, b: nat): nat
  {
    if a < b then b else a
  }

  function Min(a: nat, b: nat): nat
  {
    if a < b then a else b
  }

  /** Pushing a pair and popping one leaves the stack as it was. */
  method PushThenPop(s: EvaluatorStack, v: Value, t: AttributeTrail)
    requires s.Valid()
    modifies s
    ensures s.Valid()
    ensures s.stack == old(s.stack) && s.attributeStack == old(s.attributeStack)
    ensures s.currentSize == old(s.currentSize)
  {
    s.Push(v, t);
    assert s.Peek() == v && s.PeekAttribute() == t;
    s.Pop(1);
    assert s.stack == (old(s.stack) + [v])[..old(s.currentSize)];
  }

  /**
   * The push/pop walk-through of the stack's own test: three pushes, the
   * last one with an attribute, and two single pops, with the top value
   * and trail checked after each.
   */
  method PushPopScenario(trail: AttributeTrail) returns (tops: seq<Value>, topTrails: seq<AttributeTrail>)
    ensures tops == [IntValue(3), IntValue(2), IntValue(1)]
    ensures topTrails == [trail, EmptyTrail(), EmptyTrail()]
  {
    var s := new EvaluatorStack(10);
    s.PushValue(IntValue(1));
    s.Push(IntValue(2), EmptyTrail());
    s.Push(IntValue(3), trail);
    tops := [s.Peek()];
    topTrails := [s.PeekAttribute()];
    s.Pop(1);
    tops := tops + [s.Peek()];
    topTrails := topTrails + [s.PeekAttribute()];
    s.Pop(1);
    tops := tops + [s.Peek()];
    topTrails := topTrails + [s.PeekAttribute()];
  }

  /** Coercing twice changes nothing the second time, and reports no update. */
  method CoerceTwice(s: EvaluatorStack, size: nat) returns (second: bool)
    requires s.Valid() && s.HasEnough(size)
    modifies s
    ensures s.Valid() && !second
    ensures forall i :: 0 <= i && s.currentSize - size <= i < |s.stack| ==> !s.stack[i].NullValue?
  {
    var first := s.CoerceNullValues(size);
    ghost var afterFirst := s.stack;
    second := s.CoerceNullValues(size);
    assert forall i :: s.currentSize - size <= i < s.currentSize ==> !afterFirst[i].NullValue?;
  }
}
