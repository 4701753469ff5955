/**
 * The ListValue contract (cel::ListValue): its kind, size, emptiness,
 * element access and the kind test `Is`.
 */
module ListValues {
  import opened Kinds
  import opened Types
  import opened Statuses
  import opened Values

  /** ListValue::Is: a value is a list exactly when its kind is `list`. */
  predicate Is(v: Value)
    ensures Is(v) <==> v.ListValue?
  {
    KindOfValue(v) == ListKind
  }

  /** ListValue::size(). */
  function Size(l: Value): (n: nat)
    requires l.ListValue?
    ensures n == |l.elements|
  {
    |l.elements|
  }

  /** ListValue::empty(), by default `size() == 0`. */
  predicate Empty(l: Value)
    requires l.ListValue?
    ensures Empty(l) <==> l.elements == []
  {
    Size(l) == 0
  }

  /**
   * ListValue::Get(index): the element at the index, or an out-of-range
   * error for an index at or beyond the size.
   */
  function Get(l: Value, index: nat): (r: StatusOr<Value>)
    requires l.ListValue?
    ensures r.Success? <==> index < Size(l)
    ensures r.Success? ==> r.value == l.elements[index]
    ensures r.Failure? ==> r.status.code == OutOfRange
  {
    if index < |l.elements| then Success(l.elements[index])
    else Failure(Status(OutOfRange, "index out of bounds"))
  }

  /** A list value reports the list type it was created with, and its kind is `list`. */
  lemma TypeIsCreationType(l: Value)
    requires l.ListValue?
    ensures TypeOf(l) == l.listType
    ensures KindOfValue(l) == ListKind
  {
  }

  /** A list is empty exactly when no index can be read. */
  lemma EmptyIffNoElement(l: Value)
    requires l.ListValue?
    ensures Empty(l) <==> Get(l, 0).Failure?
  {
  }

  /** The rendering of a list: the elements' renderings, comma separated, in brackets. */
  lemma DebugStringShape(l: Value, leaf: Value -> string)
    requires l.ListValue?
    ensures var s := Values.DebugString(l, leaf); |s| >= 2 && s[0] == '[' && s[|s| - 1] == ']'
    ensures Empty(l) ==> Values.DebugString(l, leaf) == "[]"
  {
  }

  /** `[0, 1, 2, 3, 4, 5]` renders as in the debug-string test. */
  lemma DebugStringExample(leaf: Value -> string)
    ensures Values.DebugString(ListValue(ListType(IntType), [IntValue(0), IntValue(1), IntValue(2), IntValue(3), IntValue(4), IntValue(5)], Abstract), leaf)
            == "[0, 1, 2, 3, 4, 5]"
  {
    var l := ListValue(ListType(IntType), [IntValue(0), IntValue(1), IntValue(2), IntValue(3), IntValue(4), IntValue(5)], Abstract);
    var ss := ["0", "1", "2", "3", "4", "5"];
    assert ElementStrings(l, 0, leaf) == ss by {
      assert ElementStrings(l, 6, leaf) == [];
      assert ElementStrings(l, 5, leaf) == ss[5..];
      assert ElementStrings(l, 4, leaf) == ss[4..];
      assert ElementStrings(l, 3, leaf) == ss[3..];
      assert ElementStrings(l, 2, leaf) == ss[2..];
      assert ElementStrings(l, 1, leaf) == ss[1..];
    }
    JoinSixDigits();
  }

  /** The comma-separated rendering of the digits 0 to 5. */
  lemma JoinSixDigits()
    ensures Join(["0", "1", "2", "3", "4", "5"], ", ") == "0, 1, 2, 3, 4, 5"
  {
    var ss := ["0", "1", "2", "3", "4", "5"];
    assert Join(ss[5..], ", ") == "5";
    assert ss[4..][1..] == ss[5..];
    assert Join(ss[4..], ", ") == "4, 5";
    assert ss[3..][1..] == ss[4..];
    assert Join(ss[3..], ", ") == "3, 4, 5";
    assert ss[2..][1..] == ss[3..];
    assert Join(ss[2..], ", ") == "2, 3, 4, 5";
    assert ss[1..][1..] == ss[2..];
    assert Join(ss[1..], ", ") == "1, 2, 3, 4, 5";
  }
}
