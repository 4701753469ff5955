/**
 * CEL values (cel::Value): the closed set of value kinds, the type a value
 * reports, its debug rendering, and the per-kind equality that
 * ValueHandle::Equals dispatches to once both sides are known to have the
 * same kind.
 */
module Values {
  import opened Kinds
  import opened Types
  import opened Statuses
  import opened AttributeTrails

  /** An IEEE-754 double, reduced to what equality observes: NaN is unordered. */
  datatype Double = Finite(r: real) | PosInf | NegInf | NaN

  /** C++ `==` on doubles: NaN equals nothing, not even itself. */
  predicate DoubleEq(a: Double, b: Double)
  {
    !a.NaN? && !b.NaN? && a == b
  }

  /**
   * Where a list, map or struct value's implementation lives. A legacy value
   * wraps an opaque `uintptr_t impl_` and is stored inline and trivially in the
   * handle; an abstract value is a heap object.
   */
  datatype Impl = Legacy(ptr: nat) | Abstract

  /** An unknown function result, identified by the function and the call site. */
  datatype FunctionResult = FunctionResult(functionName: string, exprId: int)

  datatype Value =
    | NullValue
    | ErrorValue(status: Status)
    | TypeValue(typeValue: Type)
    | BoolValue(b: bool)
    | IntValue(i: int)
    | UintValue(u: nat)
    | DoubleValue(d: Double)
    | StringValue(s: string)
    | BytesValue(bytes: seq<bv8>)
    | EnumValue(number: int, enumType: Type)
    | DurationValue(durationNanos: int)
    | TimestampValue(timestampNanos: int)
    | ListValue(listType: Type, elements: seq<Value>, listImpl: Impl)
    | MapValue(mapType: Type, entries: seq<Entry>, mapImpl: Impl)
    | StructValue(structType: Type, structImpl: Impl)
    | UnknownValue(attributes: set<Attribute>, functionResults: set<FunctionResult>)
    | OpaqueValue(opaqueType: Type, isMutableList: bool)

  /** A map entry (MapValue::Entry). */
  datatype Entry = Entry(key: Value, value: Value)

  /** Value::kind(). */
  function KindOfValue(v: Value): Kind
  {
    match v
    case NullValue => NullTypeKind
    case ErrorValue(_) => ErrorKind
    case TypeValue(_) => TypeKind
    case BoolValue(_) => BoolKind
    case IntValue(_) => IntKind
    case UintValue(_) => UintKind
    case DoubleValue(_) => DoubleKind
    case StringValue(_) => StringKind
    case BytesValue(_) => BytesKind
    case EnumValue(_, _) => EnumKind
    case DurationValue(_) => DurationKind
    case TimestampValue(_) => TimestampKind
    case ListValue(_, _, _) => ListKind
    case MapValue(_, _, _) => MapKind
    case StructValue(_, _) => StructKind
    case UnknownValue(_, _) => UnknownKind
    case OpaqueValue(_, _) => OpaqueKind
  }

  /** The kinds a value can have: every kind except the type-only ones. */
  predicate IsValueKind(k: Kind)
  {
    k != DynKind && k != AnyKind && k != WrapperKind
  }

  /**
   * A value whose recorded type agrees with its kind: composite, enum,
   * struct and opaque values carry a type of the matching shape.
   */
  predicate WellTyped(v: Value)
  {
    match v
    case EnumValue(_, t) => t.EnumType?
    case ListValue(t, _, _) => t.ListType?
    case MapValue(t, _, _) => t.MapType?
    case StructValue(t, _) => t.StructType?
    case OpaqueValue(t, _) => t.OpaqueType?
    case _ => true
  }

  /**
   * Value::type(): each kind reports its own type; enum, list, map, struct and
   * opaque values report the type they were created with.
   */
  function TypeOf(v: Value): (t: Type)
    ensures WellTyped(v) ==> KindOf(t) == KindOfValue(v)
    ensures IsValueKind(KindOfValue(v))
  {
    match v
    case NullValue => NullType
    case ErrorValue(_) => ErrorType
    case TypeValue(_) => TypeType
    case BoolValue(_) => BoolType
    case IntValue(_) => IntType
    case UintValue(_) => UintType
    case DoubleValue(_) => DoubleType
    case StringValue(_) => StringType
    case BytesValue(_) => BytesType
    case EnumValue(_, t) => t
    case DurationValue(_) => DurationType
    case TimestampValue(_) => TimestampType
    case ListValue(t, _, _) => t
    case MapValue(t, _, _) => t
    case StructValue(t, _) => t
    case UnknownValue(_, _) => UnknownType
    case OpaqueValue(t, _) => t
  }

  /**
   * Metadata::IsStoredInline for the kinds whose equality depends on it:
   * legacy list, map and struct values live inline in the handle.
   */
  predicate IsStoredInline(v: Value)
    requires v.ListValue? || v.MapValue? || v.StructValue?
  {
    match v
    case ListValue(_, _, impl) => impl.Legacy?
    case MapValue(_, _, impl) => impl.Legacy?
    case StructValue(_, impl) => impl.Legacy?
  }

  /** The implementation a list, map or struct value wraps. */
  function ImplOf(v: Value): Impl
    requires v.ListValue? || v.MapValue? || v.StructValue?
  {
    match v
    case ListValue(_, _, impl) => impl
    case MapValue(_, _, impl) => impl
    case StructValue(_, impl) => impl
  }

  /** Comparison of two composite values by storage: inline by impl, heap by address. */
  predicate ImplEquals(a: Impl, b: Impl, sameAddress: bool)
  {
    if a.Legacy? != b.Legacy? then false
    else if a.Legacy? then a.ptr == b.ptr
    else sameAddress
  }

  /**
   * ValueHandle::Equals(lhs, rhs, kind): the per-kind equality, for two
   * values already known to share a kind. `sameAddress` is `&lhs == &rhs`.
   */
  function KindEquals(lhs: Value, rhs: Value, sameAddress: bool): (r: bool)
    requires KindOfValue(lhs) == KindOfValue(rhs)
    ensures lhs.NullValue? ==> r
    ensures lhs.UnknownValue? ==>
              (r <==> lhs.attributes == rhs.attributes && lhs.functionResults == rhs.functionResults)
    ensures lhs.OpaqueValue? ==> (r <==> sameAddress)
    ensures ((lhs.ListValue? || lhs.MapValue? || lhs.StructValue?) &&
             IsStoredInline(lhs) != IsStoredInline(rhs)) ==> !r
    ensures ((lhs.ListValue? || lhs.MapValue? || lhs.StructValue?) &&
             IsStoredInline(lhs) && IsStoredInline(rhs)) ==> (r <==> ImplOf(lhs) == ImplOf(rhs))
    ensures ((lhs.ListValue? || lhs.MapValue? || lhs.StructValue?) &&
             !IsStoredInline(lhs) && !IsStoredInline(rhs)) ==> (r <==> sameAddress)
  {
    match lhs
    case NullValue => true
    case ErrorValue(s) => s == rhs.status
    case TypeValue(t) => t == rhs.typeValue
    case BoolValue(b) => b == rhs.b
    case IntValue(i) => i == rhs.i
    case UintValue(u) => u == rhs.u
    case DoubleValue(d) => DoubleEq(d, rhs.d)
    case StringValue(s) => s == rhs.s
    case BytesValue(bs) => bs == rhs.bytes
    case EnumValue(n, t) => n == rhs.number && t == rhs.enumType
    case DurationValue(d) => d == rhs.durationNanos
    case TimestampValue(t) => t == rhs.timestampNanos
    case ListValue(_, _, impl) => ImplEquals(impl, rhs.listImpl, sameAddress)
    case MapValue(_, _, impl) => ImplEquals(impl, rhs.mapImpl, sameAddress)
    case StructValue(_, impl) => ImplEquals(impl, rhs.structImpl, sameAddress)
    case UnknownValue(attrs, fns) => attrs == rhs.attributes && fns == rhs.functionResults
    case OpaqueValue(_, _) => sameAddress
  }

  /** A double holding NaN, the one scalar that is not equal to itself. */
  predicate IsNaN(v: Value)
  {
    v.DoubleValue? && v.d.NaN?
  }

  /**
   * Two copies of one value, at different addresses, compare equal unless
   * the value is NaN or is identified by its address (an abstract composite
   * or an opaque value).
   */
  lemma {:induction false} KindEqualsCopies(v: Value)
    ensures KindEquals(v, v, false) <==>
            !IsNaN(v) && !v.OpaqueValue? &&
            !((v.ListValue? || v.MapValue? || v.StructValue?) && !IsStoredInline(v))
  {
    match v
    case DoubleValue(d) =>
      assert KindEquals(v, v, false) == DoubleEq(d, d);
    case ListValue(_, _, impl) =>
      assert KindEquals(v, v, false) == ImplEquals(impl, impl, false);
    case MapValue(_, _, impl) =>
      assert KindEquals(v, v, false) == ImplEquals(impl, impl, false);
    case StructValue(_, impl) =>
      assert KindEquals(v, v, false) == ImplEquals(impl, impl, false);
    case _ =>
  }

  /**
   * The kinds compared by their payload: null, error, type, bool, int,
   * uint, string, bytes, enum, duration and timestamp values.
   */
  predicate ComparedByPayload(v: Value)
  {
    !(v.DoubleValue? || v.ListValue? || v.MapValue? || v.StructValue? || v.UnknownValue? || v.OpaqueValue?)
  }

  /**
   * Values compared by payload are equal exactly when they hold the same
   * payload, wherever they are stored; doubles are equal exactly when they
   * hold the same number that is not NaN.
   */
  lemma KindEqualsPayload(a: Value, b: Value, sameAddress: bool)
    requires KindOfValue(a) == KindOfValue(b)
    ensures ComparedByPayload(a) ==> (KindEquals(a, b, sameAddress) <==> a == b)
    ensures a.DoubleValue? ==> (KindEquals(a, b, sameAddress) <==> a == b && !IsNaN(a))
  {
    match a
    case DoubleValue(d) =>
      assert KindEquals(a, b, sameAddress) == DoubleEq(d, b.d);
    case _ =>
  }

  /** Per-kind equality does not depend on the order of its operands. */
  lemma KindEqualsSymmetric(a: Value, b: Value, sameAddress: bool)
    requires KindOfValue(a) == KindOfValue(b)
    ensures KindEquals(a, b, sameAddress) == KindEquals(b, a, sameAddress)
  {
    match a
    case DoubleValue(d) =>
      assert KindEquals(a, b, sameAddress) == DoubleEq(d, b.d);
    case ListValue(_, _, impl) =>
      assert KindEquals(a, b, sameAddress) == ImplEquals(impl, b.listImpl, sameAddress);
    case MapValue(_, _, impl) =>
      assert KindEquals(a, b, sameAddress) == ImplEquals(impl, b.mapImpl, sameAddress);
    case StructValue(_, impl) =>
      assert KindEquals(a, b, sameAddress) == ImplEquals(impl, b.structImpl, sameAddress);
    case _ =>
  }

  // ---------------------------------------------------------------------
  // Debug rendering (Value::DebugString dispatch)
  // ---------------------------------------------------------------------

  function DigitChar(d: nat): char
    requires d < 10
  {
    "0123456789"[d]
  }

  /** The decimal digits of a natural number, most significant first, no leading zero. */
  function NatToDecimal(n: nat): (s: string)
    ensures |s| >= 1 && AllDigits(s)
    ensures |s| > 1 ==> s[0] != '0'
    decreases n
  {
    if n < 10 then [DigitChar(n)] else NatToDecimal(n / 10) + [DigitChar(n % 10)]
  }

  predicate AllDigits(s: string)
  {
    forall i :: 0 <= i < |s| ==> '0' <= s[i] <= '9'
  }

  /** The number a string of decimal digits denotes. */
  function DecimalValue(s: string): nat
    requires AllDigits(s)
    decreases |s|
  {
    if s == [] then 0
    else DecimalValue(s[..|s| - 1]) * 10 + ((s[|s| - 1] as int) - ('0' as int))
  }

  /** Reading back the digits gives the number. */
  lemma {:induction false} DecimalRoundTrip(n: nat)
    ensures DecimalValue(NatToDecimal(n)) == n
    decreases n
  {
    var s := NatToDecimal(n);
    if n >= 10 {
      DecimalRoundTrip(n / 10);
      assert s[..|s| - 1] == NatToDecimal(n / 10);
    }
  }

  /** IntValue::DebugString: the decimal form, with a leading `-` when negative. */
  function IntDebugString(i: int): (s: string)
    ensures |s| >= 1
  {
    if i < 0 then "-" + NatToDecimal(-i) else NatToDecimal(i)
  }

  /** UintValue::DebugString: the decimal form followed by `u`. */
  function UintDebugString(u: nat): (s: string)
    ensures |s| >= 2 && s[|s| - 1] == 'u'
  {
    NatToDecimal(u) + "u"
  }

  /** Parsing the rendering of an int: a leading `-` negates the digits that follow. */
  function ParseIntDebugString(s: string): Option<int>
  {
    if |s| > 0 && s[0] == '-' then
      if |s| > 1 && AllDigits(s[1..]) then Some(0 - DecimalValue(s[1..]) as int) else None
    else if |s| > 0 && AllDigits(s) then Some(DecimalValue(s)) else None
  }

  /** The rendering of an int determines it. */
  lemma IntDebugStringRoundTrip(i: int)
    ensures ParseIntDebugString(IntDebugString(i)) == Some(i)
  {
    var s := IntDebugString(i);
    if i < 0 {
      var d := NatToDecimal(-i);
      assert s[1..] == d;
      DecimalRoundTrip(-i);
    } else {
      DecimalRoundTrip(i);
    }
  }

  function BoolDebugString(b: bool): string
  {
    if b then "true" else "false"
  }

  /** `xs` joined with `sep` between consecutive items. */
  function Join(xs: seq<string>, sep: string): string
  {
    if xs == [] then ""
    else if |xs| == 1 then xs[0]
    else xs[0] + sep + Join(xs[1..], sep)
  }

  /**
   * Value::DebugString: null, bool, int, uint, the special doubles, list and
   * map values are rendered here; the remaining per-kind formatters (finite
   * doubles, durations, timestamps, quoted strings and bytes, enums, types,
   * structs, errors, unknowns and opaques) are the parameter `leaf`.
   */
  function DebugString(v: Value, leaf: Value -> string): string
    decreases v, 1
  {
    match v
    case NullValue => "null"
    case BoolValue(b) => BoolDebugString(b)
    case IntValue(i) => IntDebugString(i)
    case UintValue(u) => UintDebugString(u)
    case DoubleValue(NaN) => "nan"
    case DoubleValue(PosInf) => "+infinity"
    case DoubleValue(NegInf) => "-infinity"
    case ListValue(_, elems, _) => "[" + Join(ElementStrings(v, 0, leaf), ", ") + "]"
    case MapValue(_, entries, _) => "{" + Join(EntryStrings(v, 0, leaf), ", ") + "}"
    case _ => leaf(v)
  }

  /** `null` renders as itself and a map as its entries in braces, `{}` when it has none. */
  lemma DebugStringDelimiters(v: Value, leaf: Value -> string)
    ensures v.NullValue? ==> DebugString(v, leaf) == "null"
    ensures v.MapValue? ==> var r := DebugString(v, leaf); |r| >= 2 && r[0] == '{' && r[|r| - 1] == '}'
    ensures v.MapValue? && v.entries == [] ==> DebugString(v, leaf) == "{}"
  {
  }

  /** The renderings of the list's elements from index `from` on. */
  function ElementStrings(owner: Value, from: nat, leaf: Value -> string): (r: seq<string>)
    requires owner.ListValue? && from <= |owner.elements|
    ensures |r| == |owner.elements| - from
    decreases owner, 0, |owner.elements| - from
  {
    if from == |owner.elements| then []
    else [DebugString(owner.elements[from], leaf)] + ElementStrings(owner, from + 1, leaf)
  }

  /** The renderings `key: value` of the map's entries from index `from` on. */
  function EntryStrings(owner: Value, from: nat, leaf: Value -> string): (r: seq<string>)
    requires owner.MapValue? && from <= |owner.entries|
    ensures |r| == |owner.entries| - from
    decreases owner, 0, |owner.entries| - from
  {
    if from == |owner.entries| then []
    else
      var e := owner.entries[from];
      [DebugString(e.key, leaf) + ": " + DebugString(e.value, leaf)] + EntryStrings(owner, from + 1, leaf)
  }
}
