/**
 * The six protobuf wrapper types (google.protobuf.BoolValue and friends):
 * their canonical names, their alias tables and the kind they wrap.
 * A wrapper type records which primitive it wraps as a `Kind`; only six
 * kinds can occur there, and every dispatch on any other kind is unreachable.
 */
module WrapperTypes {
  import opened Kinds
  import opened Statuses

  /** The kinds a wrapper type can carry. */
  predicate IsWrappable(k: Kind)
  {
    k == BoolKind || k == BytesKind || k == DoubleKind ||
    k == IntKind || k == StringKind || k == UintKind
  }

  /** WrapperType::name(): the canonical protobuf message name of the wrapper. */
  function Name(k: Kind): (name: string)
    requires IsWrappable(k)
    ensures |name| > |"google.protobuf."| && name[..16] == "google.protobuf."
    ensures name[|name| - 5..] == "Value"
  {
    match k
    case BoolKind => "google.protobuf.BoolValue"
    case BytesKind => "google.protobuf.BytesValue"
    case DoubleKind => "google.protobuf.DoubleValue"
    case IntKind => "google.protobuf.Int64Value"
    case StringKind => "google.protobuf.StringValue"
    case UintKind => "google.protobuf.UInt64Value"
  }

  /**
   * WrapperType::aliases(): the narrower protobuf wrappers accepted as the
   * same CEL type. Defined for every kind: the default case is an empty table.
   */
  function Aliases(k: Kind): (aliases: seq<string>)
    ensures |aliases| <= 1
    ensures aliases != [] <==> (k == DoubleKind || k == IntKind || k == UintKind)
    ensures IsWrappable(k) ==> forall a :: a in aliases ==> a != Name(k)
  {
    match k
    case DoubleKind => ["google.protobuf.FloatValue"]
    case IntKind => ["google.protobuf.Int32Value"]
    case UintKind => ["google.protobuf.UInt32Value"]
    case _ => []
  }

  /**
   * WrapperType::wrapped(): the kind of the primitive type the wrapper wraps.
   * The wrapper's own inline variant is that kind.
   */
  function Wrapped(k: Kind): (wrapped: Kind)
    requires IsWrappable(k)
    ensures IsWrappable(wrapped) && Name(wrapped) == Name(k)
  {
    match k
    case BoolKind => BoolKind
    case BytesKind => BytesKind
    case DoubleKind => DoubleKind
    case IntKind => IntKind
    case StringKind => StringKind
    case UintKind => UintKind
  }

  /**
   * Resolution of a protobuf message name to the wrapper it denotes: the
   * inverse of the name and alias tables together.
   */
  function WrapperForName(s: string): (k: Option<Kind>)
    ensures k.Some? ==> IsWrappable(k.value) && (s == Name(k.value) || s in Aliases(k.value))
  {
    if s == "google.protobuf.BoolValue" then Some(BoolKind)
    else if s == "google.protobuf.BytesValue" then Some(BytesKind)
    else if s == "google.protobuf.DoubleValue" || s == "google.protobuf.FloatValue" then Some(DoubleKind)
    else if s == "google.protobuf.Int64Value" || s == "google.protobuf.Int32Value" then Some(IntKind)
    else if s == "google.protobuf.StringValue" then Some(StringKind)
    else if s == "google.protobuf.UInt64Value" || s == "google.protobuf.UInt32Value" then Some(UintKind)
    else None
  }

  /**
   * The name and alias tables never overlap: every name or alias of a
   * wrapper resolves back to that wrapper and to no other.
   */
  lemma NamesAndAliasesResolve(k: Kind)
    requires IsWrappable(k)
    ensures WrapperForName(Name(k)) == Some(k)
    ensures forall a :: a in Aliases(k) ==> WrapperForName(a) == Some(k)
  {
  }

  /** Distinct wrappers have distinct canonical names. */
  lemma NameInjective(k1: Kind, k2: Kind)
    requires IsWrappable(k1) && IsWrappable(k2)
    requires Name(k1) == Name(k2)
    ensures k1 == k2
  {
    NamesAndAliasesResolve(k1);
    NamesAndAliasesResolve(k2);
  }
}
