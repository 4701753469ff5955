/**
 * CEL types: the type vocabulary of the value model, and the map type's
 * equality, debug rendering and hashing.
 */
module Types {
  import opened Kinds
  import WrapperTypes

  type WrapperVariant = k: Kind | WrapperTypes.IsWrappable(k) witness BoolKind

  datatype Type =
    | NullType
    | ErrorType
    | DynType
    | AnyType
    | BoolType
    | IntType
    | UintType
    | DoubleType
    | StringType
    | BytesType
    | DurationType
    | TimestampType
    | EnumType(enumName: string)
    | StructType(structName: string)
    | ListType(element: Type)
    | MapType(key: Type, value: Type)
    | TypeType
    | UnknownType
    | WrapperType(variant: WrapperVariant)
    | OpaqueType(opaqueName: string)

  function KindOf(t: Type): Kind
  {
    match t
    case NullType => NullTypeKind
    case ErrorType => ErrorKind
    case DynType => DynKind
    case AnyType => AnyKind
    case BoolType => BoolKind
    case IntType => IntKind
    case UintType => UintKind
    case DoubleType => DoubleKind
    case StringType => StringKind
    case BytesType => BytesKind
    case DurationType => DurationKind
    case TimestampType => TimestampKind
    case EnumType(_) => EnumKind
    case StructType(_) => StructKind
    case ListType(_) => ListKind
    case MapType(_, _) => MapKind
    case TypeType => TypeKind
    case UnknownType => UnknownKind
    case WrapperType(_) => WrapperKind
    case OpaqueType(_) => OpaqueKind
  }

  function Name(t: Type): string
  {
    match t
    case NullType => "null_type"
    case ErrorType => "*error*"
    case DynType => "dyn"
    case AnyType => "google.protobuf.Any"
    case BoolType => "bool"
    case IntType => "int"
    case UintType => "uint"
    case DoubleType => "double"
    case StringType => "string"
    case BytesType => "bytes"
    case DurationType => "google.protobuf.Duration"
    case TimestampType => "google.protobuf.Timestamp"
    case EnumType(n) => n
    case StructType(n) => n
    case ListType(_) => "list"
    case MapType(_, _) => "map"
    case TypeType => "type"
    case UnknownType => "*unknown*"
    case WrapperType(k) => WrapperTypes.Name(k)
    case OpaqueType(n) => n
  }

  /** The primitive type a wrapper wraps (WrapperType::wrapped()). */
  function WrappedType(t: Type): (w: Type)
    requires t.WrapperType?
    ensures KindOf(w) == WrapperTypes.Wrapped(t.variant) == t.variant
    ensures WrapperTypes.Name(KindOf(w)) == Name(t)
  {
    match t.variant
    case BoolKind => BoolType
    case BytesKind => BytesType
    case DoubleKind => DoubleType
    case IntKind => IntType
    case StringKind => StringType
    case UintKind => UintType
  }

  /** Type::DebugString, dispatched on the kind of type. */
  function DebugString(t: Type): string
    decreases t, 1
  {
    match t
    case ListType(e) => Name(t) + "(" + DebugString(e) + ")"
    case MapType(_, _) => MapTypeDebugString(t)
    case _ => Name(t)
  }

  /** Where the two parameters sit in `map(<k>, <v>)`. */
  lemma ParameterListLayout(k: string, v: string)
    ensures var r := "map(" + k + ", " + v + ")";
            && |r| == |k| + |v| + 7
            && r[..4] == "map("
            && r[4..4 + |k|] == k
            && r[4 + |k|..6 + |k|] == ", "
            && r[6 + |k|..6 + |k| + |v|] == v
            && r[|r| - 1] == ')'
  {
    var r := "map(" + k + ", " + v + ")";
    assert r == "map(" + (k + (", " + (v + ")")));
  }

  /** MapType::DebugString: `map(<key>, <value>)`. */
  function MapTypeDebugString(t: Type): (r: string)
    requires t.MapType?
    ensures var k := DebugString(t.key);
            var v := DebugString(t.value);
            && |r| == |k| + |v| + 7
            && r[..4] == "map("
            && r[4..4 + |k|] == k
            && r[4 + |k|..6 + |k|] == ", "
            && r[6 + |k|..6 + |k| + |v|] == v
            && r[|r| - 1] == ')'
    decreases t, 0
  {
    var k, v := DebugString(t.key), DebugString(t.value);
    ParameterListLayout(k, v);
    "map(" + k + ", " + v + ")"
  }

  /**
   * Every type renders as its name; list and map types follow the name with
   * their parameters in parentheses.
   */
  lemma DebugStringShape(t: Type)
    ensures |Name(t)| <= |DebugString(t)| && DebugString(t)[..|Name(t)|] == Name(t)
    ensures t.ListType? || t.MapType? ==>
              var r := DebugString(t); |r| > |Name(t)| && r[|Name(t)|] == '(' && r[|r| - 1] == ')'
    ensures !(t.ListType? || t.MapType?) ==> DebugString(t) == Name(t)
  {
    if t.ListType? {
      ParenthesizedShape("list", DebugString(t.element) + ")");
    } else if t.MapType? {
      var r := DebugString(t);
      assert r[..4] == "map(";
      assert r[..3] == r[..4][..3] && r[3] == '(';
    } else {
      var r := DebugString(t);
      assert r[..|r|] == r;
    }
  }

  /** `name(rest` starts with the name and an opening parenthesis. */
  lemma ParenthesizedShape(name: string, rest: string)
    ensures var r := name + "(" + rest; |r| > |name| && r[..|name|] == name && r[|name|] == '('
  {
  }

  /**
   * MapType::Equals: false for a type of another kind, otherwise keys and
   * values compared. Two map types are equal exactly when they are the same type.
   */
  function MapTypeEquals(t: Type, other: Type): (r: bool)
    requires t.MapType?
    ensures r <==> t == other
    ensures KindOf(other) != MapKind ==> !r
  {
    if KindOf(t) != KindOf(other) then false
    else t.key == other.key && t.value == other.value
  }

  /**
   * What a type feeds into an absl::HashState, in order. The base part
   * (Type::HashValue) is the kind and the name; a map type feeds its key and
   * its value first, a list type its element first.
   */
  datatype HashPart = KindPart(kind: Kind) | NamePart(name: string)

  function BaseHashState(t: Type): (s: seq<HashPart>)
  {
    [KindPart(KindOf(t)), NamePart(Name(t))]
  }

  function HashState(t: Type): (s: seq<HashPart>)
    ensures |s| >= 2 && s[|s| - 2] == KindPart(KindOf(t)) && s[|s| - 1] == NamePart(Name(t))
  {
    if t.ListType? then HashState(t.element) + BaseHashState(t)
    else if t.MapType? then HashState(t.key) + HashState(t.value) + BaseHashState(t)
    else BaseHashState(t)
  }

  /** The kind and the name of a type determine it up to its type parameters. */
  lemma BaseDeterminesHead(a: Type, b: Type)
    requires KindOf(a) == KindOf(b) && Name(a) == Name(b)
    ensures a.ListType? <==> b.ListType?
    ensures a.MapType? <==> b.MapType?
    ensures !a.ListType? && !a.MapType? ==> a == b
  {
    if a.WrapperType? {
      WrapperTypes.NameInjective(a.variant, b.variant);
    }
  }

  lemma SplitLast2<T>(x: seq<T>, p: seq<T>, y: seq<T>, q: seq<T>)
    requires |p| == 2 && |q| == 2 && x + p == y + q
    ensures x == y && p == q
  {
    assert |x| == |y|;
    assert x == (x + p)[..|x|] == (y + q)[..|y|] == y;
    assert p == (x + p)[|x|..] == (y + q)[|y|..] == q;
  }

  /**
   * No suffix/prefix collisions: the sequence a type feeds into the hash
   * state, read from its end, determines the type and where it starts.
   */
  lemma {:induction false} HashStateSuffixUnique(a: Type, b: Type, x: seq<HashPart>, y: seq<HashPart>)
    requires x + HashState(a) == y + HashState(b)
    ensures a == b && x == y
    decreases a
  {
    LastTwoAgree(x, HashState(a), y, HashState(b));
    BaseDeterminesHead(a, b);
    if a.ListType? {
      ListHashSuffixUnique(a, b, x, y);
    } else if a.MapType? {
      MapHashSuffixUnique(a, b, x, y);
    } else {
      BaseHashSuffixUnique(a, b, x, y);
    }
  }

  /** Two equal concatenations agree on their last two items. */
  lemma LastTwoAgree(x: seq<HashPart>, p: seq<HashPart>, y: seq<HashPart>, q: seq<HashPart>)
    requires |p| >= 2 && |q| >= 2 && x + p == y + q
    ensures p[|p| - 1] == q[|q| - 1] && p[|p| - 2] == q[|q| - 2]
  {
    var w := x + p;
    assert w[|w| - 1] == p[|p| - 1] && w[|w| - 2] == p[|p| - 2];
    assert w[|w| - 1] == q[|q| - 1] && w[|w| - 2] == q[|q| - 2];
  }

  /** A type without parameters feeds only its kind and name. */
  lemma BaseHashSuffixUnique(a: Type, b: Type, x: seq<HashPart>, y: seq<HashPart>)
    requires !a.ListType? && !a.MapType? && a == b
    requires x + HashState(a) == y + HashState(b)
    ensures x == y
  {
    assert HashState(a) == BaseHashState(a);
    SplitLast2(x, HashState(a), y, HashState(b));
  }

  lemma {:induction false} ListHashSuffixUnique(a: Type, b: Type, x: seq<HashPart>, y: seq<HashPart>)
    requires a.ListType? && b.ListType?
    requires x + HashState(a) == y + HashState(b)
    ensures a == b && x == y
    decreases a, 0
  {
    var hea, heb := HashState(a.element), HashState(b.element);
    var ba, bb := BaseHashState(a), BaseHashState(b);
    assert (x + hea) + ba == y + HashState(b) by {
      assert HashState(a) == hea + ba;
      ConcatAssoc3(x, hea, ba);
    }
    assert (x + hea) + ba == (y + heb) + bb by {
      assert HashState(b) == heb + bb;
      ConcatAssoc3(y, heb, bb);
    }
    SplitLast2(x + hea, ba, y + heb, bb);
    HashStateSuffixUnique(a.element, b.element, x, y);
  }

  lemma {:induction false} MapHashSuffixUnique(a: Type, b: Type, x: seq<HashPart>, y: seq<HashPart>)
    requires a.MapType? && b.MapType?
    requires x + HashState(a) == y + HashState(b)
    ensures a == b && x == y
    decreases a, 0
  {
    var hka, hva, hkb, hvb := HashState(a.key), HashState(a.value), HashState(b.key), HashState(b.value);
    var ba, bb := BaseHashState(a), BaseHashState(b);
    var xa, ya := x + hka, y + hkb;
    assert (xa + hva) + ba == y + HashState(b) by {
      assert HashState(a) == hka + hva + ba;
      ConcatAssoc(x, hka, hva, ba);
    }
    assert (xa + hva) + ba == (ya + hvb) + bb by {
      assert HashState(b) == hkb + hvb + bb;
      ConcatAssoc(y, hkb, hvb, bb);
    }
    SplitLast2(xa + hva, ba, ya + hvb, bb);
    HashStateSuffixUnique(a.value, b.value, xa, ya);
    HashStateSuffixUnique(a.key, b.key, x, y);
  }

  lemma ConcatAssoc<T>(x: seq<T>, p: seq<T>, q: seq<T>, r: seq<T>)
    ensures x + (p + q + r) == ((x + p) + q) + r
  {
  }

  lemma ConcatAssoc3<T>(x: seq<T>, p: seq<T>, q: seq<T>)
    ensures x + (p + q) == (x + p) + q
  {
  }

  /** MapType::HashValue: map types that feed the same hash state are equal. */
  lemma MapTypeHashInjective(a: Type, b: Type)
    requires a.MapType? && b.MapType?
    requires HashState(a) == HashState(b)
    ensures a.key == b.key && a.value == b.value
  {
    assert [] + HashState(a) == [] + HashState(b);
    HashStateSuffixUnique(a, b, [], []);
  }

  /** `map(string, bool)` and `map(bool, string)` are different types with different hash states. */
  lemma MapTypeOrderMatters()
    ensures !MapTypeEquals(MapType(StringType, BoolType), MapType(BoolType, StringType))
    ensures HashState(MapType(StringType, BoolType)) != HashState(MapType(BoolType, StringType))
  {
    var a, b := MapType(StringType, BoolType), MapType(BoolType, StringType);
    assert HashState(a) == HashState(StringType) + HashState(BoolType) + BaseHashState(a);
    assert HashState(b) == HashState(BoolType) + HashState(StringType) + BaseHashState(b);
    assert HashState(StringType)[0] == KindPart(StringKind);
    assert HashState(BoolType)[0] == KindPart(BoolKind);
    assert HashState(a)[0] != HashState(b)[0];
  }

  /** The rendering of `map(string, bool)`. */
  lemma MapTypeDebugStringExample()
    ensures DebugString(MapType(StringType, BoolType)) == "map(string, bool)"
  {
    assert DebugString(StringType) == "string";
    assert DebugString(BoolType) == "bool";
  }
}
