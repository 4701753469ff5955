/** The closed set of kinds shared by types and values (cel::Kind). */
module Kinds {

  datatype Kind =
    | NullTypeKind
    | ErrorKind
    | DynKind
    | AnyKind
    | TypeKind
    | BoolKind
    | IntKind
    | UintKind
    | DoubleKind
    | StringKind
    | BytesKind
    | EnumKind
    | DurationKind
    | TimestampKind
    | ListKind
    | MapKind
    | StructKind
    | UnknownKind
    | WrapperKind
    | OpaqueKind

  /** The textual name of a kind, used in internal error messages. */
  function KindToString(k: Kind): string
  {
    match k
    case NullTypeKind => "null_type"
    case ErrorKind => "*error*"
    case DynKind => "dyn"
    case AnyKind => "any"
    case TypeKind => "type"
    case BoolKind => "bool"
    case IntKind => "int"
    case UintKind => "uint"
    case DoubleKind => "double"
    case StringKind => "string"
    case BytesKind => "bytes"
    case EnumKind => "enum"
    case DurationKind => "duration"
    case TimestampKind => "timestamp"
    case ListKind => "list"
    case MapKind => "map"
    case StructKind => "struct"
    case UnknownKind => "*unknown*"
    case WrapperKind => "*wrapper*"
    case OpaqueKind => "*opaque*"
  }
}
