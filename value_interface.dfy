/**
 * The defaults of cel::ValueInterface (common/value_interface.cc): a value
 * implementation that overrides neither serialization nor JSON conversion
 * refuses both with FailedPrecondition; Serialize and ConvertToAny are
 * built from SerializeTo and GetTypeUrl, whichever implementation those
 * dispatch to.
 */
module ValueInterfaces {
  import opened Statuses

  type Cord = seq<bv8>

  /** google.protobuf.Any: a type URL and the serialized message. */
  datatype Any = Any(typeUrl: string, value: Cord)

  /** The JSON value a conversion produces; only its presence matters here. */
  datatype Json = JsonNull | JsonBool(b: bool) | JsonNumber(n: real) | JsonString(s: string)

  /**
   * A value implementation as the defaults see it: its type name and what,
   * if anything, it puts in place of SerializeTo, GetTypeUrl and
   * ConvertToJson (an override's result for each argument).
   */
  datatype ValueImpl = ValueImpl(
    typeName: string,
    serializeTo: Option<StatusOr<Cord>>,
    typeUrl: Option<string -> StatusOr<string>>,
    toJson: Option<StatusOr<Json>>)

  /** The status every serialization default fails with. */
  function Unserializable(typeName: string): (st: Status)
    ensures st.code == FailedPrecondition
    ensures |st.message| == |typeName| + 18
    ensures st.message[..|typeName|] == typeName
    ensures st.message[|typeName|..] == " is unserializable"
  {
    Status(FailedPrecondition, typeName + " is unserializable")
  }

  /** ValueInterface::GetSerializedSize, the default: unserializable. */
  function DefaultGetSerializedSize(v: ValueImpl): (r: StatusOr<nat>)
    ensures r == Failure(Unserializable(v.typeName))
  {
    Failure(Unserializable(v.typeName))
  }

  /** ValueInterface::SerializeTo: the override's result, or unserializable. */
  function SerializeTo(v: ValueImpl): (r: StatusOr<Cord>)
    ensures v.serializeTo.None? ==> r == Failure(Unserializable(v.typeName))
    ensures v.serializeTo.Some? ==> r == v.serializeTo.value
  {
    match v.serializeTo
    case Some(result) => result
    case None => Failure(Unserializable(v.typeName))
  }

  /** ValueInterface::Serialize: SerializeTo into a fresh cord, its error passed on. */
  function Serialize(v: ValueImpl): (r: StatusOr<Cord>)
    ensures r.Failure? <==> SerializeTo(v).Failure?
    ensures r.Failure? ==> r.status == SerializeTo(v).status
    ensures r.Success? ==> r.value == SerializeTo(v).value
  {
    var value :- SerializeTo(v);
    Success(value)
  }

  /** ValueInterface::GetTypeUrl: the override's result, or unserializable. */
  function GetTypeUrl(v: ValueImpl, prefix: string): (r: StatusOr<string>)
    ensures v.typeUrl.None? ==> r == Failure(Unserializable(v.typeName))
    ensures v.typeUrl.Some? ==> r == v.typeUrl.value(prefix)
  {
    match v.typeUrl
    case Some(url) => url(prefix)
    case None => Failure(Unserializable(v.typeName))
  }

  /**
   * ValueInterface::ConvertToAny: Serialize's error first, then
   * GetTypeUrl's; otherwise the Any built from the two results.
   */
  function ConvertToAny(v: ValueImpl, prefix: string): (r: StatusOr<Any>)
    ensures Serialize(v).Failure? ==> r == Failure(Serialize(v).status)
    ensures Serialize(v).Success? && GetTypeUrl(v, prefix).Failure? ==> r == Failure(GetTypeUrl(v, prefix).status)
    ensures r.Success? <==> Serialize(v).Success? && GetTypeUrl(v, prefix).Success?
    ensures r.Success? ==> r.value == Any(GetTypeUrl(v, prefix).value, Serialize(v).value)
  {
    var value :- Serialize(v);
    var typeUrl :- GetTypeUrl(v, prefix);
    Success(Any(typeUrl, value))
  }

  /** ValueInterface::ConvertToJson: the override's result, or not convertible. */
  function ConvertToJson(v: ValueImpl): (r: StatusOr<Json>)
    ensures v.toJson.None? ==> r.Failure? && r.status.code == FailedPrecondition
    ensures v.toJson.None? ==> r.status.message == v.typeName + " is not convertable to JSON"
    ensures v.toJson.Some? ==> r == v.toJson.value
  {
    match v.toJson
    case Some(result) => result
    case None => Failure(Status(FailedPrecondition, v.typeName + " is not convertable to JSON"))
  }

  /**
   * A value that overrides nothing cannot become an Any, and the error is
   * the one Serialize reports, naming the value's type.
   */
  lemma NoOverridesConvertToAny(v: ValueImpl, prefix: string)
    requires v.serializeTo.None? && v.typeUrl.None?
    ensures ConvertToAny(v, prefix) == Failure(Unserializable(v.typeName))
    ensures DefaultGetSerializedSize(v).status == ConvertToAny(v, prefix).status
  {
  }

  /**
   * Overriding serialization alone is not enough for an Any: without a type
   * URL the conversion fails as unserializable, whatever the bytes.
   */
  lemma SerializeWithoutTypeUrl(v: ValueImpl, prefix: string, bytes: Cord)
    requires v.serializeTo == Some(Success(bytes)) && v.typeUrl.None?
    ensures Serialize(v) == Success(bytes)
    ensures ConvertToAny(v, prefix) == Failure(Unserializable(v.typeName))
  {
  }

  /** With both overrides succeeding, ConvertToAny packs exactly their results. */
  lemma ConvertToAnyPacks(v: ValueImpl, prefix: string, bytes: Cord, url: string)
    requires v.serializeTo == Some(Success(bytes))
    requires v.typeUrl.Some? && v.typeUrl.value(prefix) == Success(url)
    ensures ConvertToAny(v, prefix) == Success(Any(url, bytes))
  {
  }

  /** The two default messages differ, so a caller can tell which conversion failed. */
  lemma DefaultMessagesDiffer(v: ValueImpl)
    requires v.toJson.None?
    ensures ConvertToJson(v).status != Unserializable(v.typeName)
  {
    var m := ConvertToJson(v).status.message;
    var n := |v.typeName|;
    assert m[n + 4] == 'n';
    assert Unserializable(v.typeName).message[n + 4] == 'u';
  }
}
