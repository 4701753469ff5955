/**
 * The map value of the newer value API (cel::MapValue over a shared
 * MapValueInterface): emptiness, ForEach with its early-exit protocol,
 * Find/Get/Has with the key check, swap, and MapValueBuilder.
 */
module CommonMapValues {
  import opened Kinds
  import opened Types
  import opened Statuses
  import opened Values
  import MapValues

  /** The immutable implementation behind a map value: its type and its entries. */
  class MapValueInterface {
    const mapType: Type
    const entries: seq<Entry>

    constructor (t: Type, es: seq<Entry>)
      ensures mapType == t && entries == es
    {
      mapType := t;
      entries := es;
    }

    /** MapValueInterface::Size. */
    function Size(): (n: nat)
      ensures MapValues.DistinctKeys(entries) ==> n == |MapValues.KeySet(entries)|
    {
      MapValues.Size(MapValue(mapType, entries, Abstract))
    }

    /** MapValueInterface::IsEmpty, by default `Size() == 0`. */
    function IsEmpty(): (r: bool)
      ensures r <==> Size() == 0
      ensures r <==> forall k: Value :: MapValues.Lookup(entries, k).None?
    {
      MapValues.EmptyIffNoKeys(MapValue(mapType, entries, Abstract));
      Size() == 0
    }

    /**
     * MapValueInterface::Find: an error or unknown key is handed back as
     * the (not found) result; a key of a kind that cannot key a map is an
     * error; otherwise the stored value and true, or null and false.
     */
    function Find(key: Value): (r: StatusOr<(Value, bool)>)
      ensures (key.ErrorValue? || key.UnknownValue?) ==> r == Success((key, false))
      ensures r.Failure? <==> !(key.ErrorValue? || key.UnknownValue?) && CheckKey(key).Fail?
      ensures r.Success? && r.value.1 ==> Entry(key, r.value.0) in entries
      ensures r.Success? && !(key.ErrorValue? || key.UnknownValue?) ==>
                (r.value.1 <==> key in MapValues.KeysOf(entries))
      ensures r.Success? && !r.value.1 && !(key.ErrorValue? || key.UnknownValue?) ==> r.value.0 == NullValue
    {
      if key.ErrorValue? || key.UnknownValue? then Success((key, false))
      else if CheckKey(key).Fail? then Failure(CheckKey(key).status)
      else match MapValues.Lookup(entries, key)
        case Some(v) => Success((v, true))
        case None => Success((NullValue, false))
    }

    /**
     * MapValueInterface::Get: Find, with an absent key turned into an
     * in-band NotFound error value; error and unknown keys pass through.
     */
    function Get(key: Value): (r: StatusOr<Value>)
      ensures r.Failure? <==> !(key.ErrorValue? || key.UnknownValue?) && CheckKey(key).Fail?
      ensures (key.ErrorValue? || key.UnknownValue?) ==> r == Success(key)
      ensures r.Success? && !(key.ErrorValue? || key.UnknownValue?) ==>
                if key in MapValues.KeysOf(entries) then Entry(key, r.value) in entries
                else r.value.ErrorValue? && r.value.status.code == NotFound
    {
      match Find(key)
      case Failure(st) => Failure(st)
      case Success((v, true)) => Success(v)
      case Success((v, false)) =>
        if v.ErrorValue? || v.UnknownValue? then Success(v)
        else Success(ErrorValue(Status(NotFound, "Key not found in map")))
    }

    /**
     * MapValueInterface::Has: an error or unknown key is the result; other
     * keys are checked and answered with a bool value.
     */
    function Has(key: Value): (r: StatusOr<Value>)
      ensures r.Failure? <==> !(key.ErrorValue? || key.UnknownValue?) && CheckKey(key).Fail?
      ensures (key.ErrorValue? || key.UnknownValue?) ==> r == Success(key)
      ensures r.Success? && !(key.ErrorValue? || key.UnknownValue?) ==>
                r.value == BoolValue(key in MapValues.KeysOf(entries))
    {
      if key.ErrorValue? || key.UnknownValue? then Success(key)
      else if CheckKey(key).Fail? then Failure(CheckKey(key).status)
      else Success(BoolValue(MapValues.Lookup(entries, key).Some?))
    }

    /**
     * MapValueInterface::ForEach: calls `callback` on the entries in order.
     * A callback error ends the walk with that error; a callback `false`
     * ends it with OK; `visited` is the number of callback calls.
     */
    method ForEach(callback: (Value, Value) -> StatusOr<bool>) returns (status: Outcome, visited: nat)
      ensures visited <= |entries|
      ensures forall j :: 0 <= j < visited - 1 ==> callback(entries[j].key, entries[j].value) == Success(true)
      ensures visited == |entries| || (0 < visited && callback(entries[visited - 1].key, entries[visited - 1].value) != Success(true))
      ensures visited > 0 && callback(entries[visited - 1].key, entries[visited - 1].value).Failure? ==>
                status == Fail(callback(entries[visited - 1].key, entries[visited - 1].value).status)
      ensures status.Fail? ==> visited > 0 && callback(entries[visited - 1].key, entries[visited - 1].value).Failure?
    {
      visited := 0;
      while visited < |entries|
        invariant visited <= |entries|
        invariant forall j :: 0 <= j < visited ==> callback(entries[j].key, entries[j].value) == Success(true)
      {
        var result := callback(entries[visited].key, entries[visited].value);
        visited := visited + 1;
        if result.Failure? {
          return Fail(result.status), visited;
        }
        if !result.value {
          return Pass, visited;
        }
      }
      status := Pass;
    }
  }

  /**
   * MapValueInterface::CheckKey: bool, int, uint and string values can key
   * a map; any other kind is an invalid argument.
   */
  function CheckKey(key: Value): (r: Outcome)
    ensures r.Pass? <==> key.BoolValue? || key.IntValue? || key.UintValue? || key.StringValue?
    ensures r.Fail? ==> r.status.code == InvalidArgument
  {
    match key
    case BoolValue(_) => Pass
    case IntValue(_) => Pass
    case UintValue(_) => Pass
    case StringValue(_) => Pass
    case _ => Fail(Status(InvalidArgument, "Invalid map key type: '" + KindToString(KindOfValue(key)) + "'"))
  }

  /** For a valid key, Has answers whether Find found the key. */
  lemma HasAgreesWithFind(m: MapValueInterface, key: Value)
    requires CheckKey(key).Pass?
    ensures m.Find(key).Success? && m.Has(key) == Success(BoolValue(m.Find(key).value.1))
  {
  }

  /** cel::MapValue: a handle sharing a map implementation. */
  class MapValueHandle {
    var iface: MapValueInterface

    constructor (i: MapValueInterface)
      ensures iface == i
    {
      iface := i;
    }

    /** MapValue::swap: the two handles exchange their implementations. */
    method Swap(other: MapValueHandle)
      modifies this, other
      ensures iface == old(other.iface) && other.iface == old(iface)
    {
      iface, other.iface := other.iface, iface;
    }
  }

  /** Swapping twice restores both handles. */
  method SwapTwiceRestores(a: MapValueHandle, b: MapValueHandle)
    requires a != b
    modifies a, b
    ensures a.iface == old(a.iface) && b.iface == old(b.iface)
  {
    a.Swap(b);
    a.Swap(b);
  }

  /**
   * The entries after Put(key, value) into a hash map: the value of an
   * existing key is replaced in place, a new key is added at the end.
   */
  function InsertOrAssign(entries: seq<Entry>, key: Value, value: Value): (r: seq<Entry>)
    ensures |r| == if key in MapValues.KeysOf(entries) then |entries| else |entries| + 1
  {
    if entries == [] then [Entry(key, value)]
    else if entries[0].key == key then [Entry(key, value)] + entries[1..]
    else [entries[0]] + InsertOrAssign(entries[1..], key, value)
  }

  /** After Put, the key maps to the value put and every other key keeps its value. */
  lemma {:induction false} InsertOrAssignLookup(entries: seq<Entry>, key: Value, value: Value, k: Value)
    ensures MapValues.Lookup(InsertOrAssign(entries, key, value), key) == Some(value)
    ensures k != key ==> MapValues.Lookup(InsertOrAssign(entries, key, value), k) == MapValues.Lookup(entries, k)
  {
    var r := InsertOrAssign(entries, key, value);
    if entries != [] && entries[0].key != key {
      InsertOrAssignLookup(entries[1..], key, value, k);
      assert r[1..] == InsertOrAssign(entries[1..], key, value);
    } else if entries != [] {
      assert r[1..] == entries[1..];
    }
  }

  /** Put keeps the keys distinct. */
  lemma {:induction false} InsertOrAssignDistinct(entries: seq<Entry>, key: Value, value: Value)
    requires MapValues.DistinctKeys(entries)
    ensures MapValues.DistinctKeys(InsertOrAssign(entries, key, value))
  {
    var r := InsertOrAssign(entries, key, value);
    if entries != [] && entries[0].key != key {
      var rest := InsertOrAssign(entries[1..], key, value);
      InsertOrAssignDistinct(entries[1..], key, value);
      assert entries[0].key !in MapValues.KeysOf(entries[1..]);
      assert r == [entries[0]] + rest;
      forall j | 0 < j < |r| ensures r[0].key != r[j].key {
        var k := r[j].key;
        assert k == MapValues.KeysOf(rest)[j - 1];
        InsertOrAssignLookup(entries[1..], key, value, k);
        if k != key {
          assert MapValues.Lookup(entries[1..], k).Some?;
        }
      }
    }
  }

  /**
   * MapValueBuilder: a map type and the entries put so far, distinct by key
   * as in the hash map that holds them.
   */
  class MapValueBuilder {
    const mapType: Type
    var entries: seq<Entry>

    ghost predicate Valid()
      reads this
    {
      MapValues.DistinctKeys(entries)
    }

    constructor (t: Type)
      requires t.MapType?
      ensures Valid() && mapType == t && entries == []
    {
      mapType := t;
      entries := [];
    }

    /** MapValueBuilder::Size: the number of entries. */
    function Size(): (n: nat)
      reads this
      ensures Valid() ==> n == |MapValues.KeySet(entries)|
    {
      MapValues.Size(MapValue(mapType, entries, Abstract))
    }

    /** MapValueBuilder::IsEmpty: no entries, the same answer as the interface's `Size() == 0`. */
    function IsEmpty(): (r: bool)
      reads this
      ensures r <==> Size() == 0
    {
      entries == []
    }

    /** MapValueBuilder::Put: insert or overwrite the value for the key. */
    method Put(key: Value, value: Value)
      requires Valid()
      modifies this
      ensures Valid()
      ensures entries == InsertOrAssign(old(entries), key, value)
    {
      InsertOrAssignDistinct(entries, key, value);
      entries := InsertOrAssign(entries, key, value);
    }

    /** MapValueBuilder::Reserve: capacity only; the entries do not change. */
    method Reserve(capacity: nat)
      requires Valid()
      ensures Valid()
    {
    }

    /** MapValueBuilder::Build: a map value holding exactly the entries put. */
    method Build() returns (m: MapValueHandle)
      requires Valid()
      ensures fresh(m) && fresh(m.iface)
      ensures m.iface.mapType == mapType && m.iface.entries == entries
      ensures MapValues.DistinctKeys(m.iface.entries)
    {
      var iface := new MapValueInterface(mapType, entries);
      m := new MapValueHandle(iface);
    }
  }

  /** A map built without any Put is empty and renders as `{}`. */
  method BuildEmpty(t: Type, leaf: Value -> string) returns (m: MapValueHandle)
    requires t.MapType?
    ensures m.iface.IsEmpty()
    ensures Values.DebugString(MapValue(m.iface.mapType, m.iface.entries, Abstract), leaf) == "{}"
  {
    var b := new MapValueBuilder(t);
    b.Reserve(0);
    m := b.Build();
  }

  /** The entries after putting each key of `ks`, in order, with the value `v`. */
  function PutAll(entries: seq<Entry>, ks: seq<Value>, v: Value): seq<Entry>
    decreases |ks|
  {
    if ks == [] then entries else PutAll(InsertOrAssign(entries, ks[0], v), ks[1..], v)
  }

  /** After putting distinct keys, the builder's size counts them. */
  lemma {:induction false} PutDistinctKeysSize(entries: seq<Entry>, ks: seq<Value>, v: Value)
    requires forall i, j :: 0 <= i < j < |ks| ==> ks[i] != ks[j]
    requires forall k :: k in ks ==> k !in MapValues.KeysOf(entries)
    ensures |PutAll(entries, ks, v)| == |entries| + |ks|
    decreases |ks|
  {
    if ks != [] {
      var next := InsertOrAssign(entries, ks[0], v);
      forall k | k in ks[1..] ensures k !in MapValues.KeysOf(next) {
        assert k != ks[0];
        InsertOrAssignLookup(entries, ks[0], v, k);
      }
      PutDistinctKeysSize(next, ks[1..], v);
    }
  }

}
