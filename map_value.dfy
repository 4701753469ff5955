/**
 * The MapValue contract (cel::MapValue and its legacy and abstract
 * implementations): the kind tests, size and emptiness, lookup by key,
 * key listing, and the entry iterator.
 */
module MapValues {
  import opened Kinds
  import opened Types
  import opened Statuses
  import opened Values

  /** MapValue::Is: a value is a map exactly when its kind is `map`. */
  predicate Is(v: Value)
    ensures Is(v) <==> v.MapValue?
  {
    KindOfValue(v) == MapKind
  }

  /** LegacyMapValue::Is: a map whose implementation is the legacy one. */
  predicate LegacyIs(v: Value)
    ensures LegacyIs(v) ==> v.MapValue? && IsStoredInline(v)
  {
    Is(v) && v.MapValue? && v.mapImpl.Legacy?
  }

  /** AbstractMapValue::Is: a map whose implementation is any other. */
  predicate AbstractIs(v: Value)
    ensures AbstractIs(v) ==> v.MapValue? && !IsStoredInline(v)
  {
    Is(v) && v.MapValue? && !v.mapImpl.Legacy?
  }

  /** The two implementation tests split the map values between them. */
  lemma LegacyAbstractPartition(v: Value)
    ensures Is(v) <==> v.MapValue?
    ensures Is(v) <==> LegacyIs(v) || AbstractIs(v)
    ensures !(LegacyIs(v) && AbstractIs(v))
  {
  }

  /** A legacy map is stored inline, the case handle equality compares by impl. */
  lemma LegacyIsStoredInline(v: Value)
    requires LegacyIs(v)
    ensures IsStoredInline(v)
    ensures KindEquals(v, v, false)
  {
  }

  /** No key occurs in two entries. */
  predicate DistinctKeys(entries: seq<Entry>)
  {
    forall i, j :: 0 <= i < j < |entries| ==> entries[i].key != entries[j].key
  }

  /** The keys of the entries, in entry order. */
  function KeysOf(entries: seq<Entry>): (ks: seq<Value>)
    ensures |ks| == |entries|
    ensures forall i :: 0 <= i < |entries| ==> ks[i] == entries[i].key
  {
    if entries == [] then [] else [entries[0].key] + KeysOf(entries[1..])
  }

  /** The value stored under `key`, if any: the first entry with that key. */
  function Lookup(entries: seq<Entry>, key: Value): (r: Option<Value>)
    ensures r.None? <==> key !in KeysOf(entries)
    ensures r.Some? ==> Entry(key, r.value) in entries
  {
    if entries == [] then None
    else if entries[0].key == key then Some(entries[0].value)
    else Lookup(entries[1..], key)
  }

  /** With distinct keys, a lookup finds exactly the value paired with the key. */
  lemma {:induction false} LookupFindsEntry(entries: seq<Entry>, i: nat)
    requires DistinctKeys(entries) && i < |entries|
    ensures Lookup(entries, entries[i].key) == Some(entries[i].value)
  {
    if i > 0 {
      assert entries[0].key != entries[i].key;
      assert entries[1..][i - 1] == entries[i];
      LookupFindsEntry(entries[1..], i - 1);
    }
  }

  /** MapValue::size(). */
  function Size(m: Value): (n: nat)
    requires m.MapValue?
    ensures DistinctKeys(m.entries) ==> n == |KeySet(m.entries)|
  {
    DistinctKeysCount(m.entries);
    |m.entries|
  }

  /** The set of keys the entries hold. */
  function KeySet(entries: seq<Entry>): (r: set<Value>)
    ensures forall k :: k in r <==> k in KeysOf(entries)
  {
    if entries == [] then {} else {entries[0].key} + KeySet(entries[1..])
  }

  /** With distinct keys there are as many keys as entries. */
  lemma {:induction false} DistinctKeysCount(entries: seq<Entry>)
    ensures DistinctKeys(entries) ==> |KeySet(entries)| == |entries|
  {
    if entries != [] && DistinctKeys(entries) {
      var rest := entries[1..];
      assert DistinctKeys(rest) by {
        forall i, j | 0 <= i < j < |rest| ensures rest[i].key != rest[j].key {
          assert rest[i] == entries[i + 1] && rest[j] == entries[j + 1];
        }
      }
      DistinctKeysCount(rest);
      assert entries[0].key !in KeysOf(rest) by {
        forall j | 0 <= j < |rest| ensures KeysOf(rest)[j] != entries[0].key {
          assert rest[j] == entries[j + 1];
        }
      }
    }
  }

  /** AbstractMapValue::empty(), by default `size() == 0`. */
  predicate Empty(m: Value)
    requires m.MapValue?
    ensures Empty(m) <==> m.entries == []
  {
    Size(m) == 0
  }

  /** An empty map has no key, and a map with no key is empty. */
  lemma EmptyIffNoKeys(m: Value)
    requires m.MapValue?
    ensures Empty(m) <==> forall k: Value :: Lookup(m.entries, k).None?
  {
    if !Empty(m) {
      assert Lookup(m.entries, m.entries[0].key).Some?;
    }
  }

  /**
   * A key may be looked up in a map when its kind is the map's key kind, or
   * the map's keys are dynamically typed.
   */
  predicate KeyCompatible(m: Value, key: Value)
    requires m.MapValue? && m.mapType.MapType?
  {
    m.mapType.key == DynType || KindOf(m.mapType.key) == KindOfValue(key)
  }

  /**
   * MapValue::Get: an error for a key of an incompatible type, an empty
   * optional for an absent key, the stored value for a present one.
   */
  function Get(m: Value, key: Value): (r: StatusOr<Option<Value>>)
    requires m.MapValue? && m.mapType.MapType?
    ensures r.Failure? <==> !KeyCompatible(m, key)
    ensures r.Failure? ==> r.status.code == InvalidArgument
    ensures r.Success? ==> (r.value.None? <==> key !in KeysOf(m.entries))
    ensures r.Success? && r.value.Some? ==> Entry(key, r.value.value) in m.entries
  {
    if !KeyCompatible(m, key) then
      Failure(Status(InvalidArgument, "invalid map key type: " + KindToString(KindOfValue(key))))
    else Success(Lookup(m.entries, key))
  }

  /** MapValue::Has: the same key check as Get, then whether the key is present. */
  function Has(m: Value, key: Value): (r: StatusOr<bool>)
    requires m.MapValue? && m.mapType.MapType?
    ensures r.Failure? <==> !KeyCompatible(m, key)
    ensures r.Failure? ==> r.status.code == InvalidArgument
    ensures r.Success? ==> (r.value <==> key in KeysOf(m.entries))
  {
    if !KeyCompatible(m, key) then
      Failure(Status(InvalidArgument, "invalid map key type: " + KindToString(KindOfValue(key))))
    else Success(key in KeysOf(m.entries))
  }

  /** Has answers true exactly when Get finds a value; both fail on the same keys. */
  lemma HasAgreesWithGet(m: Value, key: Value)
    requires m.MapValue? && m.mapType.MapType?
    ensures Has(m, key).Failure? <==> Get(m, key).Failure?
    ensures Has(m, key).Success? ==> (Has(m, key).value <==> Get(m, key).value.Some?)
  {
  }

  /**
   * The key type of a map value's type. A map value always carries a map
   * type; the `dyn` fallback only makes the function total.
   */
  function KeyType(t: Type): Type
  {
    if t.MapType? then t.key else DynType
  }

  /**
   * MapValue::ListKeys: a list of the map's keys, typed as a list of the
   * map's key type, one element per entry, or the error the map's
   * implementation reports (`failure`: building the list goes through the
   * value factory, whose failures are not part of this model).
   */
  function ListKeys(m: Value, failure: Option<Status>): (r: StatusOr<Value>)
    requires m.MapValue?
    ensures r.Failure? <==> failure.Some?
    ensures r.Failure? ==> r.status == failure.value
    ensures r.Success? ==> r.value.ListValue? && r.value.listType == ListType(KeyType(m.mapType))
    ensures r.Success? ==> |r.value.elements| == Size(m)
    ensures r.Success? ==> forall k :: k in r.value.elements <==> Lookup(m.entries, k).Some?
  {
    if failure.Some? then Failure(failure.value)
    else Success(ListValue(ListType(KeyType(m.mapType)), KeysOf(m.entries), Abstract))
  }

  /** Every key a successful ListKeys lists is one Has reports present, and conversely, for keys of the map's key type. */
  lemma ListKeysAgreesWithHas(m: Value, k: Value)
    requires m.MapValue? && m.mapType.MapType? && KeyCompatible(m, k)
    ensures k in ListKeys(m, None).value.elements <==> Has(m, k) == Success(true)
  {
  }

  /**
   * MapValue::Iterator, the default implementation over a map's entries: a
   * cursor that yields each entry once, then fails with FailedPrecondition.
   */
  class Iterator {
    const entries: seq<Entry>
    var pos: nat

    ghost predicate Valid()
      reads this
    {
      pos <= |entries|
    }

    /** MapValue::NewIterator: a fresh cursor before the first entry. */
    constructor (m: Value)
      requires m.MapValue?
      ensures Valid() && entries == m.entries && pos == 0
    {
      entries := m.entries;
      pos := 0;
    }

    /** Iterator::HasNext. */
    function HasNext(): (r: bool)
      reads this
      ensures Valid() ==> (r <==> entries[pos..] != [])
    {
      pos < |entries|
    }

    /** Iterator::Next: the entry under the cursor, which then advances. */
    method Next() returns (r: StatusOr<Entry>)
      requires Valid()
      modifies this
      ensures Valid()
      ensures old(pos) < |entries| ==> r == Success(entries[old(pos)]) && pos == old(pos) + 1
      ensures old(pos) >= |entries| ==> r.Failure? && r.status.code == FailedPrecondition && pos == old(pos)
    {
      if pos >= |entries| {
        return Failure(Status(FailedPrecondition, "MapValue::Iterator::Next() called when MapValue::Iterator::HasNext() returns false"));
      }
      r := Success(entries[pos]);
      pos := pos + 1;
    }

    /** Iterator::NextKey: Next, keeping the key. */
    method NextKey() returns (r: StatusOr<Value>)
      requires Valid()
      modifies this
      ensures Valid()
      ensures old(pos) < |entries| ==> r == Success(entries[old(pos)].key) && pos == old(pos) + 1
      ensures old(pos) >= |entries| ==> r.Failure? && r.status.code == FailedPrecondition && pos == old(pos)
    {
      var e := Next();
      if e.Failure? {
        return Failure(e.status);
      }
      r := Success(e.value.key);
    }

    /** Iterator::NextValue: Next, keeping the value. */
    method NextValue() returns (r: StatusOr<Value>)
      requires Valid()
      modifies this
      ensures Valid()
      ensures old(pos) < |entries| ==> r == Success(entries[old(pos)].value) && pos == old(pos) + 1
      ensures old(pos) >= |entries| ==> r.Failure? && r.status.code == FailedPrecondition && pos == old(pos)
    {
      var e := Next();
      if e.Failure? {
        return Failure(e.status);
      }
      r := Success(e.value.value);
    }
  }

  /**
   * Draining an iterator with HasNext/NextKey yields exactly the map's keys,
   * and a further NextKey fails with FailedPrecondition.
   */
  method CollectKeys(m: Value) returns (keys: set<Value>, afterEnd: StatusOr<Value>)
    requires m.MapValue?
    ensures keys == set k | k in KeysOf(m.entries)
    ensures afterEnd.Failure? && afterEnd.status.code == FailedPrecondition
  {
    var it := new Iterator(m);
    keys := {};
    while it.HasNext()
      invariant it.Valid() && it.entries == m.entries
      invariant keys == set k | k in KeysOf(m.entries[..it.pos])
      decreases |it.entries| - it.pos
    {
      var k := it.NextKey();
      assert m.entries[..it.pos] == m.entries[..it.pos - 1] + [m.entries[it.pos - 1]];
      KeysOfAppend(m.entries[..it.pos - 1], m.entries[it.pos - 1]);
      keys := keys + {k.value};
    }
    assert m.entries[..it.pos] == m.entries;
    afterEnd := it.NextKey();
  }

  lemma {:induction false} KeysOfAppend(es: seq<Entry>, e: Entry)
    ensures KeysOf(es + [e]) == KeysOf(es) + [e.key]
  {
    assert |KeysOf(es + [e])| == |es| + 1;
  }
}
