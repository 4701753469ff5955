/**
 * Value handles (base_internal::ValueHandle): one pointer-sized slot that
 * holds a value in one of its storage localities, with the copy, move and
 * destroy protocol per locality, the reference counts of heap objects, and
 * handle equality.
 */
module ValueHandles {
  import opened Kinds
  import opened Values

  /** DataLocality for heap data: shared by reference counting or owned by an arena. */
  datatype Locality = ReferenceCounted | ArenaAllocated

  /** The address of a heap object. */
  type ObjId = nat

  /**
   * The handle's `data_`: null, a value stored inline in the handle itself,
   * or a pointer to a heap object.
   */
  datatype Data = NullData | InlineData(value: Value) | HeapData(locality: Locality, obj: ObjId)

  predicate IsComposite(v: Value)
  {
    v.ListValue? || v.MapValue? || v.StructValue?
  }

  /**
   * The kinds ValueHandle::Delete can free: abstract lists, maps and
   * structs, heap strings and bytes, and opaque values.
   */
  predicate IsDeletableKind(k: Kind)
  {
    k == ListKind || k == MapKind || k == StructKind ||
    k == StringKind || k == BytesKind || k == OpaqueKind
  }

  /** What may live inline in a handle: everything but abstract composites and opaques. */
  predicate InlineStorable(v: Value)
  {
    !v.OpaqueValue? && (IsComposite(v) ==> IsStoredInline(v))
  }

  /** What may live on the heap: a deletable kind, and never a legacy composite. */
  predicate HeapStorable(v: Value)
  {
    IsDeletableKind(KindOfValue(v)) && (IsComposite(v) ==> !IsStoredInline(v))
  }

  /**
   * The heap: the live objects and, for the reference-counted ones, their
   * counts. Arena objects have no count; the arena frees them in bulk.
   */
  class Heap {
    var objects: map<ObjId, Value>
    var refs: map<ObjId, nat>

    ghost predicate Valid()
      reads this
    {
      HeapValid(objects, refs)
    }

    constructor ()
      ensures Valid() && objects == map[] && refs == map[]
    {
      objects := map[];
      refs := map[];
    }

    /**
     * ValueMetadata::Unref: release one reference; the release of the last
     * one deletes the object.
     */
    method Unref(o: ObjId)
      requires Valid() && o in refs
      modifies this
      ensures Valid()
      ensures (objects, refs) == AfterUnref(old(objects), old(refs), o)
    {
      if refs[o] == 1 {
        Delete(KindOfValue(objects[o]), o);
      } else {
        refs := refs[o := refs[o] - 1];
      }
    }

    /** ValueHandle::Delete(kind, value): free a heap object of a deletable kind. */
    method Delete(kind: Kind, o: ObjId)
      requires Valid() && o in objects && kind == KindOfValue(objects[o])
      modifies this
      ensures Valid()
      ensures objects == old(objects) - {o} && refs == old(refs) - {o}
    {
      match kind
      case ListKind =>
        objects, refs := objects - {o}, refs - {o};
      case MapKind =>
        objects, refs := objects - {o}, refs - {o};
      case StructKind =>
        objects, refs := objects - {o}, refs - {o};
      case StringKind =>
        objects, refs := objects - {o}, refs - {o};
      case BytesKind =>
        objects, refs := objects - {o}, refs - {o};
      case OpaqueKind =>
        objects, refs := objects - {o}, refs - {o};
    }
  }

  predicate HeapValid(objects: map<ObjId, Value>, refs: map<ObjId, nat>)
  {
    && refs.Keys <= objects.Keys
    && (forall o :: o in objects ==> HeapStorable(objects[o]))
    && (forall o :: o in refs ==> refs[o] >= 1)
  }

  /** The data of a live handle refers only to what the heap holds. */
  predicate DataValid(d: Data, objects: map<ObjId, Value>, refs: map<ObjId, nat>)
  {
    match d
    case NullData => true
    case InlineData(v) => InlineStorable(v)
    case HeapData(ReferenceCounted, o) => o in refs && o in objects
    case HeapData(ArenaAllocated, o) => o in objects && o !in refs
  }

  /** The value a non-null handle designates. */
  function Deref(d: Data, objects: map<ObjId, Value>): Value
    requires !d.NullData? && (d.HeapData? ==> d.obj in objects)
  {
    if d.InlineData? then d.value else objects[d.obj]
  }

  /**
   * `data_.get()` of two handles is the same pointer: both null, the same
   * handle's inline storage, or the same heap object.
   */
  predicate SamePointer(a: Data, b: Data, sameHandle: bool)
  {
    || (a.NullData? && b.NullData?)
    || (sameHandle && a.InlineData?)
    || (a.HeapData? && b.HeapData? && a.obj == b.obj)
  }

  /**
   * ValueHandle::Equals(other): the same pointer is equal; a null handle
   * equals only a null handle; otherwise the kinds must agree and the
   * per-kind equality decides, for two values at different addresses.
   */
  function HandleEquals(a: Data, b: Data, sameHandle: bool, objects: map<ObjId, Value>): (r: bool)
    requires sameHandle ==> a == b
    requires a.HeapData? ==> a.obj in objects
    requires b.HeapData? ==> b.obj in objects
    ensures SamePointer(a, b, sameHandle) ==> r
    ensures a.NullData? != b.NullData? ==> !r
    ensures (!a.NullData? && !b.NullData? &&
             KindOfValue(Deref(a, objects)) != KindOfValue(Deref(b, objects))) ==> !r
    ensures r && !SamePointer(a, b, sameHandle) ==>
            KindEquals(Deref(a, objects), Deref(b, objects), false)
  {
    if SamePointer(a, b, sameHandle) then true
    else if a.NullData? || b.NullData? then false
    else
      var lhs, rhs := Deref(a, objects), Deref(b, objects);
      KindOfValue(lhs) == KindOfValue(rhs) && KindEquals(lhs, rhs, false)
  }

  /** Handle equality does not depend on the order of the handles. */
  lemma HandleEqualsSymmetric(a: Data, b: Data, sameHandle: bool, objects: map<ObjId, Value>)
    requires sameHandle ==> a == b
    requires a.HeapData? ==> a.obj in objects
    requires b.HeapData? ==> b.obj in objects
    ensures HandleEquals(a, b, sameHandle, objects) == HandleEquals(b, a, sameHandle, objects)
  {
    if !SamePointer(a, b, sameHandle) && !a.NullData? && !b.NullData? {
      var lhs, rhs := Deref(a, objects), Deref(b, objects);
      if KindOfValue(lhs) == KindOfValue(rhs) {
        KindEqualsSymmetric(lhs, rhs, false);
      }
    }
  }

  /**
   * A handle and a copy of it (a second handle with the same data) are
   * equal, except for an inline NaN double, the one value not equal to
   * itself once it is at two addresses.
   */
  lemma CopiesEqual(d: Data, objects: map<ObjId, Value>, refs: map<ObjId, nat>)
    requires HeapValid(objects, refs) && DataValid(d, objects, refs)
    ensures HandleEquals(d, d, false, objects) <==> !(d.InlineData? && IsNaN(d.value))
  {
    if d.InlineData? {
      KindEqualsCopies(d.value);
    }
  }

  /** Two distinct handles holding NaN are not equal, although one is a copy of the other. */
  lemma NaNCopiesDiffer()
    ensures !HandleEquals(InlineData(DoubleValue(NaN)), InlineData(DoubleValue(NaN)), false, map[])
  {
  }

  /** Unknown values held inline are equal exactly when both of their sets are. */
  lemma UnknownHandlesEqual(a: Value, b: Value)
    requires a.UnknownValue? && b.UnknownValue?
    ensures HandleEquals(InlineData(a), InlineData(b), false, map[]) <==>
            a.attributes == b.attributes && a.functionResults == b.functionResults
  {
  }

  /**
   * Reference counts after a copy of `d`: one more reference to a counted
   * object, nothing else changes.
   */
  function RefsAfterCopy(refs: map<ObjId, nat>, d: Data): (r: map<ObjId, nat>)
    requires d.HeapData? && d.locality.ReferenceCounted? ==> d.obj in refs
    ensures r.Keys == refs.Keys
    ensures forall o :: o in refs && !(d.HeapData? && d.locality.ReferenceCounted? && o == d.obj) ==> r[o] == refs[o]
    ensures d.HeapData? && d.locality.ReferenceCounted? ==> r[d.obj] == refs[d.obj] + 1
  {
    if d.HeapData? && d.locality.ReferenceCounted? then refs[d.obj := refs[d.obj] + 1] else refs
  }

  /**
   * The heap after releasing one reference to `o`: the object and its count
   * are gone when that was the last reference, otherwise the count drops by one.
   */
  function AfterUnref(objects: map<ObjId, Value>, refs: map<ObjId, nat>, o: ObjId): (r: (map<ObjId, Value>, map<ObjId, nat>))
    requires o in refs && refs[o] >= 1
    ensures refs[o] == 1 <==> o !in r.0 && o !in r.1
    ensures refs[o] > 1 ==> r.0 == objects && r.1 == refs[o := refs[o] - 1]
    ensures r.0 - {o} == objects - {o} && r.1 - {o} == refs - {o}
  {
    if refs[o] == 1 then (objects - {o}, refs - {o}) else (objects, refs[o := refs[o] - 1])
  }

  /** Copying a handle and then destroying the copy leaves the heap as it was. */
  lemma CopyThenUnrefRestores(objects: map<ObjId, Value>, refs: map<ObjId, nat>, d: Data)
    requires HeapValid(objects, refs) && d.HeapData? && d.locality.ReferenceCounted? && d.obj in refs
    ensures AfterUnref(objects, RefsAfterCopy(refs, d), d.obj) == (objects, refs)
  {
    var o := d.obj;
    var after := RefsAfterCopy(refs, d);
    assert after[o] > 1;
    assert after[o := after[o] - 1] == refs;
  }

  /**
   * The heap after ValueHandle::Destruct of a live handle's data: one
   * reference to a counted object is released; null, inline and arena data
   * leave the heap as it was.
   */
  function AfterDestruct(objects: map<ObjId, Value>, refs: map<ObjId, nat>, d: Data): (r: (map<ObjId, Value>, map<ObjId, nat>))
    requires HeapValid(objects, refs) && DataValid(d, objects, refs)
    ensures HeapValid(r.0, r.1)
    ensures d.HeapData? && d.locality.ReferenceCounted? ==> r == AfterUnref(objects, refs, d.obj)
    ensures !(d.HeapData? && d.locality.ReferenceCounted?) ==> r == (objects, refs)
  {
    if d.HeapData? && d.locality.ReferenceCounted? then
      UnrefKeepsValid(objects, refs, d.obj);
      AfterUnref(objects, refs, d.obj)
    else (objects, refs)
  }

  /**
   * Assigning over a handle that shares its counted object with the source
   * (another reference to it is held elsewhere) gives up one reference and
   * takes one back: the heap is as it was.
   */
  lemma AssignSharedObjectKeepsHeap(objects: map<ObjId, Value>, refs: map<ObjId, nat>, d: Data)
    requires HeapValid(objects, refs) && DataValid(d, objects, refs)
    requires d.HeapData? && d.locality.ReferenceCounted? && refs[d.obj] >= 2
    ensures var (o1, r1) := AfterDestruct(objects, refs, d);
      d.obj in r1 && o1 == objects && RefsAfterCopy(r1, d) == refs
  {
    var o := d.obj;
    var r1 := AfterDestruct(objects, refs, d).1;
    assert r1 == refs[o := refs[o] - 1];
    assert r1[o := r1[o] + 1] == refs;
  }

  /**
   * Assigning over the last handle to a counted object deletes the object
   * (ValueMetadata::Unref reaching zero), whatever the new data is.
   */
  lemma AssignOverLastReferenceDeletes(objects: map<ObjId, Value>, refs: map<ObjId, nat>, d: Data)
    requires HeapValid(objects, refs) && DataValid(d, objects, refs)
    requires d.HeapData? && d.locality.ReferenceCounted? && refs[d.obj] == 1
    ensures d.obj !in AfterDestruct(objects, refs, d).0 && d.obj !in AfterDestruct(objects, refs, d).1
    ensures AfterDestruct(objects, refs, d).0 == objects - {d.obj}
  {
    var r := AfterDestruct(objects, refs, d);
    assert r.0 - {d.obj} == objects - {d.obj};
  }

  /** A heap stays valid when a handle is copied. */
  lemma RefsAfterCopyValid(objects: map<ObjId, Value>, refs: map<ObjId, nat>, d: Data)
    requires HeapValid(objects, refs) && DataValid(d, objects, refs)
    ensures HeapValid(objects, RefsAfterCopy(refs, d))
  {
  }

  /** A heap stays valid when the last reference to an object is released. */
  lemma UnrefKeepsValid(objects: map<ObjId, Value>, refs: map<ObjId, nat>, o: ObjId)
    requires HeapValid(objects, refs) && o in refs
    ensures var r := AfterUnref(objects, refs, o); HeapValid(r.0, r.1)
  {
  }

  /** base_internal::ValueHandle: the slot holding one value. */
  class ValueHandle {
    var data: Data

    constructor ()
      ensures data.NullData?
    {
      data := NullData;
    }

    /** ValueHandle::Equals(other), reading the heap through the handles. */
    function Equals(other: ValueHandle, heap: Heap): (r: bool)
      reads this, other, heap
      requires data.HeapData? ==> data.obj in heap.objects
      requires other.data.HeapData? ==> other.data.obj in heap.objects
      ensures this == other ==> r
      ensures data.NullData? != other.data.NullData? ==> !r
    {
      HandleEquals(data, other.data, this == other, heap.objects)
    }

    /**
     * ValueHandle::CopyFrom: an inline value is copied into this handle; a
     * heap pointer is shared, taking one more reference when the object is
     * reference counted and none when it belongs to an arena.
     */
    method CopyFrom(other: ValueHandle, heap: Heap)
      requires this != other
      requires heap.Valid() && DataValid(other.data, heap.objects, heap.refs)
      modifies this, heap
      ensures data == old(other.data) && other.data == old(other.data)
      ensures heap.Valid() && heap.objects == old(heap.objects)
      ensures heap.refs == RefsAfterCopy(old(heap.refs), old(other.data))
    {
      var source := other.data;
      RefsAfterCopyValid(heap.objects, heap.refs, source);
      heap.refs := RefsAfterCopy(heap.refs, source);
      if source.InlineData? {
        data := InlineData(source.value);
      } else {
        data := source;
      }
    }

    /**
     * ValueHandle::MoveFrom: the data moves into this handle, no reference
     * count changes, and the source handle is left null.
     */
    method MoveFrom(other: ValueHandle)
      requires this != other
      modifies this, other
      ensures data == old(other.data)
      ensures other.data.NullData?
    {
      data := other.data;
      other.data := NullData;
    }

    /**
     * ValueHandle::Destruct: nothing to do for null, inline and arena data;
     * a reference-counted object loses one reference. The data field itself
     * is left as it was, to be overwritten.
     */
    method Destruct(heap: Heap)
      requires heap.Valid() && DataValid(data, heap.objects, heap.refs)
      modifies heap
      ensures heap.Valid()
      ensures data.HeapData? && data.locality.ReferenceCounted? ==>
                (heap.objects, heap.refs) == AfterUnref(old(heap.objects), old(heap.refs), data.obj)
      ensures !(data.HeapData? && data.locality.ReferenceCounted?) ==>
                heap.objects == old(heap.objects) && heap.refs == old(heap.refs)
    {
      match data
      case NullData =>
      case InlineData(_) =>
      case HeapData(ReferenceCounted, o) =>
        heap.Unref(o);
      case HeapData(ArenaAllocated, _) =>
    }

    /**
     * ValueHandle::CopyAssign: destroy, then copy. When both handles share a
     * counted object, each holds one of its references, so the object
     * survives the destroy step.
     */
    method CopyAssign(other: ValueHandle, heap: Heap)
      requires this != other
      requires heap.Valid()
      requires DataValid(data, heap.objects, heap.refs) && DataValid(other.data, heap.objects, heap.refs)
      requires (data.HeapData? && other.data.HeapData? && data.obj == other.data.obj &&
                data.locality.ReferenceCounted?) ==> heap.refs[data.obj] >= 2
      modifies this, heap
      ensures data == old(other.data) && other.data == old(other.data)
      ensures heap.Valid() && DataValid(data, heap.objects, heap.refs)
      ensures var (objects, refs) := AfterDestruct(old(heap.objects), old(heap.refs), old(data));
        heap.objects == objects && heap.refs == RefsAfterCopy(refs, old(other.data))
    {
      Destruct(heap);
      CopyFrom(other, heap);
    }

    /** ValueHandle::MoveAssign: destroy, then move; the source ends null. */
    method MoveAssign(other: ValueHandle, heap: Heap)
      requires this != other
      requires heap.Valid() && DataValid(data, heap.objects, heap.refs)
      modifies this, other, heap
      ensures data == old(other.data) && other.data.NullData?
      ensures heap.Valid()
      ensures (heap.objects, heap.refs) == AfterDestruct(old(heap.objects), old(heap.refs), old(data))
    {
      Destruct(heap);
      MoveFrom(other);
    }
  }

  /**
   * After CopyAssign, the destination equals the source unless the value is
   * an inline NaN double.
   */
  method CopyAssignThenEquals(dst: ValueHandle, src: ValueHandle, heap: Heap) returns (equal: bool)
    requires dst != src && heap.Valid()
    requires DataValid(dst.data, heap.objects, heap.refs) && DataValid(src.data, heap.objects, heap.refs)
    requires (dst.data.HeapData? && src.data.HeapData? && dst.data.obj == src.data.obj &&
              dst.data.locality.ReferenceCounted?) ==> heap.refs[dst.data.obj] >= 2
    modifies dst, heap
    ensures equal <==> !(src.data.InlineData? && IsNaN(src.data.value))
  {
    dst.CopyAssign(src, heap);
    CopiesEqual(src.data, heap.objects, heap.refs);
    equal := dst.Equals(src, heap);
  }
}
