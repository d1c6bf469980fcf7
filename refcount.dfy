/** Reference counting of IO objects: the part of core::RefCounted that the
    variant wrapper relies on. An object is named by an id that stands for its
    address; a destroyed object keeps its entry, with `alive` false, so that
    ids are never reused. */
module RefCount {

  type ObjId = nat

  /** The `BaseClass` an IOBase was instantiated for, e.g. "ImageSource". */
  type ClassName = string

  /** A raw `BaseClass*`: null, or the address of an object. */
  datatype Pointer = Null | Ptr(id: ObjId)

  /** One IO object: the IOBase<BaseClass> it derives from, the text its
      DebugString() returns, its reference count, and whether it still exists. */
  datatype Obj = Obj(base: ClassName, debug: string, refs: nat, alive: bool)

  /** All IO objects ever created, by address. */
  type Heap = map<ObjId, Obj>

  /** The object exists and at least one reference to it is held. */
  predicate Live(h: Heap, id: ObjId) {
    id in h && h[id].alive && h[id].refs > 0
  }

  /** The heap after Ref() on `id`: one more reference, nothing else changes. */
  function Retained(h: Heap, id: ObjId): (h': Heap)
    requires Live(h, id)
    ensures h'.Keys == h.Keys && Live(h', id)
    ensures h'[id].refs == h[id].refs + 1
    ensures h'[id].base == h[id].base && h'[id].debug == h[id].debug
    ensures forall o :: o in h && o != id ==> h'[o] == h[o]
  {
    h[id := h[id].(refs := h[id].refs + 1)]
  }

  /** The heap after Unref() on `id`: one reference fewer, and the object is
      destroyed exactly when that was its last reference. */
  function Released(h: Heap, id: ObjId): (h': Heap)
    requires Live(h, id)
    ensures h'.Keys == h.Keys
    ensures h'[id].refs == h[id].refs - 1
    ensures h'[id].alive <==> h[id].refs > 1
    ensures h'[id].base == h[id].base && h'[id].debug == h[id].debug
    ensures forall o :: o in h && o != id ==> h'[o] == h[o]
  {
    var n := h[id].refs - 1;
    h[id := h[id].(refs := n, alive := n > 0)]
  }

  /** Unref() undoes Ref(). */
  lemma ReleaseUndoesRetain(h: Heap, id: ObjId)
    requires Live(h, id)
    ensures Released(Retained(h, id), id) == h
  {
  }

  /** The reference counts of all IO objects, updated in place. */
  class ObjectTable {
    var objects: Heap

    /** core::RefCounted::Ref */
    method Ref(id: ObjId)
      requires Live(objects, id)
      modifies this
      ensures objects == Retained(old(objects), id)
    {
      var o := objects[id];
      objects := objects[id := o.(refs := o.refs + 1)];
    }

    /** core::RefCounted::Unref: the object is deleted when the count reaches 0. */
    method Unref(id: ObjId)
      requires Live(objects, id)
      modifies this
      ensures objects == Released(old(objects), id)
    {
      var o := objects[id];
      var n := o.refs - 1;
      if n == 0 {
        objects := objects[id := o.(refs := 0, alive := false)];
      } else {
        objects := objects[id := o.(refs := n)];
      }
    }
  }
}
