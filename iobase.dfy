/** The accessors that move an IO object into and out of a scalar DT_VARIANT
    tensor: IOBase::AsVariantTensor and StoreIOBaseInVariantTensor store,
    IOBase::FromVariantTensor and GetIOBaseFromVariantTensor retrieve. */
module IOBase {
  import opened Errors
  import opened RefCount
  import opened VariantWrapper
  import opened Tensors

  /** What a store does: the status, the reference counts afterwards and the
      tensor's variant element afterwards. */
  datatype Outcome = Outcome(status: Status, heap: Heap, slot: Variant)

  /** What a retrieve does: the status and the value left in `*out_base`. */
  datatype Retrieved = Retrieved(status: Status, out: Pointer)

  /** `tensor->scalar<Variant>()() = Wrapper(...)`: the element now holds `w`,
      and the wrapper it held before, if any, is destroyed, so that object
      loses one reference. No other count changes: the reference `w` owns
      moves into the element. */
  function Overwrite(h: Heap, slot: Variant, w: Wrapper): (r: (Heap, Variant))
    requires SlotValid(h, slot)
    ensures r.1 == Holding(w)
    ensures r.0.Keys == h.Keys
    ensures forall id :: id in h ==> r.0[id].refs == h[id].refs - (if Occupant(slot) == Ptr(id) then 1 else 0)
    ensures forall id :: id in h && Occupant(slot) != Ptr(id) ==> r.0[id] == h[id]
    ensures Occupant(slot).Ptr? ==> (r.0[Occupant(slot).id].alive <==> h[Occupant(slot).id].refs > 1)
    ensures Occupant(slot).Ptr? ==> r.0[Occupant(slot).id].base == h[Occupant(slot).id].base
                                    && r.0[Occupant(slot).id].debug == h[Occupant(slot).id].debug
  {
    (if slot.Holding? then Destroyed(h, slot.wrapper) else h, Holding(w))
  }

  /** IOBase::AsVariantTensor called on the object `self`. The caller's
      reference to `self` is consumed either way: on success it moves into
      the tensor, on failure it is dropped with Unref(). */
  function AsVariantTensorOutcome(h: Heap, t: TensorValue, self: ObjId): (r: Outcome)
    requires Live(h, self) && SlotValid(h, t.slot)
    ensures r.status.IsOk() <==> IsScalarVariant(t)
    ensures !r.status.IsOk() ==> r.status == Status(InvalidArgument, NotScalarVariant) && r.slot == t.slot
    ensures r.status.IsOk() ==> r.slot == Holding(Wrapper(h[self].base, Ptr(self)))
    ensures r.heap.Keys == h.Keys
    ensures !r.status.IsOk() ==> forall id :: id in h ==> r.heap[id].refs == h[id].refs - (if id == self then 1 else 0)
    ensures !r.status.IsOk() ==> (r.heap[self].alive <==> h[self].refs > 1)
    ensures !r.status.IsOk() ==> r.heap[self].base == h[self].base && r.heap[self].debug == h[self].debug
    ensures r.status.IsOk() ==> forall id :: id in h ==> r.heap[id].refs == h[id].refs - (if Occupant(t.slot) == Ptr(id) then 1 else 0)
    ensures r.status.IsOk() && Occupant(t.slot).Ptr? ==> (r.heap[Occupant(t.slot).id].alive <==> h[Occupant(t.slot).id].refs > 1)
    ensures r.status.IsOk() && Occupant(t.slot).Ptr? ==> r.heap[Occupant(t.slot).id].base == h[Occupant(t.slot).id].base
                                                          && r.heap[Occupant(t.slot).id].debug == h[Occupant(t.slot).id].debug
    ensures r.status.IsOk() ==> forall id :: id in h && Occupant(t.slot) != Ptr(id) ==> r.heap[id] == h[id]
    ensures !r.status.IsOk() ==> forall id :: id in h && id != self ==> r.heap[id] == h[id]
  {
    if !IsScalarVariant(t) then
      Outcome(Status(InvalidArgument, NotScalarVariant), Released(h, self), t.slot)
    else
      var (h', slot') := Overwrite(h, t.slot, Wrapper(h[self].base, Ptr(self)));
      Outcome(OkStatus, h', slot')
  }

  /** StoreIOBaseInVariantTensor<base>(p, tensor). On success the reference
      the caller passes moves into the tensor; on failure nothing changes and
      the caller keeps its reference. */
  function StoreOutcome(h: Heap, t: TensorValue, base: ClassName, p: Pointer): (r: Outcome)
    requires p.Ptr? ==> Live(h, p.id)
    requires SlotValid(h, t.slot)
    ensures r.status.IsOk() <==> IsScalarVariant(t)
    ensures !r.status.IsOk() ==> r == Outcome(Status(InvalidArgument, NotScalarVariant), h, t.slot)
    ensures r.status.IsOk() ==> r.slot == Holding(Wrapper(base, p))
    ensures r.heap.Keys == h.Keys
    ensures r.status.IsOk() ==> forall id :: id in h ==> r.heap[id].refs == h[id].refs - (if Occupant(t.slot) == Ptr(id) then 1 else 0)
    ensures r.status.IsOk() && Occupant(t.slot).Ptr? ==> (r.heap[Occupant(t.slot).id].alive <==> h[Occupant(t.slot).id].refs > 1)
    ensures r.status.IsOk() && Occupant(t.slot).Ptr? ==> r.heap[Occupant(t.slot).id].base == h[Occupant(t.slot).id].base
                                                          && r.heap[Occupant(t.slot).id].debug == h[Occupant(t.slot).id].debug
    ensures r.status.IsOk() ==> forall id :: id in h && Occupant(t.slot) != Ptr(id) ==> r.heap[id] == h[id]
  {
    if !IsScalarVariant(t) then
      Outcome(Status(InvalidArgument, NotScalarVariant), h, t.slot)
    else
      var (h', slot') := Overwrite(h, t.slot, Wrapper(base, p));
      Outcome(OkStatus, h', slot')
  }

  /** The tensor is a scalar DT_VARIANT whose element holds an
      IOVariantWrapper<base> pointing at `id`. */
  predicate Stores(t: TensorValue, base: ClassName, id: ObjId) {
    IsScalarVariant(t) && t.slot == Holding(Wrapper(base, Ptr(id)))
  }

  /** IOBase<base>::FromVariantTensor and GetIOBaseFromVariantTensor<base>,
      with `outBase` the value of `*out_base` before the call. The checks run
      in order: the tensor's dtype and shape, then the type held by the
      variant, then the pointer in the wrapper. `*out_base` is written only
      once a wrapper of the right class is found. */
  function FromVariantTensor(t: TensorValue, base: ClassName, outBase: Pointer): (r: Retrieved)
    ensures !IsScalarVariant(t) ==> r == Retrieved(Status(InvalidArgument, NotScalarVariant), outBase)
    ensures IsScalarVariant(t) && GetWrapper(t.slot, base).None? ==> r == Retrieved(Status(InvalidArgument, NotAnIOObject), outBase)
    ensures r.status.code == Internal <==> IsScalarVariant(t) && t.slot == Holding(Wrapper(base, Null))
    ensures r.status.code == Internal ==> r == Retrieved(Status(Internal, UninitializedVariant), Null)
    ensures r.status.IsOk() ==> r.status == OkStatus && r.out.Ptr? && Stores(t, base, r.out.id)
    ensures forall id :: Stores(t, base, id) ==> r == Retrieved(OkStatus, Ptr(id))
  {
    if !IsScalarVariant(t) then
      Retrieved(Status(InvalidArgument, NotScalarVariant), outBase)
    else
      match GetWrapper(t.slot, base)
      case None => Retrieved(Status(InvalidArgument, NotAnIOObject), outBase)
      case Some(w) =>
        if w.Get().Null? then Retrieved(Status(Internal, UninitializedVariant), Null)
        else Retrieved(OkStatus, w.Get())
  }

  /** A successful store followed by a retrieve with the same class gives
      back exactly the stored object, whatever `*out_base` held before. */
  lemma StoreThenRetrieve(h: Heap, t: TensorValue, base: ClassName, id: ObjId, outBase: Pointer)
    requires Live(h, id) && SlotValid(h, t.slot)
    ensures var r := StoreOutcome(h, t, base, Ptr(id));
      r.status.IsOk() ==> FromVariantTensor(t.(slot := r.slot), base, outBase) == Retrieved(OkStatus, Ptr(id))
  {
  }

  /** A retrieve with another class than the one stored reports that the
      tensor is not an IO object, and leaves `*out_base` alone. */
  lemma RetrieveOtherClassFails(h: Heap, t: TensorValue, base: ClassName, other: ClassName, p: Pointer, outBase: Pointer)
    requires p.Ptr? ==> Live(h, p.id)
    requires SlotValid(h, t.slot) && base != other
    ensures var r := StoreOutcome(h, t, base, p);
      r.status.IsOk() ==> FromVariantTensor(t.(slot := r.slot), other, outBase) == Retrieved(Status(InvalidArgument, NotAnIOObject), outBase)
  {
  }

  /** The assignment to the element, in one order that has the same net
      effect as the C++ assignment: the temporary wrapper adopts `p`, the
      variant takes a copy of it (Ref), the old element is destroyed (Unref
      of its object), then the temporary is destroyed (Unref). The order
      inside Variant's own assignment is not modelled, only its net effect. */
  method AssignWrapper(table: ObjectTable, tensor: Tensor, base: ClassName, p: Pointer)
    requires p.Ptr? ==> Live(table.objects, p.id)
    requires SlotValid(table.objects, tensor.slot)
    modifies table, tensor
    ensures (table.objects, tensor.slot) == Overwrite(old(table.objects), old(tensor.slot), Wrapper(base, p))
  {
    ghost var h0 := table.objects;
    var temporary := Wrapper(base, p);
    var copy := CopyWrapper(table, temporary);
    var previous := tensor.slot;
    tensor.slot := Holding(copy);
    if previous.Holding? {
      CopyAroundRelease(h0, temporary, previous.wrapper);
      DestroyWrapper(table, previous.wrapper);
    }
    DestroyWrapper(table, temporary);
    if !previous.Holding? {
      DestroyUndoesCopy(h0, temporary);
    }
  }

  /** IOBase::AsVariantTensor, in place. */
  method AsVariantTensor(table: ObjectTable, self: ObjId, tensor: Tensor) returns (status: Status)
    requires Live(table.objects, self) && SlotValid(table.objects, tensor.slot)
    modifies table, tensor
    ensures var r := AsVariantTensorOutcome(old(table.objects), old(tensor.Value()), self);
      status == r.status && table.objects == r.heap && tensor.slot == r.slot
  {
    if !(tensor.dtype == DtVariant && IsScalar(tensor.shape)) {
      table.Unref(self);
      return Status(InvalidArgument, NotScalarVariant);
    }
    AssignWrapper(table, tensor, table.objects[self].base, Ptr(self));
    status := OkStatus;
  }

  /** StoreIOBaseInVariantTensor, in place. */
  method StoreIOBaseInVariantTensor(table: ObjectTable, base: ClassName, p: Pointer, tensor: Tensor) returns (status: Status)
    requires p.Ptr? ==> Live(table.objects, p.id)
    requires SlotValid(table.objects, tensor.slot)
    modifies table, tensor
    ensures var r := StoreOutcome(old(table.objects), old(tensor.Value()), base, p);
      status == r.status && table.objects == r.heap && tensor.slot == r.slot
  {
    if !(tensor.dtype == DtVariant && IsScalar(tensor.shape)) {
      return Status(InvalidArgument, NotScalarVariant);
    }
    AssignWrapper(table, tensor, base, p);
    status := OkStatus;
  }

  /** The producer pattern of the image source kernels: a fresh scalar
      DT_VARIANT output tensor (its element empty, as allocate_output gives
      it) receives a live object through AsVariantTensor. The store
      succeeds, the tensor's element holds the object's wrapper, and no
      count changes: the producer's reference moved into the tensor. */
  method ProduceIntoOutput(table: ObjectTable, id: ObjId) returns (output: Tensor, status: Status)
    requires Live(table.objects, id)
    modifies table
    ensures fresh(output) && output.dtype == DtVariant && IsScalar(output.shape)
    ensures status == OkStatus
    ensures output.slot == Holding(Wrapper(old(table.objects)[id].base, Ptr(id)))
    ensures table.objects == old(table.objects)
  {
    output := new Tensor(DtVariant, []);
    status := AsVariantTensor(table, id, output);
  }
}
