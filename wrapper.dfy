/** IOVariantWrapper<BaseClass>: the copyable holder that lets an IO object
    live inside a DT_VARIANT tensor. A wrapper owns one reference to the
    object it points at; copying it takes another reference and destroying it
    gives one back. */
module VariantWrapper {
  import opened RefCount

  const TypeNamePrefix := "tensorflow_io::"
  const TypeNameSuffix := "VariantWrapper"

  /** IOBase<base>::VariantTypeName() as IOBASE_BOILERPLATE defines it. The
      class name can be read back from the type name, so distinct classes
      have distinct type names. */
  function VariantTypeName(base: ClassName): (name: string)
    ensures |name| == |TypeNamePrefix| + |base| + |TypeNameSuffix|
    ensures name[..|TypeNamePrefix|] == TypeNamePrefix
    ensures name[|TypeNamePrefix|..|name| - |TypeNameSuffix|] == base
    ensures name[|name| - |TypeNameSuffix|..] == TypeNameSuffix
  {
    var name := TypeNamePrefix + base + TypeNameSuffix;
    assert name[|TypeNamePrefix|..|name| - |TypeNameSuffix|] == base by {
      assert (TypeNamePrefix + base)[|TypeNamePrefix|..] == base;
    }
    name
  }

  /** Two wrapper classes share a type name only if they are the same class. */
  lemma VariantTypeNameInjective(a: ClassName, b: ClassName)
    ensures VariantTypeName(a) == VariantTypeName(b) <==> a == b
  {
  }

  /** The type name IOBASE_BOILERPLATE(ImageSource) gives the image source. */
  function ImageSourceTypeName(): (name: string)
    ensures name == "tensorflow_io::ImageSourceVariantWrapper"
  {
    VariantTypeName("ImageSource")
  }

  /** What DebugString() shows for a wrapper that holds no object. */
  const Uninitialized := "<Uninitialized IOVariantWrapper>"

  /** The serialized form of a variant: a type name and opaque metadata. */
  datatype VariantTensorData = VariantTensorData(typeName: string, metadata: seq<bv8>)

  /** IOVariantWrapper<base>. `Wrapper(base, Null)` is a default-constructed
      wrapper; `Wrapper(base, Ptr(id))` is one constructed from a pointer,
      which adopts the caller's reference to `id` without calling Ref(). */
  datatype Wrapper = Wrapper(base: ClassName, obj: Pointer) {

    /** The wrapper's reference is to an object that still exists. */
    predicate Valid(h: Heap) {
      obj.Ptr? ==> Live(h, obj.id)
    }

    /** get(): the held pointer, lent out without touching ownership. */
    function Get(): Pointer {
      obj
    }

    /** TypeName() comes from the wrapper's class alone, whatever it holds. */
    function TypeName(): (name: string)
      ensures name == VariantTypeName(base)
    {
      VariantTypeName(base)
    }

    /** DebugString(): the held object's own text, or a fixed text when the
        wrapper holds null. */
    function DebugString(h: Heap): (s: string)
      requires Valid(h)
      ensures obj.Null? ==> s == Uninitialized
      ensures obj.Ptr? ==> s == h[obj.id].debug
    {
      match obj
      case Null => Uninitialized
      case Ptr(id) => h[id].debug
    }

    /** Encode(): not implemented; it only logs, so `data` is left as it was. */
    function Encode(data: VariantTensorData): (out: VariantTensorData)
      ensures out == data
    {
      data
    }

    /** Decode(): not implemented; it only logs and always reports failure. */
    function Decode(data: VariantTensorData): (ok: bool)
      ensures !ok
    {
      false
    }
  }

  /** The heap after copy-constructing a wrapper from `w`: the held object,
      if any, gains exactly one reference. */
  function Copied(h: Heap, w: Wrapper): (h': Heap)
    requires w.Valid(h)
    ensures h'.Keys == h.Keys && w.Valid(h')
    ensures forall id :: id in h ==> h'[id].refs == h[id].refs + (if w.obj == Ptr(id) then 1 else 0)
    ensures w.obj.Ptr? ==> h'[w.obj.id].base == h[w.obj.id].base && h'[w.obj.id].debug == h[w.obj.id].debug
    ensures forall id :: id in h && w.obj != Ptr(id) ==> h'[id] == h[id]
  {
    match w.obj
    case Null => h
    case Ptr(id) => Retained(h, id)
  }

  /** The heap after destroying the wrapper `w`: the held object, if any,
      loses exactly one reference and is destroyed if it was the last. */
  function Destroyed(h: Heap, w: Wrapper): (h': Heap)
    requires w.Valid(h)
    ensures h'.Keys == h.Keys
    ensures forall id :: id in h ==> h'[id].refs == h[id].refs - (if w.obj == Ptr(id) then 1 else 0)
    ensures w.obj.Ptr? ==> (h'[w.obj.id].alive <==> h[w.obj.id].refs > 1)
    ensures w.obj.Ptr? ==> h'[w.obj.id].base == h[w.obj.id].base && h'[w.obj.id].debug == h[w.obj.id].debug
    ensures forall id :: id in h && w.obj != Ptr(id) ==> h'[id] == h[id]
  {
    match w.obj
    case Null => h
    case Ptr(id) => Released(h, id)
  }

  /** Copying a wrapper and then destroying the original leaves every object
      as it was: in particular the object stays alive and its DebugString is
      unchanged. */
  lemma DestroyUndoesCopy(h: Heap, w: Wrapper)
    requires w.Valid(h)
    ensures w.Valid(Copied(h, w))
    ensures Destroyed(Copied(h, w), w) == h
    ensures w.Valid(Destroyed(Copied(h, w), w))
    ensures w.DebugString(Destroyed(Copied(h, w), w)) == w.DebugString(h)
  {
  }

  /** Copying `w`, destroying some other wrapper `x`, then destroying `w`
      again has the effect of destroying `x` alone: the copy's Ref() and the
      Unref() that ends it cancel, even when `x` points at the same object. */
  lemma CopyAroundRelease(h: Heap, w: Wrapper, x: Wrapper)
    requires w.Valid(h) && x.Valid(h)
    ensures x.Valid(Copied(h, w))
    ensures w.Valid(Destroyed(Copied(h, w), x))
    ensures Destroyed(Destroyed(Copied(h, w), x), w) == Destroyed(h, x)
  {
    var h3 := Destroyed(Destroyed(Copied(h, w), x), w);
    forall id | id in h
      ensures h3[id] == Destroyed(h, x)[id]
    {
      if w.obj == Ptr(id) && x.obj == Ptr(id) {
        assert h3[id].refs == h[id].refs - 1;
      }
    }
  }

  /** The copy constructor: the copy points at the same object, which is
      Ref()'d when the pointer is not null. */
  method CopyWrapper(table: ObjectTable, other: Wrapper) returns (w: Wrapper)
    requires other.Valid(table.objects)
    modifies table
    ensures w == other
    ensures table.objects == Copied(old(table.objects), other)
  {
    w := Wrapper(other.base, other.obj);
    if w.obj.Ptr? {
      table.Ref(w.obj.id);
    }
  }

  /** The destructor: the object is Unref()'d when the pointer is not null. */
  method DestroyWrapper(table: ObjectTable, w: Wrapper)
    requires w.Valid(table.objects)
    modifies table
    ensures table.objects == Destroyed(old(table.objects), w)
  {
    if w.obj.Ptr? {
      table.Unref(w.obj.id);
    }
  }
}
