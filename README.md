# IO objects in DT_VARIANT tensors: the ownership protocol

This project models how tensorflow_io puts a reference-counted IO object (an
`IOBase<BaseClass>`, such as an `ImageSource`) into the one element of a
scalar `DT_VARIANT` tensor and takes it out again, and proves that the
reference counts stay right throughout.

- `RefCount` (refcount.dfy): the `core::RefCounted` part of an IO object.
  Objects live in a `Heap` keyed by an id that stands for their address.
  Each entry has its `BaseClass`, its `DebugString` text, its count and an
  alive flag. `Retained`/`Released` give the effect of `Ref`/`Unref`, and the
  class `ObjectTable` performs them in place.
- `VariantWrapper` (wrapper.dfy): `IOVariantWrapper<BaseClass>` as the
  datatype `Wrapper(base, obj)`. `Wrapper(b, Null)` is the default
  constructor. `Wrapper(b, Ptr(id))` is the constructor from a pointer, which
  adopts the caller's reference without `Ref`. `Get`, `TypeName`,
  `DebugString`, `Encode` and `Decode` are its members. The copy constructor
  and the destructor are the methods `CopyWrapper` and `DestroyWrapper`,
  specified by `Copied` and `Destroyed`. `iobase.cc` repeats the wrapper
  with the same behaviour inside an anonymous namespace; this one datatype
  models the behaviour of both, but not the fact that they are distinct C++
  types (see "## Left out").
- `Tensors` (tensor.dfy): a tensor is its dtype, its shape and its scalar
  variant element. The element is empty, holds a wrapper of some class, or
  holds a value of another C++ type. The class `Tensor` is overwritten in
  place.
- `IOBase` (iobase.dfy): the two stores (`AsVariantTensor`,
  `StoreIOBaseInVariantTensor`) as methods, each proved against a function
  on values (`AsVariantTensorOutcome`, `StoreOutcome`). The two retrieves
  (`IOBase::FromVariantTensor`, `GetIOBaseFromVariantTensor`) run the same
  checks and are modelled by the one function `FromVariantTensor`. The assignment to the element is modelled
  step by step: a temporary wrapper, its copy into the variant, the old
  occupant's destruction, then the temporary's destruction.
- `Ownership` (ownership.dfy): the invariant `Balanced`. Every object's count
  equals the number of live wrappers pointing at it plus the references code
  still owns directly. An object is alive exactly while that is positive,
  and every wrapper points at a live object of its own class. Each operation
  keeps `Balanced`.

Behaviour worth knowing, as the code has it:

- `TypeName` never looks at the held pointer, so it is defined for an empty
  wrapper too.
- `Encode` and `Decode` do not report an error status. `Encode` leaves its
  argument untouched and `Decode` returns false.
- On a tensor that is not a scalar `DT_VARIANT`, `AsVariantTensor` drops the
  caller's reference (so the object may be destroyed), while
  `StoreIOBaseInVariantTensor` leaves it with the caller.

## Model

| member | source | states |
|---|---|---|
| `RefCount.Retained` | tensorflow_io/imagesource/kernels/iobase.h:28 | `Ref` on a live object adds exactly one reference and changes nothing else |
| `RefCount.Released` | tensorflow_io/imagesource/kernels/iobase.h:28 | `Unref` removes exactly one reference; the object is destroyed exactly when that was its last one; nothing else changes |
| `RefCount.ReleaseUndoesRetain` | tensorflow_io/imagesource/kernels/iobase.h:28 | `Unref` after `Ref` restores every object as it was |
| `RefCount.ObjectTable.Ref` | tensorflow_io/imagesource/kernels/iobase_internal.h:40 | the in-place `Ref` leaves the table as `Retained` says |
| `RefCount.ObjectTable.Unref` | tensorflow_io/imagesource/kernels/iobase_internal.h:44 | the in-place `Unref` leaves the table as `Released` says |
| `VariantWrapper.VariantTypeName` | tensorflow_io/imagesource/kernels/iobase_internal.h:114-118 | the type name is "tensorflow_io::" + class + "VariantWrapper", and the class can be read back from it |
| `VariantWrapper.VariantTypeNameInjective` | tensorflow_io/imagesource/kernels/iobase_internal.h:117 | two classes share a type name if and only if they are the same class |
| `VariantWrapper.ImageSourceTypeName` | tensorflow_io/imagesource/kernels/imagesource.cc:25 | the image source's type name is exactly "tensorflow_io::ImageSourceVariantWrapper" |
| `VariantWrapper.Wrapper.TypeName` | tensorflow_io/imagesource/kernels/iobase_internal.h:49 | a wrapper's type name depends on its class only, never on the pointer it holds |
| `VariantWrapper.Wrapper.DebugString` | tensorflow_io/imagesource/kernels/iobase_internal.h:51-57 | exactly "<Uninitialized IOVariantWrapper>" for a null pointer, otherwise the held object's own text |
| `VariantWrapper.Wrapper.Encode` | tensorflow_io/imagesource/kernels/iobase.cc:62-65 | encoding writes nothing into the data |
| `VariantWrapper.Wrapper.Decode` | tensorflow_io/imagesource/kernels/iobase.cc:66-70 | decoding always fails |
| `VariantWrapper.Copied` | tensorflow_io/imagesource/kernels/iobase.cc:42-45 | copying a wrapper raises the held object's count by exactly one, keeping its class and DebugString text; no other object changes; a null wrapper changes nothing |
| `VariantWrapper.Destroyed` | tensorflow_io/imagesource/kernels/iobase.cc:47-49 | destroying a wrapper lowers the held object's count by exactly one, keeps its class and DebugString text, and destroys it iff that was the last reference; no other object changes; a null wrapper changes nothing |
| `VariantWrapper.DestroyUndoesCopy` | tensorflow_io/imagesource/kernels/iobase_internal.h:38-45 | copying a wrapper then destroying the original leaves every object as it was, alive, with the same DebugString |
| `VariantWrapper.CopyAroundRelease` | tensorflow_io/imagesource/kernels/iobase_internal.h:85 | the temporary wrapper's copy and destruction cancel around the release of the old occupant, even when both point at the same object |
| `VariantWrapper.CopyWrapper` | tensorflow_io/imagesource/kernels/iobase_internal.h:38-41 | the copy constructor yields the same wrapper and updates counts as `Copied` says |
| `VariantWrapper.DestroyWrapper` | tensorflow_io/imagesource/kernels/iobase_internal.h:43-45 | the destructor updates counts as `Destroyed` says |
| `Tensors.GetWrapper` | tensorflow_io/imagesource/kernels/iobase_internal.h:101 | `variant.get<Wrapper>()` yields the wrapper iff the variant holds a wrapper of exactly that class |
| `IOBase.Overwrite` | tensorflow_io/imagesource/kernels/iobase.cc:108 | assigning a wrapper to the element leaves it there; the previous occupant's object loses exactly one reference, keeps its class and text, and is destroyed iff that was its last; no other object changes |
| `IOBase.AsVariantTensorOutcome` | tensorflow_io/imagesource/kernels/iobase_internal.h:76-87 | OK iff the tensor is a scalar DT_VARIANT. On failure: InvalidArgument, element untouched, and `this` loses one reference (destroyed iff it was its last) while keeping its class and text; no other object changes. On success: the element holds a wrapper of `this`; only the previous occupant loses a reference, keeping its class and text, destroyed iff it was its last |
| `IOBase.StoreOutcome` | tensorflow_io/imagesource/kernels/iobase.cc:100-110 | OK iff the tensor is a scalar DT_VARIANT. On failure: InvalidArgument and nothing at all changes. On success: the element holds a wrapper of the given pointer; only the previous occupant loses a reference, keeping its class and text, destroyed iff it was its last |
| `IOBase.FromVariantTensor` | tensorflow_io/imagesource/kernels/iobase_internal.h:90-110 | the checks come in order: dtype and shape (InvalidArgument), then wrapper class (InvalidArgument "Tensor must be an IO object.", `*out_base` untouched), then null pointer (Internal, `*out_base` null). OK iff the tensor stores a non-null wrapper of the class, and then `*out_base` is that pointer |
| `IOBase.StoreThenRetrieve` | tensorflow_io/imagesource/kernels/iobase.cc:78-109 | a successful store of an object followed by a retrieve with the same class gives OK and exactly that object |
| `IOBase.RetrieveOtherClassFails` | tensorflow_io/imagesource/kernels/iobase.cc:88-91 | after a successful store, a retrieve with another class gives InvalidArgument "Tensor must be an IO object." and leaves `*out_base` alone |
| `IOBase.AssignWrapper` | tensorflow_io/imagesource/kernels/iobase_internal.h:85 | the step-by-step assignment (temporary, copy into the variant, old occupant destroyed, temporary destroyed) has exactly the effect `Overwrite` describes |
| `IOBase.AsVariantTensor` | tensorflow_io/imagesource/kernels/iobase_internal.h:79-86 | the in-place store leaves status, counts and tensor as `AsVariantTensorOutcome` says |
| `IOBase.StoreIOBaseInVariantTensor` | tensorflow_io/imagesource/kernels/iobase.cc:103-109 | the in-place store leaves status, counts and tensor as `StoreOutcome` says |
| `IOBase.ProduceIntoOutput` | tensorflow_io/imagesource/kernels/webp_imagesource.cc:85-87 | a live object stored into a freshly allocated scalar DT_VARIANT output is stored successfully, the output's element holds its wrapper, and no count changes |
| `Ownership.AdoptKeepsBalance` | tensorflow_io/imagesource/kernels/iobase_internal.h:33-36 | constructing a wrapper from an owned pointer moves that reference into the wrapper; no count changes and the balance holds |
| `Ownership.CopyKeepsBalance` | tensorflow_io/imagesource/kernels/iobase_internal.h:38-41 | copying a live wrapper keeps every count equal to wrappers plus owned references |
| `Ownership.DestroyKeepsBalance` | tensorflow_io/imagesource/kernels/iobase_internal.h:43-45 | destroying any live wrapper keeps every count equal to wrappers plus owned references |
| `Ownership.DestroyLastReference` | tensorflow_io/imagesource/kernels/iobase_internal.h:69 | destroying a wrapper destroys its object iff no other wrapper and no owner still refers to it |
| `Ownership.OverwriteKeepsBalance` | tensorflow_io/imagesource/kernels/iobase.cc:108 | overwriting the element with a wrapper that takes over an owned reference keeps the balance |
| `Ownership.AsVariantTensorKeepsBalance` | tensorflow_io/imagesource/kernels/iobase_internal.h:79-86 | `AsVariantTensor` keeps the balance and consumes the caller's reference on success and on failure alike |
| `Ownership.StoreKeepsBalance` | tensorflow_io/imagesource/kernels/iobase.cc:103-109 | `StoreIOBaseInVariantTensor` keeps the balance; it consumes the caller's reference only on success |
| `Ownership.RetrievedObjectIsLive` | tensorflow_io/imagesource/kernels/iobase_internal.h:100-109 | the pointer a successful retrieve lends out is to a live object of the requested class |
| `Ownership.ProducerHandsOver` | tensorflow_io/imagesource/kernels/webp_imagesource.cc:81-87 | an object created with count 1, owned once by its producer and held by no wrapper, handed to `AsVariantTensor`, ends up held only by the tensor's wrapper, or destroyed if the store failed; the producer owns nothing afterwards and every other owned reference is kept |

## Left out

- Atomicity of `Ref`/`Unref`: counts are updated sequentially; concurrent wrappers are not modelled.
- Deallocation: an object reaching count 0 is marked not alive; memory is not freed and ids are not reused.
- `core::RefCounted`, `Tensor`, `Variant` and `Status` are TensorFlow library code and are modelled as plain data. A tensor has one variant element; the elements of non-scalar tensors are not modelled.
- The wrapper of tensorflow_io/imagesource/kernels/iobase.cc and its two templates sit in an anonymous namespace (lines 27-112), so that `IOVariantWrapper<B>` is a different C++ type from the header's, and `variant.get<Wrapper>()` matches exact types. In C++ a value stored by `StoreIOBaseInVariantTensor` is therefore refused by `IOBase::FromVariantTensor` ("Tensor must be an IO object."), and a value stored by `AsVariantTensor` is refused by `GetIOBaseFromVariantTensor`. The model has one `Wrapper` type, so these cross-pair retrievals succeed in it. `GetIOBaseFromVariantTensor` and `StoreIOBaseInVariantTensor` are also never instantiated. `GetIOBaseFromVariantTensor` is named only inside the disabled `#if 0` block (line 126). Nothing refers to `StoreIOBaseInVariantTensor` at all: that block calls `StoreIOBaseFromVariantTensor` (line 130), a name no file defines.
- `Variant`'s internal storage is not modelled beyond the net effect of its assignment (the copy into it and the destruction of the old value); `AssignWrapper` performs these steps in one order with that net effect.
- The `LOG(ERROR)` output of `Encode` and `Decode` is I/O and is left out.
- `VariantWrapper.Wrapper.Get`: a plain accessor with no contract of its own; `FromVariantTensor` uses it.
- The `reinterpret_cast` of `this` in `AsVariantTensor`: the object is taken to be its `BaseClass` object.
- The `#if 0` block of tensorflow_io/imagesource/kernels/iobase.cc (lines 114-135) is dead code.
- The WebP kernels (file and string loading, libwebp configuration, kernel registration) and `ImageSourceToDebugOp` are glue and are not part of this model. Their producer pattern is stated as the lemma `ProducerHandsOver` and the method `ProduceIntoOutput`. Those kernels ignore the Status that `AsVariantTensor` returns.
- `WebPImageSource::InitFromFile` reads the file into a local `data_` that shadows the member (tensorflow_io/imagesource/kernels/webp_imagesource.cc:48), so the bytes are discarded. This looks unintended; it lies outside the modelled protocol and is only recorded here.
