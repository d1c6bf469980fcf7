/** The parts of a TensorFlow Tensor and Variant that the IO accessors look
    at: the dtype, the shape, and the one variant element of a scalar. */
module Tensors {
  import opened RefCount
  import opened VariantWrapper

  datatype Option<T> = None | Some(value: T)

  /** Tensor dtypes; only DT_VARIANT can hold a wrapper. */
  datatype DataType = DtVariant | DtString | DtOther(code: nat)

  /** TensorShapeUtils::IsScalar: a shape with no dimensions. */
  predicate IsScalar(shape: seq<nat>) {
    |shape| == 0
  }

  /** The value in a variant element: nothing, an IO object wrapper (of some
      class), or a value of some other C++ type. */
  datatype Variant = Empty | Holding(wrapper: Wrapper) | Foreign(typeName: string)

  /** variant.get<IOVariantWrapper<base>>(): the wrapper when the variant holds
      exactly that type, and no wrapper otherwise. */
  function GetWrapper(v: Variant, base: ClassName): (r: Option<Wrapper>)
    ensures r.Some? <==> v.Holding? && v.wrapper.base == base
    ensures r.Some? ==> r.value == v.wrapper
  {
    if v.Holding? && v.wrapper.base == base then Some(v.wrapper) else None
  }

  /** The object a variant keeps a reference to through its wrapper, if any. */
  function Occupant(v: Variant): Pointer {
    if v.Holding? then v.wrapper.obj else Null
  }

  /** Every reference the variant holds is to an object that exists. */
  predicate SlotValid(h: Heap, v: Variant) {
    v.Holding? ==> v.wrapper.Valid(h)
  }

  /** A snapshot of a tensor: dtype, shape and its scalar variant element. */
  datatype TensorValue = TensorValue(dtype: DataType, shape: seq<nat>, slot: Variant)

  /** The accessors' one check on a tensor: a scalar of dtype DT_VARIANT. */
  predicate IsScalarVariant(t: TensorValue) {
    t.dtype == DtVariant && IsScalar(t.shape)
  }

  /** A tensor whose variant element is overwritten in place. */
  class Tensor {
    const dtype: DataType
    const shape: seq<nat>
    var slot: Variant

    constructor (dtype: DataType, shape: seq<nat>)
      ensures this.dtype == dtype && this.shape == shape && slot == Empty
    {
      this.dtype := dtype;
      this.shape := shape;
      slot := Empty;
    }

    function Value(): TensorValue
      reads this
    {
      TensorValue(dtype, shape, slot)
    }
  }
}
