/** The TensorFlow Status values the IO accessors return, reduced to the
    error codes and messages they actually produce. */
module Errors {

  /** The error codes used by the store and retrieve operations. */
  datatype Code = Ok | InvalidArgument | Internal

  /** A Status: a code and, for errors, a message. */
  datatype Status = Status(code: Code, message: string) {
    predicate IsOk() { code == Ok }
  }

  /** Status::OK() */
  const OkStatus := Status(Ok, "")

  /** Returned when the tensor is not a scalar of dtype DT_VARIANT. */
  const NotScalarVariant := "IO tensor must be a scalar of dtype DT_VARIANT."

  /** Returned when the variant does not hold a wrapper of the expected class. */
  const NotAnIOObject := "Tensor must be an IO object."

  /** Returned when the wrapper found holds a null pointer. */
  const UninitializedVariant := "Read uninitialized IO variant."
}
