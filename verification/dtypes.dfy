/** The element types a statistic may be configured with. Only the distinction
    between integral and non-integral types matters to this model: values are
    exact reals throughout. */
module DTypes {

  datatype DType =
    | Float16 | BFloat16 | Float32 | Float64
    | Int8 | Int16 | Int32 | Int64
    | UInt8 | UInt16 | UInt32 | UInt64
    | Bool | Complex64 | Complex128
  {
    /** True exactly for the signed and unsigned integer types. */
    predicate IsInteger() {
      Int8? || Int16? || Int32? || Int64? || UInt8? || UInt16? || UInt32? || UInt64?
    }
  }
}
