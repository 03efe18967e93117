/** Dense arrays of reals: a shape and its row-major data. */
module Tensors {
  import opened Shapes
  import opened Samples

  datatype Tensor = Tensor(shape: seq<nat>, data: seq<real>)
  {
    /** The data holds exactly one entry per multi-index of the shape. */
    predicate Valid()
    {
      |data| == Size(shape)
    }
  }

  /** The array of the given shape filled with zeros. */
  function Zeros(shape: seq<nat>): (t: Tensor)
    ensures t.Valid() && t.shape == shape
  {
    Tensor(shape, ZeroSeq(Size(shape)))
  }

  /** The entry at a multi-index. */
  function At(t: Tensor, index: seq<nat>): real
    requires t.Valid() && InBounds(t.shape, index)
  {
    t.data[Flatten(t.shape, index)]
  }
}
