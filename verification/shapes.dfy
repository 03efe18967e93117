/** Shapes of dense arrays and their row-major layout.

    An array of shape `s` is stored as a flat sequence of `Size(s)` entries; the
    multi-index `idx` lives at position `Flatten(s, idx)`. A sample of rank r
    with `e` event dimensions has shape `BatchShape(s, e) + EventShape(s, e)`. */
module Shapes {

  /** Number of entries of an array of shape `shape`. */
  function Size(shape: seq<nat>): nat
  {
    if |shape| == 0 then 1 else Size(shape[..|shape| - 1]) * shape[|shape| - 1]
  }

  /** `index` is a valid multi-index into an array of shape `shape`. */
  predicate InBounds(shape: seq<nat>, index: seq<nat>)
  {
    |index| == |shape| && forall a :: 0 <= a < |shape| ==> index[a] < shape[a]
  }

  /** Row-major bound: position `front` of `size` rows, `index` of `last` columns. */
  lemma RowMajorBound(front: nat, size: nat, last: nat, index: nat)
    requires front < size && index < last
    ensures front * last + index < size * last
  {
    assert (front + 1) * last <= size * last;
  }

  /** Position of entry `column` of row `row` in rows of `width` entries. */
  function RowMajor(row: nat, width: nat, column: nat): nat
  {
    row * width + column
  }

  /** Row-major position of a multi-index: the last axis varies fastest. */
  function Flatten(shape: seq<nat>, index: seq<nat>): (r: nat)
    requires InBounds(shape, index)
    ensures r < Size(shape)
  {
    if |shape| == 0 then 0
    else
      var front := Flatten(shape[..|shape| - 1], index[..|index| - 1]);
      var last := shape[|shape| - 1];
      RowMajorBound(front, Size(shape[..|shape| - 1]), last, index[|index| - 1]);
      RowMajor(front, last, index[|index| - 1])
  }

  /** The leading axes, over which independent statistics are computed. */
  function BatchShape(shape: seq<nat>, eventNdims: nat): seq<nat>
    requires eventNdims <= |shape|
  {
    shape[..|shape| - eventNdims]
  }

  /** The trailing `eventNdims` axes, over which cross terms are computed. */
  function EventShape(shape: seq<nat>, eventNdims: nat): seq<nat>
    requires eventNdims <= |shape|
  {
    shape[|shape| - eventNdims..]
  }

  /** The entry count of a concatenated shape is the product of the parts'. */
  lemma {:induction false} SizeAppend(a: seq<nat>, b: seq<nat>)
    ensures Size(a + b) == Size(a) * Size(b)
  {
    if |b| == 0 {
      assert a + b == a;
    } else {
      var b' := b[..|b| - 1];
      assert (a + b)[..|a + b| - 1] == a + b';
      SizeAppend(a, b');
      assert Size(a + b) == Size(a) * Size(b') * b[|b| - 1];
    }
  }

  lemma InBoundsAppend(a: seq<nat>, b: seq<nat>, i: seq<nat>, j: seq<nat>)
    requires InBounds(a, i) && InBounds(b, j)
    ensures InBounds(a + b, i + j)
  {
    forall x | 0 <= x < |a + b|
      ensures (i + j)[x] < (a + b)[x]
    {
      if x >= |a| {
        assert (i + j)[x] == j[x - |a|] && (a + b)[x] == b[x - |a|];
      }
    }
  }

  lemma Distribute(f: int, s: int, g: int, l: int, t: int)
    ensures (f * s + g) * l + t == f * (s * l) + (g * l + t)
  {
  }

  lemma DropLastAppend(a: seq<nat>, b: seq<nat>)
    requires |b| > 0
    ensures (a + b)[..|a + b| - 1] == a + b[..|b| - 1]
    ensures (a + b)[|a + b| - 1] == b[|b| - 1]
  {
  }

  /** Rows of `Size(b[..|b| - 1])` entries, each split into rows of the last axis. */
  lemma RowMajorCompose(f: nat, g: nat, t: nat, b: seq<nat>)
    requires |b| > 0
    ensures RowMajor(RowMajor(f, Size(b[..|b| - 1]), g), b[|b| - 1], t)
         == RowMajor(f, Size(b), RowMajor(g, b[|b| - 1], t))
  {
    Distribute(f, Size(b[..|b| - 1]), g, b[|b| - 1], t);
  }

  /** One step of `FlattenAppend`: the layout fact for `b` without its last axis
      extends to `b`. */
  lemma FlattenAppendStep(a: seq<nat>, b: seq<nat>, i: seq<nat>, j: seq<nat>)
    requires InBounds(a, i) && InBounds(b, j) && |b| > 0
    requires InBounds(b[..|b| - 1], j[..|j| - 1])
    requires InBounds(a + b[..|b| - 1], i + j[..|j| - 1])
    requires Flatten(a + b[..|b| - 1], i + j[..|j| - 1])
          == RowMajor(Flatten(a, i), Size(b[..|b| - 1]), Flatten(b[..|b| - 1], j[..|j| - 1]))
    ensures InBounds(a + b, i + j)
    ensures Flatten(a + b, i + j) == RowMajor(Flatten(a, i), Size(b), Flatten(b, j))
  {
    InBoundsAppend(a, b, i, j);
    DropLastAppend(a, b);
    DropLastAppend(i, j);
    RowMajorCompose(Flatten(a, i), Flatten(b[..|b| - 1], j[..|j| - 1]), j[|j| - 1], b);
  }

  /** Row-major layout of a concatenated shape: the leading multi-index picks a
      block of `Size(b)` entries and the trailing one a position inside it. */
  lemma {:induction false} FlattenAppend(a: seq<nat>, b: seq<nat>, i: seq<nat>, j: seq<nat>)
    requires InBounds(a, i) && InBounds(b, j)
    ensures InBounds(a + b, i + j)
    ensures Flatten(a + b, i + j) == RowMajor(Flatten(a, i), Size(b), Flatten(b, j))
  {
    InBoundsAppend(a, b, i, j);
    if |b| == 0 {
      assert a + b == a;
      assert i + j == i;
    } else {
      assert InBounds(b[..|b| - 1], j[..|j| - 1]);
      FlattenAppend(a, b[..|b| - 1], i, j[..|j| - 1]);
      FlattenAppendStep(a, b, i, j);
    }
  }
}
