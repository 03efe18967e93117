/** The batch outer product along the event dimensions.

    A sample of shape B + E is read as `batch` = Size(B) rows of `event` =
    Size(E) entries each. Its batch outer product has shape B + E + E: for
    every batch position b and event positions i, j the entry (b, i, j) is
    t[b, i] · t[b, j]. No cross terms are formed between different batch
    positions. The flat entry of (b, i, j) is `Cell(l, b, i, j)`; conversely
    `Left` and `Right` recover the flat positions of (b, i) and (b, j) from a
    flat entry of the product. */
module OuterProduct {
  import opened Shapes
  import opened Tensors

  /** Entry counts of the batch part and the event part of a sample. */
  datatype Layout = Layout(batch: nat, event: nat)

  /** Entries of one sample. */
  function Width(l: Layout): nat
  {
    l.batch * l.event
  }

  /** Entries of the outer product of one sample. */
  function Cells(l: Layout): nat
  {
    Width(l) * l.event
  }

  /** Flat position of (b, i) in a sample. */
  function Entry(l: Layout, b: nat, i: nat): nat
  {
    RowMajor(b, l.event, i)
  }

  /** Flat position of (b, i, j) in the outer product. */
  function Cell(l: Layout, b: nat, i: nat, j: nat): nat
  {
    RowMajor(RowMajor(b, l.event, i), l.event, j)
  }

  /** Flat sample position of the first factor of product entry `k`. */
  function Left(l: Layout, k: nat): nat
    requires l.event > 0
  {
    k / l.event
  }

  /** Flat sample position of the second factor of product entry `k`. */
  function Right(l: Layout, k: nat): nat
    requires l.event > 0
  {
    RowMajor(k / l.event / l.event, l.event, k % l.event)
  }

  // ----- integer layout facts

  lemma MultipleAtLeast(x: int, w: int)
    requires w >= 0
    ensures x >= 1 ==> x * w >= w
  {
    if x >= 1 {
      assert (x - 1) * w >= 0;
    }
  }

  /** A product with a factor in (−1, 1) times w must be zero. */
  lemma SmallMultiple(x: int, w: int)
    requires w > 0 && -w < x * w < w
    ensures x == 0
  {
    MultipleAtLeast(x, w);
    MultipleAtLeast(-x, w);
  }

  lemma DivRowMajor(q: nat, w: nat, r: nat)
    requires r < w
    ensures RowMajor(q, w, r) / w == q && RowMajor(q, w, r) % w == r
  {
    var n := RowMajor(q, w, r);
    var d, m := n / w, n % w;
    assert (d - q) * w == r - m;
    SmallMultiple(d - q, w);
  }

  lemma DivBelow(k: nat, q: nat, w: nat)
    requires w > 0 && k < q * w
    ensures k / w < q
  {
    var d := k / w;
    assert d * w <= k;
    assert (d - q) * w < 0;
    MultipleAtLeast(d - q + 1, w);
  }

  lemma RowMajorBelow(front: nat, size: nat, last: nat, index: nat)
    requires front < size && index < last
    ensures RowMajor(front, last, index) < size * last
  {
    RowMajorBound(front, size, last, index);
  }

  /** Every product entry reads two entries of the sample. */
  lemma CellBounds(l: Layout, k: nat)
    requires k < Cells(l)
    ensures l.event > 0 && Left(l, k) < Width(l) && Right(l, k) < Width(l)
  {
    var e := l.event;
    assert e > 0;
    DivBelow(k, Width(l), e);
    DivBelow(k / e, l.batch, e);
    RowMajorBelow(k / e / e, l.batch, e, k % e);
  }

  /** Product entry (b, i, j) multiplies sample entries (b, i) and (b, j). */
  lemma CellFactors(l: Layout, b: nat, i: nat, j: nat)
    requires b < l.batch && i < l.event && j < l.event
    ensures Entry(l, b, i) < Width(l) && Entry(l, b, j) < Width(l) && Cell(l, b, i, j) < Cells(l)
    ensures Left(l, Cell(l, b, i, j)) == Entry(l, b, i)
    ensures Right(l, Cell(l, b, i, j)) == Entry(l, b, j)
  {
    var e := l.event;
    RowMajorBelow(b, l.batch, e, i);
    RowMajorBelow(b, l.batch, e, j);
    RowMajorBelow(Entry(l, b, i), Width(l), e, j);
    DivRowMajor(Entry(l, b, i), e, j);
    DivRowMajor(b, e, i);
  }

  // ----- the product

  /** The product of two entries, named so that proofs can match products by their factors. */
  function Product(a: real, b: real): real
  {
    a * b
  }

  /** The batch outer product of flat data: entry k is t[Left(k)] · t[Right(k)]. */
  function OuterFlat(l: Layout, t: seq<real>): (r: seq<real>)
    requires |t| == Width(l)
    ensures |r| == Cells(l)
  {
    seq(Cells(l), k requires 0 <= k < Cells(l) =>
      CellBounds(l, k);
      t[Left(l, k)] * t[Right(l, k)])
  }

  /** Flat entry k of the product is t[Left(k)] · t[Right(k)]. */
  lemma OuterFlatAt(l: Layout, t: seq<real>, k: nat)
    requires |t| == Width(l) && k < Cells(l)
    ensures l.event > 0 && Left(l, k) < |t| && Right(l, k) < |t|
    ensures OuterFlat(l, t)[k] == t[Left(l, k)] * t[Right(l, k)]
  {
    CellBounds(l, k);
  }

  /** Entry (b, i, j) of the product is t[b, i] · t[b, j]. */
  lemma OuterEntry(l: Layout, t: seq<real>, b: nat, i: nat, j: nat)
    requires |t| == Width(l) && b < l.batch && i < l.event && j < l.event
    ensures Cell(l, b, i, j) < Cells(l) && Entry(l, b, i) < Width(l) && Entry(l, b, j) < Width(l)
    ensures OuterFlat(l, t)[Cell(l, b, i, j)] == t[Entry(l, b, i)] * t[Entry(l, b, j)]
  {
    CellFactors(l, b, i, j);
  }

  /** `OuterEntry` for positions already computed by the caller. */
  lemma OuterAtPositions(l: Layout, t: seq<real>, b: nat, i: nat, j: nat, p: nat, q: nat, r: nat)
    requires |t| == Width(l) && b < l.batch && i < l.event && j < l.event
    requires p == Entry(l, b, i) && q == Entry(l, b, j) && r == Cell(l, b, i, j)
    ensures r < Cells(l) && p < |t| && q < |t| && OuterFlat(l, t)[r] == Product(t[p], t[q])
  {
    OuterEntry(l, t, b, i, j);
  }

  /** The product is symmetric in its two event index blocks. */
  lemma OuterSymmetric(l: Layout, t: seq<real>, b: nat, i: nat, j: nat)
    requires |t| == Width(l) && b < l.batch && i < l.event && j < l.event
    ensures Cell(l, b, i, j) < Cells(l) && Cell(l, b, j, i) < Cells(l)
    ensures OuterFlat(l, t)[Cell(l, b, i, j)] == OuterFlat(l, t)[Cell(l, b, j, i)]
  {
    OuterEntry(l, t, b, i, j);
    OuterEntry(l, t, b, j, i);
  }

  /** With a single event entry the product is the entrywise square. */
  lemma OuterScalarEvent(l: Layout, t: seq<real>, k: nat)
    requires |t| == Width(l) && l.event == 1 && k < |t|
    ensures Cells(l) == |t| && OuterFlat(l, t)[k] == t[k] * t[k]
  {
    assert Left(l, k) == k;
    assert Right(l, k) == k;
  }

  // ----- on arrays

  /** Batch and event sizes of a shape with `eventNdims` event dimensions. */
  function LayoutOf(shape: seq<nat>, eventNdims: nat): Layout
    requires eventNdims <= |shape|
  {
    Layout(Size(BatchShape(shape, eventNdims)), Size(EventShape(shape, eventNdims)))
  }

  lemma SplitShape(shape: seq<nat>, eventNdims: nat)
    requires eventNdims <= |shape|
    ensures shape == BatchShape(shape, eventNdims) + EventShape(shape, eventNdims)
  {
  }

  /** A sample has Width entries and its outer product has Cells entries. */
  lemma LayoutSizes(shape: seq<nat>, eventNdims: nat)
    requires eventNdims <= |shape|
    ensures Size(shape) == Width(LayoutOf(shape, eventNdims))
    ensures Size(shape + EventShape(shape, eventNdims)) == Cells(LayoutOf(shape, eventNdims))
  {
    var b, e := BatchShape(shape, eventNdims), EventShape(shape, eventNdims);
    SplitShape(shape, eventNdims);
    SizeAppend(b, e);
    SizeAppend(shape, e);
  }

  /** `_batch_outer_product`: the array of shape B + E + E of pairwise products. */
  function BatchOuterProduct(target: Tensor, eventNdims: nat): (r: Tensor)
    requires target.Valid() && eventNdims <= |target.shape|
    ensures r.Valid()
    ensures r.shape == target.shape + EventShape(target.shape, eventNdims)
  {
    LayoutSizes(target.shape, eventNdims);
    Tensor(target.shape + EventShape(target.shape, eventNdims),
           OuterFlat(LayoutOf(target.shape, eventNdims), target.data))
  }

  /** Flat positions of (b, i) in B + E and of (b, i, j) in B + E + E. */
  lemma ProductPositions(bs: seq<nat>, es: seq<nat>, b: seq<nat>, i: seq<nat>, j: seq<nat>)
    requires InBounds(bs, b) && InBounds(es, i) && InBounds(es, j)
    ensures InBounds(bs + es, b + i) && InBounds(bs + es + es, b + i + j)
    ensures Flatten(bs + es, b + i) == Entry(Layout(Size(bs), Size(es)), Flatten(bs, b), Flatten(es, i))
    ensures Flatten(bs + es + es, b + i + j)
         == Cell(Layout(Size(bs), Size(es)), Flatten(bs, b), Flatten(es, i), Flatten(es, j))
  {
    FlattenAppend(bs, es, b, i);
    FlattenAppend(bs + es, es, b + i, j);
  }

  /** Flat positions of (b, i), (b, j) in the sample and of (b, i, j) in its product. */
  lemma BatchPositions(shape: seq<nat>, eventNdims: nat, b: seq<nat>, i: seq<nat>, j: seq<nat>)
    requires eventNdims <= |shape|
    requires InBounds(BatchShape(shape, eventNdims), b)
    requires InBounds(EventShape(shape, eventNdims), i)
    requires InBounds(EventShape(shape, eventNdims), j)
    ensures InBounds(shape, b + i) && InBounds(shape, b + j)
    ensures InBounds(shape + EventShape(shape, eventNdims), b + i + j)
    ensures Flatten(shape, b + i) == Entry(LayoutOf(shape, eventNdims), Flatten(BatchShape(shape, eventNdims), b), Flatten(EventShape(shape, eventNdims), i))
    ensures Flatten(shape, b + j) == Entry(LayoutOf(shape, eventNdims), Flatten(BatchShape(shape, eventNdims), b), Flatten(EventShape(shape, eventNdims), j))
    ensures Flatten(shape + EventShape(shape, eventNdims), b + i + j)
         == Cell(LayoutOf(shape, eventNdims), Flatten(BatchShape(shape, eventNdims), b), Flatten(EventShape(shape, eventNdims), i), Flatten(EventShape(shape, eventNdims), j))
  {
    var bs, es := BatchShape(shape, eventNdims), EventShape(shape, eventNdims);
    SplitShape(shape, eventNdims);
    ProductPositions(bs, es, b, i, j);
    ProductPositions(bs, es, b, j, i);
  }

  /** By multi-index: result[b, i, j] == target[b, i] · target[b, j]. */
  lemma BatchOuterProductAt(target: Tensor, eventNdims: nat, b: seq<nat>, i: seq<nat>, j: seq<nat>)
    requires target.Valid() && eventNdims <= |target.shape|
    requires InBounds(BatchShape(target.shape, eventNdims), b)
    requires InBounds(EventShape(target.shape, eventNdims), i)
    requires InBounds(EventShape(target.shape, eventNdims), j)
    ensures InBounds(target.shape, b + i) && InBounds(target.shape, b + j)
    ensures InBounds(BatchOuterProduct(target, eventNdims).shape, b + i + j)
    // Product(x, y) is x * y, named so that the proof matches products by their factors.
    ensures At(BatchOuterProduct(target, eventNdims), b + i + j) == Product(At(target, b + i), At(target, b + j))
  {
    var shape := target.shape;
    BatchPositions(shape, eventNdims, b, i, j);
    LayoutSizes(shape, eventNdims);
    var o := BatchOuterProduct(target, eventNdims);
    var l := LayoutOf(shape, eventNdims);
    var d := target.data;
    var fb, fi, fj := Flatten(BatchShape(shape, eventNdims), b), Flatten(EventShape(shape, eventNdims), i), Flatten(EventShape(shape, eventNdims), j);
    var p, q, r := Flatten(shape, b + i), Flatten(shape, b + j), Flatten(o.shape, b + i + j);
    OuterAtPositions(l, d, fb, fi, fj, p, q, r);
    assert At(o, b + i + j) == OuterFlat(l, d)[r];
    assert At(target, b + i) == d[p];
    assert At(target, b + j) == d[q];
    assert At(o, b + i + j) == Product(At(target, b + i), At(target, b + j));
  }

  /** `BatchOuterProductAt` stated with the plain product. */
  lemma BatchOuterProductEntry(target: Tensor, eventNdims: nat, b: seq<nat>, i: seq<nat>, j: seq<nat>)
    requires target.Valid() && eventNdims <= |target.shape|
    requires InBounds(BatchShape(target.shape, eventNdims), b)
    requires InBounds(EventShape(target.shape, eventNdims), i)
    requires InBounds(EventShape(target.shape, eventNdims), j)
    ensures InBounds(target.shape, b + i) && InBounds(target.shape, b + j)
    ensures InBounds(BatchOuterProduct(target, eventNdims).shape, b + i + j)
    ensures At(BatchOuterProduct(target, eventNdims), b + i + j) == At(target, b + i) * At(target, b + j)
  {
    BatchOuterProductAt(target, eventNdims, b, i, j);
  }
}
