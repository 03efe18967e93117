/** The chunk term of the update: Σ_t (x_t − m) ⊗ (x_t − m) over a chunk of samples.

    Entry k of this sum only involves the two sample positions Left(k) and
    Right(k), so it is the co-sum of two columns of the chunk about the
    corresponding entries of m; about the chunk's own means it is their
    co-moment. */
module Residuals {
  import opened Moments
  import opened Samples
  import opened OuterProduct

  /** The outer products (x_t − m) ⊗ (x_t − m), one row per sample. */
  function OuterRows(l: Layout, xs: seq<seq<real>>, m: seq<real>): (rows: seq<seq<real>>)
    requires Rectangular(xs, Width(l)) && |m| == Width(l)
    ensures |rows| == |xs| && Rectangular(rows, Cells(l))
  {
    seq(|xs|, t requires 0 <= t < |xs| => OuterFlat(l, Sub(xs[t], m)))
  }

  /** Σ_t (x_t − m) ⊗ (x_t − m): the reduction of the outer products over the chunk. */
  function ResidualSum(l: Layout, xs: seq<seq<real>>, m: seq<real>): (r: seq<real>)
    requires Rectangular(xs, Width(l)) && |m| == Width(l)
    ensures |r| == Cells(l)
  {
    SumRows(OuterRows(l, xs, m), Cells(l))
  }

  lemma OuterRowsColumn(l: Layout, xs: seq<seq<real>>, m: seq<real>, k: nat, t: nat)
    requires Rectangular(xs, Width(l)) && |m| == Width(l) && k < Cells(l) && t < |xs|
    ensures l.event > 0 && Left(l, k) < Width(l) && Right(l, k) < Width(l)
    ensures Column(OuterRows(l, xs, m), k)[t]
         == (Column(xs, Left(l, k))[t] - m[Left(l, k)]) * (Column(xs, Right(l, k))[t] - m[Right(l, k)])
  {
    CellBounds(l, k);
  }

  /** Entry k of the chunk term is the co-sum of the columns Left(k) and Right(k). */
  lemma ResidualSumEntry(l: Layout, xs: seq<seq<real>>, m: seq<real>, k: nat)
    requires Rectangular(xs, Width(l)) && |m| == Width(l) && k < Cells(l)
    ensures l.event > 0 && Left(l, k) < Width(l) && Right(l, k) < Width(l)
    ensures ResidualSum(l, xs, m)[k]
         == CoSum(Column(xs, Left(l, k)), Column(xs, Right(l, k)), m[Left(l, k)], m[Right(l, k)])
  {
    CellBounds(l, k);
    var rows := OuterRows(l, xs, m);
    var ps := Column(rows, k);
    var a, b := Column(xs, Left(l, k)), Column(xs, Right(l, k));
    var ca, cb := m[Left(l, k)], m[Right(l, k)];
    forall t | 0 <= t < |xs|
      ensures ps[t] == (a[t] - ca) * (b[t] - cb)
    {
      OuterRowsColumn(l, xs, m, k, t);
    }
    SumRowsEntry(rows, Cells(l), k);
    CoSumToIsSumTo(ps, a, b, ca, cb, |xs|);
  }

  /** About the chunk's own means, entry k of the chunk term is the co-moment of the
      columns Left(k) and Right(k). */
  lemma ChunkResidualEntry(l: Layout, xs: seq<seq<real>>, k: nat)
    requires Rectangular(xs, Width(l)) && k < Cells(l)
    ensures l.event > 0 && Left(l, k) < Width(l) && Right(l, k) < Width(l)
    ensures ResidualSum(l, xs, ColumnMeans(xs, Width(l)))[k]
         == CoMoment(Column(xs, Left(l, k)), Column(xs, Right(l, k)))
  {
    ResidualSumEntry(l, xs, ColumnMeans(xs, Width(l)), k);
  }
}
