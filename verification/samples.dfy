/** Runs of flat samples and their columns.

    A run is the sequence of samples seen so far, in arrival order; each sample
    is the row-major data of one array, so every sample of a run has the same
    number of entries. Column `i` of a run collects entry `i` of every sample:
    the per-entry statistics of the running covariance are statistics of
    columns. */
module Samples {
  import opened Moments

  /** Every sample of the run has `width` entries. */
  predicate Rectangular(xs: seq<seq<real>>, width: nat)
  {
    forall t :: 0 <= t < |xs| ==> |xs[t]| == width
  }

  /** Entry `i` of every sample, in arrival order. */
  function Column(xs: seq<seq<real>>, i: nat): (col: seq<real>)
    requires forall t :: 0 <= t < |xs| ==> i < |xs[t]|
    ensures |col| == |xs|
  {
    seq(|xs|, t requires 0 <= t < |xs| => xs[t][i])
  }

  lemma RectangularAppend(xs: seq<seq<real>>, ys: seq<seq<real>>, width: nat)
    requires Rectangular(xs, width) && Rectangular(ys, width)
    ensures Rectangular(xs + ys, width)
  {
  }

  /** The column of a concatenated run is the concatenation of the columns. */
  lemma ColumnAppend(xs: seq<seq<real>>, ys: seq<seq<real>>, width: nat, i: nat)
    requires Rectangular(xs, width) && Rectangular(ys, width) && i < width
    ensures Rectangular(xs + ys, width)
    ensures Column(xs + ys, i) == Column(xs, i) + Column(ys, i)
  {
  }

  /** The mean of every entry over the run (zero for an empty run). */
  function ColumnMeans(xs: seq<seq<real>>, width: nat): (m: seq<real>)
    requires Rectangular(xs, width)
    ensures |m| == width
  {
    seq(width, i requires 0 <= i < width => Mean(Column(xs, i)))
  }

  /** Entrywise difference a − b. */
  function Sub(a: seq<real>, b: seq<real>): (d: seq<real>)
    requires |a| == |b|
    ensures |d| == |a|
  {
    seq(|a|, i requires 0 <= i < |a| => a[i] - b[i])
  }

  /** Entrywise sum a + b. */
  function Add(a: seq<real>, b: seq<real>): (s: seq<real>)
    requires |a| == |b|
    ensures |s| == |a|
  {
    seq(|a|, i requires 0 <= i < |a| => a[i] + b[i])
  }

  /** `n` zeros. */
  function ZeroSeq(n: nat): (z: seq<real>)
    ensures |z| == n
  {
    seq(n, _ => 0.0)
  }

  /** Entrywise sum of the rows of a run: the reduction over the sample axis. */
  function SumRows(rows: seq<seq<real>>, width: nat): (s: seq<real>)
    requires Rectangular(rows, width)
    ensures |s| == width
  {
    if |rows| == 0 then ZeroSeq(width)
    else Add(SumRows(rows[..|rows| - 1], width), rows[|rows| - 1])
  }

  lemma DropLastColumn(rows: seq<seq<real>>, width: nat, k: nat)
    requires Rectangular(rows, width) && k < width && |rows| > 0
    ensures Column(rows, k) == Column(rows[..|rows| - 1], k) + [rows[|rows| - 1][k]]
  {
  }

  lemma SumSnoc(a: seq<real>, x: real)
    ensures Sum(a + [x]) == Sum(a) + x
  {
    SumAppend(a, [x]);
    assert Sum([x]) == SumTo([x], 0) + x;
  }

  /** Entry `k` of the reduction is the sum of column `k`. */
  lemma {:induction false} SumRowsEntry(rows: seq<seq<real>>, width: nat, k: nat)
    requires Rectangular(rows, width) && k < width
    ensures SumRows(rows, width)[k] == Sum(Column(rows, k))
  {
    if |rows| > 0 {
      var init := rows[..|rows| - 1];
      SumRowsEntry(init, width, k);
      DropLastColumn(rows, width, k);
      SumSnoc(Column(init, k), rows[|rows| - 1][k]);
    }
  }
}
