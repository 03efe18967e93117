/** What the running covariance computes, stated against a direct definition.

    `Stats(c, xs)` is the state a batch computation over the whole run `xs` would
    give: the number of samples, the mean of every entry, and for every entry k of
    the residual array the co-moment of the two sample entries Left(k), Right(k)
    it pairs up. Starting from `initialize`, every successful sequence of updates
    reaches exactly `Stats` of the samples it was fed, however they were chunked. */
module CovarianceLaws {
  import opened Wrappers
  import opened Shapes
  import opened Moments
  import opened Samples
  import opened Tensors
  import opened OuterProduct
  import opened Residuals
  import opened Covariance
  import opened Streams

  // ----- the reference state

  /** The batch statistics of the run `xs`. */
  function Stats(c: Config, xs: seq<seq<real>>): (s: State)
    requires c.Valid() && Rectangular(xs, Size(c.shape))
    ensures Fits(c, s) && s.numSamples == |xs|
  {
    ConfigSizes(c);
    var l := LayoutFor(c);
    var ssr := seq(Cells(l), k requires 0 <= k < Cells(l) =>
      CellBounds(l, k);
      CoMoment(Column(xs, Left(l, k)), Column(xs, Right(l, k))));
    State(|xs|, Tensor(c.shape, ColumnMeans(xs, Width(l))), Tensor(ResidualShape(c), ssr))
  }

  /** The residual entry (b, i, j) of the reference state is the co-moment of the
      sample entries (b, i) and (b, j). */
  lemma StatsAt(c: Config, xs: seq<seq<real>>, b: nat, i: nat, j: nat)
    requires c.Valid() && Rectangular(xs, Size(c.shape))
    requires b < LayoutFor(c).batch && i < LayoutFor(c).event && j < LayoutFor(c).event
    ensures Size(c.shape) == Width(LayoutFor(c))
    ensures Entry(LayoutFor(c), b, i) < Width(LayoutFor(c)) && Entry(LayoutFor(c), b, j) < Width(LayoutFor(c))
    ensures Cell(LayoutFor(c), b, i, j) < |Stats(c, xs).ssr.data|
    ensures Stats(c, xs).ssr.data[Cell(LayoutFor(c), b, i, j)]
         == CoMoment(Column(xs, Entry(LayoutFor(c), b, i)), Column(xs, Entry(LayoutFor(c), b, j)))
  {
    ConfigSizes(c);
    CellFactors(LayoutFor(c), b, i, j);
  }

  /** The residual sums of the reference state are Σ_t (x_t − mean) ⊗ (x_t − mean). */
  lemma StatsResiduals(c: Config, xs: seq<seq<real>>)
    requires c.Valid() && Rectangular(xs, Size(c.shape))
    ensures Size(c.shape) == Width(LayoutFor(c))
    ensures Stats(c, xs).ssr.data == ResidualSum(LayoutFor(c), xs, Stats(c, xs).mean.data)
  {
    ConfigSizes(c);
    var l := LayoutFor(c);
    var r := ResidualSum(l, xs, ColumnMeans(xs, Width(l)));
    forall k | 0 <= k < Cells(l)
      ensures Stats(c, xs).ssr.data[k] == r[k]
    {
      ChunkResidualEntry(l, xs, k);
    }
  }

  /** The residual sums are symmetric in the two event index blocks. */
  lemma StatsSymmetric(c: Config, xs: seq<seq<real>>, b: nat, i: nat, j: nat)
    requires c.Valid() && Rectangular(xs, Size(c.shape))
    requires b < LayoutFor(c).batch && i < LayoutFor(c).event && j < LayoutFor(c).event
    ensures Cell(LayoutFor(c), b, i, j) < |Stats(c, xs).ssr.data|
    ensures Cell(LayoutFor(c), b, j, i) < |Stats(c, xs).ssr.data|
    ensures Stats(c, xs).ssr.data[Cell(LayoutFor(c), b, i, j)] == Stats(c, xs).ssr.data[Cell(LayoutFor(c), b, j, i)]
  {
    StatsAt(c, xs, b, i, j);
    StatsAt(c, xs, b, j, i);
    var l := LayoutFor(c);
    CoMomentSymmetric(Column(xs, Entry(l, b, i)), Column(xs, Entry(l, b, j)));
  }

  /** Diagonal residual entries are sums of squared deviations, hence never negative. */
  lemma StatsDiagonalNonNegative(c: Config, xs: seq<seq<real>>, b: nat, i: nat)
    requires c.Valid() && Rectangular(xs, Size(c.shape))
    requires b < LayoutFor(c).batch && i < LayoutFor(c).event
    ensures Cell(LayoutFor(c), b, i, i) < |Stats(c, xs).ssr.data|
    ensures Stats(c, xs).ssr.data[Cell(LayoutFor(c), b, i, i)] >= 0.0
  {
    StatsAt(c, xs, b, i, i);
    CoMomentSelfNonNegative(Column(xs, Entry(LayoutFor(c), b, i)));
  }

  /** With no event dimensions every residual entry is diagonal: the state holds
      elementwise sums of squared deviations, all non-negative. */
  lemma VarianceNonNegative(c: Config, xs: seq<seq<real>>)
    requires c.Valid() && c.eventNdims == 0 && Rectangular(xs, Size(c.shape))
    ensures |Stats(c, xs).ssr.data| == Size(c.shape)
    ensures forall k :: 0 <= k < |Stats(c, xs).ssr.data| ==> Stats(c, xs).ssr.data[k] >= 0.0
  {
    ConfigSizes(c);
    var l := LayoutFor(c);
    assert EventShape(c.shape, 0) == [];
    assert l.event == 1;
    forall k | 0 <= k < |Stats(c, xs).ssr.data|
      ensures Stats(c, xs).ssr.data[k] >= 0.0
    {
      assert Cell(l, k, 0, 0) == k;
      StatsDiagonalNonNegative(c, xs, k, 0);
    }
  }

  lemma EmptyColumns(xs: seq<seq<real>>, p: nat, q: nat)
    requires xs == []
    ensures Mean(Column(xs, p)) == 0.0 && CoMoment(Column(xs, p), Column(xs, q)) == 0.0
  {
    assert Column(xs, p) == [] && Column(xs, q) == [];
  }

  /** The empty run is the state `initialize` builds. */
  lemma StatsEmpty(c: Config)
    requires c.Valid()
    ensures Stats(c, []) == Initialize(c)
  {
    ConfigSizes(c);
    var l := LayoutFor(c);
    var s, z := Stats(c, []), Initialize(c);
    forall i | 0 <= i < Width(l)
      ensures s.mean.data[i] == z.mean.data[i]
    {
      EmptyColumns([], i, i);
    }
    forall k | 0 <= k < Cells(l)
      ensures s.ssr.data[k] == z.ssr.data[k]
    {
      CellBounds(l, k);
      EmptyColumns([], Left(l, k), Right(l, k));
    }
    assert s.mean.data == z.mean.data;
    assert s.ssr.data == z.ssr.data;
  }

  // ----- one merge

  lemma MergeMeanEntry(c: Config, s: State, cn: nat, cmean: seq<real>, cssr: seq<real>, i: nat)
    requires Fits(c, s) && cn > 0
    requires |cmean| == Width(LayoutFor(c)) && |cssr| == Cells(LayoutFor(c)) && i < Width(LayoutFor(c))
    ensures Size(c.shape) == Width(LayoutFor(c))
    ensures Merge(c, s, cn, cmean, cssr).mean.data[i] == MergeMean(s.numSamples, cn, s.mean.data[i], cmean[i])
  {
    ConfigSizes(c);
  }

  /** Entry k of the merged residuals is the scalar merge rule applied to the mean
      differences at the two sample entries entry k pairs up. */
  lemma MergeResidualEntry(c: Config, s: State, cn: nat, cmean: seq<real>, cssr: seq<real>, k: nat)
    requires Fits(c, s) && cn > 0
    requires |cmean| == Width(LayoutFor(c)) && |cssr| == Cells(LayoutFor(c)) && k < Cells(LayoutFor(c))
    ensures Size(c.shape) == Width(LayoutFor(c)) && Size(ResidualShape(c)) == Cells(LayoutFor(c))
    ensures LayoutFor(c).event > 0
    ensures Left(LayoutFor(c), k) < Width(LayoutFor(c)) && Right(LayoutFor(c), k) < Width(LayoutFor(c))
    ensures Merge(c, s, cn, cmean, cssr).ssr.data[k]
         == MergeComoment(s.numSamples, cn, s.ssr.data[k], cssr[k],
                          cmean[Left(LayoutFor(c), k)] - s.mean.data[Left(LayoutFor(c), k)],
                          cmean[Right(LayoutFor(c), k)] - s.mean.data[Right(LayoutFor(c), k)])
  {
    ConfigSizes(c);
    var l, delta := LayoutFor(c), Sub(cmean, s.mean.data);
    MergeResidualsAt(l, s.numSamples, cn, s.ssr.data, cssr, delta, k);
  }

  /** The chunk statistics a chunked update merges in. */
  lemma MergeChunkUnfold(c: Config, s: State, xs: seq<seq<real>>)
    requires Fits(c, s) && Rectangular(xs, Size(c.shape)) && |xs| > 0
    ensures MergeChunk(c, s, xs)
         == Merge(c, s, |xs|, ColumnMeans(xs, Size(c.shape)),
                  ResidualSum(LayoutFor(c), xs, ColumnMeans(xs, Size(c.shape))))
  {
    ConfigSizes(c);
  }

  /** Merging the batch statistics of `ys` with a chunk `xs` gives, at mean entry i,
      the mean of entry i over ys + xs. */
  lemma MergeStatsMean(c: Config, ys: seq<seq<real>>, xs: seq<seq<real>>, i: nat)
    requires c.Valid() && Rectangular(ys, Size(c.shape)) && Rectangular(xs, Size(c.shape)) && |xs| > 0
    requires Rectangular(ys + xs, Size(c.shape)) && i < Size(c.shape)
    ensures MergeChunk(c, Stats(c, ys), xs).mean.data[i] == Stats(c, ys + xs).mean.data[i]
  {
    ConfigSizes(c);
    var w := Size(c.shape);
    var s, cmean := Stats(c, ys), ColumnMeans(xs, w);
    MergeChunkUnfold(c, s, xs);
    MergeMeanEntry(c, s, |xs|, cmean, ResidualSum(LayoutFor(c), xs, cmean), i);
    ColumnAppend(ys, xs, w, i);
    MeanMerge(Column(ys, i), Column(xs, i), |ys|, |xs|);
  }

  /** The entries of the reference state a residual entry k depends on. */
  lemma StatsEntries(c: Config, xs: seq<seq<real>>, k: nat)
    requires c.Valid() && Rectangular(xs, Size(c.shape)) && k < Size(ResidualShape(c))
    ensures LayoutFor(c).event > 0
    ensures Left(LayoutFor(c), k) < Size(c.shape) && Right(LayoutFor(c), k) < Size(c.shape)
    ensures Stats(c, xs).ssr.data[k]
         == CoMoment(Column(xs, Left(LayoutFor(c), k)), Column(xs, Right(LayoutFor(c), k)))
    ensures Stats(c, xs).mean.data[Left(LayoutFor(c), k)] == Mean(Column(xs, Left(LayoutFor(c), k)))
    ensures Stats(c, xs).mean.data[Right(LayoutFor(c), k)] == Mean(Column(xs, Right(LayoutFor(c), k)))
  {
    ConfigSizes(c);
    CellBounds(LayoutFor(c), k);
  }

  /** Entry k of a chunked merge into any state: the scalar merge rule applied to
      the chunk's co-moment of the two columns entry k pairs up. */
  lemma MergeChunkResidual(c: Config, s: State, xs: seq<seq<real>>, k: nat)
    requires Fits(c, s) && Rectangular(xs, Size(c.shape)) && |xs| > 0 && k < Size(ResidualShape(c))
    ensures LayoutFor(c).event > 0
    ensures Left(LayoutFor(c), k) < Size(c.shape) && Right(LayoutFor(c), k) < Size(c.shape)
    ensures MergeChunk(c, s, xs).ssr.data[k]
         == MergeComoment(s.numSamples, |xs|, s.ssr.data[k],
                          CoMoment(Column(xs, Left(LayoutFor(c), k)), Column(xs, Right(LayoutFor(c), k))),
                          Mean(Column(xs, Left(LayoutFor(c), k))) - s.mean.data[Left(LayoutFor(c), k)],
                          Mean(Column(xs, Right(LayoutFor(c), k))) - s.mean.data[Right(LayoutFor(c), k)])
  {
    ConfigSizes(c);
    var l, w := LayoutFor(c), Size(c.shape);
    var cmean := ColumnMeans(xs, w);
    MergeChunkUnfold(c, s, xs);
    MergeResidualEntry(c, s, |xs|, cmean, ResidualSum(l, xs, cmean), k);
    ChunkResidualEntry(l, xs, k);
    var p, q := Left(l, k), Right(l, k);
    assert cmean[p] == Mean(Column(xs, p)) && cmean[q] == Mean(Column(xs, q));
  }

  /** The same at residual entry k: the co-moment of the two columns over ys + xs. */
  lemma MergeStatsResidual(c: Config, ys: seq<seq<real>>, xs: seq<seq<real>>, k: nat)
    requires c.Valid() && Rectangular(ys, Size(c.shape)) && Rectangular(xs, Size(c.shape)) && |xs| > 0
    requires Rectangular(ys + xs, Size(c.shape)) && k < Size(ResidualShape(c))
    ensures MergeChunk(c, Stats(c, ys), xs).ssr.data[k] == Stats(c, ys + xs).ssr.data[k]
  {
    var l, w := LayoutFor(c), Size(c.shape);
    StatsEntries(c, ys, k);
    StatsEntries(c, ys + xs, k);
    MergeChunkResidual(c, Stats(c, ys), xs, k);
    var p, q := Left(l, k), Right(l, k);
    ColumnAppend(ys, xs, w, p);
    ColumnAppend(ys, xs, w, q);
    CoMomentMerge(Column(ys, p), Column(ys, q), Column(xs, p), Column(xs, q), |ys|, |xs|);
  }

  lemma MergeStatsMeans(c: Config, ys: seq<seq<real>>, xs: seq<seq<real>>)
    requires c.Valid() && Rectangular(ys, Size(c.shape)) && Rectangular(xs, Size(c.shape)) && |xs| > 0
    requires Rectangular(ys + xs, Size(c.shape))
    ensures MergeChunk(c, Stats(c, ys), xs).mean == Stats(c, ys + xs).mean
  {
    var merged, target := MergeChunk(c, Stats(c, ys), xs).mean, Stats(c, ys + xs).mean;
    forall i | 0 <= i < Size(c.shape)
      ensures merged.data[i] == target.data[i]
    {
      MergeStatsMean(c, ys, xs, i);
    }
    assert merged.data == target.data;
  }

  lemma MergeStatsResiduals(c: Config, ys: seq<seq<real>>, xs: seq<seq<real>>)
    requires c.Valid() && Rectangular(ys, Size(c.shape)) && Rectangular(xs, Size(c.shape)) && |xs| > 0
    requires Rectangular(ys + xs, Size(c.shape))
    ensures MergeChunk(c, Stats(c, ys), xs).ssr == Stats(c, ys + xs).ssr
  {
    var merged, target := MergeChunk(c, Stats(c, ys), xs).ssr, Stats(c, ys + xs).ssr;
    forall k | 0 <= k < Size(ResidualShape(c))
      ensures merged.data[k] == target.data[k]
    {
      MergeStatsResidual(c, ys, xs, k);
    }
    assert merged.data == target.data;
  }

  /** Merging the batch statistics of `ys` with a chunk `xs` gives the batch
      statistics of ys followed by xs. */
  lemma MergeStats(c: Config, ys: seq<seq<real>>, xs: seq<seq<real>>)
    requires c.Valid() && Rectangular(ys, Size(c.shape)) && Rectangular(xs, Size(c.shape)) && |xs| > 0
    requires Rectangular(ys + xs, Size(c.shape))
    ensures MergeChunk(c, Stats(c, ys), xs) == Stats(c, ys + xs)
  {
    MergeStatsMeans(c, ys, xs);
    MergeStatsResiduals(c, ys, xs);
  }

  /** A non-empty chunk is merged. */
  lemma UpdateChunk(c: Config, s: State, xs: seq<seq<real>>)
    requires Fits(c, s) && Rectangular(xs, Size(c.shape)) && |xs| > 0
    ensures Update(c, s, Chunk(xs)) == Success(MergeChunk(c, s, xs))
  {
  }

  /** One chunked update of the batch statistics of `ys` gives the batch statistics
      of ys followed by the chunk. */
  lemma MergeMatchesStats(c: Config, ys: seq<seq<real>>, xs: seq<seq<real>>)
    requires c.Valid() && Rectangular(ys, Size(c.shape)) && Rectangular(xs, Size(c.shape)) && |xs| > 0
    ensures Rectangular(ys + xs, Size(c.shape))
    ensures ObservationFits(c, Chunk(xs))
    ensures Fits(c, Stats(c, ys))
    ensures Update(c, Stats(c, ys), Chunk(xs)) == Success(Stats(c, ys + xs))
  {
    RectangularAppend(ys, xs, Size(c.shape));
    var s := Stats(c, ys);
    UpdateChunk(c, s, xs);
    MergeStats(c, ys, xs);
  }

  /** The mean of a chunk of one sample is the sample. */
  lemma SingleChunkMeans(x: seq<real>)
    ensures ColumnMeans([x], |x|) == x
  {
    var m := ColumnMeans([x], |x|);
    forall i | 0 <= i < |x|
      ensures m[i] == x[i]
    {
      assert Column([x], i) == [x[i]];
      Singleton(x[i], x[i]);
    }
  }

  /** A chunk of one sample has no residual of its own. */
  lemma SingleChunkResiduals(l: Layout, x: seq<real>)
    requires |x| == Width(l)
    ensures Rectangular([x], Width(l))
    ensures ResidualSum(l, [x], x) == ZeroSeq(Cells(l))
  {
    SingleChunkMeans(x);
    var r := ResidualSum(l, [x], x);
    forall k | 0 <= k < Cells(l)
      ensures r[k] == 0.0
    {
      ChunkResidualEntry(l, [x], k);
      CellBounds(l, k);
      assert Column([x], Left(l, k)) == [x[Left(l, k)]];
      assert Column([x], Right(l, k)) == [x[Right(l, k)]];
      Singleton(x[Left(l, k)], x[Right(l, k)]);
    }
  }

  lemma MergeMeanOfOne(n: nat, a: real, b: real)
    ensures MergeMean(n, 1, a, b) == a + (b - a) / ((n + 1) as real)
  {
  }

  /** An unchunked update is a chunked update with a chunk of one. */
  lemma UnchunkedIsChunkOfOne(c: Config, s: State, x: seq<real>)
    requires Fits(c, s) && |x| == Size(c.shape)
    ensures Update(c, s, Single(x)) == Update(c, s, Chunk([x]))
    ensures Update(c, s, Single(x)).Success?
    ensures forall i :: 0 <= i < |x| ==>
      Update(c, s, Single(x)).value.mean.data[i] == s.mean.data[i] + (x[i] - s.mean.data[i]) / ((s.numSamples + 1) as real)
  {
    ConfigSizes(c);
    var l := LayoutFor(c);
    SingleChunkMeans(x);
    SingleChunkResiduals(l, x);
    MergeChunkUnfold(c, s, [x]);
    UpdateChunk(c, s, [x]);
    var merged := Merge(c, s, 1, x, ZeroSeq(Cells(l)));
    assert Update(c, s, Single(x)) == Success(merged);
    forall i | 0 <= i < |x|
      ensures merged.mean.data[i] == s.mean.data[i] + (x[i] - s.mean.data[i]) / ((s.numSamples + 1) as real)
    {
      MergeMeanEntry(c, s, 1, x, ZeroSeq(Cells(l)), i);
      MergeMeanOfOne(s.numSamples, s.mean.data[i], x[i]);
    }
  }

  // ----- runs of updates

  /** Every sample a sequence of fitting observations feeds has the configured shape. */
  lemma {:induction false} AllObservedFits(c: Config, obs: seq<Observation<seq<real>>>)
    requires forall j :: 0 <= j < |obs| ==> ObservationFits(c, obs[j])
    ensures Rectangular(AllObserved(obs), Size(c.shape))
  {
    if |obs| > 0 {
      AllObservedFits(c, obs[..|obs| - 1]);
      assert ObservationFits(c, obs[|obs| - 1]);
      RectangularAppend(AllObserved(obs[..|obs| - 1]), Observed(obs[|obs| - 1]), Size(c.shape));
    }
  }

  /** Feeding the observations one `update` call at a time; the first failure stops
      the run. */
  function RunFrom(c: Config, s: State, obs: seq<Observation<seq<real>>>): (r: Result<State, Error>)
    requires Fits(c, s) && forall j :: 0 <= j < |obs| ==> ObservationFits(c, obs[j])
    ensures r.Success? ==> Fits(c, r.value)
  {
    if |obs| == 0 then Success(s)
    else
      match RunFrom(c, s, obs[..|obs| - 1])
      case Failure(e) => Failure(e)
      case Success(t) => Update(c, t, obs[|obs| - 1])
  }

  /** `initialize` followed by the updates. */
  function Run(c: Config, obs: seq<Observation<seq<real>>>): (r: Result<State, Error>)
    requires c.Valid() && forall j :: 0 <= j < |obs| ==> ObservationFits(c, obs[j])
    ensures r.Success? ==> Fits(c, r.value)
  {
    RunFrom(c, Initialize(c), obs)
  }

  /** One update of the batch statistics of `ys`: it fails exactly on an empty chunk
      of samples that have entries, and otherwise gives the batch statistics of ys
      followed by the observed samples. */
  lemma UpdateStats(c: Config, ys: seq<seq<real>>, o: Observation<seq<real>>)
    requires c.Valid() && Rectangular(ys, Size(c.shape)) && ObservationFits(c, o)
    ensures Rectangular(ys + Observed(o), Size(c.shape))
    ensures Update(c, Stats(c, ys), o).Failure? <==> o == Chunk([]) && Size(c.shape) > 0
    ensures Update(c, Stats(c, ys), o).Success? ==> Update(c, Stats(c, ys), o).value == Stats(c, ys + Observed(o))
  {
    RectangularAppend(ys, Observed(o), Size(c.shape));
    match o
    case Single(x) =>
      assert |Observed(o)[0]| == Size(c.shape);
      UnchunkedIsChunkOfOne(c, Stats(c, ys), x);
      MergeMatchesStats(c, ys, [x]);
    case Chunk(xs) =>
      if |xs| == 0 {
        assert ys + xs == ys;
      } else {
        MergeMatchesStats(c, ys, xs);
      }
  }

  /** From the batch statistics of `ys`, a run of updates fails exactly when it meets
      an empty chunk while samples have entries, and otherwise reaches the batch
      statistics of ys followed by everything it was fed. */
  lemma {:induction false} RunFromStats(c: Config, ys: seq<seq<real>>, obs: seq<Observation<seq<real>>>)
    requires c.Valid() && Rectangular(ys, Size(c.shape))
    requires forall j :: 0 <= j < |obs| ==> ObservationFits(c, obs[j])
    ensures Rectangular(ys + AllObserved(obs), Size(c.shape))
    ensures RunFrom(c, Stats(c, ys), obs).Failure? <==> HasEmptyChunk(obs) && Size(c.shape) > 0
    ensures RunFrom(c, Stats(c, ys), obs).Success? ==>
      RunFrom(c, Stats(c, ys), obs).value == Stats(c, ys + AllObserved(obs))
  {
    AllObservedFits(c, obs);
    RectangularAppend(ys, AllObserved(obs), Size(c.shape));
    if |obs| == 0 {
      assert ys + [] == ys;
    } else {
      var init, o := obs[..|obs| - 1], obs[|obs| - 1];
      RunFromStats(c, ys, init);
      HasEmptyChunkSnoc(obs);
      var before := ys + AllObserved(init);
      AllObservedSnoc(obs);
      AppendAssociative(ys, AllObserved(init), Observed(o));
      UpdateStats(c, before, o);
    }
  }

  /** The running invariant: after `initialize` and any updates, the state holds the
      number of samples, their mean and Σ (x_t − mean) ⊗ (x_t − mean); the run fails
      only on an empty chunk of samples that have entries. */
  lemma RunningInvariant(c: Config, obs: seq<Observation<seq<real>>>)
    requires c.Valid() && forall j :: 0 <= j < |obs| ==> ObservationFits(c, obs[j])
    ensures Run(c, obs).Failure? <==> HasEmptyChunk(obs) && Size(c.shape) > 0
    ensures Rectangular(AllObserved(obs), Size(c.shape))
    ensures Run(c, obs).Success? ==> Run(c, obs).value == Stats(c, AllObserved(obs))
  {
    StatsEmpty(c);
    RunFromStats(c, [], obs);
    assert [] + AllObserved(obs) == AllObserved(obs);
  }

  /** From the batch statistics of `ys`, a non-empty chunk fed in one `update` call
      reaches the statistics of ys + xs. */
  lemma ChunkRun(c: Config, ys: seq<seq<real>>, xs: seq<seq<real>>)
    requires c.Valid() && Rectangular(ys, Size(c.shape)) && Rectangular(xs, Size(c.shape)) && |xs| > 0
    ensures Rectangular(ys + xs, Size(c.shape))
    ensures Fits(c, Stats(c, ys))
    ensures forall j :: 0 <= j < |[Chunk(xs)]| ==> ObservationFits(c, [Chunk(xs)][j])
    ensures RunFrom(c, Stats(c, ys), [Chunk(xs)]) == Success(Stats(c, ys + xs))
  {
    var one := [Chunk(xs)];
    assert ObservationFits(c, one[0]);
    assert !HasEmptyChunk(one);
    AllObservedOne(Chunk(xs));
    RunFromStats(c, ys, one);
  }

  /** The same chunk fed one sample per `update` call reaches the same statistics. */
  lemma SinglesRun(c: Config, ys: seq<seq<real>>, xs: seq<seq<real>>)
    requires c.Valid() && Rectangular(ys, Size(c.shape)) && Rectangular(xs, Size(c.shape))
    ensures forall j :: 0 <= j < |xs| ==> ObservationFits(c, Singles(xs)[j])
    ensures Rectangular(ys + xs, Size(c.shape))
    ensures RunFrom(c, Stats(c, ys), Singles(xs)) == Success(Stats(c, ys + xs))
  {
    AllObservedSingles(xs);
    NoEmptyChunkInSingles(xs);
    forall j | 0 <= j < |xs|
      ensures ObservationFits(c, Singles(xs)[j])
    {
      assert Observed(Singles(xs)[j]) == [xs[j]];
    }
    RunFromStats(c, ys, Singles(xs));
  }

  /** Chunk invariance: from any state a successful run reaches, one chunked update
      of a non-empty chunk gives the same result as feeding its samples one at a time. */
  lemma ChunkInvariance(c: Config, obs: seq<Observation<seq<real>>>, xs: seq<seq<real>>)
    requires c.Valid() && forall j :: 0 <= j < |obs| ==> ObservationFits(c, obs[j])
    requires Rectangular(xs, Size(c.shape)) && |xs| > 0
    ensures forall j :: 0 <= j < |[Chunk(xs)]| ==> ObservationFits(c, [Chunk(xs)][j])
    ensures forall j :: 0 <= j < |xs| ==> ObservationFits(c, Singles(xs)[j])
    ensures Run(c, obs).Success? ==>
      RunFrom(c, Run(c, obs).value, [Chunk(xs)]) == RunFrom(c, Run(c, obs).value, Singles(xs))
    ensures Run(c, obs).Success? ==> RunFrom(c, Run(c, obs).value, [Chunk(xs)]).Success?
  {
    RunningInvariant(c, obs);
    var ys := AllObserved(obs);
    ChunkRun(c, ys, xs);
    SinglesRun(c, ys, xs);
  }

  // ----- finalize

  /** Finalizing the batch statistics of a run gives, at every residual entry, the
      co-moment of the two entries it pairs up divided by n − ddof: the population
      covariance for ddof = 0 and the sample covariance for ddof = 1. */
  lemma FinalizeStats(c: Config, xs: seq<seq<real>>, ddof: int, k: nat)
    requires c.Valid() && Rectangular(xs, Size(c.shape)) && |xs| != ddof
    requires k < Size(ResidualShape(c))
    ensures Finalize(c, Stats(c, xs), ddof).Success?
    ensures LayoutFor(c).event > 0
    ensures Left(LayoutFor(c), k) < Size(c.shape) && Right(LayoutFor(c), k) < Size(c.shape)
    ensures Finalize(c, Stats(c, xs), ddof).value.data[k]
         == CoMoment(Column(xs, Left(LayoutFor(c), k)), Column(xs, Right(LayoutFor(c), k))) / ((|xs| - ddof) as real)
  {
    ConfigSizes(c);
    CellBounds(LayoutFor(c), k);
  }
}
