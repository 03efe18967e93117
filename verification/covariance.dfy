/** `RunningCovariance` and `RunningVariance`: configuration, the streaming state
    and its lifecycle (initialize, update, finalize).

    A configuration fixes the sample shape S and the number e of trailing event
    dimensions; with B = S[..|S| − e] and E = S[|S| − e..] the state holds the
    number of samples seen, their entrywise mean (shape S) and the sum of squared
    residuals (shape S + E, that is B + E + E). Samples are flat row-major data of
    shape S; a chunk is a sequence of samples, stacked along a non-negative axis
    in front of the event dimensions. */
module Covariance {
  import opened Wrappers
  import opened DTypes
  import opened Shapes
  import opened Moments
  import opened Samples
  import opened Tensors
  import opened OuterProduct
  import opened Residuals
  import opened Streams

  /** The most event dimensions the constructor accepts: the outer product names
      two index letters per event dimension, and there are 26 letters. */
  const MaxEventNdims: nat := 13

  datatype Error =
    | ExceedsRank(eventNdims: int, rank: nat)
    | Unsupported(eventNdims: int)
    | NegativeEventNdims(eventNdims: int)
    | NotFinite

  /** The metadata of a `RunningCovariance` object. */
  datatype Config = Config(shape: seq<nat>, eventNdims: nat, dtype: DType)
  {
    /** What the constructor guarantees of every object it builds. */
    predicate Valid()
    {
      eventNdims <= |shape| && eventNdims <= MaxEventNdims
    }
  }

  // ----- construction

  /** `event_ndims`, defaulting to the rank of the samples (all cross terms). */
  function RequestedEventNdims(shape: seq<nat>, eventNdims: Option<int>): int
  {
    match eventNdims
    case None => |shape|
    case Some(e) => e
  }

  /** The constructor's validation as written: only the two upper bounds are
      checked, so a negative `event_ndims` is accepted. */
  function ValidatedEventNdims(shape: seq<nat>, eventNdims: Option<int>): (r: Result<int, Error>)
    ensures r.Success? <==> RequestedEventNdims(shape, eventNdims) <= |shape|
                            && RequestedEventNdims(shape, eventNdims) <= MaxEventNdims
    ensures r.Success? ==> r.value == RequestedEventNdims(shape, eventNdims)
    ensures r.Failure? && RequestedEventNdims(shape, eventNdims) > |shape|
            ==> r.error == ExceedsRank(RequestedEventNdims(shape, eventNdims), |shape|)
    ensures r.Failure? && RequestedEventNdims(shape, eventNdims) <= |shape|
            ==> r.error == Unsupported(RequestedEventNdims(shape, eventNdims))
  {
    var e := RequestedEventNdims(shape, eventNdims);
    if e > |shape| then Failure(ExceedsRank(e, |shape|))
    else if e > MaxEventNdims then Failure(Unsupported(e))
    else Success(e)
  }

  /** `RunningCovariance(shape, event_ndims, dtype)`, with the missing lower bound
      added: a negative `event_ndims` is rejected. */
  function New(shape: seq<nat>, eventNdims: Option<int>, dtype: DType): (r: Result<Config, Error>)
    ensures r.Success? <==> 0 <= RequestedEventNdims(shape, eventNdims) <= |shape|
                            && RequestedEventNdims(shape, eventNdims) <= MaxEventNdims
    ensures r.Success? ==> r.value.Valid() && r.value.shape == shape && r.value.dtype == dtype
                           && r.value.eventNdims == RequestedEventNdims(shape, eventNdims)
    ensures r.Failure? ==> (r.error.NegativeEventNdims? <==> ValidatedEventNdims(shape, eventNdims).Success?)
    ensures r.Failure? && !r.error.NegativeEventNdims? ==> Failure(r.error) == ValidatedEventNdims(shape, eventNdims)
  {
    match ValidatedEventNdims(shape, eventNdims)
    case Failure(err) => Failure(err)
    case Success(e) =>
      if e < 0 then Failure(NegativeEventNdims(e)) else Success(Config(shape, e, dtype))
  }

  /** `RunningVariance(shape, dtype)`: the covariance with no event dimensions. */
  function NewVariance(shape: seq<nat>, dtype: DType): (r: Result<Config, Error>)
    ensures r.Success? && r.value.Valid()
    ensures r.value == Config(shape, 0, dtype)
  {
    New(shape, Some(0), dtype)
  }

  // ----- shapes

  /** Python's `s[i:]`: a negative start counts from the end, and both kinds of
      start are clamped to the sequence. */
  function PySliceFrom(s: seq<nat>, i: int): (r: seq<nat>)
    ensures |r| <= |s| && r == s[|s| - |r|..]
    ensures i >= 0 ==> |r| == if i <= |s| then |s| - i else 0
    ensures i < 0 ==> |r| == if -i <= |s| then -i else |s|
  {
    var start := if i < 0 then (if |s| + i < 0 then 0 else |s| + i) else (if i > |s| then |s| else i);
    s[start..]
  }

  /** The shape of the sum of squared residuals as `initialize` computes it, for any
      integer `event_ndims`. */
  function ResidualShapeOf(shape: seq<nat>, eventNdims: int): seq<nat>
  {
    if eventNdims == 0 then shape else shape + PySliceFrom(shape, -eventNdims)
  }

  function ResidualShape(c: Config): seq<nat>
  {
    ResidualShapeOf(c.shape, c.eventNdims)
  }

  /** The shape `_batch_outer_product` produces for any integer `event_ndims`: with
      e > 0 the formula `...a,...b->...ab` names e letters per operand, with e <= 0
      it names none (`...,...->...`) and the result has the input's shape. */
  function EinsumShape(shape: seq<nat>, eventNdims: int): seq<nat>
    requires eventNdims <= |shape|
  {
    if eventNdims <= 0 then shape else shape + shape[|shape| - eventNdims..]
  }

  /** For a valid configuration the residual shape is S + E, which is the shape of
      the outer products added into it; the special case e = 0 is what makes this
      hold, since `shape[-0:]` would append the whole shape. */
  lemma ResidualShapeIsOuterShape(c: Config)
    requires c.Valid()
    ensures ResidualShape(c) == c.shape + EventShape(c.shape, c.eventNdims)
    ensures ResidualShape(c) == EinsumShape(c.shape, c.eventNdims)
    ensures c.eventNdims == 0 ==> ResidualShape(c) == c.shape
    ensures c.eventNdims == 0 ==> c.shape + PySliceFrom(c.shape, -c.eventNdims) == c.shape + c.shape
  {
    if c.eventNdims == 0 {
      assert EventShape(c.shape, 0) == [];
      assert c.shape + [] == c.shape;
    }
  }

  /** The constructor as written accepts every negative `event_ndims`. For
      −|S| < e < 0, `initialize` then allocates residual sums of shape S + S[-e:],
      that is S followed by its last |S| + e dimensions, while
      `_batch_outer_product` names no event letters and returns shape S, so the two
      disagree. The corrected constructor rejects every negative value. */
  lemma NegativeEventNdimsAccepted(shape: seq<nat>, e: int, dtype: DType)
    requires -|shape| < e < 0
    ensures ValidatedEventNdims(shape, Some(e)) == Success(e)
    ensures |ResidualShapeOf(shape, e)| == 2 * |shape| + e
    ensures EinsumShape(shape, e) == shape
    ensures ResidualShapeOf(shape, e) != EinsumShape(shape, e)
    ensures New(shape, Some(e), dtype) == Failure(NegativeEventNdims(e))
  {
    assert |PySliceFrom(shape, -e)| == |shape| + e;
  }

  /** Every configuration the corrected constructor builds allocates residual sums of
      exactly the shape the outer products have. */
  lemma NewShapesAgree(shape: seq<nat>, eventNdims: Option<int>, dtype: DType)
    ensures New(shape, eventNdims, dtype).Success? ==>
      ResidualShape(New(shape, eventNdims, dtype).value)
        == EinsumShape(shape, New(shape, eventNdims, dtype).value.eventNdims)
  {
    if New(shape, eventNdims, dtype).Success? {
      ResidualShapeIsOuterShape(New(shape, eventNdims, dtype).value);
    }
  }

  /** The batch and event sizes of a configuration. */
  function LayoutFor(c: Config): Layout
    requires c.Valid()
  {
    LayoutOf(c.shape, c.eventNdims)
  }

  lemma ConfigSizes(c: Config)
    requires c.Valid()
    ensures Size(c.shape) == Width(LayoutFor(c))
    ensures Size(ResidualShape(c)) == Cells(LayoutFor(c))
  {
    ResidualShapeIsOuterShape(c);
    LayoutSizes(c.shape, c.eventNdims);
  }

  // ----- the state

  /** `RunningCovarianceState(num_samples, mean, sum_squared_residuals)`. */
  datatype State = State(numSamples: nat, mean: Tensor, ssr: Tensor)

  /** The state has the shapes the configuration gives it. */
  predicate Fits(c: Config, s: State)
  {
    c.Valid() && s.mean.shape == c.shape && s.mean.Valid()
    && s.ssr.shape == ResidualShape(c) && s.ssr.Valid()
  }

  /** `initialize`: no samples, zero mean, zero residuals. */
  function Initialize(c: Config): (s: State)
    requires c.Valid()
    ensures Fits(c, s) && s.numSamples == 0
    ensures s.ssr.shape == c.shape + EventShape(c.shape, c.eventNdims)
    ensures forall i :: 0 <= i < |s.mean.data| ==> s.mean.data[i] == 0.0
    ensures forall k :: 0 <= k < |s.ssr.data| ==> s.ssr.data[k] == 0.0
  {
    ResidualShapeIsOuterShape(c);
    State(0, Zeros(c.shape), Zeros(ResidualShape(c)))
  }

  // ----- update

  /** Every sample of the observation has the configured shape. */
  predicate ObservationFits(c: Config, o: Observation<seq<real>>)
  {
    Rectangular(Observed(o), Size(c.shape))
  }

  /** The merge of the state with a chunk of `cn` samples whose entrywise mean is
      `cmean` and whose own sum of squared residuals is `cssr`:
      new_mean = mean + cn · δ / new_n and
      new_ssr = ssr + cssr + (n · cn / new_n) · (δ ⊗ δ), where δ = cmean − mean. */
  function Merge(c: Config, s: State, cn: nat, cmean: seq<real>, cssr: seq<real>): (r: State)
    requires Fits(c, s) && cn > 0
    requires |cmean| == Width(LayoutFor(c)) && |cssr| == Cells(LayoutFor(c))
    ensures Fits(c, r) && r.numSamples == s.numSamples + cn
  {
    ConfigSizes(c);
    var l, n := LayoutFor(c), s.numSamples;
    var delta := Sub(cmean, s.mean.data);
    var mean := seq(Width(l), i requires 0 <= i < Width(l) => MergeMean(n, cn, s.mean.data[i], cmean[i]));
    State(n + cn, Tensor(c.shape, mean), Tensor(ResidualShape(c), MergeResiduals(l, n, cn, s.ssr.data, cssr, delta)))
  }

  /** The residual update for mean differences `delta`: the prior residuals plus the
      chunk's plus Adj(n, cn) times the batch outer product of `delta`. */
  function MergeResiduals(l: Layout, n: nat, cn: nat, ssr: seq<real>, cssr: seq<real>, delta: seq<real>): (r: seq<real>)
    requires n + cn > 0 && |ssr| == Cells(l) && |cssr| == Cells(l) && |delta| == Width(l)
    ensures |r| == Cells(l)
  {
    var pairwise := OuterFlat(l, delta);
    seq(Cells(l), k requires 0 <= k < Cells(l) => ssr[k] + cssr[k] + Adj(n, cn) * pairwise[k])
  }

  /** Entry k of the residual update is the scalar merge rule applied to the two
      mean differences entry k pairs up. */
  lemma MergeResidualsAt(l: Layout, n: nat, cn: nat, ssr: seq<real>, cssr: seq<real>, delta: seq<real>, k: nat)
    requires n + cn > 0 && |ssr| == Cells(l) && |cssr| == Cells(l) && |delta| == Width(l) && k < Cells(l)
    ensures l.event > 0 && Left(l, k) < Width(l) && Right(l, k) < Width(l)
    ensures MergeResiduals(l, n, cn, ssr, cssr, delta)[k]
         == MergeComoment(n, cn, ssr[k], cssr[k], delta[Left(l, k)], delta[Right(l, k)])
  {
    OuterFlatAt(l, delta, k);
  }

  /** The merge with a non-empty chunk: chunk_n = |xs|, chunk_mean the entrywise mean
      of the chunk and the chunk's residuals Σ_t (x_t − chunk_mean) ⊗ (x_t − chunk_mean). */
  function MergeChunk(c: Config, s: State, xs: seq<seq<real>>): (r: State)
    requires Fits(c, s) && Rectangular(xs, Size(c.shape)) && |xs| > 0
    ensures Fits(c, r) && r.numSamples == s.numSamples + |xs|
  {
    ConfigSizes(c);
    var l := LayoutFor(c);
    var m := ColumnMeans(xs, Width(l));
    Merge(c, s, |xs|, m, ResidualSum(l, xs, m))
  }

  /** `update(state, new_sample, axis)`. A single sample is a chunk of one with no
      residual of its own. An empty chunk has no mean (the reduction over an empty
      axis divides zero by zero), which poisons every entry of the state; with no
      entries at all nothing changes. */
  function Update(c: Config, s: State, o: Observation<seq<real>>): (r: Result<State, Error>)
    requires Fits(c, s) && ObservationFits(c, o)
    ensures r.Failure? <==> |Observed(o)| == 0 && Size(c.shape) > 0
    ensures r.Failure? ==> r.error == NotFinite
    ensures r.Success? ==> Fits(c, r.value) && r.value.numSamples == s.numSamples + |Observed(o)|
  {
    ConfigSizes(c);
    var l := LayoutFor(c);
    match o
    case Single(x) =>
      assert |Observed(o)[0]| == Width(l);
      Success(Merge(c, s, 1, x, ZeroSeq(Cells(l))))
    case Chunk(xs) =>
      if |xs| == 0 then
        if Size(c.shape) == 0 then Success(s) else Failure(NotFinite)
      else Success(MergeChunk(c, s, xs))
  }

  // ----- finalize

  /** `finalize(state, ddof)`: the residual sums divided by num_samples − ddof. When
      the divisor is zero every entry is an infinity or NaN. */
  function Finalize(c: Config, s: State, ddof: int): (r: Result<Tensor, Error>)
    requires Fits(c, s)
    ensures r.Success? <==> s.numSamples != ddof || |s.ssr.data| == 0
    ensures r.Failure? ==> r.error == NotFinite
    ensures r.Success? ==> r.value.shape == ResidualShape(c) && r.value.Valid()
    ensures r.Success? && s.numSamples != ddof ==>
      forall k :: 0 <= k < |r.value.data| ==>
        r.value.data[k] * ((s.numSamples - ddof) as real) == s.ssr.data[k]
  {
    var d := s.numSamples - ddof;
    if d == 0 then
      if |s.ssr.data| == 0 then Success(s.ssr) else Failure(NotFinite)
    else
      Success(Tensor(s.ssr.shape, seq(|s.ssr.data|, k requires 0 <= k < |s.ssr.data| => s.ssr.data[k] / (d as real))))
  }
}
