/** `RunningExpectations`: streaming means of functions of the samples.

    A configuration holds the sample shape S, a nested structure of callables and a
    dtype. The model covers only callables whose output has shape S, the shape of
    the zero leaves the expectation state starts from. The state holds the number of samples seen and, for every
    callable, the running mean of its outputs, in a structure of the same nesting.
    The sample type is a parameter, so nested samples are covered as values. */
module Expectations {
  import opened Wrappers
  import opened DTypes
  import opened Shapes
  import opened Moments
  import opened Samples
  import opened Streams
  import opened Nests

  /** The metadata of a `RunningExpectations` object. */
  datatype Config<!S> = Config(shape: seq<nat>, callables: Nest<S -> seq<real>>, dtype: DType)

  /** `RunningExpectations(shape, callables, dtype)`: an integer dtype is replaced
      by Float32 so that means keep their fractional part. */
  function New<S>(shape: seq<nat>, callables: Nest<S -> seq<real>>, dtype: DType): (c: Config<S>)
    ensures c.shape == shape && c.callables == callables
    ensures !c.dtype.IsInteger()
    ensures !dtype.IsInteger() ==> c.dtype == dtype
    ensures dtype.IsInteger() ==> c.dtype == Float32
  {
    Config(shape, callables, if dtype.IsInteger() then Float32 else dtype)
  }

  /** Every callable returns an array of `width` entries, whatever the sample. */
  ghost predicate Produces<S(!new)>(fns: Nest<S -> seq<real>>, width: nat)
  {
    match fns
    case Leaf(f) => forall x :: |f(x)| == width
    case Node(cs) => forall i :: 0 <= i < |cs| ==> Produces(cs[i], width)
  }

  /** Every leaf has `width` entries. */
  predicate Widths(t: Nest<seq<real>>, width: nat)
  {
    match t
    case Leaf(v) => |v| == width
    case Node(cs) => forall i :: 0 <= i < |cs| ==> Widths(cs[i], width)
  }

  lemma {:induction false} WidthsGet(t: Nest<seq<real>>, width: nat, path: seq<nat>)
    requires Widths(t, width) && Get(t, path).Some?
    ensures |Get(t, path).value| == width
  {
    if |path| > 0 {
      WidthsGet(t.children[path[0]], width, path[1..]);
    }
  }

  /** `RunningExpectationsState(num_samples, expectation)`. */
  datatype State = State(numSamples: nat, expectation: Nest<seq<real>>)

  /** The state has one entry per callable, each of the sample's shape. */
  predicate Fits<S>(c: Config<S>, s: State)
  {
    SameTopology(c.callables, s.expectation) && Widths(s.expectation, Size(c.shape))
  }

  lemma {:induction false} MapZerosWidths<T>(t: Nest<T>, width: nat)
    ensures Widths(Map(t, _ => ZeroSeq(width)), width)
  {
    match t
    case Leaf(_) =>
    case Node(cs) =>
      var z := Map(t, _ => ZeroSeq(width));
      forall i | 0 <= i < |cs|
        ensures Widths(z.children[i], width)
      {
        MapZerosWidths(cs[i], width);
      }
  }

  /** `initialize`: no samples, and zeros of the sample's shape for every callable. */
  function Initialize<S>(c: Config<S>): (s: State)
    ensures Fits(c, s) && s.numSamples == 0
    ensures forall path :: Get(c.callables, path).Some? <==> Get(s.expectation, path).Some?
    ensures forall path :: Get(s.expectation, path).Some? ==> Get(s.expectation, path).value == ZeroSeq(Size(c.shape))
  {
    var zeros := Map(c.callables, _ => ZeroSeq(Size(c.shape)));
    MapZerosWidths(c.callables, Size(c.shape));
    forall path
      ensures Get(c.callables, path).Some? <==> Get(zeros, path).Some?
      ensures Get(zeros, path).Some? ==> Get(zeros, path).value == ZeroSeq(Size(c.shape))
    {
      MapGet(c.callables, _ => ZeroSeq(Size(c.shape)), path);
    }
    State(0, zeros)
  }

  // ----- update

  /** The outputs of `f` on every sample of a chunk. */
  function Outputs<S(!new)>(f: S -> seq<real>, xs: seq<S>, width: nat): (ys: seq<seq<real>>)
    requires forall x :: |f(x)| == width
    ensures |ys| == |xs| && Rectangular(ys, width)
    ensures forall t :: 0 <= t < |xs| ==> ys[t] == f(xs[t])
  {
    seq(|xs|, t requires 0 <= t < |xs| => f(xs[t]))
  }

  /** The entrywise mean of `f` over the samples (zero for no samples). */
  function Average<S(!new)>(f: S -> seq<real>, xs: seq<S>, width: nat): (m: seq<real>)
    requires forall x :: |f(x)| == width
    ensures |m| == width
  {
    ColumnMeans(Outputs(f, xs, width), width)
  }

  /** The chunk mean one callable contributes: its output on a single sample, or
      the mean of its outputs over a chunk. */
  function ChunkMean<S(!new)>(f: S -> seq<real>, o: Observation<S>, width: nat): (m: seq<real>)
    requires forall x :: |f(x)| == width
    ensures |m| == width
  {
    match o
    case Single(x) => f(x)
    case Chunk(xs) => Average(f, xs, width)
  }

  /** `_update_for_one_fn`: prior + chunk_n · (chunk_mean − prior) / new_n, entrywise. */
  function MergeLeaf(prior: seq<real>, cmean: seq<real>, n: nat, cn: nat): (r: seq<real>)
    requires |prior| == |cmean| && n + cn > 0
    ensures |r| == |prior|
    ensures forall i :: 0 <= i < |r| ==> r[i] == MergeMean(n, cn, prior[i], cmean[i])
  {
    seq(|prior|, i requires 0 <= i < |prior| => MergeMean(n, cn, prior[i], cmean[i]))
  }

  /** `nest.map_structure_up_to(callables, _update_for_one_fn, expectation, ...)`. */
  function UpdateNest<S(!new)>(fns: Nest<S -> seq<real>>, exp: Nest<seq<real>>, width: nat, n: nat, o: Observation<S>)
    : (r: Nest<seq<real>>)
    requires SameTopology(fns, exp) && Produces(fns, width) && Widths(exp, width)
    requires |Observed(o)| > 0
    ensures SameTopology(fns, r) && Widths(r, width)
  {
    match fns
    case Leaf(f) => Leaf(MergeLeaf(exp.value, ChunkMean(f, o, width), n, |Observed(o)|))
    case Node(fs) =>
      Node(seq(|fs|, i requires 0 <= i < |fs| => UpdateNest(fs[i], exp.children[i], width, n, o)))
  }

  /** At every callable's path, the updated state holds that callable's merge. */
  lemma {:induction false} UpdateNestAt<S(!new)>(fns: Nest<S -> seq<real>>, exp: Nest<seq<real>>, width: nat, n: nat,
                                           o: Observation<S>, path: seq<nat>)
    requires SameTopology(fns, exp) && Produces(fns, width) && Widths(exp, width)
    requires |Observed(o)| > 0 && Get(fns, path).Some?
    ensures Get(exp, path).Some? && |Get(exp, path).value| == width
    ensures forall x :: |Get(fns, path).value(x)| == width
    ensures Get(UpdateNest(fns, exp, width, n, o), path)
         == Some(MergeLeaf(Get(exp, path).value, ChunkMean(Get(fns, path).value, o, width), n, |Observed(o)|))
  {
    if |path| > 0 {
      var i := path[0];
      UpdateNestAt(fns.children[i], exp.children[i], width, n, o, path[1..]);
    }
  }

  /** The updated structure has a leaf at exactly the paths where the callables do. */
  lemma {:induction false} UpdateNestPaths<S(!new)>(fns: Nest<S -> seq<real>>, exp: Nest<seq<real>>, width: nat, n: nat,
                                                    o: Observation<S>, path: seq<nat>)
    requires SameTopology(fns, exp) && Produces(fns, width) && Widths(exp, width)
    requires |Observed(o)| > 0
    ensures Get(UpdateNest(fns, exp, width, n, o), path).Some? <==> Get(fns, path).Some?
  {
    SameTopologyGet(fns, UpdateNest(fns, exp, width, n, o), path);
  }

  /** `update(state, new_sample, axis)`. Every callable shares chunk_n. An empty
      chunk has no mean, so it leaves NaN in every entry of every callable (None);
      with no callables or no entries nothing changes. */
  function Update<S(!new)>(c: Config<S>, s: State, o: Observation<S>): (r: Option<State>)
    requires Fits(c, s) && Produces(c.callables, Size(c.shape))
    ensures r.None? <==> |Observed(o)| == 0 && Size(c.shape) > 0 && HasLeaf(c.callables)
    ensures r.Some? ==> Fits(c, r.value) && r.value.numSamples == s.numSamples + |Observed(o)|
  {
    if |Observed(o)| == 0 then
      if Size(c.shape) > 0 && HasLeaf(c.callables) then None else Some(s)
    else
      Some(State(s.numSamples + |Observed(o)|,
                 UpdateNest(c.callables, s.expectation, Size(c.shape), s.numSamples, o)))
  }

  /** `finalize(state)`: the running means themselves. */
  function Finalize<S>(c: Config<S>, s: State): (r: Nest<seq<real>>)
    requires Fits(c, s)
    ensures SameTopology(c.callables, r) && Widths(r, Size(c.shape))
  {
    s.expectation
  }
}
