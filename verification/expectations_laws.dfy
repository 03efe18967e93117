/** What the running expectations compute, stated against a direct definition.

    `Expected(fns, xs, w)` is the structure a batch computation over the whole
    run `xs` would give: for every callable, the entrywise mean of its outputs on
    the samples. Starting from `initialize`, every successful sequence of updates
    reaches exactly that structure, however the samples were chunked. */
module ExpectationsLaws {
  import opened Wrappers
  import opened Shapes
  import opened Moments
  import opened Samples
  import opened Streams
  import opened Nests
  import opened Expectations

  // ----- the reference structure

  /** For every callable, the mean of its outputs over the run. */
  function Expected<S(!new)>(fns: Nest<S -> seq<real>>, xs: seq<S>, width: nat): (r: Nest<seq<real>>)
    requires Produces(fns, width)
    ensures SameTopology(fns, r) && Widths(r, width)
  {
    match fns
    case Leaf(f) => Leaf(Average(f, xs, width))
    case Node(cs) => Node(seq(|cs|, i requires 0 <= i < |cs| => Expected(cs[i], xs, width)))
  }

  lemma {:induction false} ProducesGet<S(!new)>(fns: Nest<S -> seq<real>>, width: nat, path: seq<nat>)
    requires Produces(fns, width) && Get(fns, path).Some?
    ensures forall x :: |Get(fns, path).value(x)| == width
  {
    if |path| > 0 {
      ProducesGet(fns.children[path[0]], width, path[1..]);
    }
  }

  /** At the path of every callable, the reference holds the mean of that callable's
      outputs; there is nothing at any other path. */
  lemma {:induction false} ExpectedAt<S(!new)>(fns: Nest<S -> seq<real>>, xs: seq<S>, width: nat, path: seq<nat>)
    requires Produces(fns, width)
    ensures Get(fns, path).None? ==> Get(Expected(fns, xs, width), path).None?
    ensures Get(fns, path).Some? ==> forall x :: |Get(fns, path).value(x)| == width
    ensures Get(fns, path).Some? ==>
      Get(Expected(fns, xs, width), path) == Some(Average(Get(fns, path).value, xs, width))
  {
    if Get(fns, path).Some? {
      ProducesGet(fns, width, path);
    }
    if |path| > 0 && fns.Node? && path[0] < |fns.children| {
      ExpectedAt(fns.children[path[0]], xs, width, path[1..]);
    }
  }

  /** The batch state of the run `xs`. */
  function Stats<S(!new)>(c: Config<S>, xs: seq<S>): (s: State)
    requires Produces(c.callables, Size(c.shape))
    ensures Fits(c, s) && s.numSamples == |xs|
  {
    State(|xs|, Expected(c.callables, xs, Size(c.shape)))
  }

  // ----- no samples

  lemma AverageEmpty<S(!new)>(f: S -> seq<real>, width: nat)
    requires forall x :: |f(x)| == width
    ensures Average(f, [], width) == ZeroSeq(width)
  {
    var a := Average(f, [], width);
    forall i | 0 <= i < width
      ensures a[i] == 0.0
    {
      assert Column(Outputs(f, [], width), i) == [];
    }
  }

  lemma {:induction false} ExpectedEmpty<S(!new)>(fns: Nest<S -> seq<real>>, width: nat)
    requires Produces(fns, width)
    ensures Expected(fns, [], width) == Map(fns, _ => ZeroSeq(width))
  {
    match fns
    case Leaf(f) =>
      AverageEmpty(f, width);
    case Node(cs) =>
      var e, z := Expected(fns, [], width), Map(fns, _ => ZeroSeq(width));
      forall i | 0 <= i < |cs|
        ensures e.children[i] == z.children[i]
      {
        ExpectedEmpty(cs[i], width);
      }
      assert e.children == z.children;
  }

  /** The empty run is the state `initialize` builds. */
  lemma StatsEmpty<S(!new)>(c: Config<S>)
    requires Produces(c.callables, Size(c.shape))
    ensures Stats(c, []) == Initialize(c)
  {
    ExpectedEmpty(c.callables, Size(c.shape));
  }

  // ----- one update

  lemma OutputsAppend<S(!new)>(f: S -> seq<real>, ys: seq<S>, xs: seq<S>, width: nat)
    requires forall x :: |f(x)| == width
    ensures Outputs(f, ys + xs, width) == Outputs(f, ys, width) + Outputs(f, xs, width)
  {
  }

  /** A callable's contribution from a single sample is its mean over a run of one. */
  lemma ChunkMeanIsAverage<S(!new)>(f: S -> seq<real>, o: Observation<S>, width: nat)
    requires forall x :: |f(x)| == width
    ensures ChunkMean(f, o, width) == Average(f, Observed(o), width)
  {
    if o.Single? {
      var v, a := f(o.sample), Average(f, [o.sample], width);
      forall i | 0 <= i < width
        ensures a[i] == v[i]
      {
        assert Column(Outputs(f, [o.sample], width), i) == [v[i]];
        Singleton(v[i], v[i]);
      }
    }
  }

  /** Merging the mean over `ys` with a non-empty observation gives the mean over
      ys followed by the observed samples. */
  lemma AverageMerge<S(!new)>(f: S -> seq<real>, ys: seq<S>, o: Observation<S>, width: nat)
    requires forall x :: |f(x)| == width
    requires |Observed(o)| > 0
    ensures MergeLeaf(Average(f, ys, width), ChunkMean(f, o, width), |ys|, |Observed(o)|)
         == Average(f, ys + Observed(o), width)
  {
    var xs := Observed(o);
    ChunkMeanIsAverage(f, o, width);
    OutputsAppend(f, ys, xs, width);
    var oy, ox := Outputs(f, ys, width), Outputs(f, xs, width);
    var merged := MergeLeaf(Average(f, ys, width), ChunkMean(f, o, width), |ys|, |xs|);
    var target := Average(f, ys + xs, width);
    forall i | 0 <= i < width
      ensures merged[i] == target[i]
    {
      ColumnAppend(oy, ox, width, i);
      MeanMerge(Column(oy, i), Column(ox, i), |ys|, |xs|);
    }
  }

  /** Updating the reference structure of `ys` gives the reference structure of ys
      followed by the observed samples. */
  lemma {:induction false} UpdateNestExpected<S(!new)>(fns: Nest<S -> seq<real>>, ys: seq<S>, o: Observation<S>, width: nat)
    requires Produces(fns, width) && |Observed(o)| > 0
    ensures UpdateNest(fns, Expected(fns, ys, width), width, |ys|, o) == Expected(fns, ys + Observed(o), width)
  {
    match fns
    case Leaf(f) =>
      AverageMerge(f, ys, o, width);
    case Node(cs) =>
      var u := UpdateNest(fns, Expected(fns, ys, width), width, |ys|, o);
      var e := Expected(fns, ys + Observed(o), width);
      forall i | 0 <= i < |cs|
        ensures u.children[i] == e.children[i]
      {
        UpdateNestExpected(cs[i], ys, o, width);
      }
      assert u.children == e.children;
  }

  /** One update of the batch state of `ys`: it fails exactly on an empty chunk when
      some callable has entries, and otherwise gives the batch state of ys followed
      by the observed samples. */
  lemma UpdateStats<S(!new)>(c: Config<S>, ys: seq<S>, o: Observation<S>)
    requires Produces(c.callables, Size(c.shape))
    ensures Update(c, Stats(c, ys), o).None? <==> o == Chunk([]) && Size(c.shape) > 0 && HasLeaf(c.callables)
    ensures Update(c, Stats(c, ys), o).Some? ==> Update(c, Stats(c, ys), o).value == Stats(c, ys + Observed(o))
  {
    if |Observed(o)| == 0 {
      assert ys + Observed(o) == ys;
    } else {
      UpdateNestExpected(c.callables, ys, o, Size(c.shape));
    }
  }

  /** An unchunked update of any state is a chunked update with a chunk of one. */
  lemma {:induction false} UnchunkedNest<S(!new)>(fns: Nest<S -> seq<real>>, exp: Nest<seq<real>>, width: nat, n: nat, x: S)
    requires SameTopology(fns, exp) && Produces(fns, width) && Widths(exp, width)
    ensures UpdateNest(fns, exp, width, n, Single(x)) == UpdateNest(fns, exp, width, n, Chunk([x]))
  {
    match fns
    case Leaf(f) =>
      ChunkMeanIsAverage(f, Single(x), width);
    case Node(cs) =>
      var a, b := UpdateNest(fns, exp, width, n, Single(x)), UpdateNest(fns, exp, width, n, Chunk([x]));
      forall i | 0 <= i < |cs|
        ensures a.children[i] == b.children[i]
      {
        UnchunkedNest(cs[i], exp.children[i], width, n, x);
      }
      assert a.children == b.children;
  }

  lemma UnchunkedIsChunkOfOne<S(!new)>(c: Config<S>, s: State, x: S)
    requires Fits(c, s) && Produces(c.callables, Size(c.shape))
    ensures Update(c, s, Single(x)) == Update(c, s, Chunk([x]))
    ensures Update(c, s, Single(x)).Some?
  {
    UnchunkedNest(c.callables, s.expectation, Size(c.shape), s.numSamples, x);
  }

  // ----- runs of updates

  /** Feeding the observations one `update` call at a time; the first failure stops
      the run. */
  function RunFrom<S(!new)>(c: Config<S>, s: State, obs: seq<Observation<S>>): (r: Option<State>)
    requires Fits(c, s) && Produces(c.callables, Size(c.shape))
    ensures r.Some? ==> Fits(c, r.value)
  {
    if |obs| == 0 then Some(s)
    else
      match RunFrom(c, s, obs[..|obs| - 1])
      case None => None
      case Some(t) => Update(c, t, obs[|obs| - 1])
  }

  /** `initialize` followed by the updates. */
  function Run<S(!new)>(c: Config<S>, obs: seq<Observation<S>>): (r: Option<State>)
    requires Produces(c.callables, Size(c.shape))
    ensures r.Some? ==> Fits(c, r.value)
  {
    RunFrom(c, Initialize(c), obs)
  }

  /** From the batch state of `ys`, a run fails exactly when it meets an empty chunk
      while some callable has entries, and otherwise reaches the batch state of ys
      followed by everything it was fed. */
  lemma {:induction false} RunFromStats<S(!new)>(c: Config<S>, ys: seq<S>, obs: seq<Observation<S>>)
    requires Produces(c.callables, Size(c.shape))
    ensures RunFrom(c, Stats(c, ys), obs).None? <==> HasEmptyChunk(obs) && Size(c.shape) > 0 && HasLeaf(c.callables)
    ensures RunFrom(c, Stats(c, ys), obs).Some? ==>
      RunFrom(c, Stats(c, ys), obs).value == Stats(c, ys + AllObserved(obs))
  {
    if |obs| == 0 {
      assert ys + [] == ys;
    } else {
      var init, o := obs[..|obs| - 1], obs[|obs| - 1];
      RunFromStats(c, ys, init);
      HasEmptyChunkSnoc(obs);
      var before := ys + AllObserved(init);
      AllObservedSnoc(obs);
      AppendAssociative(ys, AllObserved(init), Observed(o));
      UpdateStats(c, before, o);
    }
  }

  /** The running invariant: after `initialize` and any updates, every callable's
      entry is the mean of its outputs over all samples fed so far; the run fails
      only on an empty chunk while some callable has entries. */
  lemma RunningInvariant<S(!new)>(c: Config<S>, obs: seq<Observation<S>>)
    requires Produces(c.callables, Size(c.shape))
    ensures Run(c, obs).None? <==> HasEmptyChunk(obs) && Size(c.shape) > 0 && HasLeaf(c.callables)
    ensures Run(c, obs).Some? ==> Run(c, obs).value == Stats(c, AllObserved(obs))
  {
    StatsEmpty(c);
    RunFromStats(c, [], obs);
    assert [] + AllObserved(obs) == AllObserved(obs);
  }

  /** Chunk invariance: from any state a run can reach, one chunked update of a
      non-empty chunk gives the same result as feeding its samples one at a time. */
  lemma ChunkInvariance<S(!new)>(c: Config<S>, obs: seq<Observation<S>>, xs: seq<S>)
    requires Produces(c.callables, Size(c.shape)) && |xs| > 0
    requires Run(c, obs).Some?
    ensures RunFrom(c, Run(c, obs).value, [Chunk(xs)]) == RunFrom(c, Run(c, obs).value, Singles(xs))
    ensures RunFrom(c, Run(c, obs).value, [Chunk(xs)]).Some?
  {
    RunningInvariant(c, obs);
    var ys := AllObserved(obs);
    var one := [Chunk(xs)];
    assert !HasEmptyChunk(one);
    AllObservedOne(Chunk(xs));
    RunFromStats(c, ys, one);
    AllObservedSingles(xs);
    NoEmptyChunkInSingles(xs);
    RunFromStats(c, ys, Singles(xs));
  }

  // ----- finalize

  /** Finalizing after any successful run gives, for every callable, the mean of its
      outputs over all samples fed; with no samples, zeros of the sample's shape. */
  lemma FinalizeRun<S(!new)>(c: Config<S>, obs: seq<Observation<S>>, path: seq<nat>)
    requires Produces(c.callables, Size(c.shape)) && Run(c, obs).Some?
    requires Get(c.callables, path).Some?
    ensures forall x :: |Get(c.callables, path).value(x)| == Size(c.shape)
    ensures Get(Finalize(c, Run(c, obs).value), path)
         == Some(Average(Get(c.callables, path).value, AllObserved(obs), Size(c.shape)))
    ensures AllObserved(obs) == [] ==> Get(Finalize(c, Run(c, obs).value), path) == Some(ZeroSeq(Size(c.shape)))
  {
    RunningInvariant(c, obs);
    ExpectedAt(c.callables, AllObserved(obs), Size(c.shape), path);
    AverageEmpty(Get(c.callables, path).value, Size(c.shape));
  }
}
