/** What one `update` call is fed, and the stream of samples a run of calls sees.

    Both running statistics take either one sample (`axis=None`) or a chunk of
    samples stacked along an axis; a sequence of calls feeds the concatenation of
    everything it was given. The sample type is a parameter: flat arrays for the
    covariance, any (possibly nested) value the callables accept for the
    expectations. */
module Streams {

  /** The `new_sample` argument of one `update` call. */
  datatype Observation<S> = Single(sample: S) | Chunk(samples: seq<S>)

  /** The samples an observation contributes, in order. */
  function Observed<S>(o: Observation<S>): (xs: seq<S>)
    ensures o.Single? ==> xs == [o.sample]
    ensures o.Chunk? ==> xs == o.samples
  {
    match o
    case Single(x) => [x]
    case Chunk(xs) => xs
  }

  /** The samples of a sequence of observations, in order. */
  function AllObserved<S>(obs: seq<Observation<S>>): seq<S>
  {
    if |obs| == 0 then [] else AllObserved(obs[..|obs| - 1]) + Observed(obs[|obs| - 1])
  }

  lemma AllObservedSnoc<S>(obs: seq<Observation<S>>)
    requires |obs| > 0
    ensures AllObserved(obs) == AllObserved(obs[..|obs| - 1]) + Observed(obs[|obs| - 1])
  {
  }

  lemma AllObservedOne<S>(o: Observation<S>)
    ensures AllObserved([o]) == Observed(o)
  {
    assert [o][..0] == [];
    assert [] + Observed(o) == Observed(o);
  }

  lemma AppendAssociative<S>(a: seq<S>, b: seq<S>, d: seq<S>)
    ensures a + (b + d) == (a + b) + d
  {
  }

  /** Some observation of the sequence is an empty chunk. */
  predicate HasEmptyChunk<S>(obs: seq<Observation<S>>)
  {
    exists j :: 0 <= j < |obs| && obs[j] == Chunk([])
  }

  lemma HasEmptyChunkSnoc<S>(obs: seq<Observation<S>>)
    requires |obs| > 0
    ensures HasEmptyChunk(obs) <==> HasEmptyChunk(obs[..|obs| - 1]) || obs[|obs| - 1] == Chunk([])
  {
    if HasEmptyChunk(obs) {
      var j :| 0 <= j < |obs| && obs[j] == Chunk([]);
      if j < |obs| - 1 {
        assert obs[..|obs| - 1][j] == Chunk([]);
      }
    }
    if HasEmptyChunk(obs[..|obs| - 1]) {
      var j :| 0 <= j < |obs| - 1 && obs[..|obs| - 1][j] == Chunk([]);
      assert obs[j] == Chunk([]);
    }
  }

  /** The samples of a chunk fed one `update` call each. */
  function Singles<S>(xs: seq<S>): (obs: seq<Observation<S>>)
    ensures |obs| == |xs|
    ensures forall t :: 0 <= t < |xs| ==> obs[t] == Single(xs[t])
  {
    seq(|xs|, t requires 0 <= t < |xs| => Single(xs[t]))
  }

  /** Feeding a chunk one sample at a time feeds the same samples in the same order. */
  lemma {:induction false} AllObservedSingles<S>(xs: seq<S>)
    ensures AllObserved(Singles(xs)) == xs
  {
    if |xs| > 0 {
      var init := xs[..|xs| - 1];
      assert Singles(xs)[..|xs| - 1] == Singles(init);
      AllObservedSingles(init);
      assert init + [xs[|xs| - 1]] == xs;
    }
  }

  lemma NoEmptyChunkInSingles<S>(xs: seq<S>)
    ensures !HasEmptyChunk(Singles(xs))
  {
  }
}
