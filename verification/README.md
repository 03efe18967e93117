# Streaming sample statistics

A Dafny model of the streaming statistics in TensorFlow Probability's
`tensorflow_probability/python/experimental/stats/sample_stats.py`. The file covers:

- `RunningCovariance`: a running mean and a running sum of squared residuals
  for samples of a fixed shape S. The last `event_ndims` dimensions form the
  event shape E and the rest form the batch shape B. `finalize` divides the
  residual sums, of shape B + E + E, by `num_samples − ddof`.
- `RunningVariance`: the same computation with `event_ndims = 0`.
- `RunningExpectations`: a running mean of the outputs of a nested structure
  of callables.

All three are immutable metadata objects. `initialize` builds a state, `update`
folds one sample or a chunk of samples into it using Pébay's merge formulas,
and `finalize` reads the estimate off the state.

Layout of the model:

- `shapes.dfy`, `tensors.dfy`: arrays as flat row-major `seq<real>` with a shape.
  Also multi-index flattening, and batch and event shapes.
- `moments.dfy`: sums, means and co-moments of columns, with the scalar merge
  laws for the mean and the co-moment.
- `samples.dfy`: a sequence of samples viewed as a matrix, with its columns and
  column means.
- `outer.dfy` (module `OuterProduct`): `_batch_outer_product`, on flat data and
  on multi-indices.
- `residuals.dfy`: the chunk term Σₜ (xₜ − m) ⊗ (xₜ − m).
- `streams.dfy`: one `update` argument (a single sample or a chunk), and the
  samples a sequence of calls feeds.
- `nests.dfy`: nested structures of values, with `map_structure` and paths to
  leaves.
- `covariance.dfy`: construction, `initialize`, `update` and `finalize` of
  `RunningCovariance` and `RunningVariance`.
- `covariance_laws.dfy`: the reference state `Stats(c, xs)`, a direct batch
  computation over all samples. It proves that every run of updates reaches
  `Stats` of the samples it was fed, however they were chunked.
- `expectations.dfy`, `expectations_laws.dfy`: the same for
  `RunningExpectations`, against the reference "mean of each callable over all
  samples".
- `examples.dfy`: concrete instances. Over the samples 1, 2, 3, 4, 5 the
  variance has mean 3, population variance 2 and sample variance 2.5. The vectors (1, 0), (0, 1), (1, 1)
  have covariance matrix [[2/9, −1/9], [−1/9, 2/9]]. For E[x] and E[x²] over
  1, 2, 3 the result is 2 and 14/3.

Real numbers are exact here. A value that the source computes as an infinity or
a NaN is modelled as an error result: `Failure(NotFinite)` for the covariance
and `None` for the expectations.

Two behaviours of the code that its docstrings do not spell out, modelled as the
code has them:

- `event_ndims` counts inner-most dimensions, and the constructor raises only
  when it exceeds the rank or 13. It has no lower bound, so negative values get
  through (see Findings).
- `finalize` divides `ssr / (num_samples − ddof)` without a guard. The result is
  non-finite only when the divisor is zero (and there are entries). For
  `num_samples < ddof` it gives finite values of the opposite sign.
  `Covariance.Finalize` fails exactly when the divisor is zero.

## Model

| member | source | states |
|---|---|---|
| Covariance.ValidatedEventNdims | tensorflow_probability/python/experimental/stats/sample_stats.py:155-161 | The constructor as written: `None` defaults to the rank of the shape. A value above the rank fails with ExceedsRank, a value above 13 fails with Unsupported, and every other value, negatives included, is accepted unchanged. |
| Covariance.New | tensorflow_probability/python/experimental/stats/sample_stats.py:155-164 | The corrected constructor succeeds if and only if 0 <= event_ndims <= rank and event_ndims <= 13. It keeps shape, dtype and event_ndims. It fails with NegativeEventNdims exactly when the as-written validation accepted the value, and otherwise with the same error that validation gives. |
| Covariance.NewVariance | tensorflow_probability/python/experimental/stats/sample_stats.py:263-275 | `RunningVariance(shape, dtype)` always succeeds, and it is the covariance configuration with event_ndims = 0. |
| Covariance.PySliceFrom | tensorflow_probability/python/experimental/stats/sample_stats.py:179 | Python's `s[i:]` is a suffix of s. A start at or past the end gives an empty suffix. A negative start of magnitude up to the length gives the last −i entries, and a larger magnitude gives all of s. |
| Covariance.ResidualShapeIsOuterShape | tensorflow_probability/python/experimental/stats/sample_stats.py:176-185 | For a valid configuration the residual shape is S + E. This equals the shape of the outer products added into it, and it is S itself when e = 0. Without the special case it would have been S + S. |
| Covariance.NegativeEventNdimsAccepted | tensorflow_probability/python/experimental/stats/sample_stats.py:155-185 | For −rank < e < 0 the as-written validation accepts e. `initialize` then allocates residual sums of rank 2·rank + e, while the outer product returns shape S. The corrected constructor rejects e. |
| Covariance.NewShapesAgree | tensorflow_probability/python/experimental/stats/sample_stats.py:155-185 | Every configuration the corrected constructor builds allocates residual sums of exactly the shape of the outer products. |
| Covariance.Initialize | tensorflow_probability/python/experimental/stats/sample_stats.py:166-185 | The state has zero samples, a zero mean of shape S and zero residual sums of shape S + E. |
| OuterProduct.BatchOuterProduct | tensorflow_probability/python/experimental/stats/sample_stats.py:76-106 | The result of `_batch_outer_product` has shape B + E + E. |
| OuterProduct.BatchOuterProductAt | tensorflow_probability/python/experimental/stats/sample_stats.py:76-106 | Entry [b, i, j] of the result is target[b, i] · target[b, j], for every batch multi-index b and event multi-indices i, j. |
| OuterProduct.BatchOuterProductEntry | tensorflow_probability/python/experimental/stats/sample_stats.py:76-106 | The same statement written with the plain product of the two entries. |
| OuterProduct.OuterEntry | tensorflow_probability/python/experimental/stats/sample_stats.py:82-87 | The same statement on flat row-major data. |
| OuterProduct.OuterSymmetric | tensorflow_probability/python/experimental/stats/sample_stats.py:84-87 | The outer product is symmetric in its two event index blocks. |
| OuterProduct.OuterScalarEvent | tensorflow_probability/python/experimental/stats/sample_stats.py:82-83 | With no event dimensions the product is the entrywise square. |
| Residuals.ResidualSumEntry | tensorflow_probability/python/experimental/stats/sample_stats.py:52-56 | Entry k of Σₜ (xₜ − m) ⊗ (xₜ − m) is the co-sum of the two sample columns that k pairs up, taken about the entries of m. |
| Residuals.ChunkResidualEntry | tensorflow_probability/python/experimental/stats/sample_stats.py:50-56 | About the chunk's own mean, entry k of the chunk term is the co-moment of those two columns. |
| Moments.MeanMerge | tensorflow_probability/python/experimental/stats/sample_stats.py:64-66 | The update `mean + chunk_n · (chunk_mean − mean) / new_n` yields the mean of the concatenated samples. |
| Moments.CoMomentMerge | tensorflow_probability/python/experimental/stats/sample_stats.py:64-72 | The update `ssr + chunk_ssr + (n · chunk_n / new_n) · δ ⊗ δ` yields the co-moment of the concatenated samples, including when the prior run is empty. |
| Moments.CoMomentSymmetric | tensorflow_probability/python/experimental/stats/sample_stats.py:84-87 | Co-moments are symmetric in their two arguments. |
| Moments.CoMomentSelfNonNegative | tensorflow_probability/python/experimental/stats/sample_stats.py:124-126 | A column's co-moment with itself (its sum of squared deviations) is never negative. |
| Covariance.Merge | tensorflow_probability/python/experimental/stats/sample_stats.py:64-73 | The merged state keeps the configured shapes and counts n + chunk_n samples. |
| Covariance.MergeChunk | tensorflow_probability/python/experimental/stats/sample_stats.py:49-56 | The merge with a non-empty chunk keeps the configured shapes and counts n + |chunk| samples. |
| Covariance.Update | tensorflow_probability/python/experimental/stats/sample_stats.py:44-73 | `update` fails with NotFinite exactly for an empty chunk of samples that have entries. Otherwise the state keeps its shapes and gains as many samples as were observed. |
| CovarianceLaws.StatsEmpty | tensorflow_probability/python/experimental/stats/sample_stats.py:166-185 | The batch statistics of no samples are the state `initialize` builds. |
| CovarianceLaws.StatsResiduals | tensorflow_probability/python/experimental/stats/sample_stats.py:52-56 | The reference residual sums are Σₜ (xₜ − mean) ⊗ (xₜ − mean), the chunk term of the source about the samples' own mean. |
| CovarianceLaws.MergeMatchesStats | tensorflow_probability/python/experimental/stats/sample_stats.py:44-73 | Updating the batch statistics of ys with a non-empty chunk xs gives the batch statistics of ys + xs. |
| CovarianceLaws.UnchunkedIsChunkOfOne | tensorflow_probability/python/experimental/stats/sample_stats.py:57-66 | An update with `axis=None` equals a chunked update with a chunk of one sample, from any state. It always succeeds, and the new mean is mean + (x − mean)/(n + 1). |
| CovarianceLaws.UpdateStats | tensorflow_probability/python/experimental/stats/sample_stats.py:187-232 | From the batch statistics of ys, one update fails exactly on an empty chunk of samples with entries. Otherwise it gives the batch statistics of ys followed by the observed samples. |
| CovarianceLaws.RunFromStats | tensorflow_probability/python/experimental/stats/sample_stats.py:187-232 | From the batch statistics of ys, any sequence of updates fails exactly when it contains an empty chunk and samples have entries. Otherwise it reaches the batch statistics of ys followed by everything fed. |
| CovarianceLaws.RunningInvariant | tensorflow_probability/python/experimental/stats/sample_stats.py:166-232 | After `initialize` and any updates, the state holds the number of samples, their mean and Σ (xₜ − mean) ⊗ (xₜ − mean) over all samples fed. The run fails only on an empty chunk of samples with entries. |
| CovarianceLaws.ChunkInvariance | tensorflow_probability/python/experimental/stats/sample_stats.py:190-195 | From any reachable state, one chunked update of a non-empty chunk gives the same state as feeding its samples one `update` call each. |
| CovarianceLaws.StatsAt | tensorflow_probability/python/experimental/stats/sample_stats.py:117-132 | Residual entry (b, i, j) of the batch statistics is the co-moment of sample entries (b, i) and (b, j). There are no cross terms between batch members. |
| CovarianceLaws.StatsSymmetric | tensorflow_probability/python/experimental/stats/sample_stats.py:127-132 | The residual sums are symmetric: entry (b, i, j) equals entry (b, j, i). |
| CovarianceLaws.StatsDiagonalNonNegative | tensorflow_probability/python/experimental/stats/sample_stats.py:127-132 | Diagonal residual entries (b, i, i) are never negative. |
| CovarianceLaws.VarianceNonNegative | tensorflow_probability/python/experimental/stats/sample_stats.py:124-126 | With event_ndims = 0 the residual sums have the sample's shape, and every entry is non-negative. |
| Covariance.Finalize | tensorflow_probability/python/experimental/stats/sample_stats.py:234-247 | `finalize` is non-finite exactly when num_samples = ddof and there are entries. Otherwise the result has the residual shape, and each entry times (num_samples − ddof) is the residual sum. |
| CovarianceLaws.FinalizeStats | tensorflow_probability/python/experimental/stats/sample_stats.py:234-247 | Finalizing the batch statistics of n samples gives at entry k the co-moment of the two columns k pairs up, divided by n − ddof: the population covariance for ddof = 0 and the sample covariance for ddof = 1. |
| Expectations.New | tensorflow_probability/python/experimental/stats/sample_stats.py:307-323 | The constructor keeps shape and callables. An integer dtype becomes float32, and every other dtype is kept. |
| Expectations.Initialize | tensorflow_probability/python/experimental/stats/sample_stats.py:325-336 | Zero samples. There is a leaf at exactly the paths where the callables have one, and every leaf is zeros of the sample's shape. |
| Expectations.UpdateNestAt | tensorflow_probability/python/experimental/stats/sample_stats.py:400-409 | At the path of every callable, the updated structure holds that callable's merge of its running mean with its own chunk mean. Every callable sees the same sample and chunk size. |
| Expectations.UpdateNestPaths | tensorflow_probability/python/experimental/stats/sample_stats.py:400-409 | The updated structure has a leaf at exactly the paths where the callables have one, so no callable's mean is dropped and none is invented. |
| Expectations.Update | tensorflow_probability/python/experimental/stats/sample_stats.py:338-410 | `update` yields no state exactly for an empty chunk when samples have entries and there is a callable. Otherwise the structure keeps its topology and widths, and the count grows by the number of observed samples. |
| Expectations.Finalize | tensorflow_probability/python/experimental/stats/sample_stats.py:412-425 | `finalize` returns a structure of the callables' topology, each leaf of the sample's shape. |
| ExpectationsLaws.ExpectedAt | tensorflow_probability/python/experimental/stats/sample_stats.py:282-289 | The reference structure has a leaf exactly where the callables do, holding the mean of that callable's outputs over the samples. |
| ExpectationsLaws.StatsEmpty | tensorflow_probability/python/experimental/stats/sample_stats.py:325-336 | The reference state of no samples is the state `initialize` builds. |
| ExpectationsLaws.ChunkMeanIsAverage | tensorflow_probability/python/experimental/stats/sample_stats.py:375-393 | A callable's chunk mean is the mean of its outputs over the observed samples. For a single sample this is its output on that sample. |
| ExpectationsLaws.AverageMerge | tensorflow_probability/python/experimental/stats/sample_stats.py:394-398 | Merging a callable's mean over ys with its chunk mean gives its mean over ys followed by the chunk. |
| ExpectationsLaws.UpdateNestExpected | tensorflow_probability/python/experimental/stats/sample_stats.py:400-409 | Updating the reference structure of ys with a non-empty observation gives the reference structure of ys followed by the observed samples. |
| ExpectationsLaws.UpdateStats | tensorflow_probability/python/experimental/stats/sample_stats.py:338-410 | One update of the reference state of ys fails exactly on an empty chunk, when samples have entries and a callable exists. Otherwise it gives the reference state of ys followed by the observed samples. |
| ExpectationsLaws.UnchunkedIsChunkOfOne | tensorflow_probability/python/experimental/stats/sample_stats.py:367-393 | An update with `axis=None` equals a chunked update with a chunk of one sample, from any state, and it always succeeds. |
| ExpectationsLaws.RunFromStats | tensorflow_probability/python/experimental/stats/sample_stats.py:338-410 | From the reference state of ys, a sequence of updates fails exactly when it meets an empty chunk (given entries and callables). Otherwise it reaches the reference state of ys followed by everything fed. |
| ExpectationsLaws.RunningInvariant | tensorflow_probability/python/experimental/stats/sample_stats.py:325-410 | After `initialize` and any updates, the state holds the sample count and, for every callable, the mean of its outputs over all samples fed. |
| ExpectationsLaws.ChunkInvariance | tensorflow_probability/python/experimental/stats/sample_stats.py:291-295 | From any reachable state, one chunked update gives the same state as feeding the chunk's samples one call each. |
| ExpectationsLaws.FinalizeRun | tensorflow_probability/python/experimental/stats/sample_stats.py:412-425 | After any successful run, `finalize` holds at every callable's path the mean of its outputs over all samples fed. With no samples it holds zeros. |
| Nests.MapGet | tensorflow_probability/python/experimental/stats/sample_stats.py:333-335 | `map_structure(f, t)` keeps the paths of t, and its leaf at each path is f applied to the leaf of t there. |
| Nests.SameTopologyGet | tensorflow_probability/python/experimental/stats/sample_stats.py:405-409 | Structures of the same nesting have leaves at the same paths. |
| Streams.AllObservedSingles | tensorflow_probability/python/experimental/stats/sample_stats.py:217-219 | Feeding a chunk one sample per call feeds the same samples in the same order. |
| Examples.StatsOfOneToFive | tensorflow_probability/python/experimental/stats/sample_stats.py:250-275 | The batch statistics of the scalar samples 1, 2, 3, 4, 5 are 5 samples, mean 3 and residual sum 10. |
| Examples.RunOfOneToFive | tensorflow_probability/python/experimental/stats/sample_stats.py:187-232 | Feeding 1, 2, 3, 4, 5 one call each to a running variance reaches those statistics. |
| Examples.VarianceOfOneToFive | tensorflow_probability/python/experimental/stats/sample_stats.py:234-247 | That state finalizes to 2 with ddof = 0 and to 2.5 with ddof = 1. |
| Examples.PairStats | tensorflow_probability/python/experimental/stats/sample_stats.py:127-129 | For samples that are vectors of two entries with event_ndims = 1, the batch statistics are the two column means and the 2 × 2 matrix of co-moments, stored row-major. |
| Examples.StatsOfThreeVectors | tensorflow_probability/python/experimental/stats/sample_stats.py:127-129 | The vectors (1, 0), (0, 1), (1, 1) have mean (2/3, 2/3) and residual matrix [[2/3, −1/3], [−1/3, 2/3]]. |
| Examples.RunOfThreeVectors | tensorflow_probability/python/experimental/stats/sample_stats.py:187-232 | Feeding those vectors one call each reaches their batch statistics. |
| Examples.CovarianceOfThreeVectors | tensorflow_probability/python/experimental/stats/sample_stats.py:234-247 | With ddof = 0 that state finalizes to the symmetric covariance matrix [[2/9, −1/9], [−1/9, 2/9]]. |
| Examples.NegativeEventNdimsExample | tensorflow_probability/python/experimental/stats/sample_stats.py:155-185 | Shape (7, 7) with event_ndims = −1 is accepted as written. Its residual shape (7, 7, 7) differs from the outer-product shape (7, 7). |
| Examples.ExpectationsOfOneToThree | tensorflow_probability/python/experimental/stats/sample_stats.py:307-410 | With callables (x, x²) and dtype int32, the dtype becomes float32, and a chunk 1, 2, 3 gives the expectations 2 and 14/3. |

## Left out

- Floating point: values are exact reals, so there is no rounding, overflow or
  precision loss. A result the source computes as an infinity or NaN is an error
  result.
- The count `num_samples` is a natural number. The source keeps it as a
  floating-point value of the dtype.
- `tf.cast` to the dtype: the dtype is carried in the configuration, and values
  are exact reals whatever the dtype.
- Integer dtypes for `RunningCovariance`: the model assumes a floating dtype.
  Unlike `RunningExpectations`, `RunningCovariance` keeps an integer dtype. The
  source's `tf.cast` (line 48) would then truncate fractional samples, and the
  division at line 66 yields a floating tensor that cannot be added to the
  integer mean, so `update` raises.
- The chunk axis: a chunk is a sequence of samples. For `RunningCovariance` the
  model covers only a non-negative chunk axis in front of the event dimensions.
  With the axis among the event dimensions, `_batch_outer_product` pairs the
  chunk axis with an event axis instead. For example, with shape (2,),
  `event_ndims = 1` and the samples (1, 0) and (0, 1) stored as columns of a
  2 × 2 chunk with `axis=1`, the chunk residuals come out zero. A negative axis
  names a different dimension of the outer product than of the sample. For
  `RunningExpectations` the model covers only a non-negative axis. With a
  negative axis and a sample of rank at least 2, the transposition at lines
  384-385 builds a permutation of the wrong length. Where the source transposes
  the axis to the front for `tf.map_fn`, the model applies each callable to
  each sample.
- Shape checks of incoming samples: `update` requires samples of the configured
  shape. The source leaves a mismatch to TensorFlow's broadcasting or errors.
- Batching of `RunningExpectations` samples: a sample is an opaque value of a
  type parameter. Nested samples are values of that type, and the chunk size is
  the length of the sequence. The source reads it from `new_sample[0]` (line
  370), so a chunked dict-shaped sample raises KeyError there. The model does
  not cover that failure.
- `_prepare_args`: the broadcasting of axis, sample and rank over the callables
  is modelled by passing the same observation to every callable.
- The keys of dict-shaped structures: a structure is addressed by child
  positions, so a dict counts as its values in key order.
- Expectations.Update: requires every callable to return an array of the
  sample's shape for every sample (`Produces`). The source only needs the
  output to broadcast against the zero leaf of the sample's shape (lines 334,
  394-397). For example, a scalar-valued callable fills its leaf with the
  running mean broadcast to that shape. The model covers only callables whose
  output has the sample's shape.
- Covariance.Merge: its contract states shapes and the count only. The values
  it computes are stated by CovarianceLaws.MergeMatchesStats.
- Covariance.MergeChunk: the same as Covariance.Merge.
- CovarianceLaws.ChunkInvariance: stated for states a run from `initialize` can
  reach, not for arbitrary states of the right shape.
- ExpectationsLaws.ChunkInvariance: stated for reachable states, as for the
  covariance.

## Findings

| source | as written | input that shows it | evidently intended | confidence | as-written member | corrected member |
|---|---|---|---|---|---|---|
| tensorflow_probability/python/experimental/stats/sample_stats.py:155-185 | The constructor checks only `event_ndims > len(shape)` and `event_ndims > 13`, so a negative `event_ndims` is accepted. `initialize` then allocates residual sums of shape `shape + shape[-event_ndims:]`, while `_batch_outer_product` names no event letters and returns the input's shape, so `update` adds arrays of different shapes. | `RunningCovariance(shape=(7, 7), event_ndims=-1)`: residual sums of shape (7, 7, 7) against outer products of shape (7, 7). | Reject a negative `event_ndims` at construction, as Covariance.New does: it counts trailing dimensions, so it lies in [0, rank]. | not executed | Covariance.NegativeEventNdimsAccepted | Covariance.NewShapesAgree |
