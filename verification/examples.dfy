/** Worked instances of the laws on small concrete inputs. */
module Examples {
  import opened Wrappers
  import opened DTypes
  import opened Moments
  import opened Samples
  import opened Shapes
  import opened Tensors
  import opened OuterProduct
  import opened Streams
  import opened Nests
  import opened Covariance
  import CovarianceLaws
  import Expectations
  import ExpectationsLaws

  /** A running variance over scalar samples. */
  const Scalar: Config := Config([], 0, Float32)

  const OneToFive: seq<seq<real>> := [[1.0], [2.0], [3.0], [4.0], [5.0]]

  lemma SumThree(a: real, b: real, d: real)
    ensures Sum([a, b, d]) == a + b + d
  {
    var s := [a, b, d];
    assert SumTo(s, 1) == a;
    assert SumTo(s, 2) == a + b;
  }

  lemma OneToFiveMoments()
    ensures Column(OneToFive, 0) == [1.0, 2.0, 3.0, 4.0, 5.0]
    ensures Mean([1.0, 2.0, 3.0, 4.0, 5.0]) == 3.0
    ensures CoMoment([1.0, 2.0, 3.0, 4.0, 5.0], [1.0, 2.0, 3.0, 4.0, 5.0]) == 10.0
  {
    var col := [1.0, 2.0, 3.0, 4.0, 5.0];
    assert SumTo(col, 1) == 1.0;
    assert SumTo(col, 2) == 3.0;
    assert SumTo(col, 3) == 6.0;
    assert SumTo(col, 4) == 10.0;
    assert SumTo(col, 5) == 15.0;
    assert Mean(col) == 3.0;
    assert CoSumTo(col, col, 3.0, 3.0, 1) == 4.0;
    assert CoSumTo(col, col, 3.0, 3.0, 2) == 5.0;
    assert CoSumTo(col, col, 3.0, 3.0, 3) == 5.0;
    assert CoSumTo(col, col, 3.0, 3.0, 4) == 6.0;
    assert CoSumTo(col, col, 3.0, 3.0, 5) == 10.0;
  }

  /** The batch statistics of 1, 2, 3, 4, 5: mean 3 and residual sum 10. */
  lemma StatsOfOneToFive()
    ensures Scalar.Valid() && Rectangular(OneToFive, 1)
    ensures CovarianceLaws.Stats(Scalar, OneToFive) == State(5, Tensor([], [3.0]), Tensor([], [10.0]))
  {
    OneToFiveMoments();
    var s := CovarianceLaws.Stats(Scalar, OneToFive);
    var l := LayoutFor(Scalar);
    assert l == Layout(1, 1);
    assert Left(l, 0) == 0 && Right(l, 0) == 0;
    assert s.mean.data == [3.0];
    assert s.ssr.data == [10.0];
    assert ResidualShape(Scalar) == [];
  }

  /** Feeding 1, 2, 3, 4, 5 one `update` call each reaches those statistics. */
  lemma RunOfOneToFive()
    ensures Scalar.Valid() && Rectangular(OneToFive, 1)
    ensures forall j :: 0 <= j < |OneToFive| ==> ObservationFits(Scalar, Singles(OneToFive)[j])
    ensures CovarianceLaws.Run(Scalar, Singles(OneToFive)) == Success(CovarianceLaws.Stats(Scalar, OneToFive))
  {
    var xs := Singles(OneToFive);
    forall j | 0 <= j < |OneToFive|
      ensures ObservationFits(Scalar, xs[j])
    {
      assert Observed(xs[j]) == [OneToFive[j]];
    }
    CovarianceLaws.RunningInvariant(Scalar, xs);
    AllObservedSingles(OneToFive);
    NoEmptyChunkInSingles(OneToFive);
  }

  /** The population variance of 1, 2, 3, 4, 5 is 2 and the sample variance is 2.5. */
  lemma VarianceOfOneToFive()
    ensures Finalize(Scalar, State(5, Tensor([], [3.0]), Tensor([], [10.0])), 0) == Success(Tensor([], [2.0]))
    ensures Finalize(Scalar, State(5, Tensor([], [3.0]), Tensor([], [10.0])), 1) == Success(Tensor([], [2.5]))
  {
    var s := State(5, Tensor([], [3.0]), Tensor([], [10.0]));
    assert ResidualShape(Scalar) == [];
    var p, q := Finalize(Scalar, s, 0), Finalize(Scalar, s, 1);
    assert p.Success? && |p.value.data| == 1 && p.value.data[0] * 5.0 == 10.0;
    assert p.value.data == [2.0];
    assert q.Success? && |q.value.data| == 1 && q.value.data[0] * 4.0 == 10.0;
    assert q.value.data == [2.5];
  }

  /** The negative `event_ndims` the constructor as written lets through: shape
      (7, 7) with event_ndims = −1 gets residual sums of shape (7, 7, 7) while the
      outer products have shape (7, 7). */
  lemma NegativeEventNdimsExample()
    ensures ValidatedEventNdims([7, 7], Some(-1)) == Success(-1)
    ensures ResidualShapeOf([7, 7], -1) == [7, 7, 7]
    ensures EinsumShape([7, 7], -1) == [7, 7]
    ensures New([7, 7], Some(-1), Float32).Failure?
  {
    NegativeEventNdimsAccepted([7, 7], -1, Float32);
    assert PySliceFrom([7, 7], 1) == [7];
  }

  /** A running covariance of vectors of two entries. */
  const Pair: Config := Config([2], 1, Float32)

  const ThreeVectors: seq<seq<real>> := [[1.0, 0.0], [0.0, 1.0], [1.0, 1.0]]

  lemma ThreeVectorsMoments()
    ensures Column(ThreeVectors, 0) == [1.0, 0.0, 1.0] && Column(ThreeVectors, 1) == [0.0, 1.0, 1.0]
    ensures Mean([1.0, 0.0, 1.0]) == 2.0 / 3.0 && Mean([0.0, 1.0, 1.0]) == 2.0 / 3.0
    ensures CoMoment([1.0, 0.0, 1.0], [1.0, 0.0, 1.0]) == 2.0 / 3.0
    ensures CoMoment([0.0, 1.0, 1.0], [0.0, 1.0, 1.0]) == 2.0 / 3.0
    ensures CoMoment([1.0, 0.0, 1.0], [0.0, 1.0, 1.0]) == -1.0 / 3.0
    ensures CoMoment([0.0, 1.0, 1.0], [1.0, 0.0, 1.0]) == -1.0 / 3.0
  {
    var a, b := [1.0, 0.0, 1.0], [0.0, 1.0, 1.0];
    SumThree(1.0, 0.0, 1.0);
    SumThree(0.0, 1.0, 1.0);
    var m := 2.0 / 3.0;
    assert Mean(a) == m && Mean(b) == m;
    assert CoSumTo(a, a, m, m, 3) == 2.0 / 3.0 by {
      assert CoSumTo(a, a, m, m, 1) == 1.0 / 9.0;
      assert CoSumTo(a, a, m, m, 2) == 5.0 / 9.0;
    }
    assert CoSumTo(b, b, m, m, 3) == 2.0 / 3.0 by {
      assert CoSumTo(b, b, m, m, 1) == 4.0 / 9.0;
      assert CoSumTo(b, b, m, m, 2) == 5.0 / 9.0;
    }
    assert CoSumTo(a, b, m, m, 3) == -1.0 / 3.0 by {
      assert CoSumTo(a, b, m, m, 1) == -2.0 / 9.0;
      assert CoSumTo(a, b, m, m, 2) == -4.0 / 9.0;
    }
    CoMomentSymmetric(a, b);
  }

  /** The sizes of a configuration for vectors of two entries. */
  lemma PairLayout()
    ensures Pair.Valid() && LayoutFor(Pair) == Layout(1, 2)
    ensures Size(Pair.shape) == 2 && ResidualShape(Pair) == [2, 2]
  {
    assert Size([2]) == 2 by { assert [2][..0] == []; }
    assert EventShape([2], 1) == [2];
  }

  lemma PairMeans(xs: seq<seq<real>>)
    requires Rectangular(xs, 2)
    ensures Pair.Valid() && Size(Pair.shape) == 2
    ensures CovarianceLaws.Stats(Pair, xs).mean.data == [Mean(Column(xs, 0)), Mean(Column(xs, 1))]
  {
    PairLayout();
    var m := CovarianceLaws.Stats(Pair, xs).mean.data;
    assert m == ColumnMeans(xs, 2);
    assert m[0] == Mean(Column(xs, 0)) && m[1] == Mean(Column(xs, 1));
  }

  lemma FourEntries(r: seq<real>, a: real, b: real, d: real, e: real)
    requires |r| == 4 && r[0] == a && r[1] == b && r[2] == d && r[3] == e
    ensures r == [a, b, d, e]
  {
  }

  lemma PairResiduals(xs: seq<seq<real>>)
    requires Rectangular(xs, 2)
    ensures Pair.Valid() && Size(Pair.shape) == 2
    ensures CovarianceLaws.Stats(Pair, xs).ssr.data
         == [CoMoment(Column(xs, 0), Column(xs, 0)), CoMoment(Column(xs, 0), Column(xs, 1)),
             CoMoment(Column(xs, 1), Column(xs, 0)), CoMoment(Column(xs, 1), Column(xs, 1))]
  {
    PairLayout();
    var r := CovarianceLaws.Stats(Pair, xs).ssr.data;
    CovarianceLaws.StatsAt(Pair, xs, 0, 0, 0);
    CovarianceLaws.StatsAt(Pair, xs, 0, 0, 1);
    CovarianceLaws.StatsAt(Pair, xs, 0, 1, 0);
    CovarianceLaws.StatsAt(Pair, xs, 0, 1, 1);
    var l := Layout(1, 2);
    assert Entry(l, 0, 0) == 0 && Entry(l, 0, 1) == 1;
    assert Cell(l, 0, 0, 0) == 0 && Cell(l, 0, 0, 1) == 1 && Cell(l, 0, 1, 0) == 2 && Cell(l, 0, 1, 1) == 3;
    var p, q := Column(xs, 0), Column(xs, 1);
    assert r[0] == CoMoment(p, p) && r[1] == CoMoment(p, q);
    assert r[2] == CoMoment(q, p) && r[3] == CoMoment(q, q);
    FourEntries(r, CoMoment(p, p), CoMoment(p, q), CoMoment(q, p), CoMoment(q, q));
  }

  /** For vectors of two entries the state holds the two column means and the 2 × 2
      matrix of co-moments, row-major. */
  lemma PairStats(xs: seq<seq<real>>)
    requires Rectangular(xs, 2)
    ensures Pair.Valid() && Size(Pair.shape) == 2
    ensures CovarianceLaws.Stats(Pair, xs)
         == State(|xs|, Tensor([2], [Mean(Column(xs, 0)), Mean(Column(xs, 1))]),
                  Tensor([2, 2], [CoMoment(Column(xs, 0), Column(xs, 0)), CoMoment(Column(xs, 0), Column(xs, 1)),
                                  CoMoment(Column(xs, 1), Column(xs, 0)), CoMoment(Column(xs, 1), Column(xs, 1))]))
  {
    PairLayout();
    PairMeans(xs);
    PairResiduals(xs);
  }

  /** `PairStats` with the means and co-moments given by value. */
  lemma PairStatsValues(xs: seq<seq<real>>, m0: real, m1: real, c00: real, c01: real, c10: real, c11: real)
    requires Rectangular(xs, 2)
    requires Mean(Column(xs, 0)) == m0 && Mean(Column(xs, 1)) == m1
    requires CoMoment(Column(xs, 0), Column(xs, 0)) == c00 && CoMoment(Column(xs, 0), Column(xs, 1)) == c01
    requires CoMoment(Column(xs, 1), Column(xs, 0)) == c10 && CoMoment(Column(xs, 1), Column(xs, 1)) == c11
    ensures Pair.Valid() && Size(Pair.shape) == 2
    ensures CovarianceLaws.Stats(Pair, xs) == State(|xs|, Tensor([2], [m0, m1]), Tensor([2, 2], [c00, c01, c10, c11]))
  {
    PairStats(xs);
  }

  /** The batch statistics of (1, 0), (0, 1), (1, 1): mean (2/3, 2/3) and the
      symmetric residual matrix [[2/3, −1/3], [−1/3, 2/3]]. */
  lemma StatsOfThreeVectors()
    ensures Pair.Valid() && Rectangular(ThreeVectors, Size(Pair.shape))
    ensures CovarianceLaws.Stats(Pair, ThreeVectors)
         == State(3, Tensor([2], [2.0 / 3.0, 2.0 / 3.0]),
                  Tensor([2, 2], [2.0 / 3.0, -1.0 / 3.0, -1.0 / 3.0, 2.0 / 3.0]))
  {
    ThreeVectorsMoments();
    var third := 1.0 / 3.0;
    PairStatsValues(ThreeVectors, 2.0 * third, 2.0 * third, 2.0 * third, -third, -third, 2.0 * third);
  }

  /** Feeding the three vectors one `update` call each reaches those statistics. */
  lemma RunOfThreeVectors()
    ensures Pair.Valid() && Rectangular(ThreeVectors, Size(Pair.shape))
    ensures forall j :: 0 <= j < |ThreeVectors| ==> ObservationFits(Pair, Singles(ThreeVectors)[j])
    ensures CovarianceLaws.Run(Pair, Singles(ThreeVectors)) == Success(CovarianceLaws.Stats(Pair, ThreeVectors))
  {
    PairLayout();
    var xs := Singles(ThreeVectors);
    forall j | 0 <= j < |ThreeVectors|
      ensures ObservationFits(Pair, xs[j])
    {
      assert Observed(xs[j]) == [ThreeVectors[j]];
    }
    CovarianceLaws.RunningInvariant(Pair, xs);
    AllObservedSingles(ThreeVectors);
    NoEmptyChunkInSingles(ThreeVectors);
  }

  /** The population covariance of the three vectors is the residual matrix divided by 3. */
  lemma CovarianceOfThreeVectors()
    ensures Finalize(Pair, State(3, Tensor([2], [2.0 / 3.0, 2.0 / 3.0]),
                                 Tensor([2, 2], [2.0 / 3.0, -1.0 / 3.0, -1.0 / 3.0, 2.0 / 3.0])), 0)
         == Success(Tensor([2, 2], [2.0 / 9.0, -1.0 / 9.0, -1.0 / 9.0, 2.0 / 9.0]))
  {
    PairLayout();
    assert Size([2, 2]) == 4 by { assert [2, 2][..1] == [2]; assert Size([2]) == 2 by { assert [2][..0] == []; } }
    var f := Finalize(Pair, State(3, Tensor([2], [2.0 / 3.0, 2.0 / 3.0]),
                                  Tensor([2, 2], [2.0 / 3.0, -1.0 / 3.0, -1.0 / 3.0, 2.0 / 3.0])), 0);
    assert f.Success? && |f.value.data| == 4;
    assert f.value.data[0] * 3.0 == 2.0 / 3.0 && f.value.data[3] * 3.0 == 2.0 / 3.0;
    assert f.value.data[1] * 3.0 == -1.0 / 3.0 && f.value.data[2] * 3.0 == -1.0 / 3.0;
    assert f.value.data == [2.0 / 9.0, -1.0 / 9.0, -1.0 / 9.0, 2.0 / 9.0];
  }

  function Identity(): real -> seq<real>
  {
    x => [x]
  }

  function Square(): real -> seq<real>
  {
    x => [x * x]
  }

  /** The first two moments of scalar samples as one structure of callables. */
  function FirstTwo(): Nest<real -> seq<real>>
  {
    Node([Leaf(Identity()), Leaf(Square())])
  }

  lemma FirstTwoProduces()
    ensures Expectations.Produces(FirstTwo(), 1)
  {
  }

  lemma AveragesOfOneToThree()
    ensures Expectations.Average(Identity(), [1.0, 2.0, 3.0], 1) == [2.0]
    ensures Expectations.Average(Square(), [1.0, 2.0, 3.0], 1) == [14.0 / 3.0]
  {
    var xs := [1.0, 2.0, 3.0];
    assert Column(Expectations.Outputs(Identity(), xs, 1), 0) == [1.0, 2.0, 3.0];
    assert Column(Expectations.Outputs(Square(), xs, 1), 0) == [1.0, 4.0, 9.0];
    SumThree(1.0, 2.0, 3.0);
    SumThree(1.0, 4.0, 9.0);
  }

  lemma ExpectedOfOneToThree()
    ensures Expectations.Produces(FirstTwo(), 1)
    ensures ExpectationsLaws.Expected(FirstTwo(), [1.0, 2.0, 3.0], 1) == Node([Leaf([2.0]), Leaf([14.0 / 3.0])])
  {
    AveragesOfOneToThree();
    var e := ExpectationsLaws.Expected(FirstTwo(), [1.0, 2.0, 3.0], 1);
    assert e.children == [Leaf([2.0]), Leaf([14.0 / 3.0])];
  }

  /** An integer dtype becomes Float32, and a chunk 1, 2, 3 gives E[x] = 2 and
      E[x²] = 14/3. */
  lemma ExpectationsOfOneToThree()
    ensures Expectations.New([], FirstTwo(), Int32).dtype == Float32
    ensures Expectations.Produces(Expectations.New([], FirstTwo(), Int32).callables, 1)
    ensures ExpectationsLaws.Run(Expectations.New([], FirstTwo(), Int32), [Chunk([1.0, 2.0, 3.0])])
         == Some(Expectations.State(3, Node([Leaf([2.0]), Leaf([14.0 / 3.0])])))
  {
    var c := Expectations.New([], FirstTwo(), Int32);
    ExpectedOfOneToThree();
    var xs := [1.0, 2.0, 3.0];
    var one := [Chunk(xs)];
    ExpectationsLaws.RunningInvariant(c, one);
    AllObservedOne(Chunk(xs));
    assert !HasEmptyChunk(one);
  }
}
