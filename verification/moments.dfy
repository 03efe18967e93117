/** Scalar moments of a column of samples, and the pairwise merge rule.

    Every statistic of the running covariance reduces, entry by entry, to two
    facts about columns of reals: the arithmetic mean of a column, and the
    co-moment Σ (x_t − mean x)(y_t − mean y) of two columns of equal length.
    The merge rule (Pebay 2008, after Chan, Golub and LeVeque) combines the
    statistics of two disjoint runs of samples without seeing the samples:
    `MergeMean` and `MergeComoment` are the scalar forms of the update, and
    `MeanMerge` and `CoMomentMerge` prove that they agree with the batch
    definitions on the concatenated run. */
module Moments {

  // ----- batch definitions

  /** Σ xs[t] for t < n. */
  function SumTo(xs: seq<real>, n: nat): real
    requires n <= |xs|
  {
    if n == 0 then 0.0 else SumTo(xs, n - 1) + xs[n - 1]
  }

  function Sum(xs: seq<real>): real
  {
    SumTo(xs, |xs|)
  }

  /** Arithmetic mean; an empty column has mean zero, as a fresh running state does. */
  function Mean(xs: seq<real>): real
  {
    if |xs| == 0 then 0.0 else Sum(xs) / (|xs| as real)
  }

  /** Σ xs[t] · ys[t] for t < n. */
  function DotTo(xs: seq<real>, ys: seq<real>, n: nat): real
    requires n <= |xs| && n <= |ys|
  {
    if n == 0 then 0.0 else DotTo(xs, ys, n - 1) + xs[n - 1] * ys[n - 1]
  }

  function Dot(xs: seq<real>, ys: seq<real>): real
    requires |xs| == |ys|
  {
    DotTo(xs, ys, |xs|)
  }

  /** Σ (xs[t] − cx) · (ys[t] − cy) for t < n. */
  function CoSumTo(xs: seq<real>, ys: seq<real>, cx: real, cy: real, n: nat): real
    requires n <= |xs| && n <= |ys|
  {
    if n == 0 then 0.0 else CoSumTo(xs, ys, cx, cy, n - 1) + (xs[n - 1] - cx) * (ys[n - 1] - cy)
  }

  function CoSum(xs: seq<real>, ys: seq<real>, cx: real, cy: real): real
    requires |xs| == |ys|
  {
    CoSumTo(xs, ys, cx, cy, |xs|)
  }

  /** The co-moment Σ (x_t − mean x)(y_t − mean y): one entry of the sum of squared
      residuals. For xs == ys it is the sum of squared deviations. */
  function CoMoment(xs: seq<real>, ys: seq<real>): real
    requires |xs| == |ys|
  {
    CoSum(xs, ys, Mean(xs), Mean(ys))
  }

  // ----- the merge rule, one entry at a time

  /** The sum of `n` samples whose mean is `m`. */
  function Total(n: nat, m: real): real
  {
    (n as real) * m
  }

  /** n · mx · my: the cross term of `n` samples with means `mx` and `my`. */
  function CrossTotal(n: nat, mx: real, my: real): real
  {
    (n as real) * (mx * my)
  }

  /** The adjustment factor n · m / (n + m) of the residual update. */
  function Adj(n: nat, m: nat): real
    requires n + m > 0
  {
    (n as real) * (m as real) / ((n + m) as real)
  }

  /** Mean of n + m samples from the mean `a` of the first n and the mean `b` of the
      last m: a + m · (b − a) / (n + m). */
  function MergeMean(n: nat, m: nat, a: real, b: real): real
    requires n + m > 0
  {
    a + (m as real) * (b - a) / ((n + m) as real)
  }

  /** Co-moment of n + m samples from the co-moments `ca`, `cb` of the two parts and
      the differences `dx`, `dy` of their means: ca + cb + adj · dx · dy. */
  function MergeComoment(n: nat, m: nat, ca: real, cb: real, dx: real, dy: real): real
    requires n + m > 0
  {
    ca + cb + Adj(n, m) * (dx * dy)
  }

  // ----- sums over concatenations

  lemma {:induction false} SumToPrefix(a: seq<real>, b: seq<real>, n: nat)
    requires n <= |a|
    ensures SumTo(a + b, n) == SumTo(a, n)
  {
    if n > 0 {
      SumToPrefix(a, b, n - 1);
    }
  }

  lemma {:induction false} SumToAppend(a: seq<real>, b: seq<real>, n: nat)
    requires n <= |b|
    ensures SumTo(a + b, |a| + n) == Sum(a) + SumTo(b, n)
  {
    if n == 0 {
      SumToPrefix(a, b, |a|);
    } else {
      SumToAppend(a, b, n - 1);
    }
  }

  lemma SumAppend(a: seq<real>, b: seq<real>)
    ensures Sum(a + b) == Sum(a) + Sum(b)
  {
    SumToAppend(a, b, |b|);
  }

  lemma {:induction false} DotToPrefix(xa: seq<real>, ya: seq<real>, xb: seq<real>, yb: seq<real>, n: nat)
    requires n <= |xa| == |ya| && |xb| == |yb|
    ensures DotTo(xa + xb, ya + yb, n) == DotTo(xa, ya, n)
  {
    if n > 0 {
      DotToPrefix(xa, ya, xb, yb, n - 1);
    }
  }

  lemma {:induction false} DotToAppend(xa: seq<real>, ya: seq<real>, xb: seq<real>, yb: seq<real>, n: nat)
    requires |xa| == |ya| && n <= |xb| == |yb|
    ensures DotTo(xa + xb, ya + yb, |xa| + n) == Dot(xa, ya) + DotTo(xb, yb, n)
  {
    if n == 0 {
      DotToPrefix(xa, ya, xb, yb, |xa|);
    } else {
      DotToAppend(xa, ya, xb, yb, n - 1);
    }
  }

  lemma DotAppend(xa: seq<real>, ya: seq<real>, xb: seq<real>, yb: seq<real>)
    requires |xa| == |ya| && |xb| == |yb|
    ensures Dot(xa + xb, ya + yb) == Dot(xa, ya) + Dot(xb, yb)
  {
    DotToAppend(xa, ya, xb, yb, |xb|);
  }

  // ----- the co-moment through raw sums

  /** Σ x·y − n · mean(x) · mean(y), equal to the co-moment (`CoMomentRaw`). */
  function RawMoment(xs: seq<real>, ys: seq<real>): real
    requires |xs| == |ys|
  {
    Dot(xs, ys) - CrossTotal(|xs|, Mean(xs), Mean(ys))
  }

  /** Σ c · xs[t] for t < n. */
  function ScaledSumTo(xs: seq<real>, c: real, n: nat): real
    requires n <= |xs|
  {
    if n == 0 then 0.0 else ScaledSumTo(xs, c, n - 1) + c * xs[n - 1]
  }

  /** c added to itself n times. */
  function RepeatTo(c: real, n: nat): real
  {
    if n == 0 then 0.0 else RepeatTo(c, n - 1) + c
  }

  lemma {:induction false} RepeatToIsScaled(c: real, n: nat)
    ensures RepeatTo(c, n) == (n as real) * c
  {
    if n > 0 {
      RepeatToIsScaled(c, n - 1);
    }
  }

  lemma {:induction false} ScaledSumToIsScaled(xs: seq<real>, c: real, n: nat)
    requires n <= |xs|
    ensures ScaledSumTo(xs, c, n) == c * SumTo(xs, n)
  {
    if n > 0 {
      ScaledSumToIsScaled(xs, c, n - 1);
    }
  }

  lemma {:induction false} CoSumToExpand(xs: seq<real>, ys: seq<real>, cx: real, cy: real, n: nat)
    requires n <= |xs| && n <= |ys|
    ensures CoSumTo(xs, ys, cx, cy, n)
         == DotTo(xs, ys, n) - ScaledSumTo(xs, cy, n) - ScaledSumTo(ys, cx, n) + RepeatTo(cx * cy, n)
  {
    if n > 0 {
      CoSumToExpand(xs, ys, cx, cy, n - 1);
    }
  }

  lemma CoSumExpand(xs: seq<real>, ys: seq<real>, cx: real, cy: real)
    requires |xs| == |ys|
    ensures CoSum(xs, ys, cx, cy) == Dot(xs, ys) - cy * Sum(xs) - cx * Sum(ys) + (|xs| as real) * (cx * cy)
  {
    CoSumToExpand(xs, ys, cx, cy, |xs|);
    RepeatToIsScaled(cx * cy, |xs|);
    ScaledSumToIsScaled(xs, cy, |xs|);
    ScaledSumToIsScaled(ys, cx, |xs|);
  }

  lemma SumIsTotal(xs: seq<real>)
    ensures Sum(xs) == Total(|xs|, Mean(xs))
  {
  }

  lemma RawAlgebra(n: real, sx: real, sy: real, mx: real, my: real, d: real, c: real)
    requires n > 0.0 && sx == n * mx && sy == n * my
    requires c == d - my * sx - mx * sy + n * (mx * my)
    ensures c == d - n * (mx * my)
  {
  }

  lemma CoMomentRaw(xs: seq<real>, ys: seq<real>)
    requires |xs| == |ys|
    ensures CoMoment(xs, ys) == RawMoment(xs, ys)
  {
    CoSumExpand(xs, ys, Mean(xs), Mean(ys));
    SumIsTotal(xs);
    SumIsTotal(ys);
    if |xs| > 0 {
      RawAlgebra(|xs| as real, Sum(xs), Sum(ys), Mean(xs), Mean(ys), Dot(xs, ys), CoMoment(xs, ys));
    }
  }

  // ----- pure algebra behind the merge rule

  lemma MeanAlgebra(na: real, nb: real, n: real, ma: real, mb: real, m: real)
    requires na >= 0.0 && nb > 0.0 && n == na + nb
    requires n * m == na * ma + nb * mb
    ensures m == ma + nb * (mb - ma) / n
  {
    var r := nb * (mb - ma) / n;
    assert r * n == nb * (mb - ma);
    assert (m - ma - r) * n == 0.0;
  }

  lemma ChanPoly(na: real, nb: real, mxa: real, mxb: real, mya: real, myb: real)
    ensures (na + nb) * (na * (mxa * mya) + nb * (mxb * myb)) - (na * mxa + nb * mxb) * (na * mya + nb * myb)
         == na * nb * ((mxb - mxa) * (myb - mya))
  {
  }

  lemma DivCancel(n: real, d: real, a: real, x: real)
    requires n > 0.0 && n * d == a * x
    ensures d == a / n * x
  {
    var k := a / n;
    assert k * n == a;
    assert n * d == n * (k * x);
  }

  lemma ChanAlgebra(na: real, nb: real, n: real,
                    mxa: real, mxb: real, mx: real, mya: real, myb: real, my: real,
                    da: real, db: real, ca: real, cb: real, c: real)
    requires na > 0.0 && nb > 0.0 && n == na + nb
    requires n * mx == na * mxa + nb * mxb && n * my == na * mya + nb * myb
    requires ca == da - na * (mxa * mya) && cb == db - nb * (mxb * myb)
    requires c == (da + db) - n * (mx * my)
    ensures c == ca + cb + na * nb / n * ((mxb - mxa) * (myb - mya))
  {
    ChanPoly(na, nb, mxa, mxb, mya, myb);
    var sx, sy := n * mx, n * my;
    assert n * (n * (mx * my)) == sx * sy;
    assert n * (c - ca - cb) == na * nb * ((mxb - mxa) * (myb - mya));
    DivCancel(n, c - ca - cb, na * nb, (mxb - mxa) * (myb - mya));
  }

  lemma MeanStep(na: nat, nb: nat, n: nat, ma: real, mb: real, m: real)
    requires nb > 0 && n == na + nb
    requires Total(n, m) == Total(na, ma) + Total(nb, mb)
    ensures m == MergeMean(na, nb, ma, mb)
  {
    MeanAlgebra(na as real, nb as real, n as real, ma, mb, m);
  }

  lemma ChanStep(na: nat, nb: nat, n: nat,
                 mxa: real, mxb: real, mx: real, mya: real, myb: real, my: real,
                 da: real, db: real, ca: real, cb: real, c: real)
    requires na > 0 && nb > 0 && n == na + nb
    requires Total(n, mx) == Total(na, mxa) + Total(nb, mxb)
    requires Total(n, my) == Total(na, mya) + Total(nb, myb)
    requires ca == da - CrossTotal(na, mxa, mya) && cb == db - CrossTotal(nb, mxb, myb)
    requires c == (da + db) - CrossTotal(n, mx, my)
    ensures c == MergeComoment(na, nb, ca, cb, mxb - mxa, myb - mya)
  {
    ChanAlgebra(na as real, nb as real, n as real, mxa, mxb, mx, mya, myb, my, da, db, ca, cb, c);
  }

  // ----- merge lemmas

  /** The total of a concatenation is the sum of the totals of its parts. */
  lemma MeanCombine(a: seq<real>, b: seq<real>)
    ensures Total(|a + b|, Mean(a + b)) == Total(|a|, Mean(a)) + Total(|b|, Mean(b))
  {
    SumAppend(a, b);
    SumIsTotal(a);
    SumIsTotal(b);
    SumIsTotal(a + b);
  }

  /** The mean update of the merge rule yields the mean of the concatenated run. */
  lemma MeanMerge(a: seq<real>, b: seq<real>, n: nat, m: nat)
    requires n == |a| && m == |b| && m > 0
    ensures Mean(a + b) == MergeMean(n, m, Mean(a), Mean(b))
  {
    MeanCombine(a, b);
    MeanStep(n, m, |a + b|, Mean(a), Mean(b), Mean(a + b));
  }

  lemma RawMomentMerge(xa: seq<real>, ya: seq<real>, xb: seq<real>, yb: seq<real>)
    requires |xa| == |ya| > 0 && |xb| == |yb| > 0
    ensures RawMoment(xa + xb, ya + yb)
         == MergeComoment(|xa|, |xb|, RawMoment(xa, ya), RawMoment(xb, yb), Mean(xb) - Mean(xa), Mean(yb) - Mean(ya))
  {
    MeanCombine(xa, xb);
    MeanCombine(ya, yb);
    DotAppend(xa, ya, xb, yb);
    ChanStep(|xa|, |xb|, |xa + xb|, Mean(xa), Mean(xb), Mean(xa + xb), Mean(ya), Mean(yb), Mean(ya + yb),
             Dot(xa, ya), Dot(xb, yb), RawMoment(xa, ya), RawMoment(xb, yb), RawMoment(xa + xb, ya + yb));
  }

  /** The residual update of the merge rule yields the co-moment of the concatenated
      run; with an empty first run it reduces to the second run's co-moment. */
  lemma CoMomentMerge(xa: seq<real>, ya: seq<real>, xb: seq<real>, yb: seq<real>, n: nat, m: nat)
    requires |xa| == |ya| == n && |xb| == |yb| == m && m > 0
    ensures CoMoment(xa + xb, ya + yb)
         == MergeComoment(n, m, CoMoment(xa, ya), CoMoment(xb, yb), Mean(xb) - Mean(xa), Mean(yb) - Mean(ya))
  {
    if n == 0 {
      assert xa + xb == xb && ya + yb == yb;
      assert CoMoment(xa, ya) == 0.0;
    } else {
      CoMomentRaw(xa, ya);
      CoMomentRaw(xb, yb);
      CoMomentRaw(xa + xb, ya + yb);
      RawMomentMerge(xa, ya, xb, yb);
    }
  }

  // ----- further facts

  lemma {:induction false} CoSumToSymmetric(xs: seq<real>, ys: seq<real>, cx: real, cy: real, n: nat)
    requires n <= |xs| && n <= |ys|
    ensures CoSumTo(xs, ys, cx, cy, n) == CoSumTo(ys, xs, cy, cx, n)
  {
    if n > 0 {
      CoSumToSymmetric(xs, ys, cx, cy, n - 1);
    }
  }

  /** The co-moment does not depend on the order of its two columns. */
  lemma CoMomentSymmetric(xs: seq<real>, ys: seq<real>)
    requires |xs| == |ys|
    ensures CoMoment(xs, ys) == CoMoment(ys, xs)
  {
    CoSumToSymmetric(xs, ys, Mean(xs), Mean(ys), |xs|);
  }

  lemma {:induction false} CoSumToSquares(xs: seq<real>, c: real, n: nat)
    requires n <= |xs|
    ensures CoSumTo(xs, xs, c, c, n) >= 0.0
  {
    if n > 0 {
      CoSumToSquares(xs, c, n - 1);
    }
  }

  /** A column's co-moment with itself, its sum of squared deviations, is never negative. */
  lemma CoMomentSelfNonNegative(xs: seq<real>)
    ensures CoMoment(xs, xs) >= 0.0
  {
    CoSumToSquares(xs, Mean(xs), |xs|);
  }

  /** A single sample is its own mean and has no residual. */
  lemma Singleton(x: real, y: real)
    ensures Mean([x]) == x
    ensures CoMoment([x], [y]) == 0.0
  {
    assert Sum([x]) == SumTo([x], 0) + x;
    assert Sum([y]) == SumTo([y], 0) + y;
    var dx := [x][0] - Mean([x]);
    assert dx == 0.0;
    assert CoSumTo([x], [y], Mean([x]), Mean([y]), 1) == 0.0 + dx * ([y][0] - Mean([y]));
  }

  /** A co-sum is the plain sum of the per-sample products (x_t − cx)(y_t − cy). */
  lemma {:induction false} CoSumToIsSumTo(ps: seq<real>, xs: seq<real>, ys: seq<real>, cx: real, cy: real, n: nat)
    requires n <= |ps| && n <= |xs| && n <= |ys|
    requires forall t :: 0 <= t < n ==> ps[t] == (xs[t] - cx) * (ys[t] - cy)
    ensures SumTo(ps, n) == CoSumTo(xs, ys, cx, cy, n)
  {
    if n > 0 {
      CoSumToIsSumTo(ps, xs, ys, cx, cy, n - 1);
    }
  }
}
