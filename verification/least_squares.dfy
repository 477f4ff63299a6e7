/**
 * Straight-line least squares shared by every fit of the simulator: the
 * weighted averages the measurement-error branch of `calculate_regression`
 * is built from, the weighted least-squares line, and the ordinary
 * least-squares line and coefficient of determination that stand for
 * scikit-learn's `LinearRegression.fit` and `.score`.
 */
module LeastSquares {
  import opened Vectors

  /** y = slope * x + intercept */
  datatype Line = Line(slope: real, intercept: real)

  /** Weights that can be averaged with: at least one, all strictly positive. */
  predicate PositiveWeights(w: seq<real>)
  {
    |w| > 0 && forall i :: 0 <= i < |w| ==> w[i] > 0.0
  }

  /** np.sum(w * v) / np.sum(w): the weighted average the regression repeats. */
  function WAvg(w: seq<real>, v: seq<real>): real
    requires PositiveWeights(w) && |v| == |w|
  {
    SumPositive(w);
    Sum(Mul(w, v)) / Sum(w)
  }

  /** Weighted variance np.sum(w * (a - wma) ** 2) / np.sum(w). */
  function WVar(w: seq<real>, a: seq<real>): real
    requires PositiveWeights(w) && |a| == |w|
  {
    WAvg(w, Square(Shift(a, WAvg(w, a))))
  }

  /** Weighted covariance np.sum(w * (a - wma) * (b - wmb)) / np.sum(w). */
  function WCov(w: seq<real>, a: seq<real>, b: seq<real>): real
    requires PositiveWeights(w) && |a| == |w| && |b| == |w|
  {
    WAvg(w, Mul(Shift(a, WAvg(w, a)), Shift(b, WAvg(w, b))))
  }

  /**
   * The weighted least-squares line: slope cov/var through the weighted mean
   * point. When every x is the same the slope is 0, the minimum-norm choice
   * among the equally good lines.
   */
  function FitLine(w: seq<real>, x: seq<real>, y: seq<real>): Line
    requires PositiveWeights(w) && |x| == |w| && |y| == |w|
  {
    var varx := WVar(w, x);
    var slope := if varx == 0.0 then 0.0 else WCov(w, x, y) / varx;
    Line(slope, WAvg(w, y) - slope * WAvg(w, x))
  }

  /** The point (px, py) lies on the line l. */
  predicate PassesThrough(l: Line, px: real, py: real)
  {
    l.slope * px + l.intercept == py
  }

  /** The fitted line passes through the weighted mean point. */
  lemma FitLineThroughMean(w: seq<real>, x: seq<real>, y: seq<real>)
    requires PositiveWeights(w) && |x| == |w| && |y| == |w|
    ensures PassesThrough(FitLine(w, x, y), WAvg(w, x), WAvg(w, y))
  {
  }

  /** y - intercept - slope * x */
  function Residuals(l: Line, x: seq<real>, y: seq<real>): seq<real>
    requires |x| == |y|
  {
    Sub(Shift(y, l.intercept), Scale(l.slope, x))
  }

  /** Weighted mean squared residual of a line. */
  function WMSE(w: seq<real>, l: Line, x: seq<real>, y: seq<real>): real
    requires PositiveWeights(w) && |x| == |w| && |y| == |w|
  {
    WAvg(w, Square(Residuals(l, x, y)))
  }

  /** LinearRegression.predict on a single column: slope * x + intercept. */
  function Predict(l: Line, x: seq<real>): seq<real>
  {
    seq(|x|, i requires 0 <= i < |x| => l.slope * x[i] + l.intercept)
  }

  /** Ordinary least squares, LinearRegression().fit on one column: every weight 1. */
  function OLS(x: seq<real>, y: seq<real>): Line
    requires |x| == |y| > 0
  {
    FitLine(Ones(|x|), x, y)
  }

  /** Residual sum of squares ((y - predict(x)) ** 2).sum() */
  function SSR(l: Line, x: seq<real>, y: seq<real>): real
    requires |x| == |y|
  {
    Sum(Square(Sub(y, Predict(l, x))))
  }

  /**
   * r2_score(yTrue, yPred) = 1 - SSres/SStot. A constant yTrue (SStot = 0)
   * scores 1 when predicted exactly and 0 otherwise; fewer than two samples
   * have no score.
   */
  function R2Score(yTrue: seq<real>, yPred: seq<real>): real
    requires |yTrue| == |yPred| >= 2
  {
    var ssRes := Sum(Square(Sub(yTrue, yPred)));
    var ssTot := Sum(Square(Shift(yTrue, Mean(yTrue))));
    if ssTot == 0.0 then (if ssRes == 0.0 then 1.0 else 0.0)
    else 1.0 - ssRes / ssTot
  }

  /** LinearRegression.score(x, y) of a fitted line. */
  function Score(l: Line, x: seq<real>, y: seq<real>): real
    requires |x| == |y| >= 2
  {
    R2Score(y, Predict(l, x))
  }

  // ---------------------------------------------------------------------
  // Algebra of the weighted average

  lemma WAvgAdd(w: seq<real>, a: seq<real>, b: seq<real>)
    requires PositiveWeights(w) && |a| == |w| && |b| == |w|
    ensures WAvg(w, Add(a, b)) == WAvg(w, a) + WAvg(w, b)
  {
    forall i | 0 <= i < |w| ensures Mul(w, Add(a, b))[i] == Add(Mul(w, a), Mul(w, b))[i] {
      assert w[i] * (a[i] + b[i]) == w[i] * a[i] + w[i] * b[i];
    }
    assert Mul(w, Add(a, b)) == Add(Mul(w, a), Mul(w, b));
    SumAdd(Mul(w, a), Mul(w, b));
    SumPositive(w);
  }

  lemma WAvgSub(w: seq<real>, a: seq<real>, b: seq<real>)
    requires PositiveWeights(w) && |a| == |w| && |b| == |w|
    ensures WAvg(w, Sub(a, b)) == WAvg(w, a) - WAvg(w, b)
  {
    forall i | 0 <= i < |w| ensures Mul(w, Sub(a, b))[i] == Sub(Mul(w, a), Mul(w, b))[i] {
      assert w[i] * (a[i] - b[i]) == w[i] * a[i] - w[i] * b[i];
    }
    assert Mul(w, Sub(a, b)) == Sub(Mul(w, a), Mul(w, b));
    SumSub(Mul(w, a), Mul(w, b));
    SumPositive(w);
  }

  lemma WAvgScale(w: seq<real>, c: real, a: seq<real>)
    requires PositiveWeights(w) && |a| == |w|
    ensures WAvg(w, Scale(c, a)) == c * WAvg(w, a)
  {
    forall i | 0 <= i < |w| ensures Mul(w, Scale(c, a))[i] == Scale(c, Mul(w, a))[i] {
      assert w[i] * (c * a[i]) == c * (w[i] * a[i]);
    }
    assert Mul(w, Scale(c, a)) == Scale(c, Mul(w, a));
    SumScale(c, Mul(w, a));
    SumPositive(w);
  }

  /** Averaging a - c gives the average of a, less c. */
  lemma WAvgShift(w: seq<real>, a: seq<real>, c: real)
    requires PositiveWeights(w) && |a| == |w|
    ensures WAvg(w, Shift(a, c)) == WAvg(w, a) - c
  {
    forall i | 0 <= i < |w| ensures Mul(w, Shift(a, c))[i] == Sub(Mul(w, a), Scale(c, w))[i] {
      assert w[i] * (a[i] - c) == w[i] * a[i] - c * w[i];
    }
    assert Mul(w, Shift(a, c)) == Sub(Mul(w, a), Scale(c, w));
    SumSub(Mul(w, a), Scale(c, w));
    SumScale(c, w);
    SumPositive(w);
  }

  lemma WAvgOfConstant(w: seq<real>, v: seq<real>, c: real)
    requires PositiveWeights(w) && |v| == |w|
    requires forall i :: 0 <= i < |v| ==> v[i] == c
    ensures WAvg(w, v) == c
  {
    forall i | 0 <= i < |w| ensures Mul(w, v)[i] == Scale(c, w)[i] {
      assert w[i] * v[i] == c * w[i];
    }
    assert Mul(w, v) == Scale(c, w);
    SumScale(c, w);
    SumPositive(w);
  }

  lemma WAvgNonneg(w: seq<real>, v: seq<real>)
    requires PositiveWeights(w) && |v| == |w|
    requires forall i :: 0 <= i < |v| ==> v[i] >= 0.0
    ensures WAvg(w, v) >= 0.0
  {
    var p := Mul(w, v);
    forall i | 0 <= i < |p| ensures p[i] >= 0.0 {
      MulNonneg(w[i], v[i]);
    }
    SumNonneg(p);
    SumPositive(w);
  }

  /** Multiplying every weight by the same c > 0 leaves every average unchanged. */
  lemma WAvgScaledWeights(c: real, w: seq<real>, v: seq<real>)
    requires c > 0.0 && PositiveWeights(w) && |v| == |w|
    ensures PositiveWeights(Scale(c, w))
    ensures WAvg(Scale(c, w), v) == WAvg(w, v)
  {
    var cw := Scale(c, w);
    forall i | 0 <= i < |cw| ensures cw[i] > 0.0 {
      PositiveProduct(c, w[i]);
    }
    forall i | 0 <= i < |w| ensures Mul(cw, v)[i] == Scale(c, Mul(w, v))[i] {
      assert (c * w[i]) * v[i] == c * (w[i] * v[i]);
    }
    assert Mul(cw, v) == Scale(c, Mul(w, v));
    SumScale(c, Mul(w, v));
    SumScale(c, w);
    SumPositive(w);
    CancelFactor(c, Sum(Mul(w, v)), Sum(w));
  }

  /** With every weight 1 the weighted average is the plain mean. */
  lemma WAvgUnitWeights(v: seq<real>)
    requires |v| > 0
    ensures PositiveWeights(Ones(|v|))
    ensures WAvg(Ones(|v|), v) == Mean(v)
  {
    assert Mul(Ones(|v|), v) == v;
    SumOnes(|v|);
  }

  lemma MulNonneg(a: real, b: real)
    requires a >= 0.0 && b >= 0.0
    ensures a * b >= 0.0
  {
  }

  lemma MulMonotone(d: real, t1: real, t2: real)
    requires d >= 0.0 && t1 <= t2
    ensures d * t1 <= d * t2
  {
    MulNonneg(d, t2 - t1);
  }

  lemma PositiveProduct(a: real, b: real)
    requires a > 0.0 && b > 0.0
    ensures a * b > 0.0
  {
  }

  lemma CancelFactor(c: real, a: real, s: real)
    requires c != 0.0 && s != 0.0
    ensures (c * a) / (c * s) == a / s
  {
  }

  lemma SquareNonneg(a: real)
    ensures a * a >= 0.0
  {
    if a < 0.0 {
      assert a * a == (0.0 - a) * (0.0 - a);
    }
  }

  /**
   * The square of a non-zero number is positive. The square is passed in as
   * `s` and related to `t` through division, which the arithmetic solver
   * handles more reliably than a bare product of a term with itself.
   */
  lemma SquarePositive(t: real, s: real)
    requires s == t * t && t != 0.0
    ensures s > 0.0
  {
    assert s / t == t;
  }

  /** Only zero squares to zero. */
  lemma SquareZero(t: real, s: real)
    requires s == t * t && s == 0.0
    ensures t == 0.0
  {
    if t != 0.0 {
      SquarePositive(t, s);
    }
  }

  lemma SqNonneg(t: real)
    ensures Sq(t) >= 0.0
  {
    SquareNonneg(t);
  }

  lemma SquaresNonneg(a: seq<real>)
    ensures forall i :: 0 <= i < |a| ==> Square(a)[i] >= 0.0
  {
    forall i | 0 <= i < |a| ensures Square(a)[i] >= 0.0 {
      SquareNonneg(a[i]);
    }
  }

  // ---------------------------------------------------------------------
  // Variance

  /** A weighted average of non-negative terms, one of them positive, is positive. */
  lemma WAvgPositive(w: seq<real>, v: seq<real>, k: nat)
    requires PositiveWeights(w) && |v| == |w| && k < |v|
    requires forall i :: 0 <= i < |v| ==> v[i] >= 0.0
    requires v[k] > 0.0
    ensures WAvg(w, v) > 0.0
  {
    var p := Mul(w, v);
    forall i | 0 <= i < |p| ensures p[i] >= 0.0 {
      MulNonneg(w[i], v[i]);
    }
    PositiveProduct(w[k], v[k]);
    SumAtLeastTerm(p, k);
    SumPositive(w);
  }

  lemma WVarNonneg(w: seq<real>, a: seq<real>)
    requires PositiveWeights(w) && |a| == |w|
    ensures WVar(w, a) >= 0.0
  {
    SquaresNonneg(Shift(a, WAvg(w, a)));
    WAvgNonneg(w, Square(Shift(a, WAvg(w, a))));
  }

  /** A weighted mean squared residual is never negative. */
  lemma WMSENonneg(w: seq<real>, l: Line, x: seq<real>, y: seq<real>)
    requires PositiveWeights(w) && |x| == |w| && |y| == |w|
    ensures WMSE(w, l, x, y) >= 0.0
  {
    SquaresNonneg(Residuals(l, x, y));
    WAvgNonneg(w, Square(Residuals(l, x, y)));
  }

  /** Every entry of a constant array equals its weighted average. */
  lemma WAvgOfAllEqual(w: seq<real>, a: seq<real>)
    requires PositiveWeights(w) && |a| == |w|
    requires !NotAllEqual(a)
    ensures forall i :: 0 <= i < |a| ==> a[i] == WAvg(w, a)
  {
    forall i | 0 <= i < |a| ensures a[i] == a[0] {
      if a[i] != a[0] {
        assert NotAllEqual(a);
      }
    }
    WAvgOfConstant(w, a, a[0]);
  }

  /**
   * The weighted variance is positive exactly when the entries are not all
   * the same, and zero otherwise; weights play no part in which.
   */
  lemma WVarPositiveIff(w: seq<real>, a: seq<real>)
    requires PositiveWeights(w) && |a| == |w|
    ensures WVar(w, a) >= 0.0
    ensures WVar(w, a) > 0.0 <==> NotAllEqual(a)
    ensures WVar(w, a) == 0.0 <==> !NotAllEqual(a)
  {
    var m := WAvg(w, a);
    var u := Shift(a, m);
    SquaresNonneg(u);
    WVarNonneg(w, a);
    if NotAllEqual(a) {
      var i, j :| 0 <= i < |a| && 0 <= j < |a| && a[i] != a[j];
      var k := if u[i] != 0.0 then i else j;
      SquarePositive(u[k], Square(u)[k]);
      WAvgPositive(w, Square(u), k);
    } else {
      WAvgOfAllEqual(w, a);
      WAvgOfConstant(w, Square(u), 0.0);
    }
  }

  // ---------------------------------------------------------------------
  // The weighted least-squares line

  /** The residuals of the fitted line, written in centred coordinates. */
  lemma FitLineCentred(w: seq<real>, x: seq<real>, y: seq<real>)
    requires PositiveWeights(w) && |x| == |w| && |y| == |w|
    ensures Residuals(FitLine(w, x, y), x, y)
         == Sub(Shift(y, WAvg(w, y)), Scale(FitLine(w, x, y).slope, Shift(x, WAvg(w, x))))
  {
    var f := FitLine(w, x, y);
    var mx, my := WAvg(w, x), WAvg(w, y);
    var r := Residuals(f, x, y);
    var c := Sub(Shift(y, my), Scale(f.slope, Shift(x, mx)));
    forall i | 0 <= i < |w| ensures r[i] == c[i] {
      assert (y[i] - (my - f.slope * mx)) - f.slope * x[i] == (y[i] - my) - f.slope * (x[i] - mx);
    }
    assert r == c;
  }

  /** The residuals of the fitted line have weighted mean zero. */
  lemma FitLineResidualMeanZero(w: seq<real>, x: seq<real>, y: seq<real>)
    requires PositiveWeights(w) && |x| == |w| && |y| == |w|
    ensures WAvg(w, Residuals(FitLine(w, x, y), x, y)) == 0.0
  {
    var s := FitLine(w, x, y).slope;
    var mx, my := WAvg(w, x), WAvg(w, y);
    FitLineCentred(w, x, y);
    WAvgSub(w, Shift(y, my), Scale(s, Shift(x, mx)));
    WAvgScale(w, s, Shift(x, mx));
    WAvgShift(w, y, my);
    WAvgShift(w, x, mx);
  }

  /** The residuals of the fitted line are uncorrelated with the centred x. */
  lemma FitLineResidualCentredCross(w: seq<real>, x: seq<real>, y: seq<real>)
    requires PositiveWeights(w) && |x| == |w| && |y| == |w|
    ensures WAvg(w, Mul(Shift(x, WAvg(w, x)), Residuals(FitLine(w, x, y), x, y))) == 0.0
  {
    var s := FitLine(w, x, y).slope;
    var u, v := Shift(x, WAvg(w, x)), Shift(y, WAvg(w, y));
    var ur := Mul(u, Residuals(FitLine(w, x, y), x, y));
    WVarPositiveIff(w, x);
    if WVar(w, x) == 0.0 {
      WAvgOfAllEqual(w, x);
      forall i | 0 <= i < |w| ensures ur[i] == 0.0 {
        assert u[i] == 0.0;
      }
      WAvgOfConstant(w, ur, 0.0);
    } else {
      FitLineCentred(w, x, y);
      MulCentredResidual(u, v, s);
      WAvgSub(w, Mul(u, v), Scale(s, Square(u)));
      WAvgScale(w, s, Square(u));
      SlopeTimesVariance(w, x, y);
    }
  }

  /** With a non-constant x the fitted slope times the variance of x is the covariance. */
  lemma SlopeTimesVariance(w: seq<real>, x: seq<real>, y: seq<real>)
    requires PositiveWeights(w) && |x| == |w| && |y| == |w|
    requires WVar(w, x) != 0.0
    ensures FitLine(w, x, y).slope * WVar(w, x) == WCov(w, x, y)
  {
    QuotientProduct(WCov(w, x, y), WVar(w, x));
    assert FitLine(w, x, y).slope == WCov(w, x, y) / WVar(w, x);
    assert IsProduct(WCov(w, x, y), FitLine(w, x, y).slope, WVar(w, x));
  }

  /** c is (c / v) * v for any v != 0. */
  lemma QuotientProduct(c: real, v: real)
    requires v != 0.0
    ensures IsProduct(c, c / v, v)
  {
  }

  /**
   * The normal equations: the residuals of the fitted line have weighted
   * mean zero and are uncorrelated with x.
   */
  lemma FitLineNormalEquations(w: seq<real>, x: seq<real>, y: seq<real>)
    requires PositiveWeights(w) && |x| == |w| && |y| == |w|
    ensures WAvg(w, Residuals(FitLine(w, x, y), x, y)) == 0.0
    ensures WAvg(w, Mul(x, Residuals(FitLine(w, x, y), x, y))) == 0.0
  {
    var mx := WAvg(w, x);
    var r := Residuals(FitLine(w, x, y), x, y);
    FitLineResidualMeanZero(w, x, y);
    FitLineResidualCentredCross(w, x, y);
    MulSplitAtMean(x, r, mx);
    WAvgAdd(w, Mul(Shift(x, mx), r), Scale(mx, r));
    WAvgScale(w, mx, r);
  }

  /**
   * Optimality: no line has a smaller weighted mean squared residual than
   * the fitted one.
   */
  lemma FitLineMinimizes(w: seq<real>, x: seq<real>, y: seq<real>, l: Line)
    requires PositiveWeights(w) && |x| == |w| && |y| == |w|
    ensures WMSE(w, FitLine(w, x, y), x, y) <= WMSE(w, l, x, y)
  {
    var f := FitLine(w, x, y);
    var r := Residuals(f, x, y);
    var p, q := f.intercept - l.intercept, f.slope - l.slope;
    var d := Predict(Line(q, p), x);
    var sr, sd := Square(r), Square(d);
    var pr, qxr := Scale(2.0 * p, r), Scale(2.0 * q, Mul(x, r));
    SquareOtherResiduals(f, l, x, y);
    WAvgAdd(w, Add(sr, sd), Add(pr, qxr));
    WAvgAdd(w, sr, sd);
    WAvgAdd(w, pr, qxr);
    WAvgScale(w, 2.0 * p, r);
    WAvgScale(w, 2.0 * q, Mul(x, r));
    FitLineNormalEquations(w, x, y);
    SquaresNonneg(d);
    WAvgNonneg(w, sd);
  }

  lemma VarianceAlgebra(vy: real, c: real, vx: real, s: real)
    requires vx != 0.0 && s == c / vx
    ensures vy - 2.0 * s * c + s * s * vx == vy - Sq(c) / vx
  {
    assert s * vx == c;
    assert s * s * vx == s * c;
    assert Sq(c) / vx == s * c;
  }

  /**
   * The weighted mean squared residual of the fitted line is the variance of
   * y less the part explained by x: var(y) - cov(x, y)^2 / var(x).
   */
  lemma FitLineResidualVariance(w: seq<real>, x: seq<real>, y: seq<real>)
    requires PositiveWeights(w) && |x| == |w| && |y| == |w|
    requires NotAllEqual(x)
    ensures WVar(w, x) > 0.0
    ensures WMSE(w, FitLine(w, x, y), x, y)
         == WVar(w, y) - Sq(WCov(w, x, y)) / WVar(w, x)
  {
    var s := FitLine(w, x, y).slope;
    var u, v := Shift(x, WAvg(w, x)), Shift(y, WAvg(w, y));
    var uv := Mul(u, v);
    WVarPositiveIff(w, x);
    FitLineCentred(w, x, y);
    SquareCentredResidual(u, v, s);
    WAvgAdd(w, Sub(Square(v), Scale(2.0 * s, uv)), Scale(s * s, Square(u)));
    WAvgSub(w, Square(v), Scale(2.0 * s, uv));
    WAvgScale(w, 2.0 * s, uv);
    WAvgScale(w, s * s, Square(u));
    VarianceAlgebra(WVar(w, y), WCov(w, x, y), WVar(w, x), s);
  }

  /** Weighted averages of data lying exactly on y = a*x + b lie on the same line. */
  lemma WAvgOnLine(w: seq<real>, x: seq<real>, y: seq<real>, a: real, b: real)
    requires PositiveWeights(w) && |x| == |w| && |y| == |w|
    requires forall i :: 0 <= i < |y| ==> y[i] == a * x[i] + b
    ensures WAvg(w, y) == a * WAvg(w, x) + b
    ensures WCov(w, x, y) == a * WVar(w, x)
  {
    var ax := Scale(a, x);
    forall i | 0 <= i < |y| ensures y[i] == Shift(ax, 0.0 - b)[i] {
    }
    assert y == Shift(ax, 0.0 - b);
    WAvgShift(w, ax, 0.0 - b);
    WAvgScale(w, a, x);
    var u, v := Shift(x, WAvg(w, x)), Shift(y, WAvg(w, y));
    forall i | 0 <= i < |w| ensures v[i] == a * u[i] {
    }
    MulProportional(u, v, a);
    WAvgScale(w, a, Square(u));
  }

  /**
   * a / b and c / (a * b) as named terms (zero when the divisor is), so that
   * a fact proved about them for plain reals carries over by congruence to
   * the same quotients of statistics.
   */
  // Ratio(a, b) is the plain quotient a / b whenever b != 0.
  function Ratio(a: real, b: real): real
  {
    if b == 0.0 then 0.0 else a / b
  }

  // ProductRatio(c, a, b) is the plain quotient c / (a * b) whenever a * b != 0 (ProductRatioIsQuotient).
  function ProductRatio(c: real, a: real, b: real): real
  {
    if a * b == 0.0 then 0.0 else c / (a * b)
  }

  /** The plain product equation p == n * v, named so that it carries over to statistics by congruence. */
  predicate IsProduct(p: real, n: real, v: real)
  {
    p == n * v
  }

  lemma ProductRatioIsQuotient(c: real, a: real, b: real)
    requires a * b != 0.0
    ensures ProductRatio(c, a, b) == c / (a * b)
  {
  }

  /** cc / (vx * vy) == 1 - m / vy, within [0, 1], when m = vy - cc / vx >= 0. */
  lemma RatioAlgebra(vx: real, vy: real, cc: real, m: real)
    requires vx > 0.0 && vy > 0.0 && cc >= 0.0 && m >= 0.0 && m == vy - cc / vx
    ensures ProductRatio(cc, vx, vy) == 1.0 - Ratio(m, vy)
    ensures 0.0 <= ProductRatio(cc, vx, vy) <= 1.0
  {
    PositiveProduct(vx, vy);
    assert cc / (vx * vy) == (cc / vx) / vy;
    assert (vy - cc / vx) / vy == vy / vy - (cc / vx) / vy;
    assert m / vy >= 0.0;
  }

  /**
   * The squared weighted correlation cov^2 / (var x * var y) is the share of
   * the weighted variance of y explained by the fitted line,
   * 1 - WMSE / var y, and so lies in [0, 1] (the Cauchy-Schwarz inequality).
   */
  lemma SquaredCorrelationExplained(w: seq<real>, x: seq<real>, y: seq<real>)
    requires PositiveWeights(w) && |x| == |w| && |y| == |w|
    requires NotAllEqual(x) && NotAllEqual(y)
    ensures WVar(w, x) > 0.0 && WVar(w, y) > 0.0 && WVar(w, x) * WVar(w, y) > 0.0
    ensures Sq(WCov(w, x, y)) / (WVar(w, x) * WVar(w, y))
         == 1.0 - WMSE(w, FitLine(w, x, y), x, y) / WVar(w, y)
    ensures 0.0 <= Sq(WCov(w, x, y)) / (WVar(w, x) * WVar(w, y)) <= 1.0
  {
    var m := WMSE(w, FitLine(w, x, y), x, y);
    FitLineResidualVariance(w, x, y);
    WMSENonneg(w, FitLine(w, x, y), x, y);
    SqNonneg(WCov(w, x, y));
    WVarPositiveIff(w, y);
    PositiveProduct(WVar(w, x), WVar(w, y));
    RatioAlgebra(WVar(w, x), WVar(w, y), Sq(WCov(w, x, y)), m);
    assert ProductRatio(Sq(WCov(w, x, y)), WVar(w, x), WVar(w, y))
        == Sq(WCov(w, x, y)) / (WVar(w, x) * WVar(w, y));
    assert Ratio(m, WVar(w, y)) == m / WVar(w, y);
  }

  /**
   * Data lying exactly on y = a*x + b, with at least two distinct x, is
   * fitted by that very line, with zero residuals.
   */
  lemma FitLineExact(w: seq<real>, x: seq<real>, y: seq<real>, a: real, b: real)
    requires PositiveWeights(w) && |x| == |w| && |y| == |w|
    requires forall i :: 0 <= i < |y| ==> y[i] == a * x[i] + b
    requires NotAllEqual(x)
    ensures FitLine(w, x, y) == Line(a, b)
    ensures forall i :: 0 <= i < |y| ==> Residuals(FitLine(w, x, y), x, y)[i] == 0.0
    ensures WMSE(w, FitLine(w, x, y), x, y) == 0.0
  {
    FitLineRecoversLine(w, x, y, a, b);
    LineResidualsZero(x, y, a, b);
    WAvgOfConstant(w, Square(Residuals(Line(a, b), x, y)), 0.0);
  }

  lemma FitLineRecoversLine(w: seq<real>, x: seq<real>, y: seq<real>, a: real, b: real)
    requires PositiveWeights(w) && |x| == |w| && |y| == |w|
    requires forall i :: 0 <= i < |y| ==> y[i] == a * x[i] + b
    requires NotAllEqual(x)
    ensures FitLine(w, x, y) == Line(a, b)
  {
    WAvgOnLine(w, x, y, a, b);
    WVarPositiveIff(w, x);
    DivideBack(WCov(w, x, y), WVar(w, x), a);
  }

  /** Points on y = a*x + b have zero residuals, and zero squared residuals, from that line. */
  lemma LineResidualsZero(x: seq<real>, y: seq<real>, a: real, b: real)
    requires |x| == |y|
    requires forall i :: 0 <= i < |y| ==> y[i] == a * x[i] + b
    ensures forall i :: 0 <= i < |y| ==> Residuals(Line(a, b), x, y)[i] == 0.0
    ensures forall i :: 0 <= i < |y| ==> Square(Residuals(Line(a, b), x, y))[i] == 0.0
  {
    var r := Residuals(Line(a, b), x, y);
    forall i | 0 <= i < |y| ensures r[i] == 0.0 && Square(r)[i] == 0.0 {
      assert r[i] == (y[i] - b) - a * x[i];
    }
  }

  // ---------------------------------------------------------------------
  // Pointwise identities used above

  /** x * r == (x - m) * r + m * r */
  lemma MulSplitAtMean(x: seq<real>, r: seq<real>, m: real)
    requires |x| == |r|
    ensures Mul(x, r) == Add(Mul(Shift(x, m), r), Scale(m, r))
  {
    forall i | 0 <= i < |x| ensures Mul(x, r)[i] == Add(Mul(Shift(x, m), r), Scale(m, r))[i] {
      assert x[i] * r[i] == (x[i] - m) * r[i] + m * r[i];
    }
  }

  /** u * (v - s*u) == u*v - s*u^2 */
  lemma MulCentredResidual(u: seq<real>, v: seq<real>, s: real)
    requires |u| == |v|
    ensures Mul(u, Sub(v, Scale(s, u))) == Sub(Mul(u, v), Scale(s, Square(u)))
  {
    forall i | 0 <= i < |u| ensures Mul(u, Sub(v, Scale(s, u)))[i] == Sub(Mul(u, v), Scale(s, Square(u)))[i] {
      DistributeOverResidual(u[i], v[i], s, Square(u)[i]);
    }
  }

  /** (v - s*u)^2 == v^2 - 2s*u*v + s^2*u^2 */
  lemma SquareCentredResidual(u: seq<real>, v: seq<real>, s: real)
    requires |u| == |v|
    ensures Square(Sub(v, Scale(s, u)))
         == Add(Sub(Square(v), Scale(2.0 * s, Mul(u, v))), Scale(s * s, Square(u)))
  {
    var r := Sub(v, Scale(s, u));
    forall i | 0 <= i < |u|
      ensures Square(r)[i] == Add(Sub(Square(v), Scale(2.0 * s, Mul(u, v))), Scale(s * s, Square(u)))[i]
    {
      ExpandResidualSquare(u[i], v[i], s, Square(r)[i], Square(u)[i], Square(v)[i]);
    }
  }

  /** v == a*u implies u*v == a*u^2 */
  lemma MulProportional(u: seq<real>, v: seq<real>, a: real)
    requires |u| == |v|
    requires forall i :: 0 <= i < |u| ==> v[i] == a * u[i]
    ensures Mul(u, v) == Scale(a, Square(u))
  {
    forall i | 0 <= i < |u| ensures Mul(u, v)[i] == Scale(a, Square(u))[i] {
      DistributeOverResidual(u[i], 0.0, 0.0 - a, Square(u)[i]);
    }
  }

  /**
   * The squared residuals of any line l, split around those of a line f:
   * with p, q the differences in intercept and slope and d = q*x + p,
   * e^2 == r^2 + d^2 + 2p*r + 2q*x*r.
   */
  lemma SquareOtherResiduals(f: Line, l: Line, x: seq<real>, y: seq<real>)
    requires |x| == |y|
    ensures
      var r := Residuals(f, x, y);
      var p, q := f.intercept - l.intercept, f.slope - l.slope;
      Square(Residuals(l, x, y))
      == Add(Add(Square(r), Square(Predict(Line(q, p), x))),
             Add(Scale(2.0 * p, r), Scale(2.0 * q, Mul(x, r))))
  {
    var r, e := Residuals(f, x, y), Residuals(l, x, y);
    var p, q := f.intercept - l.intercept, f.slope - l.slope;
    var d := Predict(Line(q, p), x);
    forall i | 0 <= i < |x|
      ensures Square(e)[i] == Add(Add(Square(r), Square(d)), Add(Scale(2.0 * p, r), Scale(2.0 * q, Mul(x, r))))[i]
    {
      ExpandShiftedSquare(f, l, x[i], y[i]);
    }
  }

  /**
   * Multiplying every weight by the same positive factor changes nothing
   * about the fitted line.
   */
  lemma FitLineScaleInvariant(c: real, w: seq<real>, x: seq<real>, y: seq<real>)
    requires c > 0.0 && PositiveWeights(w) && |x| == |w| && |y| == |w|
    ensures PositiveWeights(Scale(c, w))
    ensures FitLine(Scale(c, w), x, y) == FitLine(w, x, y)
    ensures WMSE(Scale(c, w), FitLine(w, x, y), x, y) == WMSE(w, FitLine(w, x, y), x, y)
  {
    var cw := Scale(c, w);
    WAvgScaledWeights(c, w, x);
    WAvgScaledWeights(c, w, y);
    var u, v := Shift(x, WAvg(w, x)), Shift(y, WAvg(w, y));
    WAvgScaledWeights(c, w, Square(u));
    WAvgScaledWeights(c, w, Mul(u, v));
    var f := FitLine(w, x, y);
    WAvgScaledWeights(c, w, Square(Residuals(f, x, y)));
  }

  /** Scaling the weights leaves both weighted variances and the covariance unchanged. */
  lemma MomentsScaleInvariant(c: real, w: seq<real>, x: seq<real>, y: seq<real>)
    requires c > 0.0 && PositiveWeights(w) && |x| == |w| && |y| == |w|
    ensures WVar(Scale(c, w), x) == WVar(w, x)
    ensures WVar(Scale(c, w), y) == WVar(w, y)
    ensures WCov(Scale(c, w), x, y) == WCov(w, x, y)
  {
    WAvgScaledWeights(c, w, x);
    WAvgScaledWeights(c, w, y);
    var u, v := Shift(x, WAvg(w, x)), Shift(y, WAvg(w, y));
    WAvgScaledWeights(c, w, Square(u));
    WAvgScaledWeights(c, w, Square(v));
    WAvgScaledWeights(c, w, Mul(u, v));
  }

  /** Noiseless data with x and y not constant: the squared correlation is 1. */
  lemma ExactCorrelation(w: seq<real>, x: seq<real>, y: seq<real>, a: real, b: real)
    requires PositiveWeights(w) && |x| == |w| && |y| == |w|
    requires forall i :: 0 <= i < |y| ==> y[i] == a * x[i] + b
    requires NotAllEqual(x) && NotAllEqual(y)
    ensures WVar(w, x) * WVar(w, y) != 0.0
    ensures Sq(WCov(w, x, y)) / (WVar(w, x) * WVar(w, y)) == 1.0
  {
    FitLineExact(w, x, y, a, b);
    SquaredCorrelationExplained(w, x, y);
  }

  // ---------------------------------------------------------------------
  // Ordinary least squares and the coefficient of determination

  /** y - predict(x) is the residual vector of the line. */
  lemma SubPredictIsResiduals(l: Line, x: seq<real>, y: seq<real>)
    requires |x| == |y|
    ensures Sub(y, Predict(l, x)) == Residuals(l, x, y)
  {
    forall i | 0 <= i < |x| ensures Sub(y, Predict(l, x))[i] == Residuals(l, x, y)[i] {
      assert y[i] - (l.slope * x[i] + l.intercept) == (y[i] - l.intercept) - l.slope * x[i];
    }
  }

  /** The residual sum of squares is n times the unit-weight mean squared residual. */
  lemma SSRAsWMSE(l: Line, x: seq<real>, y: seq<real>)
    requires |x| == |y| > 0
    ensures PositiveWeights(Ones(|x|))
    ensures SSR(l, x, y) == (|x| as real) * WMSE(Ones(|x|), l, x, y)
  {
    SubPredictIsResiduals(l, x, y);
    WAvgUnitWeights(Square(Residuals(l, x, y)));
  }

  /** The ordinary least-squares line has the least residual sum of squares. */
  lemma OLSMinimizesSSR(x: seq<real>, y: seq<real>, l: Line)
    requires |x| == |y| > 0
    ensures SSR(OLS(x, y), x, y) <= SSR(l, x, y)
  {
    FitLineMinimizes(Ones(|x|), x, y, l);
    SSROrder(FitLine(Ones(|x|), x, y), l, x, y);
  }

  /** The residual sums of squares of two lines are ordered as their unit-weight mean squared residuals. */
  lemma SSROrder(l1: Line, l2: Line, x: seq<real>, y: seq<real>)
    requires |x| == |y| > 0
    requires PositiveWeights(Ones(|x|)) && WMSE(Ones(|x|), l1, x, y) <= WMSE(Ones(|x|), l2, x, y)
    ensures SSR(l1, x, y) <= SSR(l2, x, y)
  {
    SSRAsWMSE(l1, x, y);
    SSRAsWMSE(l2, x, y);
    MulMonotone(|x| as real, WMSE(Ones(|x|), l1, x, y), WMSE(Ones(|x|), l2, x, y));
  }

  /** The total sum of squares is the residual sum of squares of the flat line at the mean. */
  lemma SSTotAsSSR(x: seq<real>, y: seq<real>)
    requires |x| == |y| > 0
    ensures Sum(Square(Shift(y, Mean(y)))) == SSR(Line(0.0, Mean(y)), x, y)
  {
    var m := Mean(y);
    forall i | 0 <= i < |y| ensures Sub(y, Predict(Line(0.0, m), x))[i] == Shift(y, m)[i] {
    }
    assert Sub(y, Predict(Line(0.0, m), x)) == Shift(y, m);
  }

  /** r2_score never exceeds 1, whatever the prediction. */
  lemma R2ScoreAtMostOne(yTrue: seq<real>, yPred: seq<real>)
    requires |yTrue| == |yPred| >= 2
    ensures R2Score(yTrue, yPred) <= 1.0
  {
    var d := Sub(yTrue, yPred);
    var c := Shift(yTrue, Mean(yTrue));
    SquaresNonneg(d);
    SquaresNonneg(c);
    SumNonneg(Square(d));
    SumNonneg(Square(c));
  }

  /** Scored on the data it was fitted to, the least-squares line scores in [0, 1]. */
  lemma OLSScoreInUnitInterval(x: seq<real>, y: seq<real>)
    requires |x| == |y| >= 2
    ensures 0.0 <= Score(OLS(x, y), x, y) <= 1.0
  {
    var f := OLS(x, y);
    var ssRes := SSR(f, x, y);
    var ssTot := Sum(Square(Shift(y, Mean(y))));
    R2ScoreAtMostOne(y, Predict(f, x));
    SSTotAsSSR(x, y);
    OLSMinimizesSSR(x, y, Line(0.0, Mean(y)));
    SquaresNonneg(Sub(y, Predict(f, x)));
    SumNonneg(Square(Sub(y, Predict(f, x))));
    if ssTot != 0.0 {
      assert ssRes / ssTot <= 1.0;
    }
  }

  /**
   * Noiseless data: with at least two distinct x, least squares recovers the
   * slope and intercept exactly and scores 1.
   */
  lemma OLSExact(x: seq<real>, y: seq<real>, a: real, b: real)
    requires |x| == |y| >= 2
    requires forall i :: 0 <= i < |y| ==> y[i] == a * x[i] + b
    requires NotAllEqual(x)
    ensures OLS(x, y) == Line(a, b)
    ensures SSR(OLS(x, y), x, y) == 0.0
    ensures Score(OLS(x, y), x, y) == 1.0
  {
    WAvgUnitWeights(x);
    FitLineExact(Ones(|x|), x, y, a, b);
    SSRAsWMSE(OLS(x, y), x, y);
  }

  lemma UnitVariancesPositive(x: seq<real>, y: seq<real>)
    requires |x| == |y| > 0
    requires NotAllEqual(x) && NotAllEqual(y)
    ensures PositiveWeights(Ones(|x|))
    ensures WVar(Ones(|x|), x) > 0.0 && WVar(Ones(|x|), y) > 0.0
    ensures WVar(Ones(|x|), x) * WVar(Ones(|x|), y) > 0.0
  {
    var one := Ones(|x|);
    WAvgUnitWeights(x);
    WVarPositiveIff(one, x);
    WVarPositiveIff(one, y);
    PositiveProduct(WVar(one, x), WVar(one, y));
  }

  /**
   * With at least two distinct x and two distinct y, the score of the
   * least-squares line is the squared correlation coefficient
   * cov^2 / (var x * var y). Both variances are positive here, so the
   * ProductRatio below is that plain quotient.
   */
  lemma OLSScoreIsSquaredCorrelation(x: seq<real>, y: seq<real>)
    requires |x| == |y| >= 2
    requires NotAllEqual(x) && NotAllEqual(y)
    ensures PositiveWeights(Ones(|x|))
    ensures WVar(Ones(|x|), x) > 0.0 && WVar(Ones(|x|), y) > 0.0
    ensures Score(OLS(x, y), x, y)
         == ProductRatio(Sq(WCov(Ones(|x|), x, y)), WVar(Ones(|x|), x), WVar(Ones(|x|), y))
  {
    UnitVariancesPositive(x, y);
    SSTotAsVariance(x, y);
    OLSSSRAsVariance(x, y);
    assert IsProduct(Sum(Square(Shift(y, Mean(y)))), |x| as real, WVar(Ones(|x|), y));
    assert IsProduct(SSR(OLS(x, y), x, y), |x| as real,
      WVar(Ones(|x|), y) - Sq(WCov(Ones(|x|), x, y)) / WVar(Ones(|x|), x));
    ScoreAlgebra(|x| as real, WVar(Ones(|x|), x), WVar(Ones(|x|), y), Sq(WCov(Ones(|x|), x, y)),
      SSR(OLS(x, y), x, y), Sum(Square(Shift(y, Mean(y)))));
    ScoreOfSums(OLS(x, y), x, y);
  }

  /** With a non-constant y the score is 1 - SSR / SStot. */
  lemma ScoreOfSums(l: Line, x: seq<real>, y: seq<real>)
    requires |x| == |y| >= 2
    requires Sum(Square(Shift(y, Mean(y)))) != 0.0
    ensures Score(l, x, y) == 1.0 - Ratio(SSR(l, x, y), Sum(Square(Shift(y, Mean(y)))))
  {
  }

  /** The total sum of squares of y is n times its unit-weight variance, n the number of points. */
  lemma SSTotAsVariance(x: seq<real>, y: seq<real>)
    requires |x| == |y| > 0
    ensures PositiveWeights(Ones(|x|))
    ensures Sum(Square(Shift(y, Mean(y)))) == (|x| as real) * WVar(Ones(|x|), y)
  {
    WAvgUnitWeights(y);
    WAvgUnitWeights(Square(Shift(y, Mean(y))));
  }

  /** The least-squares residual sum of squares is n (var y - cov^2 / var x). */
  lemma OLSSSRAsVariance(x: seq<real>, y: seq<real>)
    requires |x| == |y| > 0 && NotAllEqual(x)
    ensures PositiveWeights(Ones(|x|))
    ensures WVar(Ones(|x|), x) > 0.0
    ensures SSR(OLS(x, y), x, y)
         == (|x| as real) * (WVar(Ones(|x|), y) - Sq(WCov(Ones(|x|), x, y)) / WVar(Ones(|x|), x))
  {
    OLSResidualVariance(x, y);
    OLSSSRAsWMSE(x, y);
    assert IsProduct(SSR(OLS(x, y), x, y), |x| as real,
      WVar(Ones(|x|), y) - Sq(WCov(Ones(|x|), x, y)) / WVar(Ones(|x|), x));
  }

  /** The residual sum of squares of the least-squares line is n times its mean squared residual. */
  lemma OLSSSRAsWMSE(x: seq<real>, y: seq<real>)
    requires |x| == |y| > 0
    ensures PositiveWeights(Ones(|x|))
    ensures IsProduct(SSR(OLS(x, y), x, y), |x| as real, WMSE(Ones(|x|), OLS(x, y), x, y))
  {
    SSRAsWMSE(OLS(x, y), x, y);
  }

  /** The mean squared residual of the least-squares line is var y - cov^2 / var x. */
  lemma OLSResidualVariance(x: seq<real>, y: seq<real>)
    requires |x| == |y| > 0 && NotAllEqual(x)
    ensures PositiveWeights(Ones(|x|))
    ensures WVar(Ones(|x|), x) > 0.0
    ensures WMSE(Ones(|x|), OLS(x, y), x, y)
         == WVar(Ones(|x|), y) - Sq(WCov(Ones(|x|), x, y)) / WVar(Ones(|x|), x)
  {
    WAvgUnitWeights(x);
    FitLineResidualVariance(Ones(|x|), x, y);
  }

  /** 1 - n (vy - cc / vx) / (n vy) == cc / (vx vy) */
  lemma ScoreAlgebra(n: real, vx: real, vy: real, cc: real, ssRes: real, ssTot: real)
    requires n > 0.0 && vx > 0.0 && vy > 0.0
    requires IsProduct(ssTot, n, vy) && IsProduct(ssRes, n, vy - cc / vx)
    ensures ssTot != 0.0 && 1.0 - Ratio(ssRes, ssTot) == ProductRatio(cc, vx, vy)
  {
    var k := cc / vx;
    CorrelationAlgebra(n, vy, k, ssRes, ssTot);
    PositiveProduct(vx, vy);
    assert k / vy == cc / (vx * vy);
  }

  lemma CorrelationAlgebra(n: real, vy: real, k: real, ssRes: real, ssTot: real)
    requires n > 0.0 && vy > 0.0 && ssTot == n * vy && ssRes == n * (vy - k)
    ensures ssTot != 0.0
    ensures 1.0 - ssRes / ssTot == k / vy
  {
    PositiveProduct(n, vy);
    var r := k / vy;
    assert r * vy == k;
    assert (1.0 - r) * vy == vy - k;
    assert (1.0 - r) * ssTot == n * ((1.0 - r) * vy);
    assert (1.0 - r) * ssTot == ssRes;
    DivideBack(ssRes, ssTot, 1.0 - r);
  }

  lemma DivideBack(a: real, b: real, q: real)
    requires b != 0.0 && q * b == a
    ensures a / b == q
  {
  }

  lemma DistributeOverResidual(u: real, v: real, s: real, su: real)
    requires su == u * u
    ensures u * (v - s * u) == u * v - s * su
  {
  }

  /**
   * At one point (x, y): the residual e of l is the residual r of f plus
   * d = q*x + p, the difference of the two lines there, and e^2 expands.
   */
  lemma ExpandShiftedSquare(f: Line, l: Line, x: real, y: real)
    ensures var r, e := (y - f.intercept) - f.slope * x, (y - l.intercept) - l.slope * x;
      var p, q := f.intercept - l.intercept, f.slope - l.slope;
      var d := q * x + p;
      e * e == r * r + d * d + (2.0 * p * r + 2.0 * q * (x * r))
  {
    var r, e := (y - f.intercept) - f.slope * x, (y - l.intercept) - l.slope * x;
    var p, q := f.intercept - l.intercept, f.slope - l.slope;
    var d := q * x + p;
    assert e == r + d;
    assert (r + d) * (r + d) == r * r + d * d + 2.0 * r * d;
  }

  /** (v - s*u)^2, expanded. */
  lemma ExpandResidualSquare(u: real, v: real, s: real, sr: real, su: real, sv: real)
    requires sr == (v - s * u) * (v - s * u) && su == u * u && sv == v * v
    ensures sr == sv - 2.0 * s * (u * v) + s * s * su
  {
    assert (v - s * u) * (v - s * u) == v * v - 2.0 * s * (u * v) + s * s * (u * u);
  }
}
