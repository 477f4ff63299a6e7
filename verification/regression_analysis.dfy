/**
 * `calculate_regression`: the straight-line fit of log(R0) against log([Fe])
 * with measurement errors on both axes. Either scikit-learn's ordinary least
 * squares is used, or a closed-form weighted fit in which every point is
 * weighted by the inverse of its combined variance, 1 / (sdy^2 + sdx^2).
 *
 * Square roots are taken by a function `sqrt` passed in, about which only
 * IsSqrt is known.
 */
module RegressionAnalysis {
  import opened Vectors
  import opened LeastSquares

  /** A standard error, or the None the scikit-learn branch reports instead. */
  datatype StdError = NotReported | Reported(value: real)

  /** The five values calculate_regression returns. */
  datatype Regression = Regression(
    slope: real,
    intercept: real,
    seSlope: StdError,
    seIntercept: StdError,
    rSquared: real)

  /** `sqrt` is the non-negative square root on non-negative arguments. */
  ghost predicate IsSqrt(sqrt: real -> real)
  {
    forall t :: t >= 0.0 ==> sqrt(t) >= 0.0 && sqrt(t) * sqrt(t) == t
  }

  lemma SqrtZero(sqrt: real -> real)
    requires IsSqrt(sqrt)
    ensures sqrt(0.0) == 0.0
  {
    SquareZero(sqrt(0.0), 0.0);
  }

  /** Both error arrays match x in length, and no point has zero combined error. */
  predicate ErrorsUsable(sdx: seq<real>, sdy: seq<real>)
  {
    |sdx| == |sdy| && forall i :: 0 <= i < |sdx| ==> sdx[i] != 0.0 || sdy[i] != 0.0
  }

  /** The combined variance v = sdy^2 + sdx^2 of a point with some error is positive. */
  lemma CombinedVariancePositive(dx: real, dy: real, v: real)
    requires dx != 0.0 || dy != 0.0
    requires v == dy * dy + dx * dx
    ensures v > 0.0
  {
    var sx, sy := dx * dx, dy * dy;
    SquareNonneg(dx);
    SquareNonneg(dy);
    if dx != 0.0 {
      SquarePositive(dx, sx);
    } else {
      SquarePositive(dy, sy);
    }
  }

  /** The weight 1 / (sdy^2 + sdx^2) of one point: positive. */
  function InverseVariance(dx: real, dy: real): (r: real)
    requires dx != 0.0 || dy != 0.0
    ensures r > 0.0
  {
    var v := dy * dy + dx * dx;
    CombinedVariancePositive(dx, dy, v);
    1.0 / v
  }

  /** w = 1 / (sdy ** 2 + sdx ** 2): every weight is positive. */
  function Weights(sdx: seq<real>, sdy: seq<real>): (w: seq<real>)
    requires ErrorsUsable(sdx, sdy)
    ensures |w| == |sdx|
    ensures PositiveWeights(w) <==> |w| > 0
  {
    seq(|sdx|, i requires 0 <= i < |sdx| => InverseVariance(sdx[i], sdy[i]))
  }

  /**
   * What the weighted branch needs to produce finite numbers: at least three
   * points (se_slope divides by n - 2), usable errors, and neither x nor y
   * constant (slope divides by varwx, r_squared by varwx * varwy).
   */
  predicate WeightedDomain(x: seq<real>, y: seq<real>, sdx: seq<real>, sdy: seq<real>)
  {
    |x| == |y| == |sdx| >= 3 && ErrorsUsable(sdx, sdy) && NotAllEqual(x) && NotAllEqual(y)
  }

  /** The same conditions stated on the weights themselves. */
  predicate WeightedFitDomain(w: seq<real>, x: seq<real>, y: seq<real>)
  {
    PositiveWeights(w) && |x| == |w| && |y| == |w| && |w| >= 3 && NotAllEqual(x) && NotAllEqual(y)
  }

  /**
   * The weighted branch, statement by statement: wmx, wmy, covwxy, varwx and
   * varwy are the weighted moments, slope = covwxy / varwx and intercept =
   * wmy - slope * wmx are FitLine (varwx > 0 here), and mse is the weighted
   * mean of the squared residuals y - intercept - slope * x.
   */
  function WeightedFit(w: seq<real>, x: seq<real>, y: seq<real>, sqrt: real -> real): Regression
    requires WeightedFitDomain(w, x, y)
  {
    WVarPositiveIff(w, x);
    WVarPositiveIff(w, y);
    var line := FitLine(w, x, y);
    var mse := WMSE(w, line, x, y);
    WeightedOutputs(line, mse, WVar(w, x), WVar(w, y), WCov(w, x, y), WAvg(w, Square(x)), |x|, sqrt)
  }

  /** mse / varwx / (n - 2), the estimated variance of the slope. */
  function SlopeVariance(mse: real, varwx: real, n: nat): real
    requires varwx != 0.0 && n > 2
  {
    mse / varwx / (n - 2) as real
  }

  /**
   * Scaled back by varwx and the n - 2 degrees of freedom, the slope
   * variance gives the mean squared residual again; it is never negative.
   */
  lemma SlopeVarianceScaledBack(mse: real, varwx: real, n: nat)
    requires varwx > 0.0 && n > 2
    ensures SlopeVariance(mse, varwx, n) * varwx * ((n - 2) as real) == mse
    ensures mse >= 0.0 ==> SlopeVariance(mse, varwx, n) >= 0.0
  {
    var k := (n - 2) as real;
    var q := mse / varwx;
    assert q * varwx == mse;
    assert (q / k) * k == q;
  }

  /**
   * The last three statements of the weighted branch: se_slope is the root
   * of the slope variance, se_intercept is se_slope times the root weighted
   * mean of x^2, and r_squared = covwxy^2 / (varwx * varwy).
   */
  function WeightedOutputs(
    line: Line, mse: real, varwx: real, varwy: real, covwxy: real, mx2: real,
    n: nat, sqrt: real -> real): Regression
    requires varwx != 0.0 && varwy != 0.0 && n > 2
  {
    NonzeroProduct(varwx, varwy);
    var seSlope := sqrt(SlopeVariance(mse, varwx, n));
    Regression(line.slope, line.intercept, Reported(seSlope),
      Reported(seSlope * sqrt(mx2)), Sq(covwxy) / (varwx * varwy))
  }

  /** The scikit-learn branch: ordinary least squares and its score on the same data. */
  function SklearnFit(x: seq<real>, y: seq<real>): Regression
    requires |x| == |y| >= 2
  {
    var model := OLS(x, y);
    Regression(model.slope, model.intercept, NotReported, NotReported, Score(model, x, y))
  }

  /**
   * What calculate_regression produces: its five values, or the TypeError
   * raised when the weighted branch is asked for without both error arrays.
   */
  datatype Outcome = Fitted(reg: Regression) | MissingErrors

  /** calculate_regression */
  function CalculateRegression(
    x: seq<real>, y: seq<real>, sdx: Option<seq<real>>, sdy: Option<seq<real>>,
    useSklearn: bool, sqrt: real -> real): (r: Outcome)
    requires |x| == |y|
    requires useSklearn ==> |x| >= 2
    requires !useSklearn && sdx.Some? && sdy.Some? ==> WeightedDomain(x, y, sdx.value, sdy.value)
    ensures r.MissingErrors? <==> !useSklearn && (sdx.None? || sdy.None?)
    ensures r.Fitted? ==> (r.reg.seSlope.NotReported? <==> useSklearn)
    ensures r.Fitted? ==> (r.reg.seIntercept.NotReported? <==> useSklearn)
  {
    if useSklearn then Fitted(SklearnFit(x, y))
    else if sdx.None? || sdy.None? then MissingErrors
    else Fitted(WeightedFit(Weights(sdx.value, sdy.value), x, y, sqrt))
  }

  // ---------------------------------------------------------------------
  // The scikit-learn branch

  /**
   * The scikit-learn branch returns the least-squares line, no standard
   * errors, and a score in [0, 1] measured on the data it was fitted to.
   */
  lemma SklearnBranch(x: seq<real>, y: seq<real>, sdx: Option<seq<real>>, sdy: Option<seq<real>>, sqrt: real -> real)
    requires |x| == |y| >= 2
    ensures var r := CalculateRegression(x, y, sdx, sdy, true, sqrt);
      && r.Fitted?
      && Line(r.reg.slope, r.reg.intercept) == OLS(x, y)
      && r.reg.seSlope.NotReported? && r.reg.seIntercept.NotReported?
      && r.reg.rSquared == Score(OLS(x, y), x, y)
      && 0.0 <= r.reg.rSquared <= 1.0
      && forall l: Line :: SSR(Line(r.reg.slope, r.reg.intercept), x, y) <= SSR(l, x, y)
  {
    OLSScoreInUnitInterval(x, y);
    forall l: Line ensures SSR(OLS(x, y), x, y) <= SSR(l, x, y) {
      OLSMinimizesSSR(x, y, l);
    }
  }

  // ---------------------------------------------------------------------
  // The weighted branch

  /** The slope and intercept of the weighted branch, as a line. */
  lemma WeightedFitLine(w: seq<real>, x: seq<real>, y: seq<real>, sqrt: real -> real)
    requires WeightedFitDomain(w, x, y)
    ensures var r := WeightedFit(w, x, y, sqrt);
      Line(r.slope, r.intercept) == FitLine(w, x, y)
  {
    WVarPositiveIff(w, x);
  }

  /** r_squared of the weighted branch. */
  lemma WeightedFitRSquared(w: seq<real>, x: seq<real>, y: seq<real>, sqrt: real -> real)
    requires WeightedFitDomain(w, x, y)
    ensures WVar(w, x) > 0.0 && WVar(w, y) > 0.0 && WVar(w, x) * WVar(w, y) > 0.0
    ensures WeightedFit(w, x, y, sqrt).rSquared
         == Sq(WCov(w, x, y)) / (WVar(w, x) * WVar(w, y))
  {
    WVarPositiveIff(w, x);
    WVarPositiveIff(w, y);
    PositiveProduct(WVar(w, x), WVar(w, y));
  }

  /** The weighted line passes through the weighted mean point (wmx, wmy). */
  lemma WeightedLineThroughMean(w: seq<real>, x: seq<real>, y: seq<real>, sqrt: real -> real)
    requires WeightedFitDomain(w, x, y)
    ensures var r := WeightedFit(w, x, y, sqrt);
      PassesThrough(Line(r.slope, r.intercept), WAvg(w, x), WAvg(w, y))
  {
    WeightedFitLine(w, x, y, sqrt);
    FitLineThroughMean(w, x, y);
  }

  /**
   * The residuals of the weighted line satisfy the normal equations: their
   * weighted mean is zero and they are uncorrelated with x.
   */
  lemma WeightedLineNormalEquations(w: seq<real>, x: seq<real>, y: seq<real>, sqrt: real -> real)
    requires WeightedFitDomain(w, x, y)
    ensures var r := WeightedFit(w, x, y, sqrt);
      && WAvg(w, Residuals(Line(r.slope, r.intercept), x, y)) == 0.0
      && WAvg(w, Mul(x, Residuals(Line(r.slope, r.intercept), x, y))) == 0.0
  {
    WeightedFitLine(w, x, y, sqrt);
    FitLineNormalEquations(w, x, y);
  }

  /** No line has a smaller weighted mean squared residual than the weighted line. */
  lemma WeightedLineMinimizes(w: seq<real>, x: seq<real>, y: seq<real>, sqrt: real -> real)
    requires WeightedFitDomain(w, x, y)
    ensures var r := WeightedFit(w, x, y, sqrt);
      forall l: Line :: WMSE(w, Line(r.slope, r.intercept), x, y) <= WMSE(w, l, x, y)
  {
    var r := WeightedFit(w, x, y, sqrt);
    var f := FitLine(w, x, y);
    WeightedFitLine(w, x, y, sqrt);
    assert Line(r.slope, r.intercept) == f;
    forall l: Line ensures WMSE(w, f, x, y) <= WMSE(w, l, x, y) {
      FitLineMinimizes(w, x, y, l);
    }
  }

  /**
   * r_squared = covwxy^2 / (varwx * varwy) is the share of the weighted
   * variance of y that the line explains, 1 - mse / varwy.
   */
  lemma WeightedRSquaredExplained(w: seq<real>, x: seq<real>, y: seq<real>, sqrt: real -> real)
    requires WeightedFitDomain(w, x, y)
    ensures WVar(w, y) > 0.0
    ensures WeightedFit(w, x, y, sqrt).rSquared == 1.0 - WMSE(w, FitLine(w, x, y), x, y) / WVar(w, y)
  {
    WeightedFitRSquared(w, x, y, sqrt);
    SquaredCorrelationExplained(w, x, y);
  }

  /** r_squared lies in [0, 1]. */
  lemma WeightedRSquaredBounds(w: seq<real>, x: seq<real>, y: seq<real>, sqrt: real -> real)
    requires WeightedFitDomain(w, x, y)
    ensures 0.0 <= WeightedFit(w, x, y, sqrt).rSquared <= 1.0
  {
    WeightedFitRSquared(w, x, y, sqrt);
    SquaredCorrelationExplained(w, x, y);
  }

  /**
   * se_slope is a non-negative number whose square is the slope variance
   * (so that its square times varwx * (n - 2) is the weighted mean squared
   * residual); se_intercept is se_slope scaled by the root weighted mean of
   * x^2, and is non-negative too.
   */
  lemma WeightedStandardErrors(w: seq<real>, x: seq<real>, y: seq<real>, sqrt: real -> real)
    requires WeightedFitDomain(w, x, y) && IsSqrt(sqrt)
    ensures WVar(w, x) > 0.0
    ensures var r := WeightedFit(w, x, y, sqrt);
      && r.seSlope.Reported? && r.seIntercept.Reported?
      && r.seSlope.value >= 0.0
      && Sq(r.seSlope.value) == SlopeVariance(WMSE(w, FitLine(w, x, y), x, y), WVar(w, x), |x|)
      && r.seIntercept.value == r.seSlope.value * sqrt(WAvg(w, Square(x)))
      && r.seIntercept.value >= 0.0
  {
    WeightedFitIsOutputs(w, x, y, sqrt);
    WeightedMomentsNonneg(w, x, y);
    OutputErrors(FitLine(w, x, y), WMSE(w, FitLine(w, x, y), x, y),
      WVar(w, x), WVar(w, y), WCov(w, x, y), WAvg(w, Square(x)), |x|, sqrt);
  }

  /** The weighted mean squared residual and the weighted mean of x^2 are never negative. */
  lemma WeightedMomentsNonneg(w: seq<real>, x: seq<real>, y: seq<real>)
    requires PositiveWeights(w) && |x| == |w| && |y| == |w|
    ensures WMSE(w, FitLine(w, x, y), x, y) >= 0.0 && WAvg(w, Square(x)) >= 0.0
  {
    WMSENonneg(w, FitLine(w, x, y), x, y);
    SquaresNonneg(x);
    WAvgNonneg(w, Square(x));
  }

  /** The weighted branch is its last three statements applied to the weighted moments. */
  lemma WeightedFitIsOutputs(w: seq<real>, x: seq<real>, y: seq<real>, sqrt: real -> real)
    requires WeightedFitDomain(w, x, y)
    ensures WVar(w, x) > 0.0 && WVar(w, y) > 0.0
    ensures WeightedFit(w, x, y, sqrt)
         == WeightedOutputs(FitLine(w, x, y), WMSE(w, FitLine(w, x, y), x, y),
              WVar(w, x), WVar(w, y), WCov(w, x, y), WAvg(w, Square(x)), |x|, sqrt)
  {
    WVarPositiveIff(w, x);
    WVarPositiveIff(w, y);
  }

  /** The standard errors of the last three statements, for a mean squared residual >= 0. */
  lemma OutputErrors(line: Line, mse: real, varwx: real, varwy: real, covwxy: real, mx2: real,
                     n: nat, sqrt: real -> real)
    requires IsSqrt(sqrt) && mse >= 0.0 && varwx > 0.0 && varwy != 0.0 && mx2 >= 0.0 && n > 2
    ensures var r := WeightedOutputs(line, mse, varwx, varwy, covwxy, mx2, n, sqrt);
      && r.seSlope.Reported? && r.seIntercept.Reported?
      && r.seSlope.value >= 0.0
      && Sq(r.seSlope.value) == SlopeVariance(mse, varwx, n)
      && r.seIntercept.value == r.seSlope.value * sqrt(mx2)
      && r.seIntercept.value >= 0.0
  {
    SlopeVarianceScaledBack(mse, varwx, n);
    MulNonneg(sqrt(SlopeVariance(mse, varwx, n)), sqrt(mx2));
  }

  /**
   * Noiseless data y = a*x + b with a != 0 and x not all equal: the weighted
   * fit recovers a and b, both standard errors are 0 and r_squared is 1.
   */
  lemma WeightedExact(w: seq<real>, x: seq<real>, y: seq<real>, a: real, b: real, sqrt: real -> real)
    requires PositiveWeights(w) && |x| == |w| && |y| == |w| && |w| >= 3
    requires forall i :: 0 <= i < |y| ==> y[i] == a * x[i] + b
    requires NotAllEqual(x) && a != 0.0
    requires IsSqrt(sqrt)
    ensures NotAllEqual(y)
    ensures WeightedFit(w, x, y, sqrt) == Regression(a, b, Reported(0.0), Reported(0.0), 1.0)
  {
    SlopedLineNotFlat(x, y, a, b);
    FitLineExact(w, x, y, a, b);
    ExactCorrelation(w, x, y, a, b);
    WVarPositiveIff(w, x);
    WVarPositiveIff(w, y);
    ProductRatioIsQuotient(Sq(WCov(w, x, y)), WVar(w, x), WVar(w, y));
    NoiselessOutputs(a, b, WVar(w, x), WVar(w, y), WCov(w, x, y), WAvg(w, Square(x)), |x|, sqrt);
  }

  /** Points on a line of nonzero slope, at x not all equal, are not all equal either. */
  lemma SlopedLineNotFlat(x: seq<real>, y: seq<real>, a: real, b: real)
    requires |x| == |y|
    requires forall i :: 0 <= i < |y| ==> y[i] == a * x[i] + b
    requires NotAllEqual(x) && a != 0.0
    ensures NotAllEqual(y)
  {
    var i, j :| 0 <= i < |x| && 0 <= j < |x| && x[i] != x[j];
    NonzeroProduct(a, x[i] - x[j]);
    assert y[i] - y[j] == a * (x[i] - x[j]);
  }

  /**
   * With a zero mean squared residual and a squared correlation of 1, the
   * outputs are exact. Both variances are nonzero, so the ProductRatio in the
   * requires is the plain quotient covwxy^2 / (varwx * varwy).
   */
  lemma NoiselessOutputs(a: real, b: real, varwx: real, varwy: real, covwxy: real, mx2: real, n: nat, sqrt: real -> real)
    requires IsSqrt(sqrt) && varwx != 0.0 && varwy != 0.0 && n > 2
    requires ProductRatio(Sq(covwxy), varwx, varwy) == 1.0
    ensures WeightedOutputs(Line(a, b), 0.0, varwx, varwy, covwxy, mx2, n, sqrt)
         == Regression(a, b, Reported(0.0), Reported(0.0), 1.0)
  {
    NonzeroProduct(varwx, varwy);
    assert 0.0 / varwx / (n - 2) as real == 0.0;
    SqrtZero(sqrt);
  }

  lemma NonzeroProduct(a: real, b: real)
    requires a != 0.0 && b != 0.0
    ensures a * b != 0.0
  {
  }

  /**
   * Multiplying every weight by the same c > 0 changes no output: each
   * statistic is a ratio with np.sum(w) below.
   */
  lemma WeightedScaleInvariant(c: real, w: seq<real>, x: seq<real>, y: seq<real>, sqrt: real -> real)
    requires c > 0.0 && WeightedFitDomain(w, x, y)
    ensures WeightedFitDomain(Scale(c, w), x, y)
    ensures WeightedFit(Scale(c, w), x, y, sqrt) == WeightedFit(w, x, y, sqrt)
  {
    var cw := Scale(c, w);
    FitLineScaleInvariant(c, w, x, y);
    MomentsScaleInvariant(c, w, x, y);
    WAvgScaledWeights(c, w, Square(x));
    WVarPositiveIff(w, x);
    WVarPositiveIff(w, y);
  }

  /**
   * Multiplying every sdx and sdy by the same k != 0 multiplies every weight
   * by 1/k^2 and so changes no output of calculate_regression.
   */
  lemma ErrorScaleInvariant(k: real, x: seq<real>, y: seq<real>, sdx: seq<real>, sdy: seq<real>, sqrt: real -> real)
    requires k != 0.0 && WeightedDomain(x, y, sdx, sdy)
    ensures WeightedDomain(x, y, Scale(k, sdx), Scale(k, sdy))
    ensures CalculateRegression(x, y, Some(Scale(k, sdx)), Some(Scale(k, sdy)), false, sqrt)
         == CalculateRegression(x, y, Some(sdx), Some(sdy), false, sqrt)
  {
    ScaledErrorsUsable(k, sdx, sdy);
    ScaledWeights(k, sdx, sdy);
    WeightedScaleInvariant(1.0 / (k * k), Weights(sdx, sdy), x, y, sqrt);
  }

  /** Errors scaled by k != 0 still leave no point with zero combined error. */
  lemma ScaledErrorsUsable(k: real, sdx: seq<real>, sdy: seq<real>)
    requires k != 0.0 && ErrorsUsable(sdx, sdy)
    ensures ErrorsUsable(Scale(k, sdx), Scale(k, sdy))
  {
    var kx, ky := Scale(k, sdx), Scale(k, sdy);
    forall i | 0 <= i < |sdx| ensures kx[i] != 0.0 || ky[i] != 0.0 {
      if sdx[i] != 0.0 {
        NonzeroProduct(k, sdx[i]);
      } else {
        NonzeroProduct(k, sdy[i]);
      }
    }
  }

  /** Errors scaled by k != 0 scale every weight by 1 / k^2. */
  lemma ScaledWeights(k: real, sdx: seq<real>, sdy: seq<real>)
    requires k != 0.0 && ErrorsUsable(sdx, sdy) && ErrorsUsable(Scale(k, sdx), Scale(k, sdy))
    ensures k * k > 0.0
    ensures Weights(Scale(k, sdx), Scale(k, sdy)) == Scale(1.0 / (k * k), Weights(sdx, sdy))
  {
    var kx, ky := Scale(k, sdx), Scale(k, sdy);
    var kk := k * k;
    SquarePositive(k, kk);
    var w := Weights(sdx, sdy);
    forall i | 0 <= i < |w| ensures Weights(kx, ky)[i] == Scale(1.0 / kk, w)[i] {
      var v := sdy[i] * sdy[i] + sdx[i] * sdx[i];
      var kv := ky[i] * ky[i] + kx[i] * kx[i];
      CombinedVariancePositive(sdx[i], sdy[i], v);
      ScaledVariance(k, kk, sdx[i], sdy[i], v, kv);
    }
  }

  /** 1 / ((k dy)^2 + (k dx)^2) == (1 / k^2) * (1 / (dy^2 + dx^2)) */
  lemma ScaledVariance(k: real, kk: real, dx: real, dy: real, v: real, kv: real)
    requires kk == k * k && kk > 0.0
    requires v == dy * dy + dx * dx && v > 0.0
    requires kv == (k * dy) * (k * dy) + (k * dx) * (k * dx)
    ensures kv > 0.0
    ensures 1.0 / kv == (1.0 / kk) * (1.0 / v)
  {
    assert kv == kk * v;
    PositiveProduct(kk, v);
  }

  /**
   * Equal weights reduce the weighted branch to ordinary least squares: the
   * same slope and intercept as the scikit-learn branch, and r_squared equal
   * to its score.
   */
  lemma EqualWeightsMatchSklearn(c: real, x: seq<real>, y: seq<real>, sqrt: real -> real)
    requires c > 0.0 && |x| == |y| >= 3 && NotAllEqual(x) && NotAllEqual(y)
    ensures WeightedFitDomain(Scale(c, Ones(|x|)), x, y)
    ensures var r := WeightedFit(Scale(c, Ones(|x|)), x, y, sqrt);
      && Line(r.slope, r.intercept) == OLS(x, y)
      && r.rSquared == Score(OLS(x, y), x, y)
  {
    var one := Ones(|x|);
    WAvgUnitWeights(x);
    WeightedScaleInvariant(c, one, x, y, sqrt);
    WeightedFitLine(one, x, y, sqrt);
    UnitWeightsRSquared(x, y, sqrt);
  }

  /** With unit weights, r_squared is the score of the least-squares line. */
  lemma UnitWeightsRSquared(x: seq<real>, y: seq<real>, sqrt: real -> real)
    requires |x| == |y| >= 3 && NotAllEqual(x) && NotAllEqual(y)
    ensures PositiveWeights(Ones(|x|))
    ensures WeightedFit(Ones(|x|), x, y, sqrt).rSquared == Score(OLS(x, y), x, y)
  {
    OLSScoreIsSquaredCorrelation(x, y);
    WeightedRSquaredAsProductRatio(Ones(|x|), x, y, sqrt);
  }

  lemma WeightedRSquaredAsProductRatio(w: seq<real>, x: seq<real>, y: seq<real>, sqrt: real -> real)
    requires WeightedFitDomain(w, x, y)
    ensures WeightedFit(w, x, y, sqrt).rSquared == ProductRatio(Sq(WCov(w, x, y)), WVar(w, x), WVar(w, y))
  {
    WeightedFitRSquared(w, x, y, sqrt);
  }

  /**
   * Points whose errors are all the same, sdx_i = ex and sdy_i = ey, are
   * fitted by the weighted branch exactly as by the scikit-learn branch.
   */
  lemma EqualErrorsMatchSklearn(x: seq<real>, y: seq<real>, ex: real, ey: real, sqrt: real -> real)
    requires |x| == |y| >= 3 && NotAllEqual(x) && NotAllEqual(y)
    requires ex != 0.0 || ey != 0.0
    ensures var sdx, sdy := seq(|x|, _ => ex), seq(|x|, _ => ey);
      var rw := CalculateRegression(x, y, Some(sdx), Some(sdy), false, sqrt);
      var rs := CalculateRegression(x, y, Some(sdx), Some(sdy), true, sqrt);
      && rw.Fitted? && rs.Fitted?
      && rw.reg.slope == rs.reg.slope
      && rw.reg.intercept == rs.reg.intercept
      && rw.reg.rSquared == rs.reg.rSquared
  {
    var sdx, sdy := seq(|x|, _ => ex), seq(|x|, _ => ey);
    UniformWeights(|x|, ex, ey);
    EqualWeightsMatchSklearn(InverseVariance(ex, ey), x, y, sqrt);
  }

  /** Errors that are the same at every point give every point the same weight. */
  lemma UniformWeights(n: nat, ex: real, ey: real)
    requires ex != 0.0 || ey != 0.0
    ensures ErrorsUsable(seq(n, _ => ex), seq(n, _ => ey))
    ensures Weights(seq(n, _ => ex), seq(n, _ => ey)) == Scale(InverseVariance(ex, ey), Ones(n))
  {
  }
}
