/**
 * rate_const: the pseudo-first-order rate constant is the slope of the
 * least-squares line of ln(conc) against time, over the whole series.
 *
 * The natural logarithm is a function `ln` passed in; nothing about it is
 * assumed, and the model only requires the concentrations it is applied to
 * to be positive.
 */
module RateConst {
  import opened Vectors
  import opened LeastSquares

  /** What calculate_rate returns. */
  datatype RateConstFit = RateConstFit(
    time: seq<real>,
    lnConc: seq<real>,
    slope: real,
    intercept: real,
    rSquared: real)

  /** Every concentration is positive, so that np.log gives a number. */
  predicate PositiveSeries(conc: seq<real>)
  {
    forall i :: 0 <= i < |conc| ==> conc[i] > 0.0
  }

  /** np.log(conc) */
  function LnSeries(conc: seq<real>, ln: real -> real): seq<real>
    requires PositiveSeries(conc)
  {
    seq(|conc|, i requires 0 <= i < |conc| => ln(conc[i]))
  }

  /** calculate_rate: ordinary least squares of ln(conc) on time, scored on the same points. */
  function CalculateRate(time: seq<real>, conc: seq<real>, ln: real -> real): RateConstFit
    requires |time| == |conc| >= 2 && PositiveSeries(conc)
  {
    var lnConc := LnSeries(conc, ln);
    var model := OLS(time, lnConc);
    RateConstFit(time, lnConc, model.slope, model.intercept, Score(model, time, lnConc))
  }

  /**
   * calculate_rate returns time unchanged and ln(conc) point by point; its
   * line is the least-squares line of every (time, ln conc) pair, with no
   * windowing, and its r_squared is scored on exactly those pairs, so it
   * lies in [0, 1].
   */
  lemma CalculateRateFitsWholeSeries(time: seq<real>, conc: seq<real>, ln: real -> real)
    requires |time| == |conc| >= 2 && PositiveSeries(conc)
    ensures var r := CalculateRate(time, conc, ln);
      && r.time == time
      && |r.lnConc| == |conc|
      && (forall i :: 0 <= i < |conc| ==> r.lnConc[i] == ln(conc[i]))
      && Line(r.slope, r.intercept) == OLS(time, r.lnConc)
      && (forall l: Line :: SSR(Line(r.slope, r.intercept), time, r.lnConc) <= SSR(l, time, r.lnConc))
      && r.rSquared == Score(Line(r.slope, r.intercept), time, r.lnConc)
      && 0.0 <= r.rSquared <= 1.0
  {
    var lnConc := LnSeries(conc, ln);
    forall l: Line ensures SSR(OLS(time, lnConc), time, lnConc) <= SSR(l, time, lnConc) {
      OLSMinimizesSSR(time, lnConc, l);
    }
    OLSScoreInUnitInterval(time, lnConc);
  }

  /**
   * Exact first-order decay, ln(conc_i) = k * time_i + b with the times not
   * all equal, gives slope k, intercept b and r_squared 1.
   */
  lemma CalculateRateExact(time: seq<real>, conc: seq<real>, ln: real -> real, k: real, b: real)
    requires |time| == |conc| >= 2 && PositiveSeries(conc)
    requires forall i :: 0 <= i < |conc| ==> ln(conc[i]) == k * time[i] + b
    requires NotAllEqual(time)
    ensures var r := CalculateRate(time, conc, ln);
      r.slope == k && r.intercept == b && r.rSquared == 1.0
  {
    OLSExact(time, LnSeries(conc, ln), k, b);
  }
}
