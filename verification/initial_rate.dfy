/**
 * initial_rate: the initial reaction rate is the slope of a straight line
 * fitted to the start of a (time, conc) series, namely the points at which
 * the concentration has moved away from its first value by no more than a
 * fraction `threshold` of its overall change. The line is then scored
 * against the whole series, and the rate can be compared across a grid of
 * thresholds.
 */
module InitialRate {
  import opened Vectors
  import opened LeastSquares

  /** The threshold argument: a number, or an array whose first element is used. */
  datatype Threshold = Scalar(t: real) | Indexable(values: seq<real>)

  /**
   * The fraction cut_data compares against: threshold[0] when the threshold
   * can be indexed, otherwise (the IndexError or TypeError is caught) the
   * threshold itself.
   */
  function Level(th: Threshold): real
    requires th.Indexable? ==> |th.values| > 0
  {
    match th
    case Scalar(t) => t
    case Indexable(values) => values[0]
  }

  /** The series rises when its last concentration exceeds its first. */
  predicate Rising(conc: seq<real>)
    requires |conc| > 0
  {
    conc[|conc| - 1] > conc[0]
  }

  /**
   * Whether point i survives the mask: its distance from conc[0], measured
   * in the direction of the overall change, is at most t times that change.
   */
  predicate Kept(conc: seq<real>, i: nat, t: real)
    requires i < |conc|
  {
    var first, last := conc[0], conc[|conc| - 1];
    if last > first then conc[i] - first <= (last - first) * t
    else first - conc[i] <= (first - last) * t
  }

  /** The boolean mask over the series. */
  function Mask(conc: seq<real>, t: real): (m: seq<bool>)
    requires |conc| > 0
    ensures |m| == |conc|
  {
    seq(|conc|, i requires 0 <= i < |conc| => Kept(conc, i, t))
  }

  /**
   * np.nonzero(mask): the positions holding true, in increasing order, each
   * of them exactly once.
   */
  function TrueIndices(m: seq<bool>): (r: seq<nat>)
    ensures forall k :: 0 <= k < |r| ==> r[k] < |m| && m[r[k]]
    ensures forall k, l :: 0 <= k < l < |r| ==> r[k] < r[l]
    ensures forall i :: 0 <= i < |m| && m[i] ==> i in r
    decreases |m|
  {
    if |m| == 0 then []
    else
      var prefix := m[..|m| - 1];
      assert forall i :: 0 <= i < |prefix| ==> prefix[i] == m[i];
      TrueIndices(prefix) + (if m[|m| - 1] then [|m| - 1] else [])
  }

  /** s[mask]: the entries of s at the true positions of the mask, in order. */
  function Select(s: seq<real>, m: seq<bool>): seq<real>
    requires |s| == |m|
  {
    var idx := TrueIndices(m);
    seq(|idx|, k requires 0 <= k < |idx| => s[idx[k]])
  }

  /** The (time, conc) pairs cut_data returns. */
  datatype Window = Window(time: seq<real>, conc: seq<real>)

  /** The indices of the points cut_data keeps. */
  function KeptIndices(conc: seq<real>, th: Threshold): seq<nat>
    requires |conc| > 0 && (th.Indexable? ==> |th.values| > 0)
  {
    TrueIndices(Mask(conc, Level(th)))
  }

  /** cut_data */
  function CutData(time: seq<real>, conc: seq<real>, th: Threshold): Window
    requires |time| == |conc| > 0
    requires th.Indexable? ==> |th.values| > 0
  {
    var mask := Mask(conc, Level(th));
    Window(Select(time, mask), Select(conc, mask))
  }

  /**
   * The two outputs of cut_data have one entry per kept index; the kept
   * indices increase, so order is preserved, and the k-th output pair is the
   * original pair at the k-th kept index.
   */
  lemma CutDataAlignedPairs(time: seq<real>, conc: seq<real>, th: Threshold)
    requires |time| == |conc| > 0
    requires th.Indexable? ==> |th.values| > 0
    ensures var r, idx := CutData(time, conc, th), KeptIndices(conc, th);
      && |r.time| == |idx| && |r.conc| == |idx|
      && (forall k, l :: 0 <= k < l < |idx| ==> idx[k] < idx[l])
      && (forall k :: 0 <= k < |idx| ==>
            idx[k] < |conc| && r.time[k] == time[idx[k]] && r.conc[k] == conc[idx[k]])
  {
  }

  /** A rising series keeps exactly the i with conc[i] - conc[0] <= (conc[-1] - conc[0]) * threshold. */
  lemma CutDataRising(conc: seq<real>, th: Threshold, i: nat)
    requires |conc| > 0 && (th.Indexable? ==> |th.values| > 0)
    requires Rising(conc) && i < |conc|
    ensures i in KeptIndices(conc, th)
        <==> conc[i] - conc[0] <= (conc[|conc| - 1] - conc[0]) * Level(th)
  {
    KeptIndicesIff(conc, th, i);
  }

  /** A falling or flat series keeps exactly the i with conc[0] - conc[i] <= (conc[0] - conc[-1]) * threshold. */
  lemma CutDataFalling(conc: seq<real>, th: Threshold, i: nat)
    requires |conc| > 0 && (th.Indexable? ==> |th.values| > 0)
    requires !Rising(conc) && i < |conc|
    ensures i in KeptIndices(conc, th)
        <==> conc[0] - conc[i] <= (conc[0] - conc[|conc| - 1]) * Level(th)
  {
    KeptIndicesIff(conc, th, i);
  }

  lemma KeptIndicesIff(conc: seq<real>, th: Threshold, i: nat)
    requires |conc| > 0 && (th.Indexable? ==> |th.values| > 0) && i < |conc|
    ensures i in KeptIndices(conc, th) <==> Kept(conc, i, Level(th))
  {
    var m := Mask(conc, Level(th));
    var idx := TrueIndices(m);
    if i in idx {
      var k :| 0 <= k < |idx| && idx[k] == i;
      assert m[idx[k]];
    }
  }

  /** An indexable threshold behaves as its first element. */
  lemma IndexableThresholdUsesFirst(time: seq<real>, conc: seq<real>, values: seq<real>)
    requires |time| == |conc| > 0 && |values| > 0
    ensures CutData(time, conc, Indexable(values)) == CutData(time, conc, Scalar(values[0]))
  {
  }

  /** For a threshold >= 0 every point equal to conc[0] survives the mask. */
  lemma EqualToFirstKept(conc: seq<real>, t: real, i: nat)
    requires i < |conc| && conc[i] == conc[0] && t >= 0.0
    ensures Kept(conc, i, t)
  {
    var first, last := conc[0], conc[|conc| - 1];
    if last > first {
      MulNonneg(last - first, t);
    } else {
      MulNonneg(first - last, t);
    }
  }

  /**
   * For a threshold >= 0 every point equal to conc[0] is kept, the first
   * point among them; so the window is never empty and starts at
   * (time[0], conc[0]).
   */
  lemma FirstPointKept(time: seq<real>, conc: seq<real>, th: Threshold)
    requires |time| == |conc| > 0
    requires th.Indexable? ==> |th.values| > 0
    requires Level(th) >= 0.0
    ensures forall i :: 0 <= i < |conc| && conc[i] == conc[0] ==> i in KeptIndices(conc, th)
    ensures var r := CutData(time, conc, th);
      && |r.time| > 0 && |r.conc| > 0
      && r.time[0] == time[0] && r.conc[0] == conc[0]
  {
    forall i | 0 <= i < |conc| && conc[i] == conc[0] ensures i in KeptIndices(conc, th) {
      EqualToFirstKept(conc, Level(th), i);
      KeptIndicesIff(conc, th, i);
    }
    WindowStartsAtFirst(time, conc, th);
  }

  /** A window holding index 0 starts at (time[0], conc[0]). */
  lemma WindowStartsAtFirst(time: seq<real>, conc: seq<real>, th: Threshold)
    requires |time| == |conc| > 0
    requires th.Indexable? ==> |th.values| > 0
    requires 0 in KeptIndices(conc, th)
    ensures var r := CutData(time, conc, th);
      && |r.time| > 0 && |r.conc| > 0
      && r.time[0] == time[0] && r.conc[0] == conc[0]
  {
    var idx := KeptIndices(conc, th);
    var k :| 0 <= k < |idx| && idx[k] == 0;
    assert idx[0] <= idx[k];
    CutDataAlignedPairs(time, conc, th);
  }

  /** A point that survives threshold t1 survives any larger t2 >= 0. */
  lemma KeptMonotoneAt(conc: seq<real>, t1: real, t2: real, i: nat)
    requires i < |conc| && 0.0 <= t1 <= t2 && Kept(conc, i, t1)
    ensures Kept(conc, i, t2)
  {
    var first, last := conc[0], conc[|conc| - 1];
    if last > first {
      MulMonotone(last - first, t1, t2);
    } else {
      MulMonotone(first - last, t1, t2);
    }
  }

  /** Raising a non-negative threshold never drops a point. */
  lemma KeptMonotone(conc: seq<real>, t1: real, t2: real)
    requires |conc| > 0 && 0.0 <= t1 <= t2
    ensures forall i :: i in KeptIndices(conc, Scalar(t1)) ==> i in KeptIndices(conc, Scalar(t2))
  {
    forall i | i in KeptIndices(conc, Scalar(t1)) ensures i in KeptIndices(conc, Scalar(t2)) {
      var idx := KeptIndices(conc, Scalar(t1));
      var k :| 0 <= k < |idx| && idx[k] == i;
      KeptIndicesIff(conc, Scalar(t1), i);
      KeptMonotoneAt(conc, t1, t2, i);
      KeptIndicesIff(conc, Scalar(t2), i);
    }
  }

  // ---------------------------------------------------------------------
  // calculate_rate

  /**
   * What calculate_rate returns, or the error scikit-learn raises when the
   * window it is asked to fit is empty.
   */
  datatype RateOutcome =
    | Rate(time: seq<real>, conc: seq<real>, slope: real, intercept: real, rSquared: real)
    | EmptyWindow

  /** calculate_rate: the least-squares line of the window, scored on the whole series. */
  function CalculateRate(time: seq<real>, conc: seq<real>, th: Threshold): RateOutcome
    requires |time| == |conc| >= 2
    requires th.Indexable? ==> |th.values| > 0
  {
    var cut := CutData(time, conc, th);
    if |cut.time| == 0 then EmptyWindow
    else
      var model := OLS(cut.time, cut.conc);
      Rate(time, conc, model.slope, model.intercept, Score(model, time, conc))
  }

  /**
   * calculate_rate returns the series unchanged, with the least-squares line
   * of the window: no line has a smaller residual sum of squares on the
   * window. Its r_squared is that line's score on the whole series, at most
   * 1. A threshold >= 0 always yields a result.
   */
  lemma CalculateRateFitsWindow(time: seq<real>, conc: seq<real>, th: Threshold)
    requires |time| == |conc| >= 2
    requires th.Indexable? ==> |th.values| > 0
    ensures var r, cut := CalculateRate(time, conc, th), CutData(time, conc, th);
      && (r.EmptyWindow? <==> |KeptIndices(conc, th)| == 0)
      && (Level(th) >= 0.0 ==> r.Rate?)
      && (r.Rate? ==>
            && r.time == time && r.conc == conc
            && |cut.time| == |cut.conc| > 0
            && Line(r.slope, r.intercept) == OLS(cut.time, cut.conc)
            && (forall l: Line :: SSR(Line(r.slope, r.intercept), cut.time, cut.conc)
                                  <= SSR(l, cut.time, cut.conc))
            && r.rSquared == Score(Line(r.slope, r.intercept), time, conc)
            && r.rSquared <= 1.0)
  {
    var cut := CutData(time, conc, th);
    CutDataAlignedPairs(time, conc, th);
    if Level(th) >= 0.0 {
      FirstPointKept(time, conc, th);
    }
    if |cut.time| > 0 {
      var model := OLS(cut.time, cut.conc);
      forall l: Line ensures SSR(model, cut.time, cut.conc) <= SSR(l, cut.time, cut.conc) {
        OLSMinimizesSSR(cut.time, cut.conc, l);
      }
      R2ScoreAtMostOne(conc, Predict(model, time));
    }
  }

  /**
   * Scored on the whole series, a line fitted to the window alone can do
   * worse than the mean: for conc = [0, 0, 10] at times [0, 1, 2] and
   * threshold 0.05 the window is the first two points, the fitted line is
   * the constant 0, and r_squared is -0.5.
   */
  lemma WholeSeriesScoreCanBeNegative()
    ensures var r := CalculateRate([0.0, 1.0, 2.0], [0.0, 0.0, 10.0], Scalar(0.05));
      r.Rate? && r.slope == 0.0 && r.intercept == 0.0 && r.rSquared == -0.5
  {
    var time, conc := [0.0, 1.0, 2.0], [0.0, 0.0, 10.0];
    ExampleWindow();
    var cut := CutData(time, conc, Scalar(0.05));
    assert cut.time[0] != cut.time[1];
    OLSExact(cut.time, cut.conc, 0.0, 0.0);
    ZeroLineScore();
  }

  /** The window of the example: the first two points. */
  lemma ExampleWindow()
    ensures CutData([0.0, 1.0, 2.0], [0.0, 0.0, 10.0], Scalar(0.05)) == Window([0.0, 1.0], [0.0, 0.0])
  {
    var m := Mask([0.0, 0.0, 10.0], 0.05);
    assert m == [true, true, false];
    ExampleIndices(m);
  }

  lemma ExampleIndices(m: seq<bool>)
    requires m == [true, true, false]
    ensures TrueIndices(m) == [0, 1]
  {
    assert m[..2][..1] == [true];
    assert TrueIndices(m[..2][..1]) == [0];
    assert TrueIndices(m[..2]) == [0, 1];
  }

  /** Sum of a three-entry sequence. */
  lemma SumOfThree(s: seq<real>)
    requires |s| == 3
    ensures Sum(s) == s[0] + s[1] + s[2]
  {
    assert SumTo(s, 1) == s[0];
    assert SumTo(s, 2) == s[0] + s[1];
  }

  lemma ZeroLineScore()
    ensures Score(Line(0.0, 0.0), [0.0, 1.0, 2.0], [0.0, 0.0, 10.0]) == -0.5
  {
    var time, conc := [0.0, 1.0, 2.0], [0.0, 0.0, 10.0];
    var pred := Predict(Line(0.0, 0.0), time);
    assert pred == [0.0, 0.0, 0.0];
    var d := Square(Sub(conc, pred));
    assert d == [0.0, 0.0, 100.0];
    SumOfThree(d);
    SumOfThree(conc);
    var c := Square(Shift(conc, Mean(conc)));
    assert Mean(conc) == 10.0 / 3.0;
    assert c == [100.0 / 9.0, 100.0 / 9.0, 400.0 / 9.0];
    SumOfThree(c);
  }

  /** A scalar threshold >= 0 always gives a rate, scored at most 1, on the series passed in. */
  lemma NonnegativeThresholdFits(time: seq<real>, conc: seq<real>, t: real)
    requires |time| == |conc| >= 2 && t >= 0.0
    ensures var r := CalculateRate(time, conc, Scalar(t));
      r.Rate? && r == Rate(time, conc, r.slope, r.intercept, r.rSquared) && r.rSquared <= 1.0
  {
    CalculateRateFitsWindow(time, conc, Scalar(t));
  }

  // ---------------------------------------------------------------------
  // calculate_rate_compare

  /**
   * np.arange(0.05, 0.2, 0.01), taken at its nominal values 0.05, 0.06, ..., 0.19.
   * In double precision np.arange most likely adds a 16th value of about 0.20,
   * which this grid leaves out.
   */
  const ThresholdGrid: seq<real> := seq(15, i => 0.05 + 0.01 * i as real)

  /** What calculate_rate_compare returns: one slope, intercept and r_squared per threshold. */
  datatype RateComparison = RateComparison(
    time: seq<real>,
    conc: seq<real>,
    slopes: seq<real>,
    intercepts: seq<real>,
    rSquaredValues: seq<real>)

  /**
   * calculate_rate_compare: for each threshold of the grid, in order, the
   * window is cut, fitted and scored on the whole series, and the three
   * numbers are appended. Entry k is what calculate_rate gives for the k-th
   * threshold, and every r_squared is at most 1.
   */
  method CalculateRateCompare(time: seq<real>, conc: seq<real>) returns (r: RateComparison)
    requires |time| == |conc| >= 2
    ensures r.time == time && r.conc == conc
    ensures |r.slopes| == |r.intercepts| == |r.rSquaredValues| == |ThresholdGrid|
    ensures forall k :: 0 <= k < |ThresholdGrid| ==>
      CalculateRate(time, conc, Scalar(ThresholdGrid[k]))
        == Rate(time, conc, r.slopes[k], r.intercepts[k], r.rSquaredValues[k])
    ensures forall k :: 0 <= k < |ThresholdGrid| ==> r.rSquaredValues[k] <= 1.0
  {
    var slopes, intercepts, rSquaredValues := [], [], [];
    for k := 0 to |ThresholdGrid|
      invariant |slopes| == |intercepts| == |rSquaredValues| == k
      invariant forall j :: 0 <= j < k ==>
        CalculateRate(time, conc, Scalar(ThresholdGrid[j]))
          == Rate(time, conc, slopes[j], intercepts[j], rSquaredValues[j])
      invariant forall j :: 0 <= j < k ==> rSquaredValues[j] <= 1.0
    {
      var threshold := ThresholdGrid[k];
      var fit := CalculateRate(time, conc, Scalar(threshold));
      NonnegativeThresholdFits(time, conc, threshold);
      RecordedStep(time, conc, slopes, intercepts, rSquaredValues, k, fit.slope, fit.intercept, fit.rSquared);
      slopes := slopes + [fit.slope];
      intercepts := intercepts + [fit.intercept];
      rSquaredValues := rSquaredValues + [fit.rSquared];
    }
    r := RateComparison(time, conc, slopes, intercepts, rSquaredValues);
  }

  /** Appending the k-th threshold's result to the three lists extends what they record by one threshold. */
  lemma RecordedStep(time: seq<real>, conc: seq<real>, slopes: seq<real>, intercepts: seq<real>,
                     rSquaredValues: seq<real>, k: nat, slope: real, intercept: real, rSquared: real)
    requires |time| == |conc| >= 2 && k < |ThresholdGrid|
    requires |slopes| == |intercepts| == |rSquaredValues| == k
    requires forall j :: 0 <= j < k ==>
      CalculateRate(time, conc, Scalar(ThresholdGrid[j]))
        == Rate(time, conc, slopes[j], intercepts[j], rSquaredValues[j])
    requires forall j :: 0 <= j < k ==> rSquaredValues[j] <= 1.0
    requires CalculateRate(time, conc, Scalar(ThresholdGrid[k])) == Rate(time, conc, slope, intercept, rSquared)
    requires rSquared <= 1.0
    ensures var s, i, q := slopes + [slope], intercepts + [intercept], rSquaredValues + [rSquared];
      && (forall j :: 0 <= j <= k ==>
            CalculateRate(time, conc, Scalar(ThresholdGrid[j])) == Rate(time, conc, s[j], i[j], q[j]))
      && (forall j :: 0 <= j <= k ==> q[j] <= 1.0)
  {
    var s, i, q := slopes + [slope], intercepts + [intercept], rSquaredValues + [rSquared];
    forall j | 0 <= j <= k
      ensures CalculateRate(time, conc, Scalar(ThresholdGrid[j])) == Rate(time, conc, s[j], i[j], q[j])
      ensures q[j] <= 1.0
    {
      if j < k {
        assert s[j] == slopes[j] && i[j] == intercepts[j] && q[j] == rSquaredValues[j];
      }
    }
  }

  /** The grid increases, so each window of the sweep contains the previous ones. */
  lemma GridWindowsNested(conc: seq<real>, j: nat, k: nat)
    requires |conc| > 0 && j <= k < |ThresholdGrid|
    ensures forall i :: i in KeptIndices(conc, Scalar(ThresholdGrid[j]))
                    ==> i in KeptIndices(conc, Scalar(ThresholdGrid[k]))
  {
    KeptMonotone(conc, ThresholdGrid[j], ThresholdGrid[k]);
  }
}
