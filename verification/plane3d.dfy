/**
 * Plane3DPlotter: a plane logR = a + b * pH + c * logFe fitted by least
 * squares to measured points, with its coefficient of determination. The
 * plotter object keeps the last fitted parameters and r_squared in two
 * fields, empty until the first fit.
 *
 * scikit-learn's LinearRegression on the two columns (pH, logFe) is modelled
 * by the solution of the centred normal equations, which exists and is
 * unique when the two predictors are not collinear (Det != 0).
 */
module Plane3D {
  import opened Vectors
  import opened LeastSquares

  /** np.column_stack((a, b)): one row (a_i, b_i) per point. */
  function ColumnStack(a: seq<real>, b: seq<real>): seq<(real, real)>
    requires |a| == |b|
  {
    seq(|a|, i requires 0 <= i < |a| => (a[i], b[i]))
  }

  /** X[:, 0] */
  function Column0(X: seq<(real, real)>): seq<real>
  {
    seq(|X|, i requires 0 <= i < |X| => X[i].0)
  }

  /** X[:, 1] */
  function Column1(X: seq<(real, real)>): seq<real>
  {
    seq(|X|, i requires 0 <= i < |X| => X[i].1)
  }

  /** The columns of column_stack((a, b)) are a and b again. */
  lemma ColumnsOfStack(a: seq<real>, b: seq<real>)
    requires |a| == |b|
    ensures Column0(ColumnStack(a, b)) == a && Column1(ColumnStack(a, b)) == b
  {
  }

  /** The centred cross sum, sum of (a_i - mean a) * (b_i - mean b). */
  function CrossSum(a: seq<real>, b: seq<real>): real
    requires |a| == |b| > 0
  {
    Sum(Mul(Shift(a, Mean(a)), Shift(b, Mean(b))))
  }

  /** The determinant of the centred normal equations of predictors p and f. */
  function Det(p: seq<real>, f: seq<real>): real
    requires |p| == |f| > 0
  {
    CrossSum(p, p) * CrossSum(f, f) - Sq(CrossSum(p, f))
  }

  /** A fitted two-predictor linear model: coef_[0], coef_[1] and intercept_. */
  datatype PlaneModel = PlaneModel(coef0: real, coef1: real, intercept: real)

  /** At least one point per row of y, and predictors that are not collinear. */
  predicate Fittable(X: seq<(real, real)>, y: seq<real>)
  {
    |X| == |y| > 0 && Det(Column0(X), Column1(X)) != 0.0
  }

  /**
   * The first unknown b of the 2 x 2 system [sxx sxy; sxy syy] (b, c) = (sxz, syz)
   * by Cramer's rule; with the roles of the two unknowns swapped it gives c.
   */
  function Cramer(sxx: real, sxy: real, syy: real, sxz: real, syz: real): real
    requires sxx * syy - sxy * sxy != 0.0
  {
    (syy * sxz - sxy * syz) / (sxx * syy - sxy * sxy)
  }

  /**
   * What the centred normal equations of (p, f) against y are made of: the
   * cross sums S_pp, S_pf, S_ff, S_py, S_fy and the means of p, f and y.
   */
  datatype NormalSums = NormalSums(spp: real, spf: real, sff: real, spy: real, sfy: real, mp: real, mf: real, my: real)

  function Sums(X: seq<(real, real)>, y: seq<real>): NormalSums
    requires |X| == |y| > 0
  {
    var p, f := Column0(X), Column1(X);
    NormalSums(CrossSum(p, p), CrossSum(p, f), CrossSum(f, f), CrossSum(p, y), CrossSum(f, y), Mean(p), Mean(f), Mean(y))
  }

  /** The determinant S_pp S_ff - S_pf^2 of the normal equations. */
  function SumsDet(s: NormalSums): real
  {
    s.spp * s.sff - s.spf * s.spf
  }

  /** The two coefficients by Cramer's rule, and the intercept through the mean point. */
  function Solve(s: NormalSums): PlaneModel
    requires SumsDet(s) != 0.0
  {
    assert s.sff * s.spp - s.spf * s.spf == SumsDet(s);
    var b := Cramer(s.spp, s.spf, s.sff, s.spy, s.sfy);
    var c := Cramer(s.sff, s.spf, s.spp, s.sfy, s.spy);
    PlaneModel(b, c, s.my - b * s.mp - c * s.mf)
  }

  lemma SumsDetIsDet(X: seq<(real, real)>, y: seq<real>)
    requires |X| == |y| > 0
    ensures SumsDet(Sums(X, y)) == Det(Column0(X), Column1(X))
  {
  }

  /** LinearRegression().fit(X, y) on two columns, by Cramer's rule on the centred normal equations. */
  function FitModel(X: seq<(real, real)>, y: seq<real>): PlaneModel
    requires Fittable(X, y)
  {
    SumsDetIsDet(X, y);
    Solve(Sums(X, y))
  }

  /** model.predict(X) */
  function PredictModel(m: PlaneModel, X: seq<(real, real)>): seq<real>
  {
    seq(|X|, i requires 0 <= i < |X| => m.coef0 * X[i].0 + m.coef1 * X[i].1 + m.intercept)
  }

  /** Residual sum of squares of a model on (X, y). */
  function PlaneSSR(m: PlaneModel, X: seq<(real, real)>, y: seq<real>): real
    requires |X| == |y|
  {
    Sum(Square(Sub(y, PredictModel(m, X))))
  }

  // ---------------------------------------------------------------------
  // The fitted model solves the normal equations and minimises PlaneSSR

  /** Cramer's rule solves the 2 x 2 system [sxx sxy; sxy syy] (b, c) = (sxz, syz). */
  lemma CramerSolves(sxx: real, sxy: real, syy: real, sxz: real, syz: real, b: real, c: real)
    requires sxx * syy - sxy * sxy != 0.0
    requires b == Cramer(sxx, sxy, syy, sxz, syz) && c == Cramer(syy, sxy, sxx, syz, sxz)
    ensures sxz - b * sxx - c * sxy == 0.0
    ensures syz - b * sxy - c * syy == 0.0
  {
    var det := sxx * syy - sxy * sxy;
    assert syy * sxx - sxy * sxy == det;
    assert b * det == syy * sxz - sxy * syz;
    assert c * det == sxx * syz - sxy * sxz;
    assert (b * sxx + c * sxy) * det == sxz * det;
    assert (b * sxy + c * syy) * det == syz * det;
  }

  lemma CrossSumSymmetric(a: seq<real>, b: seq<real>)
    requires |a| == |b| > 0
    ensures CrossSum(b, a) == CrossSum(a, b)
  {
    var u, v := Shift(a, Mean(a)), Shift(b, Mean(b));
    assert Mul(v, u) == Mul(u, v);
  }

  /** The plane m passes through the point (mp, mf, my). */
  predicate PlaneThrough(m: PlaneModel, mp: real, mf: real, my: real)
  {
    m.coef0 * mp + m.coef1 * mf + m.intercept == my
  }

  /** The fitted plane passes through the mean point (mean p, mean f, mean y). */
  lemma FitModelThroughMeans(X: seq<(real, real)>, y: seq<real>)
    requires Fittable(X, y)
    ensures PlaneThrough(FitModel(X, y), Mean(Column0(X)), Mean(Column1(X)), Mean(y))
  {
    SumsDetIsDet(X, y);
    SolveThrough(Sums(X, y));
  }

  /** The residuals of the fitted model, written in centred variables. */
  lemma ResidualsCentred(X: seq<(real, real)>, y: seq<real>)
    requires Fittable(X, y)
    ensures var m, p, f := FitModel(X, y), Column0(X), Column1(X);
      Sub(y, PredictModel(m, X))
      == Sub(Sub(Shift(y, Mean(y)), Scale(m.coef0, Shift(p, Mean(p)))), Scale(m.coef1, Shift(f, Mean(f))))
  {
    FitModelThroughMeans(X, y);
    ResidualsAroundMeans(FitModel(X, y), X, y);
  }

  /** The residuals of a plane through the mean point, written in centred variables. */
  lemma ResidualsAroundMeans(m: PlaneModel, X: seq<(real, real)>, y: seq<real>)
    requires |X| == |y| > 0
    requires PlaneThrough(m, Mean(Column0(X)), Mean(Column1(X)), Mean(y))
    ensures var p, f := Column0(X), Column1(X);
      Sub(y, PredictModel(m, X))
      == Sub(Sub(Shift(y, Mean(y)), Scale(m.coef0, Shift(p, Mean(p)))), Scale(m.coef1, Shift(f, Mean(f))))
  {
    var p, f := Column0(X), Column1(X);
    var r := Sub(y, PredictModel(m, X));
    var g := Sub(Sub(Shift(y, Mean(y)), Scale(m.coef0, Shift(p, Mean(p)))), Scale(m.coef1, Shift(f, Mean(f))));
    forall i | 0 <= i < |y| ensures r[i] == g[i] {
      ResidualAroundMeansAt(m, X, y, Mean(y), Mean(p), Mean(f), i);
    }
  }

  lemma ResidualAroundMeansAt(m: PlaneModel, X: seq<(real, real)>, y: seq<real>, my: real, mp: real, mf: real, i: nat)
    requires |X| == |y| && i < |y| && PlaneThrough(m, mp, mf, my)
    ensures var p, f := Column0(X), Column1(X);
      Sub(y, PredictModel(m, X))[i]
      == Sub(Sub(Shift(y, my), Scale(m.coef0, Shift(p, mp))), Scale(m.coef1, Shift(f, mf)))[i]
  {
    CentredResidual(m, y[i], X[i].0, X[i].1, my, mp, mf);
  }

  lemma CentredResidual(m: PlaneModel, yi: real, pi: real, fi: real, my: real, mp: real, mf: real)
    requires PlaneThrough(m, mp, mf, my)
    ensures yi - (m.coef0 * pi + m.coef1 * fi + m.intercept)
         == (yi - my) - m.coef0 * (pi - mp) - m.coef1 * (fi - mf)
  {
  }

  /**
   * The cross sum of u with a residual z - b u - c v, written in the sums
   * S_uz, S_uu and S_uv.
   */
  function ResidualCross(suz: real, suu: real, suv: real, b: real, c: real): real
  {
    suz - b * suu - c * suv
  }

  /** sum of u * (z - b u - c v) == S_uz - b S_uu - c S_uv */
  lemma SumAgainstResidual(u: seq<real>, v: seq<real>, z: seq<real>, b: real, c: real)
    requires |u| == |v| == |z|
    ensures Sum(Mul(u, Sub(Sub(z, Scale(b, u)), Scale(c, v))))
         == ResidualCross(Sum(Mul(u, z)), Sum(Mul(u, u)), Sum(Mul(u, v)), b, c)
  {
    var e := Mul(u, Sub(Sub(z, Scale(b, u)), Scale(c, v)));
    var g := Sub(Sub(Mul(u, z), Scale(b, Mul(u, u))), Scale(c, Mul(u, v)));
    forall i | 0 <= i < |u| ensures e[i] == g[i] {
      assert u[i] * (z[i] - b * u[i] - c * v[i]) == u[i] * z[i] - b * (u[i] * u[i]) - c * (u[i] * v[i]);
    }
    assert e == g;
    SumSub(Sub(Mul(u, z), Scale(b, Mul(u, u))), Scale(c, Mul(u, v)));
    SumSub(Mul(u, z), Scale(b, Mul(u, u)));
    SumScale(b, Mul(u, u));
    SumScale(c, Mul(u, v));
  }

  /** sum of a * r == sum of (a - mean a) * r + mean a * sum of r */
  lemma SumSplitAtMean(a: seq<real>, r: seq<real>)
    requires |a| == |r| > 0
    ensures Sum(Mul(a, r)) == Sum(Mul(Shift(a, Mean(a)), r)) + Mean(a) * Sum(r)
  {
    var u := Shift(a, Mean(a));
    forall i | 0 <= i < |a| ensures Mul(a, r)[i] == Add(Mul(u, r), Scale(Mean(a), r))[i] {
      assert a[i] * r[i] == (a[i] - Mean(a)) * r[i] + Mean(a) * r[i];
    }
    assert Mul(a, r) == Add(Mul(u, r), Scale(Mean(a), r));
    SumAdd(Mul(u, r), Scale(Mean(a), r));
    SumScale(Mean(a), r);
  }

  /** The residuals of the fitted model sum to zero. */
  lemma ResidualsSumToZero(X: seq<(real, real)>, y: seq<real>)
    requires Fittable(X, y)
    ensures Sum(Sub(y, PredictModel(FitModel(X, y), X))) == 0.0
  {
    var m, p, f := FitModel(X, y), Column0(X), Column1(X);
    var u, v, z := Shift(p, Mean(p)), Shift(f, Mean(f)), Shift(y, Mean(y));
    ResidualsCentred(X, y);
    SumSub(Sub(z, Scale(m.coef0, u)), Scale(m.coef1, v));
    SumSub(z, Scale(m.coef0, u));
    SumScale(m.coef0, u);
    SumScale(m.coef1, v);
    SumShiftMean(p);
    SumShiftMean(f);
    SumShiftMean(y);
  }

  /** The solution of the normal equations solves them. */
  lemma SolveSolves(s: NormalSums)
    requires SumsDet(s) != 0.0
    ensures ResidualCross(s.spy, s.spp, s.spf, Solve(s).coef0, Solve(s).coef1) == 0.0
    ensures ResidualCross(s.sfy, s.sff, s.spf, Solve(s).coef1, Solve(s).coef0) == 0.0
  {
    CramerSolves(s.spp, s.spf, s.sff, s.spy, s.sfy, Solve(s).coef0, Solve(s).coef1);
  }

  /** The solution of the normal equations passes through the mean point of the sums. */
  lemma SolveThrough(s: NormalSums)
    requires SumsDet(s) != 0.0
    ensures PlaneThrough(Solve(s), s.mp, s.mf, s.my)
  {
  }

  /** The fitted coefficients solve the centred normal equations. */
  lemma FitModelSolvesCentred(X: seq<(real, real)>, y: seq<real>)
    requires Fittable(X, y)
    ensures var m, p, f := FitModel(X, y), Column0(X), Column1(X);
      && ResidualCross(CrossSum(p, y), CrossSum(p, p), CrossSum(p, f), m.coef0, m.coef1) == 0.0
      && ResidualCross(CrossSum(f, y), CrossSum(f, f), CrossSum(f, p), m.coef1, m.coef0) == 0.0
  {
    SumsDetIsDet(X, y);
    SolveSolves(Sums(X, y));
    CrossSumSymmetric(Column0(X), Column1(X));
  }

  /** The residuals are orthogonal to the centred pH column. */
  lemma ResidualsOrthogonal0(X: seq<(real, real)>, y: seq<real>)
    requires Fittable(X, y)
    ensures var r, p := Sub(y, PredictModel(FitModel(X, y), X)), Column0(X);
      Sum(Mul(Shift(p, Mean(p)), r)) == 0.0
  {
    ResidualsCentred(X, y);
    SumAgainstResidual(Shift(Column0(X), Mean(Column0(X))), Shift(Column1(X), Mean(Column1(X))),
      Shift(y, Mean(y)), FitModel(X, y).coef0, FitModel(X, y).coef1);
    FitModelSolvesCentred(X, y);
  }

  /** The residuals are orthogonal to the centred logFe column. */
  lemma ResidualsOrthogonal1(X: seq<(real, real)>, y: seq<real>)
    requires Fittable(X, y)
    ensures var r, f := Sub(y, PredictModel(FitModel(X, y), X)), Column1(X);
      Sum(Mul(Shift(f, Mean(f)), r)) == 0.0
  {
    ResidualsCentred(X, y);
    SubSwap(Shift(y, Mean(y)), Scale(FitModel(X, y).coef0, Shift(Column0(X), Mean(Column0(X)))),
      Scale(FitModel(X, y).coef1, Shift(Column1(X), Mean(Column1(X)))));
    SumAgainstResidual(Shift(Column1(X), Mean(Column1(X))), Shift(Column0(X), Mean(Column0(X))),
      Shift(y, Mean(y)), FitModel(X, y).coef1, FitModel(X, y).coef0);
    FitModelSolvesCentred(X, y);
  }

  /** Subtracting two vectors in either order gives the same vector. */
  lemma SubSwap(z: seq<real>, a: seq<real>, b: seq<real>)
    requires |z| == |a| == |b|
    ensures Sub(Sub(z, a), b) == Sub(Sub(z, b), a)
  {
  }

  /**
   * The residuals of the fitted model sum to zero and are orthogonal to both
   * predictor columns: the normal equations of least squares.
   */
  lemma FitModelNormalEquations(X: seq<(real, real)>, y: seq<real>)
    requires Fittable(X, y)
    ensures var r := Sub(y, PredictModel(FitModel(X, y), X));
      && Sum(r) == 0.0
      && Sum(Mul(Column0(X), r)) == 0.0
      && Sum(Mul(Column1(X), r)) == 0.0
  {
    var r := Sub(y, PredictModel(FitModel(X, y), X));
    ResidualsSumToZero(X, y);
    ResidualsOrthogonal0(X, y);
    ResidualsOrthogonal1(X, y);
    SumSplitAtMean(Column0(X), r);
    SumSplitAtMean(Column1(X), r);
  }

  /**
   * At one point (p, f, y): the residual e of a plane q is the residual r of
   * m plus d, the difference of the two planes there, and e^2 expands.
   */
  lemma ExpandPlaneSquare(m: PlaneModel, q: PlaneModel, p: real, f: real, y: real)
    ensures var r, e := y - (m.coef0 * p + m.coef1 * f + m.intercept), y - (q.coef0 * p + q.coef1 * f + q.intercept);
      var da, db, dc := m.intercept - q.intercept, m.coef0 - q.coef0, m.coef1 - q.coef1;
      var d := db * p + dc * f + da;
      e * e == r * r + d * d + ((2.0 * da * r + 2.0 * db * (p * r)) + 2.0 * dc * (f * r))
  {
    var r, e := y - (m.coef0 * p + m.coef1 * f + m.intercept), y - (q.coef0 * p + q.coef1 * f + q.intercept);
    var da, db, dc := m.intercept - q.intercept, m.coef0 - q.coef0, m.coef1 - q.coef1;
    var d := db * p + dc * f + da;
    assert e == r + d;
  }

  /** The squared residuals of any plane q, split around those of the fitted model m. */
  lemma SquareOtherPlaneResiduals(m: PlaneModel, q: PlaneModel, X: seq<(real, real)>, y: seq<real>)
    requires |X| == |y|
    ensures
      var r := Sub(y, PredictModel(m, X));
      var da, db, dc := m.intercept - q.intercept, m.coef0 - q.coef0, m.coef1 - q.coef1;
      Square(Sub(y, PredictModel(q, X)))
      == Add(Add(Square(r), Square(PredictModel(PlaneModel(db, dc, da), X))),
             Add(Add(Scale(2.0 * da, r), Scale(2.0 * db, Mul(Column0(X), r))), Scale(2.0 * dc, Mul(Column1(X), r))))
  {
    var r := Sub(y, PredictModel(m, X));
    var da, db, dc := m.intercept - q.intercept, m.coef0 - q.coef0, m.coef1 - q.coef1;
    var d := PredictModel(PlaneModel(db, dc, da), X);
    var p, f := Column0(X), Column1(X);
    var g := Add(Add(Square(r), Square(d)),
                 Add(Add(Scale(2.0 * da, r), Scale(2.0 * db, Mul(p, r))), Scale(2.0 * dc, Mul(f, r))));
    forall i | 0 <= i < |X| ensures Square(Sub(y, PredictModel(q, X)))[i] == g[i] {
      ExpandPlaneSquare(m, q, X[i].0, X[i].1, y[i]);
    }
  }

  /** No plane has a smaller residual sum of squares than the fitted one. */
  lemma FitModelMinimizes(X: seq<(real, real)>, y: seq<real>, q: PlaneModel)
    requires Fittable(X, y)
    ensures PlaneSSR(FitModel(X, y), X, y) <= PlaneSSR(q, X, y)
  {
    var m := FitModel(X, y);
    var r := Sub(y, PredictModel(m, X));
    var da, db, dc := m.intercept - q.intercept, m.coef0 - q.coef0, m.coef1 - q.coef1;
    var d := PredictModel(PlaneModel(db, dc, da), X);
    var sr, sd := Square(r), Square(d);
    var ar, bpr, cfr := Scale(2.0 * da, r), Scale(2.0 * db, Mul(Column0(X), r)), Scale(2.0 * dc, Mul(Column1(X), r));
    SquareOtherPlaneResiduals(m, q, X, y);
    SumAdd(Add(sr, sd), Add(Add(ar, bpr), cfr));
    SumAdd(sr, sd);
    SumAdd(Add(ar, bpr), cfr);
    SumAdd(ar, bpr);
    SumScale(2.0 * da, r);
    SumScale(2.0 * db, Mul(Column0(X), r));
    SumScale(2.0 * dc, Mul(Column1(X), r));
    FitModelNormalEquations(X, y);
    SquaresNonneg(d);
    SumNonneg(sd);
  }

  /** Scored on the points it was fitted to, the fitted plane's r2_score lies in [0, 1]. */
  lemma FitModelScoreInUnitInterval(X: seq<(real, real)>, y: seq<real>)
    requires Fittable(X, y) && |y| >= 2
    ensures 0.0 <= R2Score(y, PredictModel(FitModel(X, y), X)) <= 1.0
  {
    var m := FitModel(X, y);
    var flat := PlaneModel(0.0, 0.0, Mean(y));
    var ssRes := PlaneSSR(m, X, y);
    var ssTot := Sum(Square(Shift(y, Mean(y))));
    R2ScoreAtMostOne(y, PredictModel(m, X));
    assert Sub(y, PredictModel(flat, X)) == Shift(y, Mean(y));
    FitModelMinimizes(X, y, flat);
    SquaresNonneg(Sub(y, PredictModel(m, X)));
    SumNonneg(Square(Sub(y, PredictModel(m, X))));
    if ssTot != 0.0 {
      assert PlaneSSR(flat, X, y) == ssTot;
      QuotientAtMostOne(ssRes, ssTot);
    }
  }

  lemma QuotientAtMostOne(a: real, b: real)
    requires 0.0 <= a <= b && b != 0.0
    ensures a / b <= 1.0
  {
  }

  // ---------------------------------------------------------------------
  // Noiseless data

  /** Every y_i lies on the plane a + b p + c f. */
  predicate OnPlane(p: seq<real>, f: seq<real>, y: seq<real>, a: real, b: real, c: real)
  {
    |p| == |y| && |f| == |y| && forall i :: 0 <= i < |y| ==> y[i] == a + b * p[i] + c * f[i]
  }

  /** Cramer's rule gives back (bb, cc) when the right-hand side is made from them. */
  lemma CramerRecovers(sxx: real, sxy: real, syy: real, sxz: real, syz: real, bb: real, cc: real)
    requires sxx * syy - sxy * sxy != 0.0
    requires sxz == bb * sxx + cc * sxy && syz == bb * sxy + cc * syy
    ensures Cramer(sxx, sxy, syy, sxz, syz) == bb && Cramer(syy, sxy, sxx, syz, sxz) == cc
  {
    var det := sxx * syy - sxy * sxy;
    assert syy * sxx - sxy * sxy == det;
    assert syy * sxz - sxy * syz == bb * det;
    assert sxx * syz - sxy * sxz == cc * det;
  }

  /** The sum of y = a + b p + c f. */
  lemma SumOnPlane(p: seq<real>, f: seq<real>, y: seq<real>, a: real, b: real, c: real)
    requires OnPlane(p, f, y, a, b, c)
    ensures Sum(y) == a * |y| as real + b * Sum(p) + c * Sum(f)
  {
    var n := |y|;
    var g := Add(Add(Scale(a, Ones(n)), Scale(b, p)), Scale(c, f));
    forall i | 0 <= i < n ensures y[i] == g[i] {
      assert Ones(n)[i] == 1.0;
    }
    assert y == g;
    SumAdd(Add(Scale(a, Ones(n)), Scale(b, p)), Scale(c, f));
    SumAdd(Scale(a, Ones(n)), Scale(b, p));
    SumScale(a, Ones(n));
    SumScale(b, p);
    SumScale(c, f);
    SumOnes(n);
  }

  /** The mean of y = a + b p + c f. */
  lemma MeanOnPlane(p: seq<real>, f: seq<real>, y: seq<real>, a: real, b: real, c: real)
    requires OnPlane(p, f, y, a, b, c) && |y| > 0
    ensures Mean(y) == a + b * Mean(p) + c * Mean(f)
  {
    SumOnPlane(p, f, y, a, b, c);
    MeanAlgebra(|y| as real, a, b, c, Sum(p), Sum(f), Sum(y));
  }

  lemma MeanAlgebra(n: real, a: real, b: real, c: real, sp: real, sf: real, sy: real)
    requires n > 0.0 && sy == a * n + b * sp + c * sf
    ensures sy / n == a + b * (sp / n) + c * (sf / n)
  {
  }

  /** Centred, y = a + b p + c f becomes a combination of the centred predictors. */
  lemma CentredOnPlane(p: seq<real>, f: seq<real>, y: seq<real>, a: real, b: real, c: real)
    requires OnPlane(p, f, y, a, b, c) && |y| > 0
    ensures Shift(y, Mean(y)) == Add(Scale(b, Shift(p, Mean(p))), Scale(c, Shift(f, Mean(f))))
  {
    MeanOnPlane(p, f, y, a, b, c);
    var u, v, z := Shift(p, Mean(p)), Shift(f, Mean(f)), Shift(y, Mean(y));
    var g := Add(Scale(b, u), Scale(c, v));
    forall i | 0 <= i < |y| ensures z[i] == g[i] {
      assert z[i] == (a + b * p[i] + c * f[i]) - (a + b * Mean(p) + c * Mean(f));
    }
  }

  /** Cross sums of the centred predictors with y = a + b p + c f. */
  lemma CrossSumsOnPlane(p: seq<real>, f: seq<real>, y: seq<real>, a: real, b: real, c: real)
    requires OnPlane(p, f, y, a, b, c) && |y| > 0
    ensures CrossSum(p, y) == b * CrossSum(p, p) + c * CrossSum(p, f)
    ensures CrossSum(f, y) == b * CrossSum(p, f) + c * CrossSum(f, f)
  {
    CentredOnPlane(p, f, y, a, b, c);
    CrossSumWithCombination(p, f, y, b, c);
    assert Add(Scale(c, Shift(f, Mean(f))), Scale(b, Shift(p, Mean(p))))
        == Add(Scale(b, Shift(p, Mean(p))), Scale(c, Shift(f, Mean(f))));
    CrossSumWithCombination(f, p, y, c, b);
    CrossSumSymmetric(p, f);
  }

  /** S_py for a y whose centred values are b (p - mean p) + c (f - mean f). */
  lemma CrossSumWithCombination(p: seq<real>, f: seq<real>, y: seq<real>, b: real, c: real)
    requires |p| == |f| == |y| > 0
    requires Shift(y, Mean(y)) == Add(Scale(b, Shift(p, Mean(p))), Scale(c, Shift(f, Mean(f))))
    ensures CrossSum(p, y) == b * CrossSum(p, p) + c * CrossSum(p, f)
  {
    CrossSumOfCombination(Shift(p, Mean(p)), Shift(f, Mean(f)), b, c);
  }

  /** sum of u * (b u + c v) == b S_uu + c S_uv */
  lemma CrossSumOfCombination(u: seq<real>, v: seq<real>, b: real, c: real)
    requires |u| == |v|
    ensures Sum(Mul(u, Add(Scale(b, u), Scale(c, v)))) == b * Sum(Mul(u, u)) + c * Sum(Mul(u, v))
  {
    var e := Mul(u, Add(Scale(b, u), Scale(c, v)));
    var g := Add(Scale(b, Mul(u, u)), Scale(c, Mul(u, v)));
    forall i | 0 <= i < |u| ensures e[i] == g[i] {
      assert u[i] * (b * u[i] + c * v[i]) == b * (u[i] * u[i]) + c * (u[i] * v[i]);
    }
    assert e == g;
    SumAdd(Scale(b, Mul(u, u)), Scale(c, Mul(u, v)));
    SumScale(b, Mul(u, u));
    SumScale(c, Mul(u, v));
  }

  /**
   * Points lying exactly on y = a + b * X[:, 0] + c * X[:, 1], with
   * predictors that are not collinear, are fitted by that very plane, with
   * zero residuals.
   */
  lemma FitModelExact(X: seq<(real, real)>, y: seq<real>, a: real, b: real, c: real)
    requires Fittable(X, y) && OnPlane(Column0(X), Column1(X), y, a, b, c)
    ensures FitModel(X, y) == PlaneModel(b, c, a)
    ensures PredictModel(FitModel(X, y), X) == y
  {
    SumsDetIsDet(X, y);
    SumsOnPlane(X, y, a, b, c);
    SolveExact(Sums(X, y), a, b, c);
    PredictOnPlane(X, y, a, b, c);
  }

  /** The cross sums and means of points on the plane a + b p + c f. */
  lemma SumsOnPlane(X: seq<(real, real)>, y: seq<real>, a: real, b: real, c: real)
    requires |X| == |y| > 0 && OnPlane(Column0(X), Column1(X), y, a, b, c)
    ensures var s := Sums(X, y);
      && s.spy == b * s.spp + c * s.spf
      && s.sfy == b * s.spf + c * s.sff
      && s.my == a + b * s.mp + c * s.mf
  {
    CrossSumsOnPlane(Column0(X), Column1(X), y, a, b, c);
    MeanOnPlane(Column0(X), Column1(X), y, a, b, c);
  }

  /** Normal equations made from (b, c), with the mean point on the plane, are solved by that plane. */
  lemma SolveExact(s: NormalSums, a: real, b: real, c: real)
    requires SumsDet(s) != 0.0
    requires s.spy == b * s.spp + c * s.spf && s.sfy == b * s.spf + c * s.sff
    requires s.my == a + b * s.mp + c * s.mf
    ensures Solve(s) == PlaneModel(b, c, a)
  {
    CramerRecovers(s.spp, s.spf, s.sff, s.spy, s.sfy, b, c);
  }

  /** The plane y = a + b * X[:, 0] + c * X[:, 1] predicts every y exactly. */
  lemma PredictOnPlane(X: seq<(real, real)>, y: seq<real>, a: real, b: real, c: real)
    requires OnPlane(Column0(X), Column1(X), y, a, b, c)
    ensures PredictModel(PlaneModel(b, c, a), X) == y
  {
    forall i | 0 <= i < |X| ensures PredictModel(PlaneModel(b, c, a), X)[i] == y[i] {
      assert Column0(X)[i] == X[i].0 && Column1(X)[i] == X[i].1;
    }
  }

  // ---------------------------------------------------------------------
  // fit_plane and the surface formula

  /**
   * What fit_plane needs: one pH, logFe and logR value per point, at least
   * two points (r2_score is undefined below that), and pH and logFe not
   * collinear.
   */
  predicate PlaneDomain(pH: seq<real>, logFe: seq<real>, logR: seq<real>)
  {
    |pH| == |logFe| == |logR| >= 2 && Det(pH, logFe) != 0.0
  }

  /**
   * fit_plane: the design matrix column_stack((pH, logFe)), the fitted model,
   * its predictions on the same points, and r2_score of those predictions;
   * the parameters come back as (intercept_, coef_[0], coef_[1]).
   */
  function FitPlane(pH: seq<real>, logFe: seq<real>, logR: seq<real>): ((real, real, real), real)
    requires PlaneDomain(pH, logFe, logR)
  {
    ColumnsOfStack(pH, logFe);
    var X := ColumnStack(pH, logFe);
    var model := FitModel(X, logR);
    var predictions := PredictModel(model, X);
    ((model.intercept, model.coef0, model.coef1), R2Score(logR, predictions))
  }

  /** The surface plot_fitted_plane draws: params[0] + params[1] * pH + params[2] * logFe. */
  function PlaneValue(params: (real, real, real), pH: real, logFe: real): real
  {
    params.0 + params.1 * pH + params.2 * logFe
  }

  /** The surface evaluated at each measured (pH, logFe). */
  function Surface(params: (real, real, real), pH: seq<real>, logFe: seq<real>): seq<real>
    requires |pH| == |logFe|
  {
    seq(|pH|, i requires 0 <= i < |pH| => PlaneValue(params, pH[i], logFe[i]))
  }

  /** The squared distance of the measured logR from a surface. */
  function SurfaceSSR(params: (real, real, real), pH: seq<real>, logFe: seq<real>, logR: seq<real>): real
    requires |pH| == |logFe| == |logR|
  {
    Sum(Square(Sub(logR, Surface(params, pH, logFe))))
  }

  /**
   * Read in the order (intercept, pH coefficient, logFe coefficient), any
   * parameter triple draws the surface the two-column model predicts.
   */
  lemma SurfaceIsPrediction(params: (real, real, real), pH: seq<real>, logFe: seq<real>)
    requires |pH| == |logFe|
    ensures Surface(params, pH, logFe) == PredictModel(PlaneModel(params.1, params.2, params.0), ColumnStack(pH, logFe))
  {
    var X := ColumnStack(pH, logFe);
    var m := PlaneModel(params.1, params.2, params.0);
    forall i | 0 <= i < |pH| ensures Surface(params, pH, logFe)[i] == PredictModel(m, X)[i] {
      SurfaceAt(params, pH, logFe, i);
    }
  }

  lemma SurfaceAt(params: (real, real, real), pH: seq<real>, logFe: seq<real>, i: nat)
    requires |pH| == |logFe| && i < |pH|
    ensures Surface(params, pH, logFe)[i]
         == PredictModel(PlaneModel(params.1, params.2, params.0), ColumnStack(pH, logFe))[i]
  {
    assert ColumnStack(pH, logFe)[i] == (pH[i], logFe[i]);
  }

  /** The surface through fit_plane's parameters is the fitted model's prediction. */
  lemma FitPlaneSurface(pH: seq<real>, logFe: seq<real>, logR: seq<real>)
    requires PlaneDomain(pH, logFe, logR)
    ensures var X := ColumnStack(pH, logFe);
      && Column0(X) == pH && Column1(X) == logFe
      && Surface(FitPlane(pH, logFe, logR).0, pH, logFe) == PredictModel(FitModel(X, logR), X)
  {
    ColumnsOfStack(pH, logFe);
    var m := FitModel(ColumnStack(pH, logFe), logR);
    var params := FitPlane(pH, logFe, logR).0;
    assert params == (m.intercept, m.coef0, m.coef1);
    SurfaceIsPrediction(params, pH, logFe);
    assert PlaneModel(params.1, params.2, params.0) == m;
  }

  /**
   * No parameter triple, read as (intercept, pH coefficient, logFe
   * coefficient), draws a surface closer to the measured logR than the one
   * fit_plane returns.
   */
  lemma FitPlaneMinimizes(pH: seq<real>, logFe: seq<real>, logR: seq<real>, q: (real, real, real))
    requires PlaneDomain(pH, logFe, logR)
    ensures SurfaceSSR(FitPlane(pH, logFe, logR).0, pH, logFe, logR) <= SurfaceSSR(q, pH, logFe, logR)
  {
    ColumnsOfStack(pH, logFe);
    var X := ColumnStack(pH, logFe);
    FitPlaneSurface(pH, logFe, logR);
    SurfaceIsPrediction(q, pH, logFe);
    FitModelMinimizes(X, logR, PlaneModel(q.1, q.2, q.0));
  }

  /**
   * The residuals of the returned surface sum to zero and are orthogonal to
   * the pH and logFe columns: the normal equations of the plane.
   */
  lemma FitPlaneNormalEquations(pH: seq<real>, logFe: seq<real>, logR: seq<real>)
    requires PlaneDomain(pH, logFe, logR)
    ensures var r := Sub(logR, Surface(FitPlane(pH, logFe, logR).0, pH, logFe));
      Sum(r) == 0.0 && Sum(Mul(pH, r)) == 0.0 && Sum(Mul(logFe, r)) == 0.0
  {
    ColumnsOfStack(pH, logFe);
    FitPlaneSurface(pH, logFe, logR);
    FitModelNormalEquations(ColumnStack(pH, logFe), logR);
  }

  /**
   * fit_plane's r_squared is r2_score of its own surface at the points that
   * were fitted, and so lies in [0, 1].
   */
  lemma FitPlaneScore(pH: seq<real>, logFe: seq<real>, logR: seq<real>)
    requires PlaneDomain(pH, logFe, logR)
    ensures var fit := FitPlane(pH, logFe, logR);
      && fit.1 == R2Score(logR, Surface(fit.0, pH, logFe))
      && 0.0 <= fit.1 <= 1.0
  {
    ColumnsOfStack(pH, logFe);
    FitPlaneSurface(pH, logFe, logR);
    FitModelScoreInUnitInterval(ColumnStack(pH, logFe), logR);
  }

  /**
   * Points lying exactly on logR = a + b * pH + c * logFe, with pH and logFe
   * not collinear, give back params (a, b, c) and r_squared 1.
   */
  lemma FitPlaneExact(pH: seq<real>, logFe: seq<real>, logR: seq<real>, a: real, b: real, c: real)
    requires PlaneDomain(pH, logFe, logR)
    requires forall i :: 0 <= i < |logR| ==> logR[i] == a + b * pH[i] + c * logFe[i]
    ensures var fit := FitPlane(pH, logFe, logR);
      fit.0.0 == a && fit.0.1 == b && fit.0.2 == c && fit.1 == 1.0
  {
    ColumnsOfStack(pH, logFe);
    FitModelExact(ColumnStack(pH, logFe), logR, a, b, c);
    ZeroResidualScore(logR);
  }

  /** Predictions equal to the data score 1. */
  lemma ZeroResidualScore(y: seq<real>)
    requires |y| >= 2
    ensures R2Score(y, y) == 1.0
  {
    var d := Sub(y, y);
    assert d == Scale(0.0, y);
    SumScale(0.0, y);
    var e := Square(d);
    assert e == Scale(0.0, y);
  }

  // ---------------------------------------------------------------------
  // The plotter object

  /** What get_results returns: the stored params and r_squared, each None until a fit. */
  datatype Results = Results(params: Option<(real, real, real)>, rSquared: Option<real>)

  /**
   * Plane3DPlotter keeps the last fitted parameters and r_squared. The
   * filename and the data read from it are not part of this model.
   */
  class Plane3DPlotter {
    var params: Option<(real, real, real)>
    var rSquared: Option<real>

    /** __init__: nothing fitted yet. */
    constructor()
      ensures params == None && rSquared == None
    {
      params := None;
      rSquared := None;
    }

    /** get_results */
    function GetResults(): Results
      reads this
    {
      Results(params, rSquared)
    }

    /** perform_analysis: fit, store both results, and return exactly what was stored. */
    method PerformAnalysis(pH: seq<real>, logFe: seq<real>, logR: seq<real>) returns (fitted: (real, real, real), r2: real)
      requires PlaneDomain(pH, logFe, logR)
      modifies this
      ensures fitted == FitPlane(pH, logFe, logR).0 && r2 == FitPlane(pH, logFe, logR).1
      ensures params == Some(fitted) && rSquared == Some(r2)
      ensures GetResults() == Results(Some(fitted), Some(r2))
    {
      var fit := FitPlane(pH, logFe, logR);
      fitted, r2 := fit.0, fit.1;
      params, rSquared := Some(fitted), Some(r2);
    }

    /**
     * The fitting half of plot_3D_data: fit only when nothing is stored, then
     * hand the stored parameters to the surface plot. Once params are stored
     * they are kept, whatever data the later calls pass.
     */
    method Plot3DData(pH: seq<real>, logFe: seq<real>, logR: seq<real>) returns (used: (real, real, real))
      requires params.None? ==> PlaneDomain(pH, logFe, logR)
      modifies this
      ensures old(params).Some? ==> used == old(params).value && params == old(params) && rSquared == old(rSquared)
      ensures old(params).None? ==>
        used == FitPlane(pH, logFe, logR).0 && rSquared == Some(FitPlane(pH, logFe, logR).1)
      ensures params == Some(used)
    {
      if params.None? {
        var fitted, r2 := PerformAnalysis(pH, logFe, logR);
        params := Some(fitted);
      }
      used := params.value;
    }
  }
}
