# IronOxidationSimulator curve fitting, modelled in Dafny

IronOxidationSimulator fits rate laws for the oxidation of dissolved iron. Its
computational layer, `src/utils`, does four kinds of fit:

- `calculate_regression` fits log(R0) against log([Fe]). It uses either
  scikit-learn's ordinary least squares, or a closed-form weighted
  straight-line fit. In the weighted fit each point has the weight
  1 / (sdy² + sdx²), and the fit also returns standard errors for the slope
  and the intercept.
- `initial_rate` cuts the start of a concentration series. The cut keeps the
  points that have moved no more than a fraction `threshold` of the overall
  change away from the first value. It fits a line to that window, scores the
  line on the whole series, and repeats this over a grid of thresholds.
- `rate_const.calculate_rate` fits ln(conc) against time over the whole
  series.
- `Plane3DPlotter` fits the plane logR = a + b·pH + c·logFe and keeps the
  parameters and r² in two fields of the object.

The model has six modules, one file each:

| file | module | contents |
|---|---|---|
| `vectors.dfy` | `Vectors` | element-wise operations on `seq<real>` and recursive sums |
| `least_squares.dfy` | `LeastSquares` | weighted averages, variance and covariance; the weighted least-squares line `FitLine`; `OLS` (the line with every weight 1); `R2Score` and `Score` |
| `regression_analysis.dfy` | `RegressionAnalysis` | both branches of `calculate_regression` |
| `initial_rate.dfy` | `InitialRate` | `cut_data`, `calculate_rate`, and `calculate_rate_compare` as a method with a loop |
| `rate_const.dfy` | `RateConst` | `calculate_rate` of the rate-constant fit |
| `plane3d.dfy` | `Plane3D` | `fit_plane`, the surface formula, and the `Plane3DPlotter` class with its two fields |

Modelling choices:

- All arithmetic is on `real`. A numpy element-wise expression is a sequence
  comprehension, and `np.sum` is a recursive sum.
- scikit-learn is not part of this model. `LinearRegression.fit` on one
  column is modelled by the closed-form least-squares line. On two columns it
  is modelled by Cramer's rule on the centred normal equations.
- `r2_score` is 1 − SSres/SStot. When y is constant (SStot = 0) it is 1 if
  the prediction is exact and 0 otherwise, which is scikit-learn's documented
  convention.
- The square root and the natural logarithm are function parameters:
  - `sqrt` is known only through `IsSqrt`: on t ≥ 0, `sqrt(t) ≥ 0` and
    `sqrt(t)² = t`;
  - nothing is known about `ln`, and it is only applied to positive
    concentrations.
- Where numpy would produce NaN or inf, the model has a `requires` instead.
  Where Python raises an exception the code depends on, the model has an
  outcome value:
  - `MissingErrors` when the weighted branch lacks an error array;
  - `EmptyWindow` when scikit-learn would be asked to fit no points.

## Model

The functions that compute what the source computes are specified only
through the lemmas in the table; each is listed here with its source span
and the rows that carry its specification:

- `InitialRate.CutData` (initial_rate.py:99-125): `KeptIndicesIff`,
  `CutDataAlignedPairs`, `CutDataRising`, `CutDataFalling`,
  `IndexableThresholdUsesFirst`, `FirstPointKept`, `KeptMonotone`.
- `InitialRate.CalculateRate` (initial_rate.py:37-64):
  `CalculateRateFitsWindow`, `NonnegativeThresholdFits`,
  `WholeSeriesScoreCanBeNegative`.
- `RateConst.CalculateRate` (rate_const.py:38-65):
  `CalculateRateFitsWholeSeries`, `CalculateRateExact`.
- `RegressionAnalysis.WeightedFit` (regression_analysis.py:73-91):
  `WeightedLineThroughMean`, `WeightedLineNormalEquations`,
  `WeightedLineMinimizes`, `WeightedRSquaredExplained`,
  `WeightedRSquaredBounds`, `WeightedStandardErrors`, `WeightedExact`,
  `WeightedScaleInvariant`.
- `RegressionAnalysis.SklearnFit` (regression_analysis.py:67-72):
  `SklearnBranch`, `OLSMinimizesSSR`, `OLSScoreIsSquaredCorrelation`.
- `LeastSquares.R2Score` and `LeastSquares.Score` (scikit-learn's
  `r2_score` and `LinearRegression.score`, used at initial_rate.py:56,
  rate_const.py:57, regression_analysis.py:72 and plane3D_plot.py:110):
  `R2ScoreAtMostOne`, `OLSScoreInUnitInterval`,
  `OLSScoreIsSquaredCorrelation`, `ZeroResidualScore`.
- `Plane3D.FitPlane` (plane3D_plot.py:95-111): `FitPlaneSurface`,
  `FitPlaneMinimizes`, `FitPlaneNormalEquations`, `FitPlaneScore`,
  `FitPlaneExact`.

| member | source | states |
|---|---|---|
| RegressionAnalysis.CombinedVariancePositive | Project/IronOxidationSimulator/src/utils/regression_analysis.py:79 | a point with sdx ≠ 0 or sdy ≠ 0 has combined variance sdy² + sdx² > 0 |
| RegressionAnalysis.InverseVariance | Project/IronOxidationSimulator/src/utils/regression_analysis.py:79 | the weight 1 / (sdy² + sdx²) of a point with some error is positive |
| RegressionAnalysis.Weights | Project/IronOxidationSimulator/src/utils/regression_analysis.py:79 | one weight per point; all weights are positive, so their sum is positive whenever there is a point |
| LeastSquares.WVarPositiveIff | Project/IronOxidationSimulator/src/utils/regression_analysis.py:83-85 | the weighted variance is ≥ 0; it is > 0 exactly when the values are not all equal, and 0 exactly when they are. So slope = covwxy / varwx is defined exactly when x is not constant |
| LeastSquares.FitLineThroughMean | Project/IronOxidationSimulator/src/utils/regression_analysis.py:80-86 | the weighted line passes through the weighted mean point (wmx, wmy) |
| LeastSquares.FitLineNormalEquations | Project/IronOxidationSimulator/src/utils/regression_analysis.py:85-87 | the residuals of the weighted line have weighted mean 0 and are uncorrelated with x |
| LeastSquares.FitLineMinimizes | Project/IronOxidationSimulator/src/utils/regression_analysis.py:85-88 | no line has a smaller weighted mean squared residual than the fitted one |
| LeastSquares.FitLineResidualVariance | Project/IronOxidationSimulator/src/utils/regression_analysis.py:82-88 | mse = varwy − covwxy² / varwx whenever x is not constant |
| LeastSquares.SquaredCorrelationExplained | Project/IronOxidationSimulator/src/utils/regression_analysis.py:91 | covwxy² / (varwx·varwy) = 1 − mse / varwy, and it lies in [0, 1] (Cauchy–Schwarz) |
| LeastSquares.FitLineExact | Project/IronOxidationSimulator/src/utils/regression_analysis.py:85-88 | points on y = a·x + b, with x not constant, give slope a and intercept b; every residual is 0 and mse is 0 |
| LeastSquares.ExactCorrelation | Project/IronOxidationSimulator/src/utils/regression_analysis.py:91 | for noiseless data with x and y not constant, covwxy² / (varwx·varwy) = 1 |
| LeastSquares.WAvgScaledWeights | Project/IronOxidationSimulator/src/utils/regression_analysis.py:80-81 | multiplying every weight by c > 0 leaves each weighted average np.sum(w·v)/np.sum(w) unchanged |
| LeastSquares.FitLineScaleInvariant | Project/IronOxidationSimulator/src/utils/regression_analysis.py:80-88 | multiplying every weight by c > 0 leaves the line and its mse unchanged |
| LeastSquares.MomentsScaleInvariant | Project/IronOxidationSimulator/src/utils/regression_analysis.py:82-84 | multiplying every weight by c > 0 leaves varwx, varwy and covwxy unchanged |
| LeastSquares.WAvgUnitWeights | Project/IronOxidationSimulator/src/utils/regression_analysis.py:80 | with every weight 1, the weighted average is the plain mean |
| LeastSquares.OLSMinimizesSSR | Project/IronOxidationSimulator/src/utils/regression_analysis.py:68-71 | no line has a smaller residual sum of squares than the ordinary least-squares line |
| LeastSquares.OLSSSRAsVariance | Project/IronOxidationSimulator/src/utils/regression_analysis.py:68-71 | with x not constant, the residual sum of squares of the least-squares line is n·(var y − cov² / var x) |
| LeastSquares.OLSExact | Project/IronOxidationSimulator/src/utils/regression_analysis.py:68-72 | for noiseless data with x not constant, least squares recovers slope and intercept; SSres is 0 and the score is 1 |
| LeastSquares.R2ScoreAtMostOne | Project/IronOxidationSimulator/src/utils/initial_rate.py:56 | r2_score is at most 1, whatever the prediction |
| LeastSquares.OLSScoreInUnitInterval | Project/IronOxidationSimulator/src/utils/regression_analysis.py:72 | scored on the data it was fitted to, the least-squares line scores in [0, 1] |
| LeastSquares.OLSScoreIsSquaredCorrelation | Project/IronOxidationSimulator/src/utils/regression_analysis.py:72 | with x and y not constant, the score of the least-squares line is the squared correlation cov² / (var x · var y) |
| RegressionAnalysis.CalculateRegression | Project/IronOxidationSimulator/src/utils/regression_analysis.py:46-92 | the call fails (TypeError) exactly when the weighted branch is chosen and sdx or sdy is None; otherwise both standard errors are None exactly when use_sklearn is set |
| RegressionAnalysis.SklearnBranch | Project/IronOxidationSimulator/src/utils/regression_analysis.py:67-72 | the scikit-learn branch returns the least-squares line, no line has a smaller SSres, both standard errors are None, and r_squared is its score on the same (x, y), in [0, 1] |
| RegressionAnalysis.WeightedLineThroughMean | Project/IronOxidationSimulator/src/utils/regression_analysis.py:80-86 | the returned line passes through (wmx, wmy) |
| RegressionAnalysis.WeightedLineNormalEquations | Project/IronOxidationSimulator/src/utils/regression_analysis.py:85-87 | the residuals of the returned line have weighted mean 0 and are uncorrelated with x |
| RegressionAnalysis.WeightedLineMinimizes | Project/IronOxidationSimulator/src/utils/regression_analysis.py:85-88 | no line has a smaller weighted mean squared residual than the returned one |
| RegressionAnalysis.WeightedRSquaredExplained | Project/IronOxidationSimulator/src/utils/regression_analysis.py:84-91 | r_squared = 1 − mse / varwy: the share of the weighted variance of y that the line explains |
| RegressionAnalysis.WeightedRSquaredBounds | Project/IronOxidationSimulator/src/utils/regression_analysis.py:91 | r_squared lies in [0, 1] |
| RegressionAnalysis.SlopeVarianceScaledBack | Project/IronOxidationSimulator/src/utils/regression_analysis.py:89 | multiplied by varwx·(n − 2), the slope variance mse / varwx / (n − 2) gives mse back; it is ≥ 0 when mse is |
| RegressionAnalysis.OutputErrors | Project/IronOxidationSimulator/src/utils/regression_analysis.py:89-90 | for mse ≥ 0: se_slope ≥ 0 and its square is the slope variance; se_intercept = se_slope·sqrt(mx2) ≥ 0 |
| RegressionAnalysis.WeightedStandardErrors | Project/IronOxidationSimulator/src/utils/regression_analysis.py:88-90 | both standard errors are reported; se_slope ≥ 0 and se_slope² = mse / varwx / (n − 2); se_intercept = se_slope·sqrt(np.sum(w·x²)/np.sum(w)) ≥ 0 |
| RegressionAnalysis.NoiselessOutputs | Project/IronOxidationSimulator/src/utils/regression_analysis.py:89-91 | when mse is 0 and the squared correlation is 1, both standard errors are 0 and r_squared is 1 |
| RegressionAnalysis.WeightedExact | Project/IronOxidationSimulator/src/utils/regression_analysis.py:85-91 | noiseless y = a·x + b, with a ≠ 0 and x not constant, gives slope a, intercept b, both standard errors 0 and r_squared 1 |
| RegressionAnalysis.WeightedScaleInvariant | Project/IronOxidationSimulator/src/utils/regression_analysis.py:80-91 | multiplying every weight by c > 0 changes no output of the weighted branch |
| RegressionAnalysis.ScaledWeights | Project/IronOxidationSimulator/src/utils/regression_analysis.py:79 | multiplying every sdx and sdy by k ≠ 0 multiplies every weight by 1/k² |
| RegressionAnalysis.ErrorScaleInvariant | Project/IronOxidationSimulator/src/utils/regression_analysis.py:79-91 | multiplying every sdx and sdy by k ≠ 0 changes no output of calculate_regression |
| RegressionAnalysis.EqualWeightsMatchSklearn | Project/IronOxidationSimulator/src/utils/regression_analysis.py:67-91 | with equal weights, the weighted branch gives the scikit-learn branch's line, and its r_squared equals that branch's score |
| RegressionAnalysis.UnitWeightsRSquared | Project/IronOxidationSimulator/src/utils/regression_analysis.py:67-91 | with unit weights, the weighted r_squared equals the score of the least-squares line |
| RegressionAnalysis.UniformWeights | Project/IronOxidationSimulator/src/utils/regression_analysis.py:79 | the same sdx and sdy at every point give every point the same weight |
| RegressionAnalysis.EqualErrorsMatchSklearn | Project/IronOxidationSimulator/src/utils/regression_analysis.py:67-91 | with the same errors at every point, both branches give the same slope, intercept and r_squared |
| InitialRate.TrueIndices | Project/IronOxidationSimulator/src/utils/initial_rate.py:125 | the positions selected by the mask: strictly increasing, each a true position, and every true position among them |
| InitialRate.KeptIndicesIff | Project/IronOxidationSimulator/src/utils/initial_rate.py:115-123 | index i is kept exactly when it passes the direction-dependent comparison against the threshold level |
| InitialRate.CutDataAlignedPairs | Project/IronOxidationSimulator/src/utils/initial_rate.py:111-125 | both outputs have one entry per kept index; the kept indices increase; the k-th output pair is the original pair at the k-th kept index |
| InitialRate.CutDataRising | Project/IronOxidationSimulator/src/utils/initial_rate.py:113-121 | a rising series keeps i iff conc_i − conc_0 ≤ (conc_last − conc_0)·threshold |
| InitialRate.CutDataFalling | Project/IronOxidationSimulator/src/utils/initial_rate.py:117-123 | a falling or flat series keeps i iff conc_0 − conc_i ≤ (conc_0 − conc_last)·threshold |
| InitialRate.IndexableThresholdUsesFirst | Project/IronOxidationSimulator/src/utils/initial_rate.py:114-123 | an indexable threshold cuts exactly as its first element would |
| InitialRate.EqualToFirstKept | Project/IronOxidationSimulator/src/utils/initial_rate.py:116-118 | for a threshold ≥ 0, a point equal to conc_0 passes the mask |
| InitialRate.FirstPointKept | Project/IronOxidationSimulator/src/utils/initial_rate.py:113-125 | for a threshold ≥ 0, every point equal to conc_0 is kept (so even threshold 0 keeps them); the window is never empty and starts at (time_0, conc_0) |
| InitialRate.KeptMonotone | Project/IronOxidationSimulator/src/utils/initial_rate.py:115-123 | for 0 ≤ t1 ≤ t2, every index kept at t1 is kept at t2 |
| InitialRate.CalculateRateFitsWindow | Project/IronOxidationSimulator/src/utils/initial_rate.py:49-64 | the fit fails exactly when the window is empty, which never happens for a threshold ≥ 0. Otherwise time and conc come back unchanged, and the line is the least-squares line of the window (no line has a smaller SSres there). r_squared is that line's score on the whole series, and is ≤ 1 |
| InitialRate.WholeSeriesScoreCanBeNegative | Project/IronOxidationSimulator/src/utils/initial_rate.py:56 | the whole-series score can be negative: conc [0, 0, 10] at times [0, 1, 2] with threshold 0.05 gives the line 0 and r_squared −0.5 |
| InitialRate.NonnegativeThresholdFits | Project/IronOxidationSimulator/src/utils/initial_rate.py:49-64 | a scalar threshold ≥ 0 always gives a rate, with the series passed in and r_squared ≤ 1 |
| InitialRate.CalculateRateCompare | Project/IronOxidationSimulator/src/utils/initial_rate.py:77-95 | one slope, intercept and r_squared per grid threshold, in grid order; entry k is what calculate_rate gives for the k-th threshold; every r_squared ≤ 1; time and conc come back unchanged |
| InitialRate.RecordedStep | Project/IronOxidationSimulator/src/utils/initial_rate.py:86-88 | appending the k-th threshold's results to the three lists extends the agreement with calculate_rate from k thresholds to k + 1 |
| InitialRate.GridWindowsNested | Project/IronOxidationSimulator/src/utils/initial_rate.py:77-82 | along the increasing grid, each threshold's window contains the windows of the earlier thresholds |
| RateConst.CalculateRateFitsWholeSeries | Project/IronOxidationSimulator/src/utils/rate_const.py:49-65 | time comes back unchanged and ln_conc[i] = ln(conc[i]) at every point. The line is the least-squares line of all (time, ln conc) pairs, with no window, and no line has a smaller SSres. r_squared is its score on those same pairs, in [0, 1] |
| RateConst.CalculateRateExact | Project/IronOxidationSimulator/src/utils/rate_const.py:49-57 | ln(conc_i) = k·t_i + b, with the times not constant, gives slope k, intercept b and r_squared 1 |
| Plane3D.ColumnsOfStack | Project/IronOxidationSimulator/src/utils/plane3D_plot.py:107 | column 0 of column_stack((pH, logFe)) is pH and column 1 is logFe |
| Plane3D.SolveSolves | Project/IronOxidationSimulator/src/utils/plane3D_plot.py:108 | the Cramer solution satisfies both centred normal equations |
| Plane3D.FitModelSolvesCentred | Project/IronOxidationSimulator/src/utils/plane3D_plot.py:108 | the fitted coefficients satisfy the centred normal equations of the data |
| Plane3D.FitModelThroughMeans | Project/IronOxidationSimulator/src/utils/plane3D_plot.py:108 | the fitted plane passes through the mean point (mean pH, mean logFe, mean logR) |
| Plane3D.ResidualsSumToZero | Project/IronOxidationSimulator/src/utils/plane3D_plot.py:108-109 | the residuals of the fitted plane sum to 0 |
| Plane3D.ResidualsOrthogonal0 | Project/IronOxidationSimulator/src/utils/plane3D_plot.py:108-109 | the residuals are orthogonal to the centred pH column |
| Plane3D.ResidualsOrthogonal1 | Project/IronOxidationSimulator/src/utils/plane3D_plot.py:108-109 | the residuals are orthogonal to the centred logFe column |
| Plane3D.FitModelNormalEquations | Project/IronOxidationSimulator/src/utils/plane3D_plot.py:108-109 | the residuals sum to 0 and are orthogonal to both predictor columns |
| Plane3D.FitModelMinimizes | Project/IronOxidationSimulator/src/utils/plane3D_plot.py:108-109 | no plane has a smaller residual sum of squares than the fitted one |
| Plane3D.FitModelScoreInUnitInterval | Project/IronOxidationSimulator/src/utils/plane3D_plot.py:109-110 | r2_score of the fitted plane on the points it was fitted to lies in [0, 1] |
| Plane3D.SolveExact | Project/IronOxidationSimulator/src/utils/plane3D_plot.py:108 | normal equations built from a plane (a, b, c), with the mean point on it, are solved by that plane |
| Plane3D.FitModelExact | Project/IronOxidationSimulator/src/utils/plane3D_plot.py:108-109 | points exactly on y = a + b·X[:,0] + c·X[:,1], with non-collinear predictors, are fitted by that plane, whose predictions equal y |
| Plane3D.SurfaceIsPrediction | Project/IronOxidationSimulator/src/utils/plane3D_plot.py:180 | read as (intercept, pH coefficient, logFe coefficient), any parameter triple's surface params[0] + params[1]·pH + params[2]·logFe equals the two-column model's prediction at each point |
| Plane3D.FitPlaneSurface | Project/IronOxidationSimulator/src/utils/plane3D_plot.py:107-111 | the surface drawn from fit_plane's params equals the fitted model's predictions at the measured points; the design matrix's columns are pH and logFe |
| Plane3D.FitPlaneMinimizes | Project/IronOxidationSimulator/src/utils/plane3D_plot.py:107-111 | no parameter triple draws a surface closer to the measured logR than the one fit_plane returns |
| Plane3D.FitPlaneNormalEquations | Project/IronOxidationSimulator/src/utils/plane3D_plot.py:107-111 | the residuals of the returned surface sum to 0 and are orthogonal to pH and to logFe |
| Plane3D.FitPlaneScore | Project/IronOxidationSimulator/src/utils/plane3D_plot.py:109-110 | r_squared is r2_score of the returned surface at the fitted points, in [0, 1] |
| Plane3D.ZeroResidualScore | Project/IronOxidationSimulator/src/utils/plane3D_plot.py:110 | predictions equal to the data score 1 |
| Plane3D.FitPlaneExact | Project/IronOxidationSimulator/src/utils/plane3D_plot.py:107-111 | points exactly on logR = a + b·pH + c·logFe, with pH and logFe not collinear, give params (a, b, c) and r_squared 1 |
| Plane3D.Plane3DPlotter.constructor | Project/IronOxidationSimulator/src/utils/plane3D_plot.py:52-53 | a new plotter has params None and r_squared None |
| Plane3D.Plane3DPlotter.PerformAnalysis | Project/IronOxidationSimulator/src/utils/plane3D_plot.py:92-93 | stores fit_plane's params and r_squared in the fields and returns exactly them; get_results then reports that pair |
| Plane3D.Plane3DPlotter.Plot3DData | Project/IronOxidationSimulator/src/utils/plane3D_plot.py:126-127 | fits only when no params are stored. Stored params, and r_squared, are kept whatever data is passed. Otherwise fit_plane's params and r_squared are stored. Either way the stored params are the ones handed to the surface plot |

## Left out

- Reading data files (`read_data` in every module, via pandas and Excel), every plot, the figure-to-pixmap conversion and the GUI. These are I/O and rendering.
- scikit-learn's `LinearRegression` and `r2_score` are foreign code. The model uses the least-squares closed form and the R² formula in their place.
- A constant x in the one-column least-squares fit gives slope 0. That is the minimum-norm least-squares solution, chosen here because scikit-learn's code is not part of this model.
- Collinear pH and logFe in the plane fit (Det = 0) are excluded by `requires`. There scikit-learn would return a minimum-norm solution, which is not modelled.
- IEEE floating-point rounding is not modelled. The threshold grid `np.arange(0.05, 0.2, 0.01)` is taken at its 15 nominal values 0.05, 0.06, …, 0.19. In double precision (0.2 − 0.05) / 0.01 comes out slightly above 15 and `np.arange` takes the ceiling, so the sweep at initial_rate.py:77-88 most likely has a 16th threshold of about 0.20 and returns 16 slopes, intercepts and scores; the model's grid does not have that entry.
- numpy's NaN and inf results are excluded by `requires`, not modelled:
  - the weighted branch needs at least three points, because se_slope divides by n − 2;
  - it needs x and y not constant, because slope divides by varwx and r_squared by varwx·varwy;
  - a score needs at least two points;
  - ln needs conc > 0.
- Array shapes are not modelled: the column vectors from `np.newaxis`, and the broadcasting errors for arrays of unequal length. The model requires equal lengths.
- A threshold given as an empty array makes `threshold[0]` fail, and the fallback then fails to broadcast. The model requires such an array to be non-empty. Thresholds of other types are not modelled.
- `Plane3DPlotter`'s `filename`, `data` and column fields, and their initialisation from `read_data`, are not modelled. Neither is the fallback of `plot_3D_data` to those columns when pH, logFe or logR is None.
- `Plane3D.Plane3DPlotter.GetResults` has no contract of its own. What `get_results` reports is stated through the ensures of `PerformAnalysis` and the constructor.
- `sqrt` and `ln` are parameters, not library functions. Only `IsSqrt` is known about `sqrt`, and nothing about `ln`.
