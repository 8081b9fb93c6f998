# Mixing-ratio estimator and function visualizer, modelled in Dafny

This project models the computational core of two small browser tools.

**ls_hymix** estimates, for every sample, the share `x` of end-member A in a two-end-member
mixture. It works in four steps:

- It reads two coefficient vectors `a` and `b` from a coefficient sheet, and the sample rows
  from a parameter sheet.
- It fits `x` in one of three ways. "Oil, linear" uses a closed-form least-squares fraction.
  "Oil, nonlinear" and "gas" use a golden-section search on [0, 1] over a mean squared residual.
- The gas model is a rational isotope-mixing model. Its coefficients split into a component
  half and an isotope half, and its isotope columns are named from the parameter sheet's
  header.
- It lays the results out as an export table with observed values, predicted values, relative
  errors and their mean.

**func_scope** plots an expression of several variables. It scans the expression for variable
names, keeps a range and a fixed value per variable, updates those from the input fields, and
samples the expression along one axis (101 points) or over a grid (41 × 41 points).

Numbers are idealised as mathematical reals. JavaScript's NaN and `undefined` become `None` of
`Option`, and a thrown error becomes `Failure` of `Result`. The foreign calls are parameters:
`parseFloat` is a `Parser`, `math.evaluate` with its expression fixed is an `Evaluator`, and the
square root behind the golden ratio is a `gr` with `gr > 0` and `gr² + gr = 1`.

The modules follow the source:

- `Sheet`: sheet reading.
- `GoldenSection`: the search.
- `Mixing`: the two mixing models and their objectives.
- `Fitters`: the three fitters.
- `ExportTable`: the export layout.
- `VariableScan` and `Visualizer`: func_scope.
- `Wrappers` and `JsText`: `Option`/`Result`, `trim`, number rendering, and the `Parser` type.

## Model

The definitions below state what a piece of the source computes and carry no property of their own. The properties are proved about them in the members of the table that follows.

- GoldenSection.Start, Step, Run, GoldenMid and Trace (ls_hymix/script.js:88-92, 95-107, 94-109, 111 and 92-107). These are the loop's first state, one iteration, the whole loop, the returned midpoint, and the points evaluated after the first two. Their properties are in StepKeepsBetterProbe, RunInvariant, GoldenRunSpec, TraceLength, TraceStep and GoldenSectionMin.
- Mixing.OilMse and Fitters.OilObjective (ls_hymix/script.js:183-191) are the oil objective. Their properties are in ClosedFormMinimisesOilMse and CalcOilNonlinear.
- Mixing.GasMse and Fitters.GasObjective (ls_hymix/script.js:224-234) are the gas objective. Their properties are in GasAllDenominatorsZero and CalcGasNonlinear.
- Visualizer.PlotValue (func_scope/script.js:245-253 and 315-322) is the failure policy of an evaluation. Its properties are in Plot2D and Plot3D.
- Visualizer.Bind (func_scope/script.js:236-243 and 305-313) builds the evaluation scope. Its properties are in BuildScope.
- VariableScan.MatchesFrom, Identifiers and Collected (func_scope/script.js:38-53) are the scan and the de-duplication. Their properties are in MatchesSound, MatchesOrdered, MatchesComplete, CollectedSpec and ParseVariables.
- Sheet.IsHeaderRow, KeepRows, PadRow and ParamCell (ls_hymix/script.js:148-157) are the parameter-row filter. Their properties are in KeepRowsIsFilter and ExtractParamsIsFilter.
- Sheet.CoefficientOf (ls_hymix/script.js:132-138) reads one cell. Its properties are in CoefficientVector and ExtractCoefficients.
- Fitters.HeaderName and Truthy (ls_hymix/script.js:219) pick a header cell. Their properties are in IsotopeNames, IsotopeNamesNotBlank and IsotopeNamesAsWritten.
- ExportTable.ObservedCell (ls_hymix/script.js:268) is the observed cell. Its properties are in ResultRowLayout.
- Visualizer.DefaultedAsWritten (func_scope/script.js:206-208) is the `|| default` rule as written. Its properties are in DefaultingDiffersOnlyAtZero and ZeroMinimumDiscardedAsWritten.

| member | source | states |
|---|---|---|
| Sheet.ExtractCoefficients | ls_hymix/script.js:127-142 | fails exactly when the sheet has fewer than two rows; otherwise a and b are read from rows 1–2 when there are at least three rows and both hold a non-empty cell, else rows 0–1, dropping column 0, with unparsable cells as 0; n is lowered only past trailing positions where both are 0, the position before the cut is not such a pair, and a and b are the prefixes of length n |
| Sheet.CoefficientVector | ls_hymix/script.js:137-138 | every column but the first, each cell read by parseFloat with NaN as 0 |
| Sheet.ExtractParams | ls_hymix/script.js:145-158 | an empty sheet gives no rows; every row has exactly n observations and is not entirely NaN |
| Sheet.KeepRowsIsFilter | ls_hymix/script.js:150-157 | the kept rows are exactly the padded rows that are not entirely NaN, at strictly increasing sheet positions |
| Sheet.ExtractParamsIsFilter | ls_hymix/script.js:145-158 | a row is kept if and only if it is not the header (row 0 holding a non-blank text) and is not entirely NaN; rows keep sheet order and are padded or cut to n with missing and empty cells as NaN |
| JsText.Trim | ls_hymix/script.js:219 | `trim` gives the empty string exactly for a blank string |
| JsText.TrimmedEnds | ls_hymix/script.js:219 | a trimmed string that is not empty has no white space at either end |
| JsText.NatToString | ls_hymix/script.js:218 | the decimal rendering of a counter is at least one digit, all digits, two or more digits exactly from 10 on, and starts with 0 only for 0 |
| JsText.NatToStringValue | ls_hymix/script.js:218 | the digits of the rendering spell n: reading them back gives n |
| JsText.NatToStringInjective | ls_hymix/script.js:218 | different numbers render differently |
| GoldenSection.GoldenRatioBounds | ls_hymix/script.js:89 | the ratio lies in (0.618, 0.62), hence in (1/2, 1), and 1 − gr = gr² |
| GoldenSection.ProbesOrdered | ls_hymix/script.js:90-91 | the two probes of a bracket satisfy a ≤ c ≤ d ≤ b |
| GoldenSection.ShrinkRightReusesProbe | ls_hymix/script.js:96-100 | keeping [a, d] multiplies the width by gr, and the old c is exactly the new d, so reusing fc is correct |
| GoldenSection.ShrinkLeftReusesProbe | ls_hymix/script.js:102-106 | keeping [c, b] multiplies the width by gr, and the old d is exactly the new c, so reusing fd is correct |
| GoldenSection.BracketedInitially | ls_hymix/script.js:88-92 | the initial bracket and probes satisfy the loop invariant (inside [a0, b0], golden probes, width gr⁰·(b0 − a0)) |
| GoldenSection.BracketedShrinkRight | ls_hymix/script.js:95-100 | the shrink-right branch preserves the loop invariant with one more iteration |
| GoldenSection.BracketedShrinkLeft | ls_hymix/script.js:101-106 | the shrink-left branch preserves the loop invariant with one more iteration |
| GoldenSection.GoldenSectionMin | ls_hymix/script.js:88-112 | the loop computes the reference run: x is GoldenMid, the midpoint of the final bracket of Run from Start, and the final bracket and iteration count are Run's; moreover x lies inside [a0, b0] with fx = f(x); the loop runs at most maxIter times, not at all when b0 − a0 ≤ tol; the final width is (b0 − a0) shrunk by gr once per iteration; it stops narrow enough or out of iterations, and every iteration began wider than tol; the points at which f is evaluated are exactly the two first probes, then Trace of the run (one new probe per iteration), then x, all inside [a0, b0] |
| GoldenSection.TraceLength | ls_hymix/script.js:94-109 | the loop evaluates f once per iteration it makes: the trace is as long as the run |
| GoldenSection.TraceStep | ls_hymix/script.js:95-107 | an iteration's new probe heads the trace of the rest of the run, so appending it to the points seen leaves "seen, then the rest" unchanged |
| GoldenSection.StepKeepsBetterProbe | ls_hymix/script.js:95-106 | an iteration keeps the probe with the smaller value, with its value, as a probe of the new bracket and cuts the bracket at the worse probe, so the best probe value never increases |
| GoldenSection.RunInvariant | ls_hymix/script.js:94-109 | the run keeps the loop invariant: bracket inside [a0, b0] with golden probes that carry their values, width shrunk by gr per iteration, best value no worse than at the start, and it stops narrow enough or out of iterations, each iteration having begun wider than tol |
| GoldenSection.GoldenRunSpec | ls_hymix/script.js:88-111 | the search from [a0, b0] ends on a bracket inside [a0, b0] that holds its result, of width (b0 − a0) shrunk by gr per iteration, with at most maxIter iterations, none when b0 − a0 ≤ tol, stopping exactly as the loop condition says; its best probe value is no worse than either first probe |
| GoldenSection.UnitIntervalRunLength | ls_hymix/script.js:193 | for every objective, the search on [0, 1] with tolerance 10⁻⁷ makes exactly 34 iterations under any cap of at least 34, so the caps 200 and 300 of the fitters never bind |
| GoldenSection.WidthIsPow | ls_hymix/script.js:95-107 | shrinking the width by gr k times multiplies it by gr^k |
| GoldenSection.PowCrossesTolerance | ls_hymix/script.js:193 | gr³³ > 10⁻⁷ and gr³⁴ < 10⁻⁷ |
| GoldenSection.UnitIntervalSearchLength | ls_hymix/script.js:193 | on [0, 1] with tolerance 10⁻⁷ a search that stops as goldenSectionMin stops makes exactly 34 iterations, so caps of 200 or 300 never bind |
| Mixing.LinearPrediction | ls_hymix/script.js:171 | one prediction per coefficient; pred − b = (a − b)·x; x = 1 gives a and x = 0 gives b; for x in [0, 1] each prediction lies between a[i] and b[i] |
| Mixing.MixturesBetween | ls_hymix/script.js:171 | for x in [0, 1], a[i]·x + b[i]·(1 − x) lies between a[i] and b[i] |
| Mixing.OilResiduals | ls_hymix/script.js:184-187 | one residual per coefficient: prediction minus observation |
| Mixing.DotSelfZeroIff | ls_hymix/script.js:164 | ΣA² is non-negative and is 0 exactly when every a[i] − b[i] is 0 |
| Mixing.ClosedFormFraction | ls_hymix/script.js:163-170 | x is 0 when the end-members agree everywhere; it is not clamped to [0, 1] |
| Mixing.ClosedFormRecoversFraction | ls_hymix/script.js:163-170 | from noiseless data made with any x0, the closed form returns x0 whenever a and b differ somewhere |
| Mixing.ClosedFormMinimisesSquaredError | ls_hymix/script.js:163-170 | no fraction z gives a smaller sum of squared oil residuals than the closed form, inside [0, 1] or not |
| Mixing.ClosedFormOnQuadratic | ls_hymix/script.js:164-170 | s/p, or 0 when p and s are both 0, minimises t²·p − 2t·s + c for p ≥ 0 |
| Mixing.ClosedFormMinimisesOilMse | ls_hymix/script.js:182-192 | the closed form also minimises the mean squared residual that the nonlinear oil fit searches on |
| Mixing.SquaredErrorExpansion | ls_hymix/script.js:164-170 | Σ(A·z − Y)² = z²·ΣA² − 2z·ΣA·Y + ΣY² |
| Mixing.QuadraticMinimum | ls_hymix/script.js:170 | a quadratic with positive leading coefficient p is smallest at the x with x·p = s |
| Mixing.MeanSquare | ls_hymix/script.js:184-190 | the mean squared residual (`sum / n` at line 190, `s / half` at line 233) is non-negative |
| Mixing.IsotopeRatio | ls_hymix/script.js:227-229 | 0 when the weighted denominator is 0; at x = 1 (or 0) with non-zero weight it is a_i (or b_i); for x in [0, 1] with non-negative component weights it lies between a_i and b_i |
| Mixing.IsotopeAverageBetween | ls_hymix/script.js:227-229 | with non-negative weights x·a_c and (1 − x)·b_c, not both 0, the isotope value is a weighted average of a_i and b_i |
| Mixing.GasPredictions | ls_hymix/script.js:206-210 | one prediction per isotope (half of the coefficients), the component half of a and b weighting their isotope half |
| Mixing.GasResiduals | ls_hymix/script.js:223-231 | one residual per isotope: prediction minus observation, with a missing, NaN or zero observation as 0 |
| Mixing.GasAllDenominatorsZero | ls_hymix/script.js:226-233 | when every denominator is 0 every prediction is 0 and the objective is the mean square of the observations |
| Fitters.Slice | ls_hymix/script.js:215 | JavaScript `slice` clamps both ends to the length: the result is the elements from `from` up to the clamped end |
| Fitters.CalcOilLinear | ls_hymix/script.js:161-175 | one result per sample row, in order; x is the closed-form least-squares fraction, y the row and predicted the mixture at x |
| Fitters.CalcOilNonlinear | ls_hymix/script.js:178-200 | one result per sample row, in order; x is the golden-section search result (GoldenMid) of the mean squared oil residual of that row on [0, 1] with tolerance 10⁻⁷ and cap 200, so it lies in [0, 1]; y is the row and predicted the mixture at x |
| Fitters.PredictIsotopes | ls_hymix/script.js:237-242 | the predicted loop computes the isotope model's prediction at every isotope position |
| Fitters.FallbackName | ls_hymix/script.js:218 | the fallback name is 同位素 followed by the decimal digits of i + 1, with no leading zero, and is not blank |
| Fitters.FallbackNamesDistinct | ls_hymix/script.js:218 | different isotopes get different fallback names |
| Fitters.IsotopeNames | ls_hymix/script.js:214-219 | one name per isotope: the trimmed header cell at half + i when it is a non-blank text, else the fallback name for i |
| Fitters.IsotopeNamesNotBlank | ls_hymix/script.js:219 | no isotope name is blank, and a name taken from the header has no white space at either end |
| Fitters.IsotopeNamesAsWritten | ls_hymix/script.js:215-219 | as written, the names fail exactly when a cell of the clamped slice is truthy and not a string (`name.trim` throws); otherwise there is one name per cell of the slice |
| Fitters.IsotopeNamesAsWrittenIsPrefix | ls_hymix/script.js:215-219 | where the names as written exist, they are a prefix of the intended names |
| Fitters.NumericHeaderThrowsAsWritten | ls_hymix/script.js:219 | a numeric first row (a parameter sheet without a header) makes the names as written throw, while the intended names are the fallbacks |
| Fitters.ShortHeaderLosesNamesAsWritten | ls_hymix/script.js:215 | a header that stops before the isotope columns gives no names as written, where one name per isotope is intended |
| Fitters.CalcGasNonlinear | ls_hymix/script.js:203-247 | fails exactly when the coefficient count is odd; otherwise the names are the isotope names, with one result per row in order: y the row's isotope half as sliced, x the golden-section search result (GoldenMid) of the isotope objective on y (missing, NaN or zero observations as 0) on [0, 1] with tolerance 10⁻⁷ and cap 300, so in [0, 1], and predicted the isotope model at x |
| ExportTable.Header | ls_hymix/script.js:250-259 | 索引 and x, then three blocks of the names prefixed 原始-, 计算- and 相对误差-, then 平均误差: 3·|names| + 3 cells |
| ExportTable.MathRound | ls_hymix/script.js:275 | `Math.round` is within half a unit of its argument |
| ExportTable.RoundToFourIsZeroIff | ls_hymix/script.js:273 | a value reads back as 0 from its four-decimal text exactly when it lies within 0.00005 of 0 |
| ExportTable.RelativeError | ls_hymix/script.js:272-276 | a relative error is blank or a non-negative number with two decimals |
| ExportTable.RelativeErrorBlankIff | ls_hymix/script.js:273 | a relative error is blank exactly when the observation is missing or reads back as 0 |
| ExportTable.RelativeErrorIsRounded | ls_hymix/script.js:274-275 | a present relative error is within 0.005 of the exact percentage on the read-back values |
| ExportTable.MeanError | ls_hymix/script.js:278-281 | the mean error is blank exactly when no relative error is present |
| ExportTable.MeanErrorNonNegative | ls_hymix/script.js:278-281 | the mean of the relative errors is non-negative |
| ExportTable.SumValuesNonNegative | ls_hymix/script.js:280 | a sum of non-negative relative errors is non-negative |
| ExportTable.ResultRow | ls_hymix/script.js:263-283 | a row has two cells per observation, one per prediction, and three more |
| ExportTable.ResultRowLayout | ls_hymix/script.js:263-283 | a row is the index, x with six decimals, the observations (blank when missing), the predictions with four decimals, the relative errors and their mean, in that order |
| ExportTable.RowFitsHeader | ls_hymix/script.js:250-283 | with one observation and one prediction per name, a row has exactly as many cells as the header |
| ExportTable.BuildResultTable | ls_hymix/script.js:250-286 | the header, then one row per result numbered from 1, in order |
| VariableScan.WordEnd | func_scope/script.js:39 | the greedy `[a-zA-Z0-9_]*` run ends at the end of the text or before a non-word character |
| VariableScan.MatchesSound | func_scope/script.js:39 | every match is an identifier: a letter with no word character before it, then word characters up to a word boundary |
| VariableScan.MatchesOrdered | func_scope/script.js:39 | the matches do not overlap and come in text order |
| VariableScan.MatchesComplete | func_scope/script.js:39 | every identifier of the text is matched |
| VariableScan.DigitPrefixHidesName | func_scope/script.js:39 | "2x" has no identifier, and "2x + y" has only y |
| VariableScan.FirstIndex | func_scope/script.js:53 | the position of the first occurrence of a name |
| VariableScan.CollectedSpec | func_scope/script.js:38-53 | the collected names have no duplicates; a name is collected exactly when it is matched and not reserved; names come in order of first occurrence |
| Visualizer.MultiVariableVisualizer.constructor | func_scope/script.js:2-3 | a new visualizer has no variables |
| Visualizer.MultiVariableVisualizer.ParseVariables | func_scope/script.js:37-54 | no duplicates; a name is returned exactly when it is an identifier of the expression and not one of the 20 reserved names; names come in order of first occurrence |
| Visualizer.MultiVariableVisualizer.RegisterSymbols | func_scope/script.js:79-115 | a failed parse changes nothing; otherwise the variables are exactly the visited symbols outside the 19 reserved names, all with range −10..10 and value 0, and the call fails exactly when there are none |
| Visualizer.Defaulted | func_scope/script.js:206-208 | a number that parses is kept, 0 included; the fallback is taken exactly when the text is not a number or parses to the fallback itself |
| Visualizer.DefaultingDiffersOnlyAtZero | func_scope/script.js:206-208 | the rule as written and the intended rule differ exactly on a text that reads as 0 when the fallback is not 0 |
| Visualizer.ZeroMinimumDiscardedAsWritten | func_scope/script.js:206 | as written, a range typed as 0 to 5 becomes −10 to 5 |
| Visualizer.ApplyControl | func_scope/script.js:205-209 | each input that parses sets its field, 0 included; each input that does not gives its field the default: min −10, max 10, value 0 |
| Visualizer.WithControls | func_scope/script.js:195-211 | every variable with a control takes its configuration from the control's texts; the others keep theirs; no variable is added or removed |
| Visualizer.AxisEnds | func_scope/script.js:229-232 | the first sample is min and the last is max |
| Visualizer.AxisEvenlySpaced | func_scope/script.js:229-232 | consecutive samples differ by (max − min)/points |
| Visualizer.AxisWithinRange | func_scope/script.js:229-232 | for min ≤ max the samples rise from min to max and stay in the range |
| Visualizer.CurveSpansRange | func_scope/script.js:229-233 | a sampled curve starts at its variable's min and ends at its max |
| Visualizer.SameAxesGiveConstantRows | func_scope/script.js:306-307 | when both axes name the same variable the y sample overwrites the x sample, so every row of the surface is constant |
| Visualizer.SampleAxes | func_scope/script.js:293-299 | both axes of the surface have points + 1 evenly spaced samples from their min |
| Visualizer.MultiVariableVisualizer.BuildScope | func_scope/script.js:236-243 | the scope binds the axis variables to their samples and every other variable to its fixed value |
| Visualizer.MultiVariableVisualizer.Plot2D | func_scope/script.js:224-254 | fails exactly when xVar is not a variable; otherwise 101 samples min + i·(max − min)/100 and, at each, the value of the expression with xVar at the sample and every other variable at its value, or 0 when it throws or is not a finite number |
| Visualizer.MultiVariableVisualizer.SampleRow | func_scope/script.js:302-325 | one value per x sample, evaluated at that x sample and the row's y sample |
| Visualizer.MultiVariableVisualizer.Plot3D | func_scope/script.js:285-326 | fails exactly when xVar or yVar is not a variable; otherwise 41 samples per axis and a 41 × 41 grid whose entry [i][j] is the plotted value at (x[j], y[i]) |
| Visualizer.MultiVariableVisualizer.UpdatePlot | func_scope/script.js:188-222 | the variables take the configurations from their controls, then the curve or surface is sampled; it fails exactly when an axis variable is unknown, and the updated configurations stay even then |

## Left out

- The DOM and its events are not modelled: file input, tables, status texts, selects, the variable list and controls, `onPlotModeChange`, and `alert`/`console`. Reading a control becomes a map from variable name to the three texts.
- XLSX reading and writing (`readWorkbookArrays`, `exportToExcel`) is not modelled. The sheets are given as rows of cells.
- Plotly drawing is not modelled: traces, layouts and `plotPredictionScatter`. The plots end with the sampled data.
- `math.parse` and `math.evaluate` are foreign calls. `RegisterSymbols` receives the symbol names that parseFunction's traversal visits (or `None` when parsing throws). The evaluator is a parameter.
- The global state (`wb`, `sheetNames`, `sheetsData`, `resultState`) is not modelled. The gas fitter receives the header row directly.
- IEEE-754 doubles are idealised as reals: no rounding, overflow or negative zero. NaN appears only as `None` in parameter cells and gas observations.
- Fitters.CalcOilLinear: sample rows are fully present numbers. NaN propagation through the oil objective and closed form is not modelled.
- Fitters.CalcOilNonlinear: sample rows are fully present numbers. The search's comparisons with a NaN objective are not modelled.
- Fitters.CalcOilLinear: requires `b` and every row to be at least as long as `a`. The source reads `undefined` there and computes NaN.
- Fitters.CalcOilNonlinear: requires `b` and every row to be at least as long as `a`, for the same reason.
- Fitters.CalcGasNonlinear: requires `b` to be at least as long as `a`, for the same reason.
- Mixing.MeanSquare: an empty residual vector has mean 0, where the source divides 0 by 0. Every comparison of the search then takes the same branch, as it does with NaN.
- GoldenSection.GoldenSectionMin: it does not state that the result minimises `f`. That needs `f` to be unimodal, which the source neither checks nor ensures. What is proved instead is that the loop computes the reference run `Run`, which keeps the half on the side of the smaller probe value (StepKeepsBetterProbe), so the best probe value never increases.
- `toFixed` and the numeric text round trip are not rendered as strings. A `Fixed(v, d)` cell stands for `v.toFixed(d)`, and `RoundTo` for reading such a text back as a number (ties away from zero).
- ExportTable.ResultRow: requires no more observations than predictions. With more, the source writes the text "NaN" as a relative error.
- The oil column names (`header.map(...)`, ls_hymix/script.js:475) and the export's unused `type` argument are not modelled. The export table takes the names as given.
- The order in which the JavaScript `Map` keeps the variables is not modelled. It only picks the initial axis selections.
- The unused `plotPoints` field is not modelled.
- Visualizer.MultiVariableVisualizer.UpdatePlot: it uses the intended defaulting rule (`Defaulted`) rather than `|| -10`, `|| 10`, `|| 0` (see Findings). `ApplyControlAsWritten` models the rule as written.
- Fitters.CalcGasNonlinear: it uses the intended isotope names (`IsotopeNames`) rather than the names as written (see Findings). `IsotopeNamesAsWritten` models those.

## Findings

| source | as written | input that shows it | evidently intended | confidence | as-written member | corrected member |
|---|---|---|---|---|---|---|
| ls_hymix/script.js:219 | `name.trim()` is called on any truthy header cell | a parameter sheet without a header row (which extractParamsFromSheetArr accepts): its first row holds numbers such as 10, -25.5, and the gas fit throws "name.trim is not a function" | a cell that is not a non-blank text falls back to 同位素{i+1} | high, not executed | Fitters.IsotopeNamesAsWritten, Fitters.NumericHeaderThrowsAsWritten | Fitters.IsotopeNames |
| ls_hymix/script.js:215-219 | the names are mapped over `headerRow.slice(half, 2·half)`, which is shorter than half when the header row is | header row `["CH4"]` with half = 1 gives no names, while each result has one prediction | one name per isotope, with the fallback where the header has none | low, not executed | Fitters.IsotopeNamesAsWritten, Fitters.ShortHeaderLosesNamesAsWritten | Fitters.IsotopeNames |
| func_scope/script.js:206-208 | `parseFloat(text) \|\| -10` (and `\|\| 10`) also replaces a typed 0 | min "0", max "5", value "1" gives the range −10 to 5 | only a text that is not a number falls back to the default | medium, not executed | Visualizer.ApplyControlAsWritten, Visualizer.ZeroMinimumDiscardedAsWritten | Visualizer.ApplyControl |
