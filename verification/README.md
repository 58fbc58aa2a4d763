# rbfopt-go in Dafny

A model of the two halves of rbfopt-go, a tool that tunes the integer parameters of a Go service with
the RBFOpt black-box optimizer.

The Go side validates the optimization settings. It serves cost estimations: it applies the
optimizer's parameter values to the service configuration through the parameters' ConfigModifier
callbacks, runs the client's cost function, and answers with a cost capped by the
InvalidParameterCombinationCost ceiling. It also keeps the final report.

The Python wrapper talks to it over HTTP. Its evaluator converts the optimizer's positional vectors
into named integer values, logs every evaluation and registers the final report. Its renderer
decides which rows, columns, cost ranges and grid cells make up the scatterplots and the pairwise
heatmaps.

Modules follow the source files:

- `ParameterDescriptions`: parameter_description.go.
- `OptimizationSettings`: settings.go.
- `Api`: the api.go messages.
- `Reports`: the report record, which Go (optimize.go) and Python (report.py) exchange as JSON.
- `CostEstimation`: cost_estimator.go.
- `WrapperClient`: client.py.
- `Trials` and `Evaluation`: evaluator.py.
- `Plot` and `PlotLayout`: the data-shape parts of plot.py.
- Shared helpers: `Wrappers` (Option, Result, Outcome), `Seqs` (first-match search, order-preserving filter and
  first-occurrence deduplication) and `Numbers` (Python's `int()` on floats, Go's `math.MaxFloat64`).

The objects the source updates in place are classes:

- `CostEstimator`, with its attempt counter and final report.
- `ServiceConfig`, the configuration the ConfigModifiers write into. It is known by the calls made on it.
- `Client`, with the log of requests it has sent. The remote service is an oracle over that log.
- `Evaluator`, with its evaluation log and stored report.

The two layout loops of the renderer fill arrays of axes cells.

Where the settings.go comment on ErrInvalidParameterCombination disagrees with the code, the model
follows the code. The comment says a cost function "must return MaxCost" with that error. The code
compares the raw cost with the ceiling even for an invalid combination, so an outcome following the
comment is always refused (`CostEstimation.InvalidCombinationOutcomes`). The second case of the
repository's Go test returns cost 0 with that error, which the code would answer with the ceiling.
That test never reaches the cost function, though: it leaves the root directory unset, so validation
refuses its settings first (see Findings).

## Model

| member | source | states |
|---|---|---|
| ParameterDescriptions.MatchesNamePatternIff | optimization/parameter_description.go:25-28 | the unanchored one-character pattern `[a-zA-Z0-9_]` matches a name exactly when some character of the name is in the class |
| ParameterDescriptions.Validate | optimization/parameter_description.go:27-42 | no error iff the name holds a class character and the ConfigModifier is set; the name error iff no character is in the class; the modifier error iff the name passes but the modifier is nil |
| ParameterDescriptions.UnanchoredNameExamples | optimization/parameter_description.go:25-34 | "a-b" and "-x" pass, "" and "-" are rejected with the name error |
| ParameterDescriptions.NameErrorTakesPrecedence | optimization/parameter_description.go:33-39 | a bad name is reported even when the modifier is also nil |
| ParameterDescriptions.ValidateIgnoresBound | optimization/parameter_description.go:27-42 | the verdict does not depend on the bound, reversed or missing |
| OptimizationSettings.MarshalJSON | optimization/settings.go:38-54 | fails iff the strategy is not one of the five named constants 0..4; every success is a quoted JSON string without escapes |
| OptimizationSettings.MarshalJSONInjective | optimization/settings.go:38-54 | distinct named strategies marshal to distinct strings |
| OptimizationSettings.ValidateSettings | optimization/settings.go:77-109 | no error iff every check passes; each error is returned iff its check fails and all earlier checks pass; a parameter error names the first invalid parameter and carries its cause |
| OptimizationSettings.GoTestSettingsRejected | optimization/plecoptera_test.go:48-69 | the test's settings, with no root directory, are refused with the root-directory error |
| OptimizationSettings.GoTestSettingsWithRootDirAccepted | optimization/settings.go:77-109 | the same settings with any root directory pass every check |
| OptimizationSettings.GetParameterByName | optimization/settings.go:111-119 | fails iff no parameter has the name; otherwise returns the first parameter with that name |
| OptimizationSettings.GetParameterByNameFindsEach | optimization/settings.go:111-119 | with distinct names, each parameter is found by its own name |
| Reports.OptimumArgument | wrapper/report.py:19-24 | fails iff no optimum entry has the name; otherwise returns the value of the first entry with that name |
| Reports.OptimumArgumentOfEachEntry | wrapper/report.py:19-24 | with distinct names, each entry's value is found by its own name |
| CostEstimation.ValidParametersHaveModifiers | optimization/parameter_description.go:37-39 | every parameter of validated settings carries a ConfigModifier |
| CostEstimation.CallsFor | optimization/cost_estimator.go:20-27 | one call per value, in request order: the k-th call applies the k-th value through the ConfigModifier of the parameter carrying its name |
| CostEstimation.UnknownAt | optimization/cost_estimator.go:20-24 | no position iff every requested name is a known parameter; otherwise the first position whose name is unknown |
| CostEstimation.Respond | optimization/cost_estimator.go:32-52 | other cost-function errors fail; a raw cost at or above the ceiling fails with that cost and ceiling; success iff neither; an invalid combination is flagged and answered with the ceiling; a valid one with its own cost, below the ceiling |
| CostEstimation.RespondBelowCeiling | optimization/cost_estimator.go:36-52 | a successful answer never exceeds the ceiling and comes from a raw cost below it |
| CostEstimation.InvalidCombinationOutcomes | optimization/settings.go:19-21 | cost 0 with the invalid-combination error under ceiling 10 is answered (10, invalid); the largest float cost with that error is refused under every valid ceiling |
| CostEstimation.CostEstimator.constructor | optimization/cost_estimator.go:82-84 | a new estimator has made no attempts and holds no report |
| CostEstimation.CostEstimator.ApplyParameterValues | optimization/cost_estimator.go:19-27 | the calls appended to the configuration are those of the known values, in request order, up to the first unknown name, which is reported |
| CostEstimation.CostEstimator.EstimateCost | optimization/cost_estimator.go:16-61 | an unknown name fails with that name, leaves the attempt count alone and keeps the calls applied before it; otherwise every value is applied, one attempt is counted and the answer is `Respond` on the cost function's outcome for the new configuration; the report is untouched |
| CostEstimation.CostEstimator.Answer | optimization/cost_estimator.go:32-60 | the step-by-step checks on the cost function's outcome give exactly `Respond` |
| CostEstimation.CostEstimator.RegisterReport | optimization/cost_estimator.go:63-80 | a second report fails and keeps the first; a nil report fails and stores nothing; otherwise the report is stored |
| Numbers.TruncateTowardZero | wrapper/evaluator.py:32 | `int()` of a float: the integer within one unit of it, on the side of zero |
| Trials.ZipToMap | wrapper/evaluator.py:41 | the keys are exactly the names paired with a value |
| Trials.ZipToMapAt | wrapper/evaluator.py:41 | with distinct names, each name maps to the value at its position |
| WrapperClient.CostReply | wrapper/client.py:30-35 | a body that is not JSON fails with the decoding error whatever the status; otherwise a non-200 status fails with that status; success iff status 200 with the cost fields, which it returns; status 200 with other JSON fails with the missing fields |
| WrapperClient.EmptyErrorReplyHidesStatus | wrapper/client.py:30-33 | an error reply with an empty body fails with the decoding error, never with its status |
| WrapperClient.RegisterReply | wrapper/client.py:48-49 | success iff status 200; otherwise fails with the status |
| WrapperClient.Client.constructor | wrapper/client.py:17-19 | a new client addresses `http://` followed by the endpoint and has sent nothing |
| WrapperClient.Client.EstimateCost | wrapper/client.py:21-35 | sends one cost request with the values and returns the interpretation of the service's reply |
| WrapperClient.Client.RegisterReport | wrapper/client.py:37-49 | sends one registration request with the report and returns the interpretation of the reply |
| Evaluation.ParameterValuesOf | wrapper/evaluator.py:28-34 | one entry per raw value, in order: the i-th name with `int()` of the i-th raw value |
| Evaluation.IntegralVectorsConvertExactly | wrapper/evaluator.py:28-34 | an integral raw value converts to exactly that integer |
| Evaluation.MakeTrial | wrapper/evaluator.py:40-43 | the entry carries the cost and the flag; its parameter keys are exactly the paired names other than the two utility columns |
| Evaluation.MakeTrialHoldsRawValues | wrapper/evaluator.py:40-43 | with distinct non-utility names, each parameter holds its raw, unconverted value |
| Evaluation.Evaluator.constructor | wrapper/evaluator.py:22-26 | a new evaluator has an empty log and no report |
| Evaluation.Evaluator.ToParameterValues | wrapper/evaluator.py:28-34 | the loop's list equals `ParameterValuesOf` of the raw vector |
| Evaluation.Evaluator.EstimateCost | wrapper/evaluator.py:36-47 | sends the converted values; on a failed reply the log is unchanged and the error returned; otherwise exactly one entry for the raw values, cost and flag is appended and the cost returned |
| Evaluation.Evaluator.RegisterReport | wrapper/evaluator.py:49-66 | sends the report built from the converted optimum; it is stored only when the reply succeeds; the log is unchanged |
| Evaluation.Evaluator.Dump | wrapper/evaluator.py:68-78 | fails while no report is stored; otherwise returns the log in insertion order and the report |
| Plot.LogFrame | wrapper/evaluator.py:70 | the rows are the log; an empty log has no columns; otherwise the columns are distinct and are exactly the parameter names and the two utility columns |
| Plot.NewRenderer | wrapper/plot.py:26-34 | fails iff the skip flag is set and the table has no flag column; with the skip flag, the kept rows are exactly the rows not flagged invalid; without it, all rows; the report and the columns are kept |
| Plot.EmptyLogCannotSkip | wrapper/plot.py:28-29 | the table of an empty log cannot be filtered on the flag column |
| Plot.NewRendererKeepsEachValidRow | wrapper/plot.py:28-29 | each valid row is kept as many times as it occurs, each invalid row never |
| Plot.NewRendererKeepsOrder | wrapper/plot.py:28-29 | filtering commutes with concatenation, so kept rows stay in log order |
| Plot.ParameterColumnNames | wrapper/plot.py:36-40 | the parameter columns are exactly the columns other than the two utility columns |
| Plot.ParameterColumnsOfLogOnce | wrapper/plot.py:36-40 | for the table of a non-empty log, each non-utility parameter name is plotted once and nothing else is |
| Plot.ParameterColumnsOfLog | wrapper/plot.py:36-40 | for the table of a non-empty log with distinct non-utility names, the parameter columns are the configured names, in order |
| Plot.CostBounds | wrapper/plot.py:42-46 | none iff there are no rows; otherwise every cost lies within the bounds and both bounds are attained |
| Plot.ColumnBounds | wrapper/plot.py:143-144 | none iff there are no rows; otherwise every value of the column lies within the bounds and both bounds are attained |
| Plot.ColumnPoints | wrapper/plot.py:84 | one (value, cost) point per row, in row order |
| Plot.PairPoints | wrapper/plot.py:137 | one ((first value, second value), cost) point per row, in row order |
| Plot.GroupMin | wrapper/plot.py:86-88 | every point's key is present with a cost no greater than the point's; every entry is the cost of some point with that key |
| Plot.GroupMinExample | wrapper/plot.py:86-88 | a value seen with costs 5, 2 and 8 is plotted once, at 2 |
| Plot.GroupMinWithin | wrapper/plot.py:86-88 | grouped best costs stay within any range holding all the grouped costs |
| Plot.RenderScatterplot | wrapper/plot.py:83-105 | fails in source order on a missing column, a missing cost column, an optimum without the column, and no rows; otherwise the marker is the report's first-match optimum argument and its cost, the y range is the shared cost bounds, and the series is every row's (value, cost) point, or the best cost per value of those points when only optimal values are asked for |
| Plot.ScatterPointsWithinCostLimits | wrapper/plot.py:102-105 | every plotted point, in both variants, lies within the y range |
| Plot.BestCostSurface | wrapper/plot.py:137-140 | each observed pair is on the surface at a cost no greater than its row's; each surface value is attained by a row with that pair |
| Plot.VariesIffSpread | wrapper/plot.py:143-149 | a column varies iff its least and greatest values differ |
| Plot.GridStep | wrapper/plot.py:143-149 | a step exists iff the column varies; it is positive and 100 steps span the column's values |
| Plot.PlaceHeatmap | wrapper/plot.py:160-170 | fails iff an optimum argument is missing; otherwise the surface, the shared colour range, the given steps and the optimum in grid coordinates |
| Plot.RenderPairwiseHeatmap | wrapper/plot.py:137-170 | fails in source order on a missing first, second or cost column, a first or second column that never varies, and a missing optimum argument; success iff none of these, with both grid steps derived from the data |
| Plot.HeatmapWithinColorLimits | wrapper/plot.py:139-160 | every surface value lies within the colour range |
| Plot.TickLabelFor | wrapper/plot.py:180-193 | integral ticks and ticks of 100 or more print as integers (truncated); others keep 1 place from 10, 2 places from 1, and 3 below 1 |
| Plot.TickPlacesNonIncreasing | wrapper/plot.py:186-193 | a larger non-integral tick never gets more places than a smaller one |
| Plot.TickScaler | wrapper/plot.py:179-193 | the tick at grid index `val` is `val * scale`: it prints as an integer, truncated toward zero and within one unit, iff it is integral or at least 100; otherwise it prints itself with 1 place from 10, 2 places from 1 and 3 below 1 |
| Plot.IntegerLabelIsClose | wrapper/plot.py:182-187 | an integer label is less than one unit away from its tick |
| Plot.TickBandExamples | wrapper/plot.py:178-195 | 250, 250.5, 37.4, 3.456, 0.123 and -2.5 land in their bands; the tick at grid index 37 with scale 0.2 prints 7.4 with two places |
| Plot.AxisScale | wrapper/plot.py:147-148 | the scale is non-negative, zero iff the axis does not vary, and 100 steps of it span the axis |
| Plot.OptimumCoordinates | wrapper/plot.py:197-205 | for non-zero scales: fails on the first missing name, in lookup order; otherwise each coordinate times its scale is the optimum argument, and the third value is the report's cost |
| Plot.OptimumCoordinatesTicks | wrapper/plot.py:163-168 | on each axis the formatter prints the optimum's grid coordinate as the optimum argument |
| Plot.OptimumMarkerTickReadsOptimum | wrapper/plot.py:163-170 | in every rendered heatmap the axis formatter prints the marker's position as the optimum argument itself; both read index i as i times the step, so neither accounts for the grid starting at the column's least value |
| Plot.IntegerTickLabel | wrapper/plot.py:178-183 | a grid position that scales to an integer prints as that integer |
| PlotLayout.ScatterGridShape | wrapper/plot.py:55-62 | up to two parameters give one row of that many columns; more give two columns and just enough rows |
| PlotLayout.ScatterGridFits | wrapper/plot.py:55-62 | the grid holds every parameter and leaves at most one cell over |
| PlotLayout.ScatterAxes | wrapper/plot.py:55-68 | no axes iff there is no parameter column, for which the grid has zero columns; otherwise a matrix of the grid's shape |
| PlotLayout.LayoutScatterplotGroup | wrapper/plot.py:67-75 | cell i of the flattened grid shows parameter i when there is one and is switched off otherwise |
| PlotLayout.CellOfPair | wrapper/plot.py:123-125 | the pair (i, j), i < j, is drawn on or below the diagonal |
| PlotLayout.PairOfCell | wrapper/plot.py:123-125 | a cell on or below the diagonal shows an ordered pair |
| PlotLayout.PairCellCorrespondence | wrapper/plot.py:120-125 | pairs and lower-triangle cells correspond one to one |
| PlotLayout.LayoutPairwiseHeatmaps | wrapper/plot.py:114-126 | on the (n-1) x (n-1) grid of the corrected axes request, which starts untouched, every cell on or below the diagonal ends up showing its pair and every cell above it switched off |
| PlotLayout.Subplots | wrapper/plot.py:67-68 | fails iff the rows or the columns are not positive; without squeezing, the axes form a matrix; with squeezing, a 1 x 1 grid is a single axes object, a single row or column a vector, and anything larger a matrix |
| PlotLayout.PairwiseAxesAsWritten | wrapper/plot.py:114-118 | fewer than two parameters fail (a grid of no rows); two give a single axes object; three or more an (n-1) x (n-1) matrix |
| PlotLayout.PairwiseAxesAsWrittenNotIndexable | wrapper/plot.py:114-125 | as written, the request succeeds with cell-indexable axes iff there are at least three parameters |
| PlotLayout.PairwiseAxes | wrapper/plot.py:114-118 | the corrected request still fails iff there are fewer than two parameters, and otherwise gives an (n-1) x (n-1) matrix |
| PlotLayout.PairwiseAxesIndexable | wrapper/plot.py:114-125 | requesting the axes without squeezing gives an (n-1) x (n-1) matrix for every n >= 2, and still fails for fewer |

## Left out

- WrapperClient.CostReply: the shape of the service's reply is an oracle input. That the Go server answers errors with an empty body (optimization/server.go:101-102) is not derived; `WrapperClient.EmptyErrorReplyHidesStatus` states what the client does with such a reply.
- HTTP transport, the Go server and its routes, the RBFOpt process, `Optimize`'s orchestration, logging and context cancellation: outside the modelled files. The Python client's service is an oracle parameter.
- The client's cost function and ConfigModifier callbacks are foreign code. A ConfigModifier is an identifier, its effect is a recorded call, and the cost function is an arbitrary function of those calls.
- Float64 arithmetic: costs and raw values are reals. NaN, infinities and rounding are not modelled. pandas' NaN bounds for an empty table are `None`; where the source then fails (axis limits in the scatterplot, grid sampling in the heatmap) the model returns the matching error. So does a figure grid with no rows or no columns: the scatterplot figure of a table without parameter columns, and the pairwise figure of fewer than two (`PlotLayout.ScatterAxes`, `PlotLayout.PairwiseAxesAsWritten`).
- The regexp compile error branch of parameter_description.go:29-31 cannot occur for the constant pattern, so the model has no case for it.
- File output: the CSV and JSON dumps of evaluator.py:70-76, `save_to_file` and `load_from_file` of report.py:26-35, and figure saving.
- Drawing: colours, annotations, figure sizes and the colour bar of plot.py. Also the cubic interpolation of plot.py:151-160; the heatmap surface is the best cost at each observed pair.
- Plot.RenderPairwiseHeatmap: does not model the errors of the interpolation step (too few or collinear points), because the interpolation is left out. Its success case can therefore hold where the source would still raise there.
- Plot.RenderScatterplot, Plot.RenderPairwiseHeatmap: require every row to hold the plotted columns. A table with missing cells (NaN in pandas) is not modelled.
- Plot.LogFrame: takes every entry to hold every parameter name. The evaluator accepts a raw vector shorter than the names, and its entry then lacks the trailing names; the optimizer passes full-length vectors, and pandas' union of differing keys with NaN cells is not modelled.
- Plot.CostBounds: pandas skips NaN costs, which the model has none of.
- Evaluation.ParameterValuesOf: requires at most as many raw values as names. A longer vector makes the source raise IndexError, which is not modelled.
- Evaluation.Evaluator.RegisterReport: Python allows registering a report twice. The model does too; only the Go side refuses a second report.
- The files under `plecoptera/` and the Go files at the top of the repository are not part of this model.
- wrapper/names.py is not part of this model. The column names "cost" and "invalid_parameter_combination" follow the JSON tags of optimization/api.go:8-9.
- wrapper/main.py constructs the renderer with three arguments while its constructor takes four. The call site is outside the model.

## Findings

| source | as written | input that shows it | evidently intended | confidence | as-written member | corrected member |
|---|---|---|---|---|---|---|
| optimization/plecoptera_test.go:48-69 | both cases of the Go test build settings without `RootDir` and expect `Optimize` to succeed | the test's own settings: validation at optimization/settings.go:78-80 refuses them before any evaluation | set a root directory in the test's settings, after which validation passes | not executed | OptimizationSettings.GoTestSettingsRejected | OptimizationSettings.GoTestSettingsWithRootDirAccepted |
| wrapper/plot.py:114-125 | `plt.subplots(n-1, n-1)` keeps the default squeezing, then indexes `axes[j - 1, i]` | fewer than three parameter columns: with two, the 1 x 1 grid is squeezed to a single axes object, and indexing it by cell fails; with one, the 0 x 0 grid is refused outright | request the grid with `squeeze=False`, as the scatterplot group does at plot.py:67-68, so that the axes always form an (n-1) x (n-1) matrix; this covers two columns but not one, which still asks for an empty grid | not executed | PlotLayout.PairwiseAxesAsWrittenNotIndexable | PlotLayout.PairwiseAxesIndexable |
