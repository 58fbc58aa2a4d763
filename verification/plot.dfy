/** The data-shape logic of the renderer: which rows and columns are plotted, the shared cost range,
    the best-cost grouping behind the "optimal values" plots and the tick-label precision bands.
    Drawing, interpolation and file output are not modelled. */
module Plot {
  import opened Wrappers
  import opened Seqs
  import opened Numbers
  import opened Reports
  import opened Trials

  /** The evaluation table: its columns in order, and its rows in trial order. */
  datatype Frame = Frame(columns: seq<string>, rows: seq<Trial>)

  /** The table pandas builds from the evaluator's log of dictionaries: one column per distinct key, in
      the order the keys were first inserted (the parameter names, then the two utility columns), and no
      column at all when the log is empty. Each entry's keys are the parameter names followed by the
      utility columns, so a repeated name or a name equal to a utility column collapses into one column. */
  function LogFrame(names: seq<string>, log: seq<Trial>): (f: Frame)
    ensures f.rows == log
    ensures log == [] ==> f.columns == []
    ensures Distinct(f.columns)
    ensures log != [] ==> forall k :: 0 <= k < |names| ==> names[k] in f.columns
    ensures log != [] ==> CostColumn in f.columns && InvalidColumn in f.columns
    ensures forall k :: 0 <= k < |f.columns| ==>
      f.columns[k] in names || f.columns[k] == CostColumn || f.columns[k] == InvalidColumn
  {
    if log == [] then Frame([], log)
    else
      var keys := names + [CostColumn, InvalidColumn];
      assert keys[|names|] == CostColumn && keys[|names| + 1] == InvalidColumn;
      assert forall k :: 0 <= k < |names| ==> keys[k] == names[k];
      Frame(Dedup(keys), log)
  }

  /** What the renderer keeps from its construction. */
  datatype Renderer = Renderer(frame: Frame, report: Report)

  /** The errors the renderer raises: a KeyError for a column the table lacks, the ValueError of a
      missing optimum argument, matplotlib's ValueError for NaN axis limits (no rows), and numpy's
      error for a heatmap grid whose step is zero or NaN (an axis whose values never vary). */
  datatype RenderError =
    | MissingColumn(column: string)
    | MissingOptimum(cause: ReportError)
    | EmptyCostRange
    | DegenerateGrid(column: string)

  predicate IsValidRow(t: Trial) {
    !t.invalid
  }

  /** With the skip flag set, only rows not flagged invalid are kept; selecting on the flag column
      of a table that lacks it raises. */
  function NewRenderer(skipInvalid: bool, df: Frame, report: Report): (r: Result<Renderer, RenderError>)
    ensures r.Failure? <==> skipInvalid && InvalidColumn !in df.columns
    ensures r.Failure? ==> r.error == MissingColumn(InvalidColumn)
    ensures r.Success? ==> r.value.report == report && r.value.frame.columns == df.columns
    ensures r.Success? && !skipInvalid ==> r.value.frame.rows == df.rows
    ensures r.Success? && skipInvalid ==> forall k :: 0 <= k < |r.value.frame.rows| ==>
      !r.value.frame.rows[k].invalid && r.value.frame.rows[k] in df.rows
    ensures r.Success? && skipInvalid ==> forall k :: 0 <= k < |df.rows| && !df.rows[k].invalid ==>
      df.rows[k] in r.value.frame.rows
  {
    if !skipInvalid then Success(Renderer(df, report))
    else if InvalidColumn !in df.columns then Failure(MissingColumn(InvalidColumn))
    else Success(Renderer(Frame(df.columns, Keep(df.rows, IsValidRow)), report))
  }

  /** The table of an empty log has no flag column, so a renderer that skips invalid rows cannot be built for it. */
  lemma EmptyLogCannotSkip(names: seq<string>, report: Report)
    ensures NewRenderer(true, LogFrame(names, []), report) == Failure(MissingColumn(InvalidColumn))
  {
  }

  /** Filtering keeps every valid row as often as it occurs and drops every invalid one. */
  lemma NewRendererKeepsEachValidRow(df: Frame, report: Report, t: Trial)
    requires InvalidColumn in df.columns
    ensures multiset(NewRenderer(true, df, report).value.frame.rows)[t] == if t.invalid then 0 else multiset(df.rows)[t]
  {
    KeepCount(df.rows, IsValidRow, t);
  }

  /** Filtering preserves trial order: the rows kept from a log split in two are those kept from each part. */
  lemma NewRendererKeepsOrder(columns: seq<string>, a: seq<Trial>, b: seq<Trial>, report: Report)
    requires InvalidColumn in columns
    ensures NewRenderer(true, Frame(columns, a + b), report).value.frame.rows ==
      NewRenderer(true, Frame(columns, a), report).value.frame.rows + NewRenderer(true, Frame(columns, b), report).value.frame.rows
  {
    KeepConcat(a, b, IsValidRow);
  }

  predicate IsParameterColumn(c: string) {
    c != CostColumn && c != InvalidColumn
  }

  /** Every column but the two utility ones, in table order. */
  function ParameterColumnNames(r: Renderer): (cols: seq<string>)
    ensures forall k :: 0 <= k < |cols| ==> cols[k] in r.frame.columns && IsParameterColumn(cols[k])
    ensures forall k :: 0 <= k < |r.frame.columns| && IsParameterColumn(r.frame.columns[k]) ==> r.frame.columns[k] in cols
  {
    Keep(r.frame.columns, IsParameterColumn)
  }

  /** For the table of a non-empty log, every parameter name is plotted exactly once, and nothing else is. */
  lemma {:induction false} ParameterColumnsOfLogOnce(names: seq<string>, log: seq<Trial>, skipInvalid: bool, report: Report)
    requires log != []
    ensures NewRenderer(skipInvalid, LogFrame(names, log), report).Success?
    ensures var cols := ParameterColumnNames(NewRenderer(skipInvalid, LogFrame(names, log), report).value);
      && Distinct(cols)
      && (forall k :: 0 <= k < |cols| ==> cols[k] in names)
      && (forall k :: 0 <= k < |names| && IsParameterColumn(names[k]) ==> names[k] in cols)
  {
    KeepDistinct(LogFrame(names, log).columns, IsParameterColumn);
  }

  /** With distinct parameter names, the plotted parameters are exactly the configured names, in order. */
  lemma {:induction false} ParameterColumnsOfLog(names: seq<string>, log: seq<Trial>, skipInvalid: bool, report: Report)
    requires log != []
    requires Distinct(names)
    requires forall k :: 0 <= k < |names| ==> IsParameterColumn(names[k])
    ensures NewRenderer(skipInvalid, LogFrame(names, log), report).Success?
    ensures ParameterColumnNames(NewRenderer(skipInvalid, LogFrame(names, log), report).value) == names
  {
    var keys := names + [CostColumn, InvalidColumn];
    assert Distinct(keys) by {
      forall i, j | 0 <= i < j < |keys|
        ensures keys[i] != keys[j]
      {
        if j < |names| {
          assert keys[i] == names[i] && keys[j] == names[j];
        } else if i < |names| {
          assert keys[i] == names[i];
        }
      }
    }
    DedupDistinct(keys);
    KeepConcat(names, [CostColumn, InvalidColumn], IsParameterColumn);
    KeepAll(names, IsParameterColumn);
    assert Keep([CostColumn, InvalidColumn], IsParameterColumn) == [];
  }

  /** The least and greatest of some values; pandas gives NaN for no values, here None. */
  function Bounds(xs: seq<real>): (b: Option<(real, real)>)
    ensures b.None? <==> xs == []
    ensures b.Some? ==> forall k :: 0 <= k < |xs| ==> b.value.0 <= xs[k] <= b.value.1
    ensures b.Some? ==> exists k :: 0 <= k < |xs| && xs[k] == b.value.0
    ensures b.Some? ==> exists k :: 0 <= k < |xs| && xs[k] == b.value.1
  {
    if xs == [] then None
    else
      var x := xs[0];
      match Bounds(xs[1..])
      case None => Some((x, x))
      case Some((lo, hi)) => Some((if x < lo then x else lo, if x > hi then x else hi))
  }

  /** The least and greatest cost over the rows. */
  function CostBounds(rows: seq<Trial>): (b: Option<(real, real)>)
    ensures b.None? <==> rows == []
    ensures b.Some? ==> forall k :: 0 <= k < |rows| ==> b.value.0 <= rows[k].cost <= b.value.1
    ensures b.Some? ==> exists k :: 0 <= k < |rows| && rows[k].cost == b.value.0
    ensures b.Some? ==> exists k :: 0 <= k < |rows| && rows[k].cost == b.value.1
  {
    var costs := seq(|rows|, k requires 0 <= k < |rows| => rows[k].cost);
    assert forall k :: 0 <= k < |rows| ==> costs[k] == rows[k].cost;
    Bounds(costs)
  }

  /** Every row carries a value for the column. */
  predicate HasColumn(rows: seq<Trial>, column: string) {
    forall k :: 0 <= k < |rows| ==> column in rows[k].parameters
  }

  /** The least and greatest value of a parameter column over the rows. */
  function ColumnBounds(rows: seq<Trial>, column: string): (b: Option<(real, real)>)
    requires HasColumn(rows, column)
    ensures b.None? <==> rows == []
    ensures b.Some? ==> forall k :: 0 <= k < |rows| ==> b.value.0 <= rows[k].parameters[column] <= b.value.1
    ensures b.Some? ==> exists k :: 0 <= k < |rows| && rows[k].parameters[column] == b.value.0
    ensures b.Some? ==> exists k :: 0 <= k < |rows| && rows[k].parameters[column] == b.value.1
  {
    var values := seq(|rows|, k requires 0 <= k < |rows| => rows[k].parameters[column]);
    assert forall k :: 0 <= k < |rows| ==> values[k] == rows[k].parameters[column];
    Bounds(values)
  }

  /** The (value, cost) points of one parameter column, in row order. */
  function ColumnPoints(rows: seq<Trial>, column: string): (pts: seq<(real, real)>)
    requires HasColumn(rows, column)
    ensures |pts| == |rows|
    ensures forall k :: 0 <= k < |rows| ==> pts[k] == (rows[k].parameters[column], rows[k].cost)
  {
    seq(|rows|, k requires 0 <= k < |rows| => (rows[k].parameters[column], rows[k].cost))
  }

  /** The ((first value, second value), cost) points of a pair of parameter columns, in row order. */
  function PairPoints(rows: seq<Trial>, first: string, second: string): (pts: seq<((real, real), real)>)
    requires HasColumn(rows, first) && HasColumn(rows, second)
    ensures |pts| == |rows|
    ensures forall k :: 0 <= k < |rows| ==>
      pts[k] == ((rows[k].parameters[first], rows[k].parameters[second]), rows[k].cost)
  {
    seq(|rows|, k requires 0 <= k < |rows| =>
      ((rows[k].parameters[first], rows[k].parameters[second]), rows[k].cost))
  }

  /** Group by key and keep the least cost: one entry per distinct key, holding the best cost seen with it. */
  function GroupMin<K(==, !new)>(pts: seq<(K, real)>): (m: map<K, real>)
    ensures forall k :: 0 <= k < |pts| ==> pts[k].0 in m && m[pts[k].0] <= pts[k].1
    ensures forall key :: key in m ==> exists k :: 0 <= k < |pts| && pts[k] == (key, m[key])
  {
    if pts == [] then map[]
    else
      var rest := GroupMin(pts[1..]);
      var (key, cost) := pts[0];
      rest[key := if key in rest && rest[key] < cost then rest[key] else cost]
  }

  /** A value seen with costs 5, 2 and 8 is plotted once, at 2. */
  lemma GroupMinExample(v: real)
    ensures GroupMin([(v, 5.0), (v, 2.0), (v, 8.0)]) == map[v := 2.0]
  {
    var m := GroupMin([(v, 5.0), (v, 2.0), (v, 8.0)]);
    assert m.Keys == {v};
  }

  datatype Series = AllValues(points: seq<(real, real)>) | OptimalValues(best: map<real, real>)

  /** One scatterplot: its series, the optimum marker and the shared cost range of the y axis. */
  datatype ScatterPanel = ScatterPanel(column: string, series: Series, optimum: (int, real), costLimits: (real, real))

  /** The data of one scatterplot. Selecting the column and the cost raises for a column the table lacks,
      looking up the optimum's value raises when the report lacks the column, and setting the y limits
      raises when there are no rows, since their bounds are NaN. */
  function RenderScatterplot(r: Renderer, column: string, onlyOptimal: bool): (p: Result<ScatterPanel, RenderError>)
    requires HasColumn(r.frame.rows, column)
    ensures column !in r.frame.columns ==> p == Failure(MissingColumn(column))
    ensures column in r.frame.columns && CostColumn !in r.frame.columns ==> p == Failure(MissingColumn(CostColumn))
    ensures column in r.frame.columns && CostColumn in r.frame.columns && OptimumArgument(r.report, column).Failure? ==>
      p == Failure(MissingOptimum(UnexpectedName(column)))
    ensures p.Success? <==>
      column in r.frame.columns && CostColumn in r.frame.columns && OptimumArgument(r.report, column).Success?
      && r.frame.rows != []
    ensures p.Success? ==> p.value.column == column && p.value.optimum.1 == r.report.cost
    ensures p.Success? ==> p.value.optimum.0 == OptimumArgument(r.report, column).value
    ensures p.Success? ==> exists k :: 0 <= k < |r.report.optimum| && r.report.optimum[k] == ParameterValue(column, p.value.optimum.0)
    ensures p.Success? ==> p.value.costLimits == CostBounds(r.frame.rows).value
    ensures p.Success? && !onlyOptimal ==> p.value.series == AllValues(ColumnPoints(r.frame.rows, column))
    ensures p.Success? && onlyOptimal ==> p.value.series == OptimalValues(GroupMin(ColumnPoints(r.frame.rows, column)))
  {
    if column !in r.frame.columns then Failure(MissingColumn(column))
    else if CostColumn !in r.frame.columns then Failure(MissingColumn(CostColumn))
    else match OptimumArgument(r.report, column)
      case Failure(e) => Failure(MissingOptimum(e))
      case Success(v) =>
        match CostBounds(r.frame.rows)
        case None => Failure(EmptyCostRange)
        case Some(limits) =>
          var points := ColumnPoints(r.frame.rows, column);
          var series := if onlyOptimal then OptimalValues(GroupMin(points)) else AllValues(points);
          Success(ScatterPanel(column, series, (v, r.report.cost), limits))
  }

  /** The best costs of a grouping stay within any range that holds all the costs grouped. */
  lemma GroupMinWithin<K(!new)>(pts: seq<(K, real)>, lo: real, hi: real)
    requires forall k :: 0 <= k < |pts| ==> lo <= pts[k].1 <= hi
    ensures forall key :: key in GroupMin(pts) ==> lo <= GroupMin(pts)[key] <= hi
  {
    var m := GroupMin(pts);
    forall key | key in m
      ensures lo <= m[key] <= hi
    {
      var k :| 0 <= k < |pts| && pts[k] == (key, m[key]);
    }
  }

  /** Every plotted point lies within the shared y range, in both variants, so no panel clips its data. */
  lemma {:induction false} ScatterPointsWithinCostLimits(r: Renderer, column: string, onlyOptimal: bool)
    requires HasColumn(r.frame.rows, column)
    requires RenderScatterplot(r, column, onlyOptimal).Success?
    ensures var p := RenderScatterplot(r, column, onlyOptimal).value;
      && (p.series.AllValues? ==> forall k :: 0 <= k < |p.series.points| ==>
            p.costLimits.0 <= p.series.points[k].1 <= p.costLimits.1)
      && (p.series.OptimalValues? ==> forall x :: x in p.series.best ==>
            p.costLimits.0 <= p.series.best[x] <= p.costLimits.1)
  {
    var p := RenderScatterplot(r, column, onlyOptimal).value;
    GroupMinWithin(ColumnPoints(r.frame.rows, column), p.costLimits.0, p.costLimits.1);
  }

  /** The best cost observed at each pair of values of two parameter columns (the grouped minimums the
      heatmap interpolates between). */
  function BestCostSurface(rows: seq<Trial>, first: string, second: string): (surface: map<(real, real), real>)
    requires HasColumn(rows, first) && HasColumn(rows, second)
    ensures forall k :: 0 <= k < |rows| ==>
      var xy := (rows[k].parameters[first], rows[k].parameters[second]);
      xy in surface && surface[xy] <= rows[k].cost
    ensures forall xy :: xy in surface ==>
      (exists k :: 0 <= k < |rows|
        && (rows[k].parameters[first], rows[k].parameters[second]) == xy
        && rows[k].cost == surface[xy])
  {
    GroupMin(PairPoints(rows, first, second))
  }

  /** The heatmap grid has this many steps along each axis. */
  const Samples: real := 100.0

  /** Parameter units per grid step along an axis that spans `lo` to `hi`. */
  function AxisScale(lo: real, hi: real): (scale: real)
    requires lo <= hi
    ensures scale >= 0.0 && (scale == 0.0 <==> lo == hi)
    ensures scale * Samples == hi - lo
  {
    (hi - lo) / Samples
  }

  /** Two rows differ in the column. */
  predicate Varies(rows: seq<Trial>, column: string)
    requires HasColumn(rows, column)
  {
    exists i, j :: 0 <= i < |rows| && 0 <= j < |rows| && rows[i].parameters[column] != rows[j].parameters[column]
  }

  /** A column varies exactly when its least and greatest values differ. */
  lemma VariesIffSpread(rows: seq<Trial>, column: string)
    requires HasColumn(rows, column) && rows != []
    ensures Varies(rows, column) <==> ColumnBounds(rows, column).value.0 != ColumnBounds(rows, column).value.1
  {
    var (lo, hi) := ColumnBounds(rows, column).value;
    if lo != hi {
      var i :| 0 <= i < |rows| && rows[i].parameters[column] == lo;
      var j :| 0 <= j < |rows| && rows[j].parameters[column] == hi;
    }
  }

  /** The grid step of one heatmap axis: the span of the column's values over `Samples`. The grid is
      sampled with that step, which fails when it is zero (a constant column) or NaN (no rows). */
  function GridStep(rows: seq<Trial>, column: string): (step: Option<real>)
    requires HasColumn(rows, column)
    ensures step.Some? <==> Varies(rows, column)
    ensures step.Some? ==>
      && step.value > 0.0
      && step.value * Samples == ColumnBounds(rows, column).value.1 - ColumnBounds(rows, column).value.0
  {
    match ColumnBounds(rows, column)
    case None => None
    case Some((lo, hi)) =>
      VariesIffSpread(rows, column);
      if lo == hi then None else Some(AxisScale(lo, hi))
  }

  /** The optimum in grid coordinates: each optimum argument divided by its axis step, and the cost.
      The arguments are looked up in turn, so the first missing name decides the error. */
  function OptimumCoordinates(report: Report, first: string, second: string, firstScale: real, secondScale: real)
    : (c: Result<(real, real, real), ReportError>)
    requires firstScale != 0.0 && secondScale != 0.0
    ensures OptimumArgument(report, first).Failure? ==> c == Failure(UnexpectedName(first))
    ensures c.Success? <==> OptimumArgument(report, first).Success? && OptimumArgument(report, second).Success?
    ensures c.Failure? && OptimumArgument(report, first).Success? ==> c == Failure(UnexpectedName(second))
    ensures c.Success? ==>
      && c.value.0 * firstScale == OptimumArgument(report, first).value as real
      && c.value.1 * secondScale == OptimumArgument(report, second).value as real
      && c.value.2 == report.cost
  {
    match OptimumArgument(report, first)
    case Failure(e) => Failure(e)
    case Success(v1) =>
      match OptimumArgument(report, second)
      case Failure(e) => Failure(e)
      case Success(v2) => Success((v1 as real / firstScale, v2 as real / secondScale, report.cost))
  }

  /** One heatmap: the best-cost surface, the shared colour range, the grid step of each axis and the optimum marker in grid coordinates. */
  datatype HeatmapPanel = HeatmapPanel(
    first: string,
    second: string,
    surface: map<(real, real), real>,
    colorLimits: (real, real),
    steps: (real, real),
    marker: (real, real, real))

  /** The last steps of one heatmap, once both grid steps are known: look up the optimum and place it
      on the grid, and draw the best-cost surface within the shared colour range. */
  function PlaceHeatmap(r: Renderer, first: string, second: string, xStep: real, yStep: real)
    : (h: Result<HeatmapPanel, RenderError>)
    requires HasColumn(r.frame.rows, first) && HasColumn(r.frame.rows, second) && r.frame.rows != []
    requires xStep != 0.0 && yStep != 0.0
    ensures h.Success? <==> OptimumArgument(r.report, first).Success? && OptimumArgument(r.report, second).Success?
    ensures h.Failure? ==> h.error.MissingOptimum?
    ensures h.Success? ==>
      && h.value.first == first && h.value.second == second
      && h.value.surface == BestCostSurface(r.frame.rows, first, second)
      && h.value.colorLimits == CostBounds(r.frame.rows).value
      && h.value.steps == (xStep, yStep)
      && h.value.marker == OptimumCoordinates(r.report, first, second, xStep, yStep).value
  {
    match OptimumCoordinates(r.report, first, second, xStep, yStep)
    case Failure(e) => Failure(MissingOptimum(e))
    case Success(marker) =>
      var surface := BestCostSurface(r.frame.rows, first, second);
      Success(HeatmapPanel(first, second, surface, CostBounds(r.frame.rows).value, (xStep, yStep), marker))
  }

  /** The steps of one heatmap in the order they raise: selecting the three columns, sampling the grid
      (first axis, then second), then looking up the optimum. */
  function RenderPairwiseHeatmap(r: Renderer, first: string, second: string): (h: Result<HeatmapPanel, RenderError>)
    requires HasColumn(r.frame.rows, first) && HasColumn(r.frame.rows, second)
    ensures first !in r.frame.columns ==> h == Failure(MissingColumn(first))
    ensures first in r.frame.columns && second !in r.frame.columns ==> h == Failure(MissingColumn(second))
    ensures first in r.frame.columns && second in r.frame.columns && CostColumn !in r.frame.columns ==>
      h == Failure(MissingColumn(CostColumn))
    ensures first in r.frame.columns && second in r.frame.columns && CostColumn in r.frame.columns ==>
      && (!Varies(r.frame.rows, first) ==> h == Failure(DegenerateGrid(first)))
      && (Varies(r.frame.rows, first) && !Varies(r.frame.rows, second) ==> h == Failure(DegenerateGrid(second)))
    ensures h.Success? <==>
      && first in r.frame.columns && second in r.frame.columns && CostColumn in r.frame.columns
      && Varies(r.frame.rows, first) && Varies(r.frame.rows, second)
      && OptimumArgument(r.report, first).Success? && OptimumArgument(r.report, second).Success?
    ensures h.Success? ==>
      && r.frame.rows != []
      && h == PlaceHeatmap(r, first, second, GridStep(r.frame.rows, first).value, GridStep(r.frame.rows, second).value)
  {
    var columns := r.frame.columns;
    if first !in columns then Failure(MissingColumn(first))
    else if second !in columns then Failure(MissingColumn(second))
    else if CostColumn !in columns then Failure(MissingColumn(CostColumn))
    else match GridStep(r.frame.rows, first)
      case None => Failure(DegenerateGrid(first))
      case Some(xStep) =>
        match GridStep(r.frame.rows, second)
        case None => Failure(DegenerateGrid(second))
        case Some(yStep) => PlaceHeatmap(r, first, second, xStep, yStep)
  }

  /** Every cell of a heatmap surface lies within the shared colour range. */
  lemma {:induction false} HeatmapWithinColorLimits(r: Renderer, first: string, second: string)
    requires HasColumn(r.frame.rows, first) && HasColumn(r.frame.rows, second)
    requires RenderPairwiseHeatmap(r, first, second).Success?
    ensures var h := RenderPairwiseHeatmap(r, first, second).value;
      forall xy :: xy in h.surface ==> h.colorLimits.0 <= h.surface[xy] <= h.colorLimits.1
  {
    var h := RenderPairwiseHeatmap(r, first, second).value;
    var rows := r.frame.rows;
    forall xy | xy in h.surface
      ensures h.colorLimits.0 <= h.surface[xy] <= h.colorLimits.1
    {
      var k :| 0 <= k < |rows| && (rows[k].parameters[first], rows[k].parameters[second]) == xy && rows[k].cost == h.surface[xy];
    }
  }

  /** How a tick value is printed: as an integer, or with a fixed number of decimal places. */
  datatype TickLabel = IntegerLabel(integer: int) | DecimalLabel(decimal: real, places: nat)

  predicate IsIntegral(x: real) {
    x == x.Floor as real
  }

  /** The precision bands of the tick formatter. */
  function TickLabelFor(tick: real): (l: TickLabel)
    ensures IsIntegral(tick) ==> l == IntegerLabel(tick.Floor)
    ensures l.IntegerLabel? <==> IsIntegral(tick) || tick >= 100.0
    ensures l.IntegerLabel? ==> l.integer == TruncateTowardZero(tick)
    ensures l.DecimalLabel? ==> l.decimal == tick
    ensures l.DecimalLabel? ==> (l.places == 1 <==> 10.0 <= tick)
    ensures l.DecimalLabel? ==> (l.places == 2 <==> 1.0 <= tick < 10.0)
    ensures l.DecimalLabel? ==> (l.places == 3 <==> tick < 1.0)
  {
    if IsIntegral(tick) then
      var t := TruncateTowardZero(tick);
      assert t == tick.Floor by {
        if tick >= 0.0 {
          assert t as real <= tick.Floor as real < t as real + 1.0;
        } else {
          assert t as real - 1.0 < tick.Floor as real <= t as real;
        }
      }
      IntegerLabel(t)
    else if tick >= 100.0 then IntegerLabel(TruncateTowardZero(tick))
    else if tick >= 10.0 then DecimalLabel(tick, 1)
    else if tick >= 1.0 then DecimalLabel(tick, 2)
    else DecimalLabel(tick, 3)
  }

  /** The formatter for one axis: a tick at grid index `val` stands for `val * scale` parameter units. */
  function TickScaler(scale: real, val: real): (l: TickLabel)
    ensures l.IntegerLabel? <==> IsIntegral(val * scale) || val * scale >= 100.0
    ensures l.IntegerLabel? ==> l.integer == TruncateTowardZero(val * scale)
    ensures l.IntegerLabel? ==> -1.0 < l.integer as real - val * scale < 1.0
    ensures l.DecimalLabel? ==> l.decimal == val * scale && val * scale < 100.0
    ensures l.DecimalLabel? ==> (l.places == 1 <==> 10.0 <= val * scale)
    ensures l.DecimalLabel? ==> (l.places == 2 <==> 1.0 <= val * scale < 10.0)
    ensures l.DecimalLabel? ==> (l.places == 3 <==> val * scale < 1.0)
  {
    var l := TickLabelFor(val * scale);
    if l.IntegerLabel? then IntegerLabelIsClose(val * scale); l else l
  }

  /** Larger non-integral ticks never get more decimal places than smaller ones. */
  lemma TickPlacesNonIncreasing(a: real, b: real)
    requires a <= b
    requires TickLabelFor(a).DecimalLabel? && TickLabelFor(b).DecimalLabel?
    ensures TickLabelFor(b).places <= TickLabelFor(a).places
  {
  }

  /** An integer label is never more than one unit away from the tick it stands for. */
  lemma {:induction false} IntegerLabelIsClose(tick: real)
    requires TickLabelFor(tick).IntegerLabel?
    ensures -1.0 < TickLabelFor(tick).integer as real - tick < 1.0
  {
    var t := TruncateTowardZero(tick);
    assert TickLabelFor(tick).integer == t;
  }

  /** One example per band: 250 prints as an integer, 250.5 is cut to 250, 37.4 keeps one place,
      3.456 two, 0.123 three, and a negative fraction three as well. */
  lemma TickBandExamples()
    ensures TickLabelFor(250.0) == IntegerLabel(250)
    ensures TickLabelFor(250.5) == IntegerLabel(250)
    ensures TickLabelFor(37.4) == DecimalLabel(37.4, 1)
    ensures TickLabelFor(3.456) == DecimalLabel(3.456, 2)
    ensures TickLabelFor(0.123) == DecimalLabel(0.123, 3)
    ensures TickLabelFor(-2.5) == DecimalLabel(-2.5, 3)
    ensures TickScaler(0.2, 37.0) == DecimalLabel(7.4, 2)
  {
    assert 250.5.Floor == 250;
    assert 37.4.Floor == 37;
    assert 3.456.Floor == 3;
    assert 0.123.Floor == 0;
    assert (-2.5).Floor == -3;
    assert 7.4.Floor == 7;
  }

  /** The marker sits where the axis formatter prints the optimum argument itself: scaling its
      grid coordinate back gives the integer value reported for the parameter. Formatter and marker
      agree with each other, not with the grid: both read index i as i times the step, while the
      sampled grid starts at the column's least value, so the surface point that the marker's index
      holds is that least value further along than the optimum. */
  lemma {:induction false} OptimumMarkerTickReadsOptimum(r: Renderer, first: string, second: string)
    requires HasColumn(r.frame.rows, first) && HasColumn(r.frame.rows, second)
    requires RenderPairwiseHeatmap(r, first, second).Success?
    ensures var h := RenderPairwiseHeatmap(r, first, second).value;
      && TickScaler(h.steps.0, h.marker.0) == IntegerLabel(OptimumArgument(r.report, first).value)
      && TickScaler(h.steps.1, h.marker.1) == IntegerLabel(OptimumArgument(r.report, second).value)
  {
    var h := RenderPairwiseHeatmap(r, first, second).value;
    assert h.steps.0 != 0.0 && h.steps.1 != 0.0;
    OptimumCoordinatesTicks(r.report, first, second, h.steps.0, h.steps.1);
  }

  /** On each axis, the formatter prints the optimum's grid coordinate as the optimum argument. */
  lemma OptimumCoordinatesTicks(report: Report, first: string, second: string, xStep: real, yStep: real)
    requires xStep != 0.0 && yStep != 0.0
    requires OptimumCoordinates(report, first, second, xStep, yStep).Success?
    ensures var c := OptimumCoordinates(report, first, second, xStep, yStep).value;
      && TickScaler(xStep, c.0) == IntegerLabel(OptimumArgument(report, first).value)
      && TickScaler(yStep, c.1) == IntegerLabel(OptimumArgument(report, second).value)
  {
    var c := OptimumCoordinates(report, first, second, xStep, yStep).value;
    IntegerTickLabel(xStep, c.0, OptimumArgument(report, first).value);
    IntegerTickLabel(yStep, c.1, OptimumArgument(report, second).value);
  }

  /** A grid position that scales to an integer prints as that integer. */
  lemma IntegerTickLabel(scale: real, val: real, v: int)
    requires val * scale == v as real
    ensures TickScaler(scale, val) == IntegerLabel(v)
  {
    assert (v as real).Floor == v;
  }
}
