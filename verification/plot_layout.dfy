/** How the renderer lays its panels out on a figure's grid of axes: which cell shows which
    parameter or pair, and which cells are switched off. */
module PlotLayout {
  import opened Wrappers

  /** A cell of the figure: untouched, switched off, or showing one scatterplot or one heatmap. */
  datatype Cell = Empty | Off | ScatterCell(column: nat) | HeatmapCell(first: nat, second: nat)

  /** Rows and columns of the scatterplot grid for `n` parameters: one row up to two, else two columns. */
  function ScatterGridShape(n: nat): (shape: (nat, nat))
    ensures shape.1 <= 2
    ensures n <= 2 ==> shape == (1, n)
    ensures n > 2 ==> shape.1 == 2 && n <= 2 * shape.0 < n + 2
  {
    if n <= 2 then (1, n)
    else if n % 2 == 0 then (n / 2, 2)
    else (n / 2 + 1, 2)
  }

  /** The grid holds every parameter and leaves fewer than two cells over. */
  lemma {:induction false} ScatterGridFits(n: nat)
    ensures var (rows, columns) := ScatterGridShape(n);
      n <= rows * columns < n + 2
  {
    var (rows, columns) := ScatterGridShape(n);
    if n <= 2 {
      assert rows * columns == n;
    } else {
      assert rows * columns == 2 * rows;
    }
  }

  /** The axes the scatterplot figure requests, without squeezing: none when there is no parameter
      column, since a grid of zero columns is refused. */
  function ScatterAxes(n: nat): (s: Option<AxesShape>)
    ensures s.None? <==> n == 0
    ensures s.Some? ==> s.value == AxesMatrix(ScatterGridShape(n).0, ScatterGridShape(n).1)
  {
    Subplots(ScatterGridShape(n).0, ScatterGridShape(n).1, false)
  }

  /** Walks the flattened grid of the axes the figure got: cell i shows parameter i while there is one,
      the rest are switched off. */
  method LayoutScatterplotGroup(n: nat, axes: array<Cell>)
    requires ScatterAxes(n).Some?
    requires axes.Length == ScatterAxes(n).value.rows * ScatterAxes(n).value.columns
    modifies axes
    ensures forall i :: 0 <= i < axes.Length ==> axes[i] == if i < n then ScatterCell(i) else Off
  {
    for i := 0 to axes.Length
      invariant forall k :: 0 <= k < i ==> axes[k] == if k < n then ScatterCell(k) else Off
    {
      if i < n {
        axes[i] := ScatterCell(i);
      } else {
        axes[i] := Off;
      }
    }
  }

  /** The cell that shows the pair of parameters (i, j), i < j: row j - 1, column i. */
  function CellOfPair(i: nat, j: nat): (cell: (nat, nat))
    requires i < j
    ensures cell.1 <= cell.0
  {
    (j - 1, i)
  }

  /** The pair shown in a cell on or below the diagonal. */
  function PairOfCell(row: nat, column: nat): (pair: (nat, nat))
    requires column <= row
    ensures pair.0 < pair.1
  {
    (column, row + 1)
  }

  /** Pairs and lower-triangle cells correspond one to one. */
  lemma PairCellCorrespondence(i: nat, j: nat, row: nat, column: nat)
    ensures i < j ==> PairOfCell(CellOfPair(i, j).0, CellOfPair(i, j).1) == (i, j)
    ensures column <= row ==> CellOfPair(PairOfCell(row, column).0, PairOfCell(row, column).1) == (row, column)
  {
  }

  /** What the pairwise layout leaves in a cell: its pair on or below the diagonal, off above it. */
  function PairwiseCell(row: nat, column: nat): Cell {
    if column <= row then HeatmapCell(column, row + 1) else Off
  }

  /** Fills the (n-1) x (n-1) grid column by column: for parameter i, the cells above the diagonal are
      switched off, then pair (i, j) goes to row j - 1 for every later parameter j. Each cell is written
      exactly once: it is still untouched when the loop reaches it. */
  method LayoutPairwiseHeatmaps(n: nat, axes: array2<Cell>)
    requires PairwiseAxes(n) == Some(AxesMatrix(axes.Length0, axes.Length1))
    requires forall r, c :: 0 <= r < n - 1 && 0 <= c < n - 1 ==> axes[r, c] == Empty
    modifies axes
    ensures forall r, c :: 0 <= r < n - 1 && 0 <= c < n - 1 ==> axes[r, c] == PairwiseCell(r, c)
  {
    var i := 0;
    while i < n - 1
      invariant 0 <= i <= n - 1
      invariant forall r, c :: 0 <= r < n - 1 && 0 <= c < n - 1 ==>
        axes[r, c] == if c < i then PairwiseCell(r, c) else Empty
    {
      var j := 0;
      while j < i
        invariant 0 <= j <= i
        invariant forall r, c :: 0 <= r < n - 1 && 0 <= c < n - 1 ==>
          axes[r, c] == if c < i || (c == i && r < j) then PairwiseCell(r, c) else Empty
      {
        assert axes[j, i] == Empty;
        axes[j, i] := Off;
        j := j + 1;
      }
      j := i + 1;
      while j < n
        invariant i + 1 <= j <= n
        invariant forall r, c :: 0 <= r < n - 1 && 0 <= c < n - 1 ==>
          axes[r, c] == if c < i || (c == i && r < j - 1) then PairwiseCell(r, c) else Empty
      {
        assert axes[j - 1, i] == Empty;
        axes[j - 1, i] := HeatmapCell(i, j);
        j := j + 1;
      }
      i := i + 1;
    }
  }

  /** What `plt.subplots(nrows, ncols)` hands back: with squeezing, a 1 x 1 grid is a single axes
      object and a grid with one row or one column a flat vector; otherwise a matrix. */
  datatype AxesShape = SingleAxes | AxesVector(length: nat) | AxesMatrix(rows: nat, columns: nat)

  /** The figure's grid of axes, or None for the ValueError raised when the number of rows or of
      columns is not positive. */
  function Subplots(nrows: int, ncols: int, squeeze: bool): (s: Option<AxesShape>)
    ensures s.None? <==> nrows <= 0 || ncols <= 0
    ensures s.Some? && !squeeze ==> s.value == AxesMatrix(nrows, ncols)
    ensures s.Some? && squeeze && nrows == 1 && ncols == 1 ==> s.value == SingleAxes
    ensures s.Some? && squeeze && (nrows == 1 || ncols == 1) && nrows * ncols > 1 ==> s.value == AxesVector(nrows * ncols)
    ensures s.Some? && squeeze && nrows > 1 && ncols > 1 ==> s.value == AxesMatrix(nrows, ncols)
  {
    if nrows <= 0 || ncols <= 0 then None
    else if !squeeze || (nrows != 1 && ncols != 1) then Some(AxesMatrix(nrows, ncols))
    else if nrows == 1 && ncols == 1 then Some(SingleAxes)
    else Some(AxesVector(nrows * ncols))
  }

  /** `axes[row, column]` works only on a matrix of axes. */
  predicate SupportsCellIndexing(s: AxesShape) {
    s.AxesMatrix?
  }

  /** As written: the pairwise figure requests an (n-1) x (n-1) grid with the default squeezing. */
  function PairwiseAxesAsWritten(n: nat): (s: Option<AxesShape>)
    ensures s.None? <==> n <= 1
    ensures n == 2 ==> s == Some(SingleAxes)
    ensures n >= 3 ==> s == Some(AxesMatrix(n - 1, n - 1))
  {
    Subplots(n - 1, n - 1, true)
  }

  /** With fewer than two parameters the as-written request raises; with exactly two the figure has a
      single axes object, so indexing it by cell fails; only with three or more is it a matrix. */
  lemma PairwiseAxesAsWrittenNotIndexable(n: nat)
    ensures PairwiseAxesAsWritten(n).Some? && SupportsCellIndexing(PairwiseAxesAsWritten(n).value) <==> n >= 3
  {
  }

  /** Corrected: requesting the axes without squeezing, as the scatterplot figure does. A single
      parameter still asks for a 0 x 0 grid, which is refused. */
  function PairwiseAxes(n: nat): (s: Option<AxesShape>)
    ensures s.None? <==> n <= 1
    ensures n >= 2 ==> s == Some(AxesMatrix(n - 1, n - 1))
  {
    Subplots(n - 1, n - 1, false)
  }

  /** The corrected request yields an (n-1) x (n-1) matrix for every n >= 2, the grid the layout fills;
      it does not help with a single parameter. */
  lemma PairwiseAxesIndexable(n: nat)
    ensures n >= 2 ==> PairwiseAxes(n).Some? && SupportsCellIndexing(PairwiseAxes(n).value)
    ensures n >= 2 ==> PairwiseAxes(n).value == AxesMatrix(n - 1, n - 1)
    ensures n <= 1 ==> PairwiseAxes(n).None?
  {
  }
}
