/** The Sudoku rule checker of the solver example
    (`examples/sudoku_solver/sudoku_solver/sudoku/evaluator.py`).

    A board is 81 cells in row-major order; a cell is empty (`None`) or
    holds an integer. Each check of the source is a loop over cells with an
    accumulating `seen` set and an early return; each is modelled as a
    method with that loop, proved against a specification function that
    states the rule outright (no two filled cells of a row, column or box
    share a value, and so on). */
module SudokuEvaluator {
  import opened Types

  type Cell = Option<int>

  /** `SudokuBoard.values`, fixed at 81 cells. */
  type Grid = g: seq<Cell> | |g| == 81 witness seq(81, _ => None)

  // ---------------------------------------------------------------------
  // Specification: units of the board and the no-duplicate rule.
  // ---------------------------------------------------------------------

  /** No two filled cells of `cells` hold the same value. */
  predicate Distinct(cells: seq<Cell>) {
    forall i, j | 0 <= i < j < |cells| && cells[i].Some? :: cells[i] != cells[j]
  }

  function RowCells(b: Grid, row: int): (cells: seq<Cell>)
    requires 0 <= row < 9
    ensures |cells| == 9
  {
    b[row * 9..row * 9 + 9]
  }

  function ColumnCells(b: Grid, col: int): (cells: seq<Cell>)
    requires 0 <= col < 9
    ensures |cells| == 9
  {
    seq(9, r requires 0 <= r < 9 => b[r * 9 + col])
  }

  /** The source indexes `(start_row + r) * 9 + (start_col + c)` for
      `r, c` in `0..2`; every such index must lie on the board. */
  predicate BoxInRange(startRow: int, startCol: int) {
    0 <= startRow && 0 <= startCol && (startRow + 2) * 9 + startCol + 2 < 81
  }

  /** The nine cells of the 3x3 box whose top-left cell is
      `(startRow, startCol)`, row by row. */
  function BoxCells(b: Grid, startRow: int, startCol: int): (cells: seq<Cell>)
    requires BoxInRange(startRow, startCol)
    ensures |cells| == 9
  {
    var top := startRow * 9 + startCol;
    b[top..top + 3] + b[top + 9..top + 12] + b[top + 18..top + 21]
  }

  /** Cell `(r, c)` of a box, counted from its top-left corner, is board
      cell `(startRow + r) * 9 + (startCol + c)`. */
  lemma BoxCellAt(b: Grid, startRow: int, startCol: int, r: int, c: int)
    requires BoxInRange(startRow, startCol) && 0 <= r < 3 && 0 <= c < 3
    ensures BoxCells(b, startRow, startCol)[r * 3 + c] == b[(startRow + r) * 9 + (startCol + c)]
  {
    var top := startRow * 9 + startCol;
    var cells := BoxCells(b, startRow, startCol);
    assert cells[r * 3 + c] == b[top + r * 9 + c];
  }

  predicate RowValid(b: Grid, row: int)
    requires 0 <= row < 9
  {
    Distinct(RowCells(b, row))
  }

  predicate ColumnValid(b: Grid, col: int)
    requires 0 <= col < 9
  {
    Distinct(ColumnCells(b, col))
  }

  predicate BoxValid(b: Grid, startRow: int, startCol: int)
    requires BoxInRange(startRow, startCol)
  {
    Distinct(BoxCells(b, startRow, startCol))
  }

  /** All nine rows, all nine columns and the nine boxes (top-left
      corners at rows and columns 0, 3 and 6) are valid. */
  predicate BoardValid(b: Grid) {
    && (forall i | 0 <= i < 9 :: RowValid(b, i) && ColumnValid(b, i))
    && (forall r, c | r in {0, 3, 6} && c in {0, 3, 6} :: BoxValid(b, r, c))
  }

  /** `value` occurs in none of the row, the column and the box of the cell. */
  predicate ValueAllowed(b: Grid, row: int, col: int, value: int)
    requires 0 <= row < 9 && 0 <= col < 9
  {
    && Some(value) !in RowCells(b, row)
    && Some(value) !in ColumnCells(b, col)
    && Some(value) !in BoxCells(b, row - row % 3, col - col % 3)
  }

  /** The digits 1 to 9 in increasing order: `range(1, 10)`. */
  function Digits(): (ds: seq<int>)
    ensures |ds| == 9
    ensures forall i | 0 <= i < 9 :: ds[i] == i + 1
  {
    seq(9, i requires 0 <= i < 9 => i + 1)
  }

  /** The values of `values` that are allowed in the cell, in their order. */
  function AllowedAmong(b: Grid, row: int, col: int, values: seq<int>): (vs: seq<int>)
    requires 0 <= row < 9 && 0 <= col < 9
    ensures |vs| <= |values|
  {
    if values == [] then []
    else
      var last := values[|values| - 1];
      AllowedAmong(b, row, col, values[..|values| - 1]) + if ValueAllowed(b, row, col, last) then [last] else []
  }

  /** A value is kept exactly when it is among `values` and the cell's row,
      column and box do not already hold it. */
  lemma {:induction false} AllowedAmongMembers(b: Grid, row: int, col: int, values: seq<int>, v: int)
    requires 0 <= row < 9 && 0 <= col < 9
    ensures v in AllowedAmong(b, row, col, values) <==> v in values && ValueAllowed(b, row, col, v)
  {
    if values != [] {
      var init, last := values[..|values| - 1], values[|values| - 1];
      AllowedAmongMembers(b, row, col, init, v);
      var kept: seq<int> := if ValueAllowed(b, row, col, last) then [last] else [];
      assert AllowedAmong(b, row, col, values) == AllowedAmong(b, row, col, init) + kept;
      assert v in kept <==> v == last && ValueAllowed(b, row, col, v);
      assert values == init + [last];
    }
  }

  /** Filtering keeps an increasing sequence increasing. */
  lemma {:induction false} AllowedAmongSorted(b: Grid, row: int, col: int, values: seq<int>)
    requires 0 <= row < 9 && 0 <= col < 9
    requires forall i, j | 0 <= i < j < |values| :: values[i] < values[j]
    ensures forall i, j | 0 <= i < j < |AllowedAmong(b, row, col, values)| ::
      AllowedAmong(b, row, col, values)[i] < AllowedAmong(b, row, col, values)[j]
  {
    if values != [] {
      var init, last := values[..|values| - 1], values[|values| - 1];
      var front := AllowedAmong(b, row, col, init);
      AllowedAmongSorted(b, row, col, init);
      var kept: seq<int> := if ValueAllowed(b, row, col, last) then [last] else [];
      var vs := AllowedAmong(b, row, col, values);
      assert vs == front + kept;
      forall i, j | 0 <= i < j < |vs|
        ensures vs[i] < vs[j]
      {
        assert vs[i] == front[i];
        if j >= |front| {
          assert vs[j] == last;
          AllowedAmongMembers(b, row, col, init, vs[i]);
          var m :| 0 <= m < |init| && init[m] == vs[i];
          assert values[m] == vs[i];
        }
      }
    }
  }

  /** `possible_values` of the source: the allowed values in `1..9`. */
  function Candidates(b: Grid, row: int, col: int): seq<int>
    requires 0 <= row < 9 && 0 <= col < 9
  {
    AllowedAmong(b, row, col, Digits())
  }

  /** The candidates of a cell are exactly the digits it admits, each once
      and in increasing order. */
  lemma CandidatesAreAllowedDigits(b: Grid, row: int, col: int)
    requires 0 <= row < 9 && 0 <= col < 9
    ensures forall v :: v in Candidates(b, row, col) <==> 1 <= v <= 9 && ValueAllowed(b, row, col, v)
    ensures forall i, j | 0 <= i < j < |Candidates(b, row, col)| :: Candidates(b, row, col)[i] < Candidates(b, row, col)[j]
  {
    forall v
      ensures v in Candidates(b, row, col) <==> 1 <= v <= 9 && ValueAllowed(b, row, col, v)
    {
      AllowedAmongMembers(b, row, col, Digits(), v);
      if 1 <= v <= 9 {
        assert Digits()[v - 1] == v;
      }
    }
    AllowedAmongSorted(b, row, col, Digits());
  }

  /** The cell is empty and exactly one value fits it. */
  predicate SingleAt(b: Grid, row: int, col: int)
    requires 0 <= row < 9 && 0 <= col < 9
  {
    b[row * 9 + col].None? && |Candidates(b, row, col)| == 1
  }

  /** `(r, c)` comes strictly before `(row, col)` in row-major order. */
  predicate Before(r: int, c: int, row: int, col: int) {
    r < row || (r == row && c < col)
  }

  /** The 81 cells as `(row, col)` pairs, in the row-major order in which
      the source's nested loops visit them. */
  function Cells(): (cells: seq<(int, int)>)
    ensures |cells| == 81
    ensures forall p | 0 <= p < 81 :: cells[p] == (p / 9, p % 9)
  {
    seq(81, p requires 0 <= p < 81 => (p / 9, p % 9))
  }

  /** The position of cell `(row, col)` in `Cells()`. */
  lemma CellPosition(row: int, col: int)
    requires 0 <= row < 9 && 0 <= col < 9
    ensures 0 <= row * 9 + col < 81 && Cells()[row * 9 + col] == (row, col)
  {
    var p := row * 9 + col;
    assert p / 9 == row && p % 9 == col;
  }

  /** The index of the first element of `cells` that `marked` picks out,
      or `|cells|` when there is none. */
  function FirstIndex(marked: ((int, int)) -> bool, cells: seq<(int, int)>): (k: int)
    ensures 0 <= k <= |cells|
    ensures k < |cells| ==> marked(cells[k])
    ensures forall i | 0 <= i < k :: !marked(cells[i])
  {
    if cells == [] then 0
    else if marked(cells[0]) then 0
    else 1 + FirstIndex(marked, cells[1..])
  }

  /** The cells on the board with a single candidate. */
  function SingleCells(b: Grid): ((int, int)) -> bool {
    (cell: (int, int)) => 0 <= cell.0 < 9 && 0 <= cell.1 < 9 && SingleAt(b, cell.0, cell.1)
  }

  /** `find_next_single_step` as a specification: the first single-candidate
      cell in row-major order, with its one candidate. */
  function NextSingleStep(b: Grid): (r: Option<(int, int, int)>)
    ensures r.Some? ==> 0 <= r.value.0 < 9 && 0 <= r.value.1 < 9
  {
    var k := FirstIndex(SingleCells(b), Cells());
    if k == 81 then None
    else
      var (row, col) := Cells()[k];
      Some((row, col, Candidates(b, row, col)[0]))
  }

  /** The step found is an empty cell that admits exactly one value,
      together with that value. */
  lemma NextSingleStepIsSingle(b: Grid)
    ensures var r := NextSingleStep(b);
      r.Some? ==> b[r.value.0 * 9 + r.value.1].None? && Candidates(b, r.value.0, r.value.1) == [r.value.2]
  {
    var k := FirstIndex(SingleCells(b), Cells());
    if k < 81 {
      var (row, col) := Cells()[k];
      assert SingleCells(b)((row, col));
      var cs := Candidates(b, row, col);
      assert cs == [cs[0]];
    }
  }

  /** No cell before the step, in row-major order, is empty with exactly
      one allowed value. */
  lemma NextSingleStepIsFirst(b: Grid)
    ensures var r := NextSingleStep(b);
      r.Some? ==> forall i, j | 0 <= i < 9 && 0 <= j < 9 && Before(i, j, r.value.0, r.value.1) :: !SingleAt(b, i, j)
  {
    var marked := SingleCells(b);
    var k := FirstIndex(marked, Cells());
    if k < 81 {
      var (row, col) := Cells()[k];
      assert k == row * 9 + col;
      forall i, j | 0 <= i < 9 && 0 <= j < 9 && Before(i, j, row, col)
        ensures !SingleAt(b, i, j)
      {
        CellPosition(i, j);
        assert !marked(Cells()[i * 9 + j]);
      }
    }
  }

  /** When there is no step, no cell is empty with exactly one allowed
      value. */
  lemma NoStepMeansNoSingle(b: Grid)
    ensures NextSingleStep(b).None? ==> forall i, j | 0 <= i < 9 && 0 <= j < 9 :: !SingleAt(b, i, j)
  {
    var marked := SingleCells(b);
    if FirstIndex(marked, Cells()) == 81 {
      forall i, j | 0 <= i < 9 && 0 <= j < 9
        ensures !SingleAt(b, i, j)
      {
        CellPosition(i, j);
        assert !marked(Cells()[i * 9 + j]);
      }
    }
  }

  /** Conversely, a single-candidate cell with none before it is the step. */
  lemma NextSingleStepAt(b: Grid, row: int, col: int)
    requires 0 <= row < 9 && 0 <= col < 9 && SingleAt(b, row, col)
    requires forall i, j | 0 <= i < 9 && 0 <= j < 9 && Before(i, j, row, col) :: !SingleAt(b, i, j)
    ensures NextSingleStep(b) == Some((row, col, Candidates(b, row, col)[0]))
  {
    var marked := SingleCells(b);
    var k := FirstIndex(marked, Cells());
    CellPosition(row, col);
    assert marked(Cells()[row * 9 + col]);
    assert k <= row * 9 + col;
    var (i, j) := Cells()[k];
    assert k == i * 9 + j && marked((i, j));
    assert !Before(i, j, row, col);
    assert i == row && j == col;
  }

  /** And a board without a single-candidate cell has no step. */
  lemma NoNextSingleStep(b: Grid)
    requires forall i, j | 0 <= i < 9 && 0 <= j < 9 :: !SingleAt(b, i, j)
    ensures NextSingleStep(b) == None
  {
    if FirstIndex(SingleCells(b), Cells()) < 81 {
      assert false;
    }
  }

  /** The number of empty cells. */
  function EmptyCount(cells: seq<Cell>): (n: nat)
    ensures n <= |cells|
  {
    if cells == [] then 0 else (if cells[0].None? then 1 else 0) + EmptyCount(cells[1..])
  }

  // ---------------------------------------------------------------------
  // The evaluator's operations.
  // ---------------------------------------------------------------------

  /** `is_value_valid`: a cell value is empty or a digit from 1 to 9. */
  predicate IsValueValid(value: Cell) {
    value.None? || 1 <= value.value <= 9
  }

  /** The valid cell values are exactly the empty cell and the digits the
      solver tries. */
  lemma {:induction false} ValueValidIsDigit(value: Cell)
    ensures IsValueValid(value) <==> value.None? || value.value in Digits()
  {
    if value.Some? && 1 <= value.value <= 9 {
      assert Digits()[value.value - 1] == value.value;
    }
  }

  /** `is_board_complete`: no cell is empty. */
  predicate IsBoardComplete(b: Grid) {
    forall i | 0 <= i < |b| :: b[i].Some?
  }

  /** The state of a duplicate scan after the first `n` cells: `seen` holds
      exactly the values among them, and there was no repeat so far. */
  predicate Scanned(cells: seq<Cell>, n: int, seen: set<int>)
    requires 0 <= n <= |cells|
  {
    && (forall v | v in seen :: Some(v) in cells[..n])
    && (forall i | 0 <= i < n && cells[i].Some? :: cells[i].value in seen)
    && Distinct(cells[..n])
  }

  /** One step of the scan: a value already seen is a repeat, so `cells` is
      not distinct; otherwise the scan goes on with the value remembered. */
  lemma ScanStep(cells: seq<Cell>, n: int, seen: set<int>)
    requires 0 <= n < |cells| && Scanned(cells, n, seen)
    ensures cells[n].Some? && cells[n].value in seen ==> !Distinct(cells)
    ensures cells[n].None? ==> Scanned(cells, n + 1, seen)
    ensures cells[n].Some? && cells[n].value !in seen ==> Scanned(cells, n + 1, seen + {cells[n].value})
  {
    var value := cells[n];
    assert cells[..n + 1] == cells[..n] + [value];
    if value.Some? {
      var v := value.value;
      if v in seen {
        assert Some(v) in cells[..n];
        var i :| 0 <= i < n && cells[i] == Some(v);
        assert cells[i] == cells[n];
      } else {
        assert value !in cells[..n];
      }
    }
  }

  /** A scan that reaches the end has found no repeat. */
  lemma ScanDone(cells: seq<Cell>, seen: set<int>)
    requires Scanned(cells, |cells|, seen)
    ensures Distinct(cells)
  {
    assert cells[..|cells|] == cells;
  }

  /** `is_row_valid`: scans the row left to right, remembering the values
      seen, and fails at the first repeat. */
  method IsRowValid(b: Grid, row: int) returns (valid: bool)
    requires 0 <= row < 9
    ensures valid == RowValid(b, row)
  {
    ghost var cells := RowCells(b, row);
    var seen: set<int> := {};
    for col := 0 to 9
      invariant Scanned(cells, col, seen)
    {
      var value := b[row * 9 + col];
      assert value == cells[col];
      ScanStep(cells, col, seen);
      if value.Some? {
        if value.value in seen {
          return false;
        }
        seen := seen + {value.value};
      }
    }
    ScanDone(cells, seen);
    return true;
  }

  /** `is_column_valid`: the same scan down a column. */
  method IsColumnValid(b: Grid, col: int) returns (valid: bool)
    requires 0 <= col < 9
    ensures valid == ColumnValid(b, col)
  {
    ghost var cells := ColumnCells(b, col);
    var seen: set<int> := {};
    for row := 0 to 9
      invariant Scanned(cells, row, seen)
    {
      var value := b[row * 9 + col];
      assert value == cells[row];
      ScanStep(cells, row, seen);
      if value.Some? {
        if value.value in seen {
          return false;
        }
        seen := seen + {value.value};
      }
    }
    ScanDone(cells, seen);
    return true;
  }

  /** `is_subgrid_valid`: the same scan over the 3x3 box, row by row. */
  method IsSubgridValid(b: Grid, startRow: int, startCol: int) returns (valid: bool)
    requires BoxInRange(startRow, startCol)
    ensures valid == BoxValid(b, startRow, startCol)
  {
    ghost var cells := BoxCells(b, startRow, startCol);
    var seen: set<int> := {};
    for row := 0 to 3
      invariant Scanned(cells, row * 3, seen)
    {
      for col := 0 to 3
        invariant Scanned(cells, row * 3 + col, seen)
      {
        var value := b[(startRow + row) * 9 + (startCol + col)];
        BoxCellAt(b, startRow, startCol, row, col);
        ScanStep(cells, row * 3 + col, seen);
        if value.Some? {
          if value.value in seen {
            return false;
          }
          seen := seen + {value.value};
        }
      }
    }
    ScanDone(cells, seen);
    return true;
  }

  /** `is_board_valid`: every row and column, then the nine boxes, with
      an early return at the first failure. */
  method IsBoardValid(b: Grid) returns (valid: bool)
    ensures valid == BoardValid(b)
  {
    for i := 0 to 9
      invariant forall k | 0 <= k < i :: RowValid(b, k) && ColumnValid(b, k)
    {
      var rowValid := IsRowValid(b, i);
      if !rowValid {
        return false;
      }
      var columnValid := IsColumnValid(b, i);
      if !columnValid {
        return false;
      }
    }
    var row := 0;
    while row < 9
      invariant row in {0, 3, 6, 9}
      invariant forall r, c | r in {0, 3, 6} && r < row && c in {0, 3, 6} :: BoxValid(b, r, c)
    {
      var col := 0;
      while col < 9
        invariant col in {0, 3, 6, 9}
        invariant forall r, c | r in {0, 3, 6} && r < row && c in {0, 3, 6} :: BoxValid(b, r, c)
        invariant forall c | c in {0, 3, 6} && c < col :: BoxValid(b, row, c)
      {
        var boxValid := IsSubgridValid(b, row, col);
        if !boxValid {
          return false;
        }
        col := col + 3;
      }
      row := row + 3;
    }
    return true;
  }

  /** `is_value_allowed`: looks for `value` along the row, down the column
      and through the box of the cell, and refuses it at the first hit. */
  method IsValueAllowed(b: Grid, row: int, col: int, value: int) returns (allowed: bool)
    requires 0 <= row < 9 && 0 <= col < 9
    ensures allowed == ValueAllowed(b, row, col, value)
  {
    ghost var rowCells := RowCells(b, row);
    for c := 0 to 9
      invariant Some(value) !in rowCells[..c]
    {
      if b[row * 9 + c] == Some(value) {
        assert rowCells[c] == Some(value);
        return false;
      }
      assert rowCells[..c + 1] == rowCells[..c] + [rowCells[c]];
    }
    assert rowCells[..9] == rowCells;
    ghost var columnCells := ColumnCells(b, col);
    for r := 0 to 9
      invariant Some(value) !in columnCells[..r]
    {
      if b[r * 9 + col] == Some(value) {
        assert columnCells[r] == Some(value);
        return false;
      }
      assert columnCells[..r + 1] == columnCells[..r] + [columnCells[r]];
    }
    assert columnCells[..9] == columnCells;
    var startRow, startCol := row - row % 3, col - col % 3;
    ghost var boxCells := BoxCells(b, startRow, startCol);
    for r := 0 to 3
      invariant Some(value) !in boxCells[..r * 3]
    {
      for c := 0 to 3
        invariant Some(value) !in boxCells[..r * 3 + c]
      {
        BoxCellAt(b, startRow, startCol, r, c);
        if b[(startRow + r) * 9 + (startCol + c)] == Some(value) {
          return false;
        }
        assert boxCells[..r * 3 + c + 1] == boxCells[..r * 3 + c] + [boxCells[r * 3 + c]];
      }
    }
    assert boxCells[..9] == boxCells;
    return true;
  }

  /** The list comprehension of `find_next_single_step`: the values from 1
      to 9 that `is_value_allowed` accepts, in increasing order. */
  method PossibleValues(b: Grid, row: int, col: int) returns (possible: seq<int>)
    requires 0 <= row < 9 && 0 <= col < 9
    ensures possible == Candidates(b, row, col)
  {
    possible := [];
    for value := 1 to 10
      invariant possible == AllowedAmong(b, row, col, Digits()[..value - 1])
    {
      var allowed := IsValueAllowed(b, row, col, value);
      assert Digits()[..value][..value - 1] == Digits()[..value - 1];
      if allowed {
        possible := possible + [value];
      }
    }
    assert Digits()[..9] == Digits();
  }

  /** `find_next_single_step`: visits the cells in row-major order and, at
      each empty one, collects the allowed values from 1 to 9; returns the
      first cell where exactly one value is allowed. */
  method FindNextSingleStep(b: Grid) returns (step: Option<(int, int, int)>)
    ensures step == NextSingleStep(b)
  {
    for row := 0 to 9
      invariant forall i, j | 0 <= i < 9 && 0 <= j < 9 && Before(i, j, row, 0) :: !SingleAt(b, i, j)
    {
      for col := 0 to 9
        invariant forall i, j | 0 <= i < 9 && 0 <= j < 9 && Before(i, j, row, col) :: !SingleAt(b, i, j)
      {
        if b[row * 9 + col].None? {
          var possible := PossibleValues(b, row, col);
          if |possible| == 1 {
            assert SingleAt(b, row, col);
            NextSingleStepAt(b, row, col);
            return Some((row, col, possible[0]));
          }
        }
        assert !SingleAt(b, row, col);
      }
    }
    assert forall i, j | 0 <= i < 9 && 0 <= j < 9 :: Before(i, j, 9, 0);
    NoNextSingleStep(b);
    return None;
  }

  // ---------------------------------------------------------------------
  // Properties relating the checks to each other.
  // ---------------------------------------------------------------------

  /** A sequence of cells has no empty cell exactly when its empty count
      is zero. */
  lemma {:induction false} NoEmptyIffCountZero(cells: seq<Cell>)
    ensures EmptyCount(cells) == 0 <==> forall i | 0 <= i < |cells| :: cells[i].Some?
  {
    if cells != [] {
      NoEmptyIffCountZero(cells[1..]);
      if cells[0].Some? {
        forall i | 0 < i < |cells| ensures cells[i].Some? <== EmptyCount(cells) == 0 {
          assert cells[i] == cells[1..][i - 1];
        }
      }
    }
  }

  /** `is_board_complete` holds exactly when the board has no empty cell
      left to fill. */
  lemma CompleteIffNoEmptyCell(b: Grid)
    ensures IsBoardComplete(b) <==> EmptyCount(b) == 0
  {
    NoEmptyIffCountZero(b);
  }

  /** Filling an empty cell leaves one empty cell fewer. */
  lemma {:induction false} FillCountsDown(cells: seq<Cell>, i: int, v: int)
    requires 0 <= i < |cells| && cells[i].None?
    ensures EmptyCount(cells[i := Some(v)]) == EmptyCount(cells) - 1
  {
    var filled := cells[i := Some(v)];
    if i > 0 {
      assert filled[1..] == cells[1..][i - 1 := Some(v)];
      FillCountsDown(cells[1..], i - 1, v);
    } else {
      assert filled[1..] == cells[1..];
    }
  }

  /** The step's value is a digit the cell admits, so the cell index
      `row * 9 + col` lies on the board and the value passes
      `is_value_valid`. */
  lemma StepIsAllowedDigit(b: Grid)
    ensures var r := NextSingleStep(b);
      r.Some? ==>
        && 0 <= r.value.0 * 9 + r.value.1 < 81
        && IsValueValid(Some(r.value.2))
        && ValueAllowed(b, r.value.0, r.value.1, r.value.2)
  {
    var r := NextSingleStep(b);
    if r.Some? {
      var (row, col, v) := r.value;
      NextSingleStepIsSingle(b);
      CandidatesAreAllowedDigits(b, row, col);
      assert v in Candidates(b, row, col);
    }
  }

  /** Putting a value that no other cell of the sequence holds keeps it
      free of repeats. */
  lemma DistinctPut(cells: seq<Cell>, k: int, v: int)
    requires Distinct(cells) && Some(v) !in cells && 0 <= k < |cells|
    ensures Distinct(cells[k := Some(v)])
  {
    var put := cells[k := Some(v)];
    forall i, j | 0 <= i < j < |put| && put[i].Some?
      ensures put[i] != put[j]
    {
      if i != k && j != k {
        assert put[i] == cells[i] && put[j] == cells[j];
      } else if i == k {
        assert put[j] == cells[j];
      } else {
        assert put[i] == cells[i];
      }
    }
  }

  /** Placing an allowed value in an empty cell keeps every row, column and
      box free of repeats: each solver step preserves board validity. */
  lemma PlaceKeepsValid(b: Grid, row: int, col: int, v: int)
    requires 0 <= row < 9 && 0 <= col < 9
    requires BoardValid(b) && ValueAllowed(b, row, col, v)
    ensures BoardValid(b[row * 9 + col := Some(v)])
  {
    var b': Grid := b[row * 9 + col := Some(v)];
    forall i | 0 <= i < 9
      ensures RowValid(b', i) && ColumnValid(b', i)
    {
      RowAfterPut(b, i, row, col, v);
      ColumnAfterPut(b, i, row, col, v);
    }
    forall r, c | r in {0, 3, 6} && c in {0, 3, 6}
      ensures BoxValid(b', r, c)
    {
      BoxAfterPut(b, r, c, row, col, v);
    }
  }

  /** Setting cell `(row, col)` to an allowed value keeps row `i` free of
      repeats. */
  lemma RowAfterPut(b: Grid, i: int, row: int, col: int, v: int)
    requires 0 <= i < 9 && 0 <= row < 9 && 0 <= col < 9
    requires RowValid(b, i) && ValueAllowed(b, row, col, v)
    ensures RowValid(b[row * 9 + col := Some(v)], i)
  {
    var b': Grid := b[row * 9 + col := Some(v)];
    if i == row {
      assert RowCells(b', i) == RowCells(b, i)[col := Some(v)];
      DistinctPut(RowCells(b, i), col, v);
    } else {
      assert RowCells(b', i) == RowCells(b, i);
    }
  }

  /** Setting cell `(row, col)` to an allowed value keeps column `i` free
      of repeats. */
  lemma ColumnAfterPut(b: Grid, i: int, row: int, col: int, v: int)
    requires 0 <= i < 9 && 0 <= row < 9 && 0 <= col < 9
    requires ColumnValid(b, i) && ValueAllowed(b, row, col, v)
    ensures ColumnValid(b[row * 9 + col := Some(v)], i)
  {
    var b': Grid := b[row * 9 + col := Some(v)];
    if i == col {
      assert ColumnCells(b', i) == ColumnCells(b, i)[row := Some(v)];
      DistinctPut(ColumnCells(b, i), row, v);
    } else {
      assert ColumnCells(b', i) == ColumnCells(b, i);
    }
  }

  /** Entry `k` of a box after cell `(row, col)` is set to `v`: `Some(v)`
      at that cell, the old entry everywhere else. */
  lemma BoxEntryAfterPut(b: Grid, r: int, c: int, row: int, col: int, v: int, k: int)
    requires r in {0, 3, 6} && c in {0, 3, 6} && 0 <= row < 9 && 0 <= col < 9 && 0 <= k < 9
    ensures BoxCells(b[row * 9 + col := Some(v)], r, c)[k]
      == if r + k / 3 == row && c + k % 3 == col then Some(v) else BoxCells(b, r, c)[k]
  {
    var kr, kc := k / 3, k % 3;
    assert k == kr * 3 + kc;
    BoxCellAt(b, r, c, kr, kc);
    BoxCellAt(b[row * 9 + col := Some(v)], r, c, kr, kc);
  }

  /** A cell inside the box with corner `(r, c)` has that box as its own. */
  lemma OwnBox(r: int, c: int, k: int, row: int, col: int)
    requires r in {0, 3, 6} && c in {0, 3, 6} && 0 <= k < 9
    requires r + k / 3 == row && c + k % 3 == col
    ensures r == row - row % 3 && c == col - col % 3
  {
  }

  /** Setting cell `(row, col)` to an allowed value keeps every box free of
      repeats: the cell's own box gains a value it did not hold, any other
      box is unchanged. */
  lemma BoxAfterPut(b: Grid, r: int, c: int, row: int, col: int, v: int)
    requires r in {0, 3, 6} && c in {0, 3, 6} && 0 <= row < 9 && 0 <= col < 9
    requires BoxValid(b, r, c) && ValueAllowed(b, row, col, v)
    ensures BoxValid(b[row * 9 + col := Some(v)], r, c)
  {
    var before := BoxCells(b, r, c);
    var after := BoxCells(b[row * 9 + col := Some(v)], r, c);
    forall i, j | 0 <= i < j < 9 && after[i].Some?
      ensures after[i] != after[j]
    {
      BoxEntryAfterPut(b, r, c, row, col, v, i);
      BoxEntryAfterPut(b, r, c, row, col, v, j);
      var hitI := r + i / 3 == row && c + i % 3 == col;
      var hitJ := r + j / 3 == row && c + j % 3 == col;
      assert i == i / 3 * 3 + i % 3 && j == j / 3 * 3 + j % 3;
      if hitI {
        OwnBox(r, c, i, row, col);
        assert before[j] in BoxCells(b, row - row % 3, col - col % 3);
      } else if hitJ {
        OwnBox(r, c, j, row, col);
        assert before[i] in BoxCells(b, row - row % 3, col - col % 3);
      } else {
        assert after[i] == before[i] && after[j] == before[j];
      }
    }
  }
}
