/** The Sudoku board decider (`SudokuBoardAggregate` in
    `examples/sudoku_solver/sudoku_solver/aggregate.py`, repeated as
    `SudokuDecider` in `decider.py` of the same package).

    The solver starts `Initial`, is given a grid and moves to `Solving`.
    From there it can validate the board, check whether it is complete, or
    take one solving step: fill the first empty cell that admits exactly one
    digit. Both `decide` and `evolve` are first-match-wins over the
    (command, state) or (event, state) pair; every unmatched command is
    answered with `ErrorDetected`, and every unmatched event leaves the state
    as it is. */
module SudokuBoards {
  import opened Types
  import opened Deciders
  import opened Runner
  import opened SudokuEvaluator

  datatype Command =
    | InitializeSolver(grid: Grid)
    | RunSolverStep
    | ValidateBoardState
    | CheckCompletion
    | HandleError(message: string)

  datatype Event =
    | BoardInitialized(board: Grid)
    | StepCompleted(idx: int, value: int)
    | BoardValidated
    | BoardNotYetComplete
    | SolutionFound
    | SolutionFailed
    | ErrorDetected(message: string)

  datatype State =
    | Initial
    | Solving(board: Grid)
    | Valid(board: Grid)
    | Invalid(board: Grid)
    | Solved(board: Grid)
    | Unsolvable(board: Grid)
    | Error(message: string)

  function CommandName(c: Command): string {
    match c
    case InitializeSolver(_) => "InitializeSolver"
    case RunSolverStep => "RunSolverStep"
    case ValidateBoardState => "ValidateBoardState"
    case CheckCompletion => "CheckCompletion"
    case HandleError(_) => "HandleError"
  }

  function StateName(s: State): string {
    match s
    case Initial => "Initial"
    case Solving(_) => "Solving"
    case Valid(_) => "Valid"
    case Invalid(_) => "Invalid"
    case Solved(_) => "Solved"
    case Unsolvable(_) => "Unsolvable"
    case Error(_) => "Error"
  }

  /** The message of the catch-all `ErrorDetected`, naming the command and
      the state by their class names. */
  function Unhandled(c: Command, s: State): string {
    "Unhandled: " + CommandName(c) + " with " + StateName(s) + "."
  }

  /** The (command, state) pairs `decide` has an arm for. */
  predicate Handled(c: Command, s: State) {
    || (c.InitializeSolver? && s.Initial?)
    || (c.RunSolverStep? && (s.Valid? || s.Solving?))
    || ((c.ValidateBoardState? || c.CheckCompletion?) && s.Solving?)
  }

  /** Every command yields exactly one event, and it is `ErrorDetected`
      exactly when no arm covers the pair. */
  function Decide(c: Command, s: State): (events: seq<Event>)
    ensures |events| == 1
    ensures events[0].ErrorDetected? <==> !Handled(c, s)
    ensures !Handled(c, s) ==> events == [ErrorDetected(Unhandled(c, s))]
    ensures c.InitializeSolver? && s.Initial? ==> events == [BoardInitialized(c.grid)]
    ensures c.RunSolverStep? && (s.Valid? || s.Solving?) ==>
      events == match NextSingleStep(s.board)
                case Some(t) => [StepCompleted(t.0 * 9 + t.1, t.2)]
                case None => [SolutionFailed]
    ensures c.ValidateBoardState? && s.Solving? ==>
      events == [if BoardValid(s.board) then BoardValidated else SolutionFailed]
    ensures c.CheckCompletion? && s.Solving? ==>
      events == [if IsBoardComplete(s.board) then SolutionFound else BoardNotYetComplete]
  {
    match c
    case InitializeSolver(grid) =>
      if s.Initial? then [BoardInitialized(grid)] else [ErrorDetected(Unhandled(c, s))]
    case RunSolverStep =>
      if s.Valid? || s.Solving? then
        match NextSingleStep(s.board)
        case Some((row, col, value)) => [StepCompleted(row * 9 + col, value)]
        case None => [SolutionFailed]
      else [ErrorDetected(Unhandled(c, s))]
    case ValidateBoardState =>
      if s.Solving? then
        if BoardValid(s.board) then [BoardValidated] else [SolutionFailed]
      else [ErrorDetected(Unhandled(c, s))]
    case CheckCompletion =>
      if s.Solving? then
        if IsBoardComplete(s.board) then [SolutionFound] else [BoardNotYetComplete]
      else [ErrorDetected(Unhandled(c, s))]
    case HandleError(_) => [ErrorDetected(Unhandled(c, s))]
  }

  /** `values[idx] = value` on a copy of the board, with Python's list
      indexing: a negative index counts from the end, and an index outside
      `-81..80` raises (`None`). */
  function PutCell(b: Grid, idx: int, value: int): (r: Option<Grid>)
    ensures r.Some? <==> -81 <= idx < 81
    ensures r.Some? ==> forall j | 0 <= j < 81 ::
      r.value[j] == if j == idx || j == idx + 81 then Some(value) else b[j]
  {
    if 0 <= idx < 81 then Some(b[idx := Some(value)])
    else if -81 <= idx < 0 then Some(b[idx + 81 := Some(value)])
    else None
  }

  function Evolve(s: State, e: Event): (s': State)
    ensures e.BoardInitialized? && s.Initial? ==> s' == Solving(e.board)
    ensures e.StepCompleted? && (s.Solving? || s.Valid?) ==>
      s' == match PutCell(s.board, e.idx, e.value)
            case Some(b') => Solving(b')
            case None => s
    ensures e.BoardValidated? && s.Solving? ==> s' == Valid(s.board)
    ensures e.SolutionFound? && (s.Valid? || s.Solving?) ==> s' == Solved(s.board)
    ensures e.SolutionFailed? && (s.Valid? || s.Solving?) ==> s' == Unsolvable(s.board)
    ensures e.ErrorDetected? ==> s' == Error(e.message)
    ensures e.BoardNotYetComplete? ==> s' == s
    ensures s.Error? && !e.ErrorDetected? ==> s' == s
    // every other pair of event and state leaves the state unchanged
    ensures !e.ErrorDetected? && !(e.BoardInitialized? && s.Initial?)
            && !(e.BoardValidated? && s.Solving?)
            && !((s.Valid? || s.Solving?) &&
                 (e.SolutionFound? || e.SolutionFailed? ||
                  (e.StepCompleted? && PutCell(s.board, e.idx, e.value).Some?)))
            ==> s' == s
  {
    match e
    case BoardInitialized(board) => if s.Initial? then Solving(board) else s
    case StepCompleted(idx, value) =>
      if s.Solving? || s.Valid? then
        match PutCell(s.board, idx, value)
        case Some(b') => Solving(b')
        case None => s
      else s
    case BoardValidated => if s.Solving? then Valid(s.board) else s
    case SolutionFound => if s.Valid? || s.Solving? then Solved(s.board) else s
    case SolutionFailed => if s.Solving? || s.Valid? then Unsolvable(s.board) else s
    case ErrorDetected(message) => Error(message)
    case BoardNotYetComplete => s
  }

  predicate IsTerminal(s: State) {
    s.Unsolvable? || s.Solved?
  }

  /** The board decider: it starts `Initial` and is finished once solved or
      found unsolvable (an `Error` state is not finished). */
  function Sudoku(): (d: Decider<Event, Command, State>)
    ensures d.initialState == Initial
    ensures d.isTerminal == IsTerminal
    ensures forall c, s :: d.decide(c, s) == Decide(c, s)
    ensures forall s, e :: d.evolve(s, e) == Evolve(s, e)
  {
    BaseDecider(Decide, Evolve, Initial, IsTerminal)
  }

  // ---------------------------------------------------------------------
  // What each arm means for the board.
  // ---------------------------------------------------------------------

  /** A solving step from `Valid` or `Solving` either fills the first empty
      cell with its only admissible digit, at index `row * 9 + col` in
      `0..80`, or reports `SolutionFailed` exactly when no empty cell has a
      single candidate. */
  lemma SolverStepEvent(s: State)
    requires s.Valid? || s.Solving?
    ensures var e := Decide(RunSolverStep, s)[0];
      && (e.StepCompleted? || e == SolutionFailed)
      && (e == SolutionFailed <==> forall i, j | 0 <= i < 9 && 0 <= j < 9 :: !SingleAt(s.board, i, j))
      && (e.StepCompleted? ==>
            && 0 <= e.idx < 81
            && s.board[e.idx].None?
            && 1 <= e.value <= 9
            && Candidates(s.board, e.idx / 9, e.idx % 9) == [e.value]
            && ValueAllowed(s.board, e.idx / 9, e.idx % 9, e.value))
  {
    var b := s.board;
    NoStepMeansNoSingle(b);
    match NextSingleStep(b)
    case Some((row, col, v)) =>
      NextSingleStepIsSingle(b);
      StepIsAllowedDigit(b);
      CellIndex(row, col);
    case None =>
  }

  /** Row and column are recovered from a cell's index. */
  lemma CellIndex(row: int, col: int)
    requires 0 <= row < 9 && 0 <= col < 9
    ensures (row * 9 + col) / 9 == row && (row * 9 + col) % 9 == col
  {
  }

  /** Evolving a completed step from `Valid` or `Solving` gives `Solving`
      with cell `idx` set to the value and every other cell unchanged. */
  lemma StepOverwritesOneCell(s: State, idx: int, value: int)
    requires s.Valid? || s.Solving?
    requires 0 <= idx < 81
    ensures var s' := Evolve(s, StepCompleted(idx, value));
      && s'.Solving?
      && s'.board[idx] == Some(value)
      && forall j | 0 <= j < 81 && j != idx :: s'.board[j] == s.board[j]
  {
  }

  /** A solving step keeps a valid board valid and leaves one empty cell
      fewer, or ends the run as `Unsolvable` with the board untouched. */
  lemma StepKeepsBoardValid(s: State)
    requires s.Valid? || s.Solving?
    requires BoardValid(s.board)
    ensures var s' := Submit(Sudoku(), s, RunSolverStep);
      || (s'.Solving? && BoardValid(s'.board) && EmptyCount(s'.board) == EmptyCount(s.board) - 1)
      || s' == Unsolvable(s.board)
  {
    var b := s.board;
    var e := Decide(RunSolverStep, s)[0];
    SubmitOneEvent(Sudoku(), s, RunSolverStep, e);
    SolverStepEvent(s);
    if e.StepCompleted? {
      var row, col := e.idx / 9, e.idx % 9;
      assert e.idx == row * 9 + col;
      var b' := b[e.idx := Some(e.value)];
      assert BoardValid(b') by {
        PlaceKeepsValid(b, row, col, e.value);
      }
      assert EmptyCount(b') == EmptyCount(b) - 1 by {
        FillCountsDown(b, e.idx, e.value);
      }
      assert Evolve(s, e) == Solving(b');
    }
  }

  /** Validation of a `Solving` board leads to `Valid` when no row, column
      or box repeats a digit, and to `Unsolvable` otherwise. */
  lemma ValidationOutcome(b: Grid)
    ensures Submit(Sudoku(), Solving(b), ValidateBoardState)
      == if BoardValid(b) then Valid(b) else Unsolvable(b)
  {
    SubmitOneEvent(Sudoku(), Solving(b), ValidateBoardState, Decide(ValidateBoardState, Solving(b))[0]);
  }

  /** The completion check of a `Solving` board leads to `Solved` exactly
      when no cell is empty, and leaves the state as it was otherwise. */
  lemma CompletionOutcome(b: Grid)
    ensures Submit(Sudoku(), Solving(b), CheckCompletion)
      == if EmptyCount(b) == 0 then Solved(b) else Solving(b)
  {
    CompleteIffNoEmptyCell(b);
    SubmitOneEvent(Sudoku(), Solving(b), CheckCompletion, Decide(CheckCompletion, Solving(b))[0]);
  }

  /** A finished board is not closed to commands: every command turns it
      into an `Error`, which is not a finished state. */
  lemma TerminalStateAcceptsCommands(s: State, c: Command)
    requires IsTerminal(s)
    ensures Submit(Sudoku(), s, c) == Error(Unhandled(c, s))
    ensures !Sudoku().isTerminal(Submit(Sudoku(), s, c))
  {
    SubmitOneEvent(Sudoku(), s, c, ErrorDetected(Unhandled(c, s)));
  }

  /** `n` solving steps in a row. */
  function Steps(n: nat): (cs: seq<Command>)
    ensures |cs| == n
    ensures forall i | 0 <= i < n :: cs[i] == RunSolverStep
  {
    if n == 0 then [] else [RunSolverStep] + Steps(n - 1)
  }

  /** Repeated solving steps from a valid board with `empty` empty cells:
      while the run is still `Solving`, the board stays valid and each step
      has filled one more cell; otherwise it has stopped at `Unsolvable` (or
      at `Error`, the answer to any step after that). So no run of steps
      longer than the number of empty cells is still `Solving`. */
  lemma {:induction false} StepsFillOneCellEach(s: State, empty: nat, n: nat)
    requires s.Solving? || s.Unsolvable? || s.Error?
    requires s.Solving? ==> BoardValid(s.board) && EmptyCount(s.board) == empty
    ensures var s' := RunAll(Sudoku(), s, Steps(n));
      && (s'.Solving? || s'.Unsolvable? || s'.Error?)
      && (s'.Solving? ==> s.Solving? && BoardValid(s'.board) && EmptyCount(s'.board) + n == empty)
      && (n > empty ==> !s'.Solving?)
    decreases n
  {
    if n > 0 {
      var s1 := Submit(Sudoku(), s, RunSolverStep);
      assert Steps(n)[1..] == Steps(n - 1);
      assert RunAll(Sudoku(), s, Steps(n)) == RunAll(Sudoku(), s1, Steps(n - 1));
      if s.Solving? {
        StepKeepsBoardValid(s);
        if s1.Solving? {
          StepsFillOneCellEach(s1, empty - 1, n - 1);
        } else {
          StepsFillOneCellEach(s1, empty, n - 1);
        }
      } else {
        SubmitOneEvent(Sudoku(), s, RunSolverStep, ErrorDetected(Unhandled(RunSolverStep, s)));
        StepsFillOneCellEach(s1, empty, n - 1);
      }
    }
  }
}
