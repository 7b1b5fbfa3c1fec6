/** The Sudoku process (`SudokuProcess` in
    `examples/sudoku_solver/sudoku_solver/process.py`), the adapter that
    connects it to the board decider, and the saga the two form under
    `Combine`.

    The process keeps no state of its own and speaks its own vocabulary: it
    answers a completed step with a completion check, and a validated or
    incomplete board with a solving step. The adapter selects the board
    events the process hears (a fresh board counts as a completed step) and
    turns its commands into board commands. */
module SudokuProcesses {
  import opened Types
  import opened Deciders
  import opened Runner
  import opened Processes
  import opened SudokuEvaluator
  import opened SudokuBoards

  /** The process's events: those of `types.py`, without the boards they
      carry (the process never reads them). */
  datatype ProcessEvent =
    | ProcessStepCompleted
    | ProcessBoardValidated
    | ProcessBoardNotYetComplete
    | ProcessSolutionFound
    | ProcessSolutionFailed
    | ProcessErrorDetected

  /** The commands the process issues. */
  datatype ProcessCommand =
    | ProcessCheckCompletion
    | ProcessRunSolverStep

  /** The process's reaction to one of its events: at most one command,
      chosen by the event alone. */
  function ProcessReact(s: State, e: ProcessEvent): (commands: seq<ProcessCommand>)
    ensures |commands| <= 1
    ensures commands == [ProcessCheckCompletion] <==> e.ProcessStepCompleted?
    ensures commands == [ProcessRunSolverStep] <==> e.ProcessBoardValidated? || e.ProcessBoardNotYetComplete?
    ensures commands == [] <==> e.ProcessSolutionFound? || e.ProcessSolutionFailed? || e.ProcessErrorDetected?
  {
    match e
    case ProcessStepCompleted => [ProcessCheckCompletion]
    case ProcessBoardValidated => [ProcessRunSolverStep]
    case ProcessBoardNotYetComplete => [ProcessRunSolverStep]
    case ProcessSolutionFound => []
    case ProcessSolutionFailed => []
    case ProcessErrorDetected => []
  }

  /** The first arm of `react` as written. Its pattern names
      `BoardInitialized` in an event vocabulary that has no such class, so
      for any event the first alternative (`StepCompleted`) does not match,
      looking the name up raises. `None` stands for that exception. */
  function ReactAsWritten(s: State, e: ProcessEvent): (r: Option<seq<ProcessCommand>>)
    ensures r.Some? <==> e.ProcessStepCompleted?
    ensures r.Some? ==> r.value == ProcessReact(s, e)
  {
    if e.ProcessStepCompleted? then Some([ProcessCheckCompletion]) else None
  }

  /** A validated board gets no solving step from the process as written:
      the lookup raises before the `BoardValidated` arm is reached. */
  lemma ReactAsWrittenRaisesOnValidated(s: State)
    ensures ReactAsWritten(s, ProcessBoardValidated).None?
    ensures ProcessReact(s, ProcessBoardValidated) == [ProcessRunSolverStep]
  {
  }

  /** The process: `evolve` is the identity, there is nothing to resume,
      every state is terminal, and it starts from the board decider's
      initial state. */
  function SudokuProcess(): (p: Process<ProcessEvent, ProcessCommand, State>)
    ensures forall s, e :: p.evolve(s, e) == s
    ensures forall s :: p.resume(s) == []
    ensures forall s, e :: p.react(s, e) == ProcessReact(s, e)
    ensures p.initialState == Sudoku().initialState
    ensures forall s :: p.isTerminal(s)
  {
    Process(
      (s: State, e: ProcessEvent) => s,
      (s: State) => [],
      ProcessReact,
      Sudoku().initialState,
      (s: State) => true)
  }

  // ---------------------------------------------------------------------
  // The adapter between the process and the board decider.
  // ---------------------------------------------------------------------

  /** `select_event`: a fresh board and a filled cell are both a completed
      step; a validated or incomplete board passes through; the final
      outcomes and errors are not heard. */
  function SelectEvent(e: Event): (r: Option<ProcessEvent>)
    ensures r == Some(ProcessStepCompleted) <==> e.BoardInitialized? || e.StepCompleted?
    ensures r == Some(ProcessBoardValidated) <==> e.BoardValidated?
    ensures r == Some(ProcessBoardNotYetComplete) <==> e.BoardNotYetComplete?
    ensures r.None? <==> e.SolutionFound? || e.SolutionFailed? || e.ErrorDetected?
  {
    match e
    case BoardInitialized(_) => Some(ProcessStepCompleted)
    case StepCompleted(_, _) => Some(ProcessStepCompleted)
    case BoardValidated => Some(ProcessBoardValidated)
    case BoardNotYetComplete => Some(ProcessBoardNotYetComplete)
    case SolutionFound => None
    case SolutionFailed => None
    case ErrorDetected(_) => None
  }

  /** `convert_command`: each process command becomes the board command of
      the same name. */
  function ConvertCommand(c: ProcessCommand): (r: Command)
    ensures r == CheckCompletion <==> c.ProcessCheckCompletion?
    ensures r == RunSolverStep <==> c.ProcessRunSolverStep?
  {
    match c
    case ProcessCheckCompletion => CheckCompletion
    case ProcessRunSolverStep => RunSolverStep
  }

  /** The reaction of the adapted process, on the board decider's
      vocabulary: a filled cell or a fresh board gives a completion check, a
      validated or incomplete board a solving step, the rest nothing. */
  function React(s: State, e: Event): (commands: seq<Command>)
    ensures |commands| <= 1
    ensures commands == [CheckCompletion] <==> e.StepCompleted? || e.BoardInitialized?
    ensures commands == [RunSolverStep] <==> e.BoardValidated? || e.BoardNotYetComplete?
    ensures commands == [] <==> e.SolutionFound? || e.SolutionFailed? || e.ErrorDetected?
  {
    match e
    case StepCompleted(_, _) => [CheckCompletion]
    case BoardInitialized(_) => [CheckCompletion]
    case BoardValidated => [RunSolverStep]
    case BoardNotYetComplete => [RunSolverStep]
    case SolutionFound => []
    case SolutionFailed => []
    case ErrorDetected(_) => []
  }

  /** The process as the saga sees it: `ProcessAdapt(select_event,
      convert_command, SudokuProcess())`. It reacts exactly as `React`, and
      its state never moves. */
  function AdaptedProcess(): (p: Process<Event, Command, State>)
    ensures forall s, e :: p.evolve(s, e) == s
    ensures forall s :: p.resume(s) == []
    ensures forall s, e :: p.react(s, e) == React(s, e)
    ensures p.initialState == Sudoku().initialState
    ensures forall s :: p.isTerminal(s)
  {
    var p := ProcessAdapt(SelectEvent, ConvertCommand, SudokuProcess());
    assert forall s, e :: p.react(s, e) == React(s, e) by {
      forall s, e ensures p.react(s, e) == React(s, e) {
        if SelectEvent(e).Some? {
          assert p.react(s, e) == MapSeq(ConvertCommand, ProcessReact(s, SelectEvent(e).value));
        }
      }
    }
    p
  }

  /** A process on the board vocabulary whose state never moves and which
      reacts as `React`, as `AdaptedProcess` does. */
  ghost predicate ReactsAsAdapted(p: Process<Event, Command, State>) {
    && (forall s, e :: p.evolve(s, e) == s)
    && (forall s, e :: p.react(s, e) == React(s, e))
  }

  lemma AdaptedReactsAsAdapted()
    ensures ReactsAsAdapted(AdaptedProcess())
  {
  }

  /** Such a process collects exactly `React` from a one-event batch. */
  lemma ReactionToOne(p: Process<Event, Command, State>, s: State, e: Event)
    requires ReactsAsAdapted(p)
    ensures CollectFold(p, s, [e]) == React(s, e)
  {
    CollectFoldSingle(p, s, e);
  }

  // ---------------------------------------------------------------------
  // The saga: the adapted process coupled with the board decider.
  // ---------------------------------------------------------------------

  function Saga(fuel: nat): (d: Decider<Event, Command, (State, State)>)
    ensures forall c, s :: d.decide(c, s) == CombineLoop(AdaptedProcess(), Sudoku(), s, [c], [], fuel).GetOr([])
    ensures forall s, e :: d.evolve(s, e) == (Evolve(s.0, e), s.1)
  {
    Combine(AdaptedProcess(), Sudoku(), fuel)
  }

  /** How the two halves of the saga move on the events below. */
  lemma SagaEvolution(b: Grid, ps: State, msg: string, e1: Event, e2: Event)
    ensures Sudoku().evolve(Initial, BoardInitialized(b)) == Solving(b)
    ensures Sudoku().evolve(Solving(b), ErrorDetected(msg)) == Error(msg)
    ensures Sudoku().evolve(Solving(b), SolutionFound) == Solved(b)
    ensures Sudoku().evolve(Solving(b), BoardNotYetComplete) == Solving(b)
    ensures Sudoku().evolve(Solving(b), SolutionFailed) == Unsolvable(b)
    ensures AdaptedProcess().evolve(ps, e1) == ps
    ensures AdaptedProcess().evolve(AdaptedProcess().evolve(ps, e1), e2) == ps
  {
  }

  /** Initialising the board does not start the solver. The process answers
      `BoardInitialized` with a completion check, but the work list decides
      it against the original `Initial` state, where no arm covers it; the
      saga ends in `Error`. */
  lemma InitializeEndsInError(g: Grid, fuel: nat)
    requires fuel >= 2
    ensures var msg := Unhandled(CheckCompletion, Initial);
      && Saga(fuel).decide(InitializeSolver(g), (Initial, Initial)) == [BoardInitialized(g), ErrorDetected(msg)]
      && Submit(Saga(fuel), (Initial, Initial), InitializeSolver(g)) == (Error(msg), Initial)
  {
    var msg := Unhandled(CheckCompletion, Initial);
    AdaptedReactsAsAdapted();
    InitializeWorkList(AdaptedProcess(), g, fuel);
    CombineSubmitTwo(AdaptedProcess(), Sudoku(), (Initial, Initial), InitializeSolver(g), BoardInitialized(g), ErrorDetected(msg), fuel);
    SagaEvolution(g, Initial, msg, BoardInitialized(g), ErrorDetected(msg));
  }

  lemma InitializeWorkList(p: Process<Event, Command, State>, g: Grid, fuel: nat)
    requires ReactsAsAdapted(p) && fuel >= 2
    ensures CombineLoop(p, Sudoku(), (Initial, Initial), [InitializeSolver(g)], [], fuel)
      == Some([BoardInitialized(g), ErrorDetected(Unhandled(CheckCompletion, Initial))])
  {
    var d := Sudoku();
    var msg := Unhandled(CheckCompletion, Initial);
    assert d.decide(InitializeSolver(g), Initial) == [BoardInitialized(g)];
    assert d.decide(CheckCompletion, Initial) == [ErrorDetected(msg)];
    ReactionToOne(p, Initial, BoardInitialized(g));
    ReactionToOne(p, Initial, ErrorDetected(msg));
    CombineOneReaction(p, d, (Initial, Initial), InitializeSolver(g), CheckCompletion, fuel);
    assert [BoardInitialized(g)] + [ErrorDetected(msg)] == [BoardInitialized(g), ErrorDetected(msg)];
  }

  /** A complete board is reported solved by the completion check, and the
      chain stops there. */
  lemma CompleteBoardIsSolved(b: Grid, ps: State, fuel: nat)
    requires IsBoardComplete(b) && fuel >= 1
    ensures Saga(fuel).decide(CheckCompletion, (Solving(b), ps)) == [SolutionFound]
    ensures Submit(Saga(fuel), (Solving(b), ps), CheckCompletion) == (Solved(b), ps)
  {
    AdaptedReactsAsAdapted();
    CompleteWorkList(AdaptedProcess(), b, ps, fuel);
    CombineSubmitOne(AdaptedProcess(), Sudoku(), (Solving(b), ps), CheckCompletion, SolutionFound, fuel);
    SagaEvolution(b, ps, "", SolutionFound, SolutionFound);
  }

  lemma CompleteWorkList(p: Process<Event, Command, State>, b: Grid, ps: State, fuel: nat)
    requires ReactsAsAdapted(p) && IsBoardComplete(b) && fuel >= 1
    ensures CombineLoop(p, Sudoku(), (Solving(b), ps), [CheckCompletion], [], fuel) == Some([SolutionFound])
  {
    var d := Sudoku();
    assert d.decide(CheckCompletion, Solving(b)) == [SolutionFound];
    ReactionToOne(p, ps, SolutionFound);
    CombineUnreactive(p, d, (Solving(b), ps), CheckCompletion, fuel);
  }

  /** An incomplete board with no single-candidate cell: the completion
      check draws a solving step, the step finds nothing, and the saga ends
      `Unsolvable` with the board unchanged. */
  lemma StuckBoardIsUnsolvable(b: Grid, ps: State, fuel: nat)
    requires !IsBoardComplete(b) && NextSingleStep(b).None? && fuel >= 2
    ensures Saga(fuel).decide(CheckCompletion, (Solving(b), ps)) == [BoardNotYetComplete, SolutionFailed]
    ensures Submit(Saga(fuel), (Solving(b), ps), CheckCompletion) == (Unsolvable(b), ps)
  {
    AdaptedReactsAsAdapted();
    StuckWorkList(AdaptedProcess(), b, ps, fuel);
    CombineSubmitTwo(AdaptedProcess(), Sudoku(), (Solving(b), ps), CheckCompletion, BoardNotYetComplete, SolutionFailed, fuel);
    SagaEvolution(b, ps, "", BoardNotYetComplete, SolutionFailed);
  }

  lemma StuckWorkList(p: Process<Event, Command, State>, b: Grid, ps: State, fuel: nat)
    requires ReactsAsAdapted(p) && !IsBoardComplete(b) && NextSingleStep(b).None? && fuel >= 2
    ensures CombineLoop(p, Sudoku(), (Solving(b), ps), [CheckCompletion], [], fuel)
      == Some([BoardNotYetComplete, SolutionFailed])
  {
    var d := Sudoku();
    assert d.decide(CheckCompletion, Solving(b)) == [BoardNotYetComplete];
    assert d.decide(RunSolverStep, Solving(b)) == [SolutionFailed];
    ReactionToOne(p, ps, BoardNotYetComplete);
    ReactionToOne(p, ps, SolutionFailed);
    CombineOneReaction(p, d, (Solving(b), ps), CheckCompletion, RunSolverStep, fuel);
    assert [BoardNotYetComplete] + [SolutionFailed] == [BoardNotYetComplete, SolutionFailed];
  }

  /** On a solvable but incomplete board, the completion check draws a
      solving step and the solving step draws a completion check. */
  lemma SolvableBoardAlternates(p: Process<Event, Command, State>, b: Grid, ps: State, c: Command)
    requires ReactsAsAdapted(p)
    requires !IsBoardComplete(b) && NextSingleStep(b).Some?
    requires c == CheckCompletion || c == RunSolverStep
    ensures CollectFold(p, ps, Sudoku().decide(c, Solving(b)))
      == if c == CheckCompletion then [RunSolverStep] else [CheckCompletion]
  {
    var events := Sudoku().decide(c, Solving(b));
    if c == CheckCompletion {
      assert events == [BoardNotYetComplete];
    } else {
      assert events == [events[0]] && events[0].StepCompleted?;
    }
    ReactionToOne(p, ps, events[0]);
  }

  /** Whatever state `ds` the board half is in, the process answers the
      completion check with a solving step and the solving step with a
      completion check. */
  ghost predicate Alternating(p: Process<Event, Command, State>, ds: State, ps: State) {
    && CollectFold(p, ps, Sudoku().decide(CheckCompletion, ds)) == [RunSolverStep]
    && CollectFold(p, ps, Sudoku().decide(RunSolverStep, ds)) == [CheckCompletion]
  }

  /** With such a pair of answers the work list never empties. */
  lemma {:induction false} AlternatingNeverSettles(p: Process<Event, Command, State>, ds: State, ps: State, queue: seq<Command>, acc: seq<Event>, fuel: nat)
    requires Alternating(p, ds, ps)
    requires queue == [CheckCompletion] || queue == [RunSolverStep]
    ensures CombineLoop(p, Sudoku(), (ds, ps), queue, acc, fuel).None?
    decreases fuel
  {
    if fuel > 0 {
      var events := Sudoku().decide(queue[0], ds);
      var next := CollectFold(p, ps, events);
      assert queue[1..] + next == next;
      AlternatingNeverSettles(p, ds, ps, next, acc + events, fuel - 1);
    }
  }

  /** An incomplete board with a single-candidate cell never lets the work
      list empty. Every command is decided against the same original board,
      so the completion check and the solving step answer each other
      forever: whatever the fuel, it runs out (and the combined `decide`
      falls back to no events, where the source exhausts Python's recursion
      limit and raises `RecursionError`). */
  lemma SolvableBoardNeverSettles(p: Process<Event, Command, State>, b: Grid, ps: State, queue: seq<Command>, acc: seq<Event>, fuel: nat)
    requires ReactsAsAdapted(p)
    requires !IsBoardComplete(b) && NextSingleStep(b).Some?
    requires queue == [CheckCompletion] || queue == [RunSolverStep]
    ensures CombineLoop(p, Sudoku(), (Solving(b), ps), queue, acc, fuel).None?
  {
    SolvableBoardAlternates(p, b, ps, CheckCompletion);
    SolvableBoardAlternates(p, b, ps, RunSolverStep);
    AlternatingNeverSettles(p, Solving(b), ps, queue, acc, fuel);
  }

  /** So the saga, asked to check a solvable but incomplete board, runs out
      of fuel and decides nothing, however much fuel it is given. */
  lemma SolvableBoardStalls(b: Grid, ps: State, fuel: nat)
    requires !IsBoardComplete(b) && NextSingleStep(b).Some?
    ensures Saga(fuel).decide(CheckCompletion, (Solving(b), ps)) == []
  {
    var p := AdaptedProcess();
    AdaptedReactsAsAdapted();
    SolvableBoardNeverSettles(p, b, ps, [CheckCompletion], [], fuel);
    assert CombineLoop(p, Sudoku(), (Solving(b), ps), [CheckCompletion], [], fuel).GetOr([]) == [];
  }
}
