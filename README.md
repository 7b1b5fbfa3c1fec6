# pycider in Dafny

pycider is a small Python library for event-sourced state machines built
from *deciders* and *processes*.

- A **decider** is four pure operations:
  - `decide` turns a command and a state into events;
  - `evolve` turns a state and an event into the next state;
  - `initial_state` is where an instance starts;
  - `is_terminal` says whether it has finished.
- Combinators build new deciders from old ones:
  - **Compose** is the product of two deciders, routed by a `Left`/`Right` tag;
  - **Many** is one decider multiplexed over identifiers, its states kept in a map;
  - **Adapt** translates vocabularies through partial functions;
  - **Map**, **Map2** and **apply** transform the output state;
  - **Neutral** is the trivial decider.
- A **process** (a saga) watches events, keeps its own state and reacts with
  follow-up commands.
  - `ProcessAdapt` translates a process's vocabulary.
  - `process_collect_fold` folds a batch of events through a process.
  - `ProcessCombineWithDecider.combine` couples a process with a decider. The
    result is one decider whose `decide` runs a FIFO work list of commands.

The project models this algebra and the concrete machines the repository
builds with it:

- the Cat and Bulb deciders and the CatLight process, with the three
  composition scenarios of `tests/test_compositions.py`;
- the Sudoku example:
  - its rule checker (`SudokuEvaluator`);
  - its board decider;
  - its solving process;
  - the adapter (`select_event`, `convert_command`) that connects the two;
  - the saga the adapted process and the board decider form under `combine`;
- the gRPC example's update-server decider, with its version table and its
  callable commands.

Layout, one module per file:

| file | module | models |
|---|---|---|
| `types.dfy` | `Types` | `X \| None` as `Option`, `Either`, `map` over a list |
| `deciders.dfy` | `Deciders` | `pycider/deciders.py` |
| `runner.dfy` | `Runner` | the in-memory runner the tests drive (test harness) |
| `processes.dfy` | `Processes` | `pycider/processes.py` and its twin `pycider/procs.py` |
| `cat_bulb.dfy` | `Cats`, `Bulbs`, `CatLights` | the test deciders and the CatLight process |
| `composition_laws.dfy` | `CompositionLaws` | running Compose and Many against running their parts |
| `composition_scenarios.dfy` | `CompositionScenarios` | the three scenarios of `tests/test_compositions.py` |
| `sudoku_evaluator.dfy` | `SudokuEvaluator` | `sudoku/evaluator.py` |
| `sudoku_aggregate.dfy` | `SudokuBoards` | the board decider (`aggregate.py`, `decider.py`) |
| `sudoku_process.dfy` | `SudokuProcesses` | `process.py` and the combined saga |
| `update_server.dfy` | `UpdateServer` | the gRPC example's `aggregate.py` and `types.py` |

How the source maps onto Dafny:

- A decider is a record of four functions. Each combinator is a function
  that builds a new record. Its contract states every component of the new
  record in terms of the records it was given.
- The places where the source changes things step by step are methods with
  loops, each proved equal to a specification function:
  - `ManyDecider.is_terminal`;
  - `process_collect_fold`;
  - the `combine` work list;
  - the evaluator's scans;
  - `find_next_single_step`;
  - the in-memory runner, a class whose `state` field each call updates.
- The combine work list need not terminate. It is bounded by a `fuel`
  count of dequeued commands, and `None` means the fuel ran out.

## Model

| member | source | states |
|---|---|---|
| Types.MapSeq | pycider/deciders.py:140-142 | `map(f, xs)` has the length of `xs`, and element `i` is `f(xs[i])` |
| Deciders.Lefts | pycider/deciders.py:139-142 | each event of the left decider is wrapped in `Left`, in order, with none added or lost |
| Deciders.Rights | pycider/deciders.py:143-146 | each event of the right decider is wrapped in `Right`, in order, with none added or lost |
| Deciders.Compose | pycider/deciders.py:135-163 | `Left(c)` is decided by the left decider alone on `s.0`, `Right(c)` by the right one alone on `s.1`; an event changes only its own half; the initial state is the pair of initials; terminal iff both halves are |
| Deciders.Neutral | pycider/deciders.py:179-190 | never emits an event and is terminal in every state |
| Deciders.Lookup | pycider/deciders.py:228-230 | an identifier's state is its entry, or the inner initial state when it has none |
| Deciders.Tagged | pycider/deciders.py:247-250 | every event is paired with the command's identifier, in order |
| Deciders.ManyEvolve | pycider/deciders.py:221-235 | the event's identifier gets the inner `evolve` of its current state (lazily initialised); the keys grow by that identifier only; every other entry keeps its value |
| Deciders.Many | pycider/deciders.py:198-259 | `decide` is the inner decision on the identifier's lazily defaulted state, tagged, and it never writes the map; `evolve` is `ManyEvolve`; the initial state is the empty map; terminal iff every stored state is |
| Deciders.ManyIsTerminal | pycider/deciders.py:252-256 | the early-return loop answers true exactly when every stored state is terminal |
| Deciders.Adapt | pycider/deciders.py:303-320 | a command `fci` drops yields no events; a kept one is decided by the inner decider on `fsi(s)`, its events mapped by `feo`; an event `fei` drops gives `fsi(s)`; a kept one is evolved from `fsi(s)`; the initial state is the inner one, unchanged; terminality is the inner `is_terminal` of `fsi(s)` |
| Deciders.MapDecider | pycider/deciders.py:343-358 | `decide` and `is_terminal` pass through unchanged; `evolve` and `initial_state` return `f` of the inner result |
| Deciders.Map2Decider | pycider/deciders.py:371-385 | `dx`'s events are followed by `dy`'s; `evolve` and `initial_state` join both results with `f`; terminal iff both are |
| Deciders.Apply | pycider/deciders.py:390-393 | `f`'s events, then `d`'s; the state function of `f` is applied to `d`'s state; terminal iff both are |
| Deciders.MapIdentity | pycider/deciders.py:347-360 | mapping with the identity gives an equivalent decider |
| Deciders.MapComposition | pycider/deciders.py:347-360 | mapping by `f` then `g` is equivalent to mapping by their composition |
| Deciders.ApplyPureIsMap | pycider/deciders.py:390-393 | applying a constant, silent function decider is equivalent to mapping |
| Deciders.Map2IsApplyOfMap | pycider/deciders.py:363-393 | `Map2(f, dx, dy)` is equivalent to `apply` of `dx` mapped to curried `f`, applied to `dy` |
| Deciders.AdaptIdentity | pycider/deciders.py:303-320 | adapting with identity translations gives an equivalent decider |
| Deciders.ManyLazyDefault | pycider/deciders.py:221-250 | an absent identifier decides and evolves exactly as if it were stored with the initial state |
| Deciders.ManyInitialIsTerminal | pycider/deciders.py:252-259 | the empty initial map is terminal |
| Runner.InMemory.constructor | tests/test_compositions.py:225 | the runner starts at the decider's initial state |
| Runner.InMemory.Call | tests/test_compositions.py:227-239 | a call returns the decision on the current state, and the new state folds `evolve` over those events in order |
| Processes.ProcessAdapt | pycider/processes.py:100-120 | an event the selector drops leaves the state unchanged and draws no command; a selected event reaches the inner process, and its commands are converted one for one, in order; `resume` converts likewise; initial state and terminality delegate |
| Processes.ProcessCollectFold | pycider/processes.py:125-138 | the pop-and-extend loop returns the in-order concatenation of `react` on each event, each after evolving the state by that event |
| Processes.CollectFoldAppend | pycider/processes.py:128-136 | folding `a + b` is folding `a`, then folding `b` from the state `a` reached |
| Processes.CollectFoldSingle | pycider/processes.py:132-135 | a one-event batch yields `react(evolve(s, e), e)` |
| Processes.CollectFoldSilent | pycider/processes.py:125-138 | a process that never reacts collects no command |
| Processes.Combine | pycider/processes.py:162-185 | `decide` is the work list run from the original pair state; `evolve` moves both halves by every event; the initial state is the pair of initials; terminal iff both halves are |
| Processes.CombineDecide | pycider/processes.py:163-176 | the pop/decide/fold/extend loop returns what the work-list specification gives |
| Processes.CombineLoopShape | pycider/processes.py:164-174 | when the work list empties, the result is the events gathered so far followed by the batches of the dequeued commands, and the dequeued commands are the queue followed by the reactions to their batches |
| Processes.CombineFixedPoint | pycider/processes.py:163-176 | the dequeued commands are the input command followed by the reactions to each dequeued command's batch, every fold from the original process state; the events are those batches, each decided against the original decider state |
| Processes.CombineFirstBatch | pycider/processes.py:167-173 | the result begins with the input command decided against the original decider state |
| Processes.CombineSilent | pycider/processes.py:163-176 | with a process that never reacts, the combined decision is the decider's own decision |
| Processes.CombineUnreactive | pycider/processes.py:164-176 | when the first batch draws no reaction, the work list stops after one command with that batch |
| Processes.CombineIdleReaction | pycider/processes.py:164-176 | one reaction whose own decision has no events: the result is the first batch alone |
| Processes.CombineOneReaction | pycider/processes.py:164-176 | one reaction whose batch draws nothing further: the result is both batches, in order |
| Processes.CombineSubmitOne | pycider/processes.py:178-179 | a one-event decision moves each half by that event |
| Processes.CombineSubmitTwo | pycider/processes.py:178-179 | a two-event decision moves each half by both events, in order |
| Cats.Decide | tests/test_compositions.py:113-120 | `WakeUp` yields `WokeUp` only when asleep; `GetToSleep` yields `GotToSleep` only when awake; otherwise nothing |
| Cats.Evolve | tests/test_compositions.py:122-129 | awake and `GotToSleep` gives asleep; asleep and `WokeUp` gives awake; every other pair leaves the state unchanged |
| Cats.Cat | tests/test_compositions.py:105-129 | starts awake, is never terminal, and decides and evolves as above |
| Cats.CommandsReachTarget | tests/test_compositions.py:113-129 | from either state, each command ends in its target state, and it emits nothing exactly when the cat is already there |
| Bulbs.Decide | tests/test_compositions.py:184-197 | fitting works only on an unfitted bulb and carries the uses; switching an off bulb on gives `SwitchedOn` while uses remain and `Blew` otherwise; switching off works only on an on bulb; nothing else emits |
| Bulbs.Evolve | tests/test_compositions.py:199-214 | `Fitted` makes an unfitted bulb an off working bulb with that many uses; `SwitchedOn` spends a use; `SwitchedOff` keeps the uses; `Blew` blows it; every other pair leaves the state unchanged |
| Bulbs.Bulb | tests/test_compositions.py:183-220 | starts unfitted, is terminal exactly when blown, and decides and evolves as above |
| Bulbs.RemainingUsesNeverIncrease | tests/test_compositions.py:203-210 | from a working bulb, no event sequence raises the remaining uses; the bulb stays working with at most as many, or is blown |
| Bulbs.BlownIsAbsorbing | tests/test_compositions.py:211-214 | a blown bulb stays blown under any events |
| Bulbs.Lifecycle | tests/test_compositions.py:184-214 | one submission each: fit sets the uses; switch on spends one or blows the bulb; switch off keeps the uses; switching on an unfitted bulb changes nothing |
| CatLights.Evolve | pycider/procs.py:95-102 | `SwitchedOn` leads to waking up, `WokeUp` to idle |
| CatLights.React | pycider/procs.py:111-116 | `[WakeUp]` exactly for a waking light seeing `SwitchedOn`, otherwise nothing |
| CatLights.Resume | pycider/procs.py:104-109 | `[WakeUp]` exactly when waking up, nothing when idle |
| CatLights.CatLight | pycider/procs.py:94-122 | starts idle, is terminal exactly when idle, with the evolve, react and resume above |
| CatLights.CollectFoldCountsSwitchOns | pycider/procs.py:164-177 | folded over any batch from any state, the light asks for exactly one `WakeUp` per `SwitchedOn` in the batch |
| CompositionLaws.ComposeEvolveLefts | pycider/deciders.py:153-157 | folding left-tagged events moves only the left half, as the left decider alone would |
| CompositionLaws.ComposeEvolveRights | pycider/deciders.py:153-157 | folding right-tagged events moves only the right half, as the right decider alone would |
| CompositionLaws.ComposeRunIsolation | pycider/deciders.py:135-157 | any interleaving of tagged commands leaves each half where running that half alone on its own commands leaves it |
| CompositionLaws.ComposeSubmitLeft | pycider/deciders.py:138-157 | one left-tagged submission is one submission to the left decider, and the right half is untouched |
| CompositionLaws.ComposeSubmitRight | pycider/deciders.py:138-157 | one right-tagged submission is one submission to the right decider, and the left half is untouched |
| CompositionLaws.ManyEvolveTagged | pycider/deciders.py:221-235 | folding events tagged with one identifier moves that instance alone |
| CompositionLaws.ManyEvolveKeys | pycider/deciders.py:221-235 | folding tagged events adds the identifier to the keys exactly when there is at least one event |
| CompositionLaws.ManyRunProjection | pycider/deciders.py:221-250 | after any stream of keyed commands, each identifier's state is what the inner decider alone reaches on the commands addressed to it |
| CompositionLaws.ManyRunUntouchedKey | pycider/deciders.py:221-235 | an identifier no command addresses is never added to the map |
| CompositionLaws.ManySubmit | pycider/deciders.py:221-250 | one keyed submission stores the instance's new state under its key when the decision has events, and leaves the map as it was when it has none |
| CompositionScenarios.CatAndBulbSteps | tests/test_compositions.py:225-231 | in the composed cat and bulb, cat commands go to the cat alone and bulb commands to the bulb alone, and each event moves only its own half |
| CompositionScenarios.CatAndBulb | tests/test_compositions.py:223-239 | the five calls end with the cat asleep and the bulb off with four uses left |
| CompositionScenarios.ManyCatsSubmit | tests/test_compositions.py:243-249 | a command to a named cat (a new one starts awake) moves it to the command's target, and the map changes only when the cat's state does |
| CompositionScenarios.CallCat | tests/test_compositions.py:245-249 | one runner call to a named cat has that effect on the runner's state |
| CompositionScenarios.ManyCats | tests/test_compositions.py:242-254 | "boulette" ends awake and "guevara" asleep |
| CompositionScenarios.SelectEvent | tests/test_compositions.py:260-267 | the cat's `WokeUp` and the bulb's `SwitchedOn` are selected as the light's events; everything else is dropped |
| CompositionScenarios.CommandConverter | tests/test_compositions.py:269-274 | the light's `WakeUp` becomes the cat's `WakeUp`, tagged left |
| CompositionScenarios.LightReactions | tests/test_compositions.py:260-276 | the adapted light reacts only to the bulb switching on, with a left-tagged `WakeUp` |
| CompositionScenarios.LightEvolve | tests/test_compositions.py:260-276 | the adapted light goes idle on the cat's `WokeUp`, starts waking up on the bulb's `SwitchedOn`, and ignores everything else |
| CompositionScenarios.CatBulbLightEvolve | tests/test_compositions.py:277 | the combined state moves its cat-and-bulb half and its light half on every event |
| CompositionScenarios.UnreactiveDecision | tests/test_compositions.py:276-277 | a one-event decision the light does not react to is decided by the cat and bulb alone |
| CompositionScenarios.SwitchOnDecision | tests/test_compositions.py:276-282 | switching the bulb on queues `WakeUp`, which is decided against the cat's state from before the switch; an awake cat adds nothing |
| CompositionScenarios.CallCatBulbLight | tests/test_compositions.py:278-283 | one runner call with a one-event decision moves the combined state by that event |
| CompositionScenarios.CatCommandStep | tests/test_compositions.py:280-281 | a cat command with one event: the decision is that event, the cat moves, the bulb stays |
| CompositionScenarios.BulbCommandStep | tests/test_compositions.py:279-283 | a bulb command with one event other than switching on: the decision is that event, the bulb moves, the cat stays |
| CompositionScenarios.FitStep | tests/test_compositions.py:279 | fitting five uses: one `Fitted(5)` event, and the light stays idle |
| CompositionScenarios.GetToSleepStep | tests/test_compositions.py:280 | the cat falls asleep, and the light stays idle |
| CompositionScenarios.WakeUpStep | tests/test_compositions.py:281 | the cat wakes, and the light stays idle |
| CompositionScenarios.SwitchOnStep | tests/test_compositions.py:282 | the bulb spends a use, and the light starts waking the cat |
| CompositionScenarios.SwitchOffStep | tests/test_compositions.py:283 | the bulb goes off with four uses, and the light keeps waking |
| CompositionScenarios.ComposeProcess | tests/test_compositions.py:257-293 | for any work-list bound of at least two, the five calls end with the cat awake, the bulb off with four uses and the light waking up |
| SudokuEvaluator.RowCells | examples/sudoku_solver/sudoku_solver/sudoku/evaluator.py:13-14 | a row is nine cells |
| SudokuEvaluator.ColumnCells | examples/sudoku_solver/sudoku_solver/sudoku/evaluator.py:25-26 | a column is nine cells |
| SudokuEvaluator.BoxCells | examples/sudoku_solver/sudoku_solver/sudoku/evaluator.py:39-41 | a box is nine cells |
| SudokuEvaluator.BoxCellAt | examples/sudoku_solver/sudoku_solver/sudoku/evaluator.py:41 | box cell `(r, c)` is board cell `(start_row + r) * 9 + (start_col + c)` |
| SudokuEvaluator.IsRowValid | examples/sudoku_solver/sudoku_solver/sudoku/evaluator.py:10-19 | the scan with a seen-set answers true exactly when no two filled cells of the row share a value |
| SudokuEvaluator.IsColumnValid | examples/sudoku_solver/sudoku_solver/sudoku/evaluator.py:22-31 | true exactly when no two filled cells of the column share a value |
| SudokuEvaluator.IsSubgridValid | examples/sudoku_solver/sudoku_solver/sudoku/evaluator.py:34-46 | true exactly when no two filled cells of the box share a value |
| SudokuEvaluator.ScanStep | examples/sudoku_solver/sudoku_solver/sudoku/evaluator.py:14-18 | a value already seen means a repeat; an empty cell is skipped; a new value joins the seen set |
| SudokuEvaluator.ScanDone | examples/sudoku_solver/sudoku_solver/sudoku/evaluator.py:19 | a scan that reaches the end has found no repeat |
| SudokuEvaluator.IsBoardValid | examples/sudoku_solver/sudoku_solver/sudoku/evaluator.py:49-59 | true exactly when all nine rows, all nine columns and the nine boxes at multiples of three are free of repeats |
| SudokuEvaluator.IsValueAllowed | examples/sudoku_solver/sudoku_solver/sudoku/evaluator.py:66-82 | false exactly when the value already occurs in the cell's row, column or box |
| SudokuEvaluator.Digits | examples/sudoku_solver/sudoku_solver/sudoku/evaluator.py:92 | `range(1, 10)`: nine digits, element `i` being `i + 1` |
| SudokuEvaluator.AllowedAmong | examples/sudoku_solver/sudoku_solver/sudoku/evaluator.py:90-94 | filtering never lengthens the list |
| SudokuEvaluator.AllowedAmongMembers | examples/sudoku_solver/sudoku_solver/sudoku/evaluator.py:90-94 | a value survives the filter exactly when it is in the list and allowed in the cell |
| SudokuEvaluator.AllowedAmongSorted | examples/sudoku_solver/sudoku_solver/sudoku/evaluator.py:90-94 | filtering an increasing list keeps it increasing |
| SudokuEvaluator.CandidatesAreAllowedDigits | examples/sudoku_solver/sudoku_solver/sudoku/evaluator.py:90-94 | the possible values are exactly the digits 1 to 9 allowed in the cell, each once, in increasing order |
| SudokuEvaluator.PossibleValues | examples/sudoku_solver/sudoku_solver/sudoku/evaluator.py:90-94 | the comprehension's loop builds exactly those candidates |
| SudokuEvaluator.Cells | examples/sudoku_solver/sudoku_solver/sudoku/evaluator.py:87-88 | the 81 cells in row-major order: position `p` is `(p / 9, p % 9)` |
| SudokuEvaluator.CellPosition | examples/sudoku_solver/sudoku_solver/sudoku/evaluator.py:87-88 | cell `(row, col)` is visited at position `row * 9 + col` |
| SudokuEvaluator.FirstIndex | examples/sudoku_solver/sudoku_solver/sudoku/evaluator.py:87-96 | the index found is marked, and no earlier cell is |
| SudokuEvaluator.NextSingleStep | examples/sudoku_solver/sudoku_solver/sudoku/evaluator.py:85-97 | a step found has its row and column in `0..8` |
| SudokuEvaluator.NextSingleStepIsSingle | examples/sudoku_solver/sudoku_solver/sudoku/evaluator.py:89-96 | the step's cell is empty, and its value is the cell's only candidate |
| SudokuEvaluator.NextSingleStepIsFirst | examples/sudoku_solver/sudoku_solver/sudoku/evaluator.py:87-96 | no cell before the step in row-major order is empty with a single candidate |
| SudokuEvaluator.NoStepMeansNoSingle | examples/sudoku_solver/sudoku_solver/sudoku/evaluator.py:85-97 | with no step, no cell is empty with a single candidate |
| SudokuEvaluator.NextSingleStepAt | examples/sudoku_solver/sudoku_solver/sudoku/evaluator.py:85-97 | conversely, the first empty single-candidate cell is the step, with its candidate |
| SudokuEvaluator.NoNextSingleStep | examples/sudoku_solver/sudoku_solver/sudoku/evaluator.py:85-97 | conversely, a board with no such cell has no step |
| SudokuEvaluator.FindNextSingleStep | examples/sudoku_solver/sudoku_solver/sudoku/evaluator.py:85-97 | the nested loop with early return gives that step, or none |
| SudokuEvaluator.StepIsAllowedDigit | examples/sudoku_solver/sudoku_solver/sudoku/evaluator.py:89-96 | the step's index `row * 9 + col` is on the board, and its value passes `is_value_valid` and `is_value_allowed` |
| SudokuEvaluator.EmptyCount | examples/sudoku_solver/sudoku_solver/sudoku/evaluator.py:62-63 | the number of empty cells is at most the number of cells |
| SudokuEvaluator.NoEmptyIffCountZero | examples/sudoku_solver/sudoku_solver/sudoku/evaluator.py:62-63 | no cell is empty exactly when the empty count is zero |
| SudokuEvaluator.CompleteIffNoEmptyCell | examples/sudoku_solver/sudoku_solver/sudoku/evaluator.py:62-63 | `is_board_complete` (`IsBoardComplete`: no cell is empty) holds exactly when the empty count is zero |
| SudokuEvaluator.ValueValidIsDigit | examples/sudoku_solver/sudoku_solver/sudoku/evaluator.py:6-7 | `is_value_valid` (`IsValueValid`) holds exactly for an empty cell or one of the nine digits `range(1, 10)` that the solver tries |
| SudokuEvaluator.FillCountsDown | examples/sudoku_solver/sudoku_solver/aggregate.py:217-223 | filling an empty cell leaves one empty cell fewer |
| SudokuEvaluator.DistinctPut | examples/sudoku_solver/sudoku_solver/sudoku/evaluator.py:10-46 | writing a value no other cell holds keeps a repeat-free group repeat-free |
| SudokuEvaluator.RowAfterPut | examples/sudoku_solver/sudoku_solver/sudoku/evaluator.py:70-72 | placing an allowed value keeps every valid row valid |
| SudokuEvaluator.ColumnAfterPut | examples/sudoku_solver/sudoku_solver/sudoku/evaluator.py:73-75 | placing an allowed value keeps every valid column valid |
| SudokuEvaluator.BoxEntryAfterPut | examples/sudoku_solver/sudoku_solver/sudoku/evaluator.py:76-81 | after the write, a box entry is the new value if it is the written cell, and unchanged otherwise |
| SudokuEvaluator.OwnBox | examples/sudoku_solver/sudoku_solver/sudoku/evaluator.py:77 | a cell inside a box has that box as its `row - row % 3, col - col % 3` box |
| SudokuEvaluator.BoxAfterPut | examples/sudoku_solver/sudoku_solver/sudoku/evaluator.py:76-81 | placing an allowed value keeps every valid box valid |
| SudokuEvaluator.PlaceKeepsValid | examples/sudoku_solver/sudoku_solver/sudoku/evaluator.py:49-82 | placing a value `is_value_allowed` accepts keeps a valid board valid |
| SudokuBoards.Decide | examples/sudoku_solver/sudoku_solver/aggregate.py:176-208 | exactly one event, `ErrorDetected` exactly when no arm covers the pair (with the message naming both); `InitializeSolver` on `Initial` gives `BoardInitialized` with the grid; `RunSolverStep` on `Solving` or `Valid` gives `StepCompleted` at the first single-candidate cell (`find_next_single_step`), or `SolutionFailed` when there is none; `ValidateBoardState` on `Solving` gives `BoardValidated` iff the board is valid, else `SolutionFailed`; `CheckCompletion` on `Solving` gives `SolutionFound` iff no cell is empty, else `BoardNotYetComplete` |
| SudokuBoards.PutCell | examples/sudoku_solver/sudoku_solver/aggregate.py:217-223 | `values[idx] = value` succeeds exactly for `-81 <= idx < 81`, writing cell `idx` (or `idx + 81` when negative) and no other |
| SudokuBoards.Evolve | examples/sudoku_solver/sudoku_solver/aggregate.py:210-239 | `BoardInitialized(b)` on `Initial` gives `Solving(b)`; `StepCompleted` on `Solving` or `Valid` gives `Solving` of the board with that cell written (state unchanged when the write raises); `BoardValidated` on `Solving` gives `Valid`; `SolutionFound` and `SolutionFailed` on `Valid` or `Solving` give `Solved` and `Unsolvable`; `ErrorDetected` gives `Error` from any state; every other pair of event and state leaves the state unchanged |
| SudokuBoards.Sudoku | examples/sudoku_solver/sudoku_solver/aggregate.py:167-239 | starts `Initial`, terminal exactly when solved or unsolvable, and decides and evolves as above |
| SudokuBoards.SolverStepEvent | examples/sudoku_solver/sudoku_solver/aggregate.py:184-191 | a step gives `StepCompleted` or `SolutionFailed`, and `SolutionFailed` exactly when no empty cell has a single candidate; a step's index is in `0..80`, on an empty cell, with a digit that is the cell's only candidate and is allowed there |
| SudokuBoards.CellIndex | examples/sudoku_solver/sudoku_solver/aggregate.py:187-188 | row and column are recovered from `row * 9 + col` |
| SudokuBoards.StepOverwritesOneCell | examples/sudoku_solver/sudoku_solver/aggregate.py:217-223 | a completed step gives `Solving`, with cell `idx` set and every other cell unchanged |
| SudokuBoards.StepKeepsBoardValid | examples/sudoku_solver/sudoku_solver/aggregate.py:184-223 | a step on a valid board either gives a valid `Solving` board with one empty cell fewer, or `Unsolvable` with the board untouched |
| SudokuBoards.ValidationOutcome | examples/sudoku_solver/sudoku_solver/aggregate.py:193-197 | validating a `Solving` board ends `Valid` when it is valid and `Unsolvable` otherwise |
| SudokuBoards.CompletionOutcome | examples/sudoku_solver/sudoku_solver/aggregate.py:199-203 | checking completion ends `Solved` exactly when no cell is empty, and changes nothing otherwise |
| SudokuBoards.TerminalStateAcceptsCommands | examples/sudoku_solver/sudoku_solver/aggregate.py:173-208 | every command on a finished board turns it into a non-terminal `Error` |
| SudokuBoards.Steps | examples/sudoku_solver/sudoku_solver/aggregate.py:184 | `n` solving-step commands |
| SudokuBoards.StepsFillOneCellEach | examples/sudoku_solver/sudoku_solver/aggregate.py:184-223 | repeated steps from a valid board keep it valid and fill one cell each while the run is still `Solving`, so no run longer than the number of empty cells is still `Solving` |
| SudokuProcesses.ProcessReact | examples/sudoku_solver/sudoku_solver/process.py:12-42 | the process's reaction in its own vocabulary: at most one command, chosen by the event alone; a completed step gives `CheckCompletion`, a validated or incomplete board `RunSolverStep`, the final outcomes and errors nothing |
| SudokuProcesses.ReactAsWritten | examples/sudoku_solver/sudoku_solver/process.py:17-18 | as written, `react` answers only a completed step, and raises on every other event |
| SudokuProcesses.ReactAsWrittenRaisesOnValidated | examples/sudoku_solver/sudoku_solver/process.py:17-22 | a validated board raises as written, where the intended answer is `RunSolverStep` |
| SudokuProcesses.SudokuProcess | examples/sudoku_solver/sudoku_solver/process.py:11-54 | `evolve` is the identity, `resume` is empty, `react` is `ProcessReact`, every state is terminal, and it starts at the board decider's initial state |
| SudokuProcesses.SelectEvent | examples/sudoku_solver/tests/test_sudoku_solver.py:22-36 | a fresh board and a filled cell are both heard as a completed step; a validated or an incomplete board passes through; `SolutionFound`, `SolutionFailed` and `ErrorDetected` are dropped |
| SudokuProcesses.ConvertCommand | examples/sudoku_solver/tests/test_sudoku_solver.py:10-20 | each process command becomes the board command of the same name |
| SudokuProcesses.React | examples/sudoku_solver/tests/test_sudoku_solver.py:22-41 | the reaction of the adapted process on board events: a filled cell or a fresh board gives `CheckCompletion`; a validated or incomplete board gives `RunSolverStep`; the rest give nothing |
| SudokuProcesses.AdaptedProcess | examples/sudoku_solver/tests/test_sudoku_solver.py:38-40 | `ProcessAdapt(select_event, convert_command, SudokuProcess())` reacts exactly as `React`, never moves its state, resumes nothing and is always terminal |
| SudokuProcesses.ReactionToOne | pycider/processes.py:125-138 | a process that reacts as the adapted one collects exactly `React` from a one-event batch |
| SudokuProcesses.Saga | examples/sudoku_solver/tests/test_sudoku_solver.py:41 | the saga decides with the work list of the adapted process and the board decider, and moves only the board half (the process half never changes) |
| SudokuProcesses.SagaEvolution | examples/sudoku_solver/sudoku_solver/aggregate.py:214-235 | the board decider's moves on the events of the saga runs below, with the process half unchanged by each event |
| SudokuProcesses.InitializeEndsInError | pycider/processes.py:163-176 | initialising the board yields `BoardInitialized` and then `ErrorDetected`: the queued completion check is decided against `Initial`; the saga ends in `Error` |
| SudokuProcesses.InitializeWorkList | pycider/processes.py:164-176 | the work list for `InitializeSolver` dequeues two commands and returns those two events |
| SudokuProcesses.CompleteBoardIsSolved | examples/sudoku_solver/sudoku_solver/aggregate.py:199-203 | a complete board's completion check gives `SolutionFound`, and the saga ends `Solved` |
| SudokuProcesses.CompleteWorkList | pycider/processes.py:164-176 | that work list stops after one command |
| SudokuProcesses.StuckBoardIsUnsolvable | examples/sudoku_solver/sudoku_solver/aggregate.py:184-191 | an incomplete board with no single-candidate cell gives `BoardNotYetComplete` then `SolutionFailed`, and the saga ends `Unsolvable` with the board unchanged |
| SudokuProcesses.StuckWorkList | pycider/processes.py:164-176 | that work list stops after two commands |
| SudokuProcesses.SolvableBoardAlternates | examples/sudoku_solver/sudoku_solver/aggregate.py:184-203 | on an incomplete board with a single-candidate cell, the completion check draws a solving step and the solving step a completion check |
| SudokuProcesses.AlternatingNeverSettles | pycider/processes.py:164-176 | when the two commands keep drawing each other, the work list never empties, whatever the bound |
| SudokuProcesses.SolvableBoardNeverSettles | pycider/processes.py:164-176 | an incomplete board with a single-candidate cell keeps the completion check and the solving step answering each other, so the work list never empties, whatever the bound |
| SudokuProcesses.SolvableBoardStalls | pycider/processes.py:164-176 | so the saga, checking such a board, runs out of fuel and decides no events, whatever the bound |
| UpdateServer.DownloadData | examples/grpc_server/grpc_server/aggregate.py:10 | the payload is the 13 bytes of `download_data` |
| UpdateServer.VersionListIsTableKeys | examples/grpc_server/grpc_server/aggregate.py:9-20 | the key list handed to the commands holds exactly the table's ten versions, each once |
| UpdateServer.Call | examples/grpc_server/grpc_server/types.py:49-64 | one event either way: a listing returns the list given; a download's event names the requested version and is valid exactly when that version is in the list |
| UpdateServer.Decide | examples/grpc_server/grpc_server/aggregate.py:57-71 | a new connection calls the command with the table's keys; any other state yields nothing |
| UpdateServer.Evolve | examples/grpc_server/grpc_server/aggregate.py:38-55 | from a new connection: a listing gives the versions; a valid download gives that version's payload; an invalid one gives error -1 with "Version v does not exist."; every other state is left unchanged |
| UpdateServer.UpdateAggregate | examples/grpc_server/grpc_server/aggregate.py:23-71 | starts as a new connection, terminal exactly once versions were retrieved, a download is ready or a download is unavailable |
| UpdateServer.ValidDownloadsAreInTable | examples/grpc_server/grpc_server/aggregate.py:57-68 | every valid download the decider emits names a version in the table, so the lookup in `evolve` never fails on its own events |
| UpdateServer.DownloadOutcome | examples/grpc_server/grpc_server/aggregate.py:38-68 | a download on a new connection ends with the payload when the table has the version, and with error -1 otherwise |
| UpdateServer.ListingOutcome | examples/grpc_server/grpc_server/aggregate.py:59-61 | a listing on a new connection ends with every version on offer, in table order |
| UpdateServer.OneRequestPerConnection | examples/grpc_server/grpc_server/aggregate.py:27-71 | a new connection is not finished, every request finishes it, and a finished connection neither answers nor moves |

## Left out

- The combine work list is bounded by `fuel`, the number of commands it may
  dequeue. When the fuel runs out, the combined `decide` returns no events.
  The source's `loop` calls itself once per dequeued command, so an endless
  work list, or one longer than Python's recursion limit (about 1000 by
  default), raises `RecursionError` instead. `SolvableBoardNeverSettles`
  shows that the Sudoku saga runs out of fuel for every bound.
- Processes.ProcessCollectFold: the source's `loop` calls itself once per
  event, so a batch longer than Python's recursion limit raises
  `RecursionError`. The model's loop folds batches of any length. The
  source's `events.pop(0)` also empties the caller's list; the model's loop
  works on a value, so it does not capture that. `combine` passes
  `new_events.copy()`, so no caller in the core observes it.
- `pycider/procs.py` repeats `pycider/processes.py`: the adapter
  (`Process.adapt`, lines 131-161), the fold (lines 164-177) and `combine`
  (lines 184-216). The model states them once, in `Processes`.
- `examples/sudoku_solver/sudoku_solver/decider.py` is the same machine as
  `aggregate.py` under other type roots. The model states it once, in
  `SudokuBoards`.
- The in-memory runner (`pycider.utils.InMemory`) and `Either`
  (`pycider.types`) are not part of this model's source files. `Runner` and
  `Types` define them as the tests use them: decide, then fold `evolve` over
  the events in order.
- The tests call `ComposeDecider.compose` and import `Process` from
  `processes.py`. The model uses the semantics of `build` and
  `Process.adapt`.
- SudokuProcesses: the Sudoku test and the Sudoku `__main__` module call
  `ProcessAdapt().build` and `ProcessCombineWithDecider.build`, which
  `processes.py` does not define. `AdaptedProcess` and `Saga` use the
  semantics of `ProcessAdapt.adapt` and `ProcessCombineWithDecider.combine`.
- Deciders.MapDecider: `build` is a `classmethod` declared without `cls`, so
  as written its first parameter receives the class. The model gives it the
  behaviour its doc comment states.
- Deciders.Many: `ManyDecider` keeps its states in a dict that `evolve`
  writes in place and returns. The model returns the updated map as a new
  value, so it does not capture that the caller's dict is the same object.
  It also treats the inner decider as one stateless value rather than a
  class instantiated on every call.
- Generators and iterators are sequences: no laziness is modelled.
- SudokuEvaluator: the board is fixed at 81 cells, and `SudokuBoard` values
  of other lengths are left out. A shorter list raises `IndexError` in the
  row, column, box and step scans; `InitializeSolver` and
  `is_board_complete` accept it. A longer list is scanned on its first 81
  cells only, while `is_board_complete` reads every element.
- SudokuBoards.Evolve: a `StepCompleted` index outside `-81..80` raises
  `IndexError` in the source. The model leaves the state unchanged.
  Negative indices in range follow Python and count from the end.
- SudokuBoards.Unhandled: the catch-all message is an f-string of the command
  and the state. The model keeps only their class names, so boards and grids
  are not printed into it.
- SudokuProcesses: the process's events are those of `types.py` without
  the boards they carry, which `react` never reads. Their names follow the
  `process.ProcessStepCompleted` and related names that `select_event` and
  `convert_command` use; `process.py` does not define those names either.
- SudokuProcesses.ConvertCommand: the process commands are the two that
  `react` issues, so the `RuntimeError` arm for any other command is left
  out.
- UpdateServer.Evolve: a `RequestedDownloadValid` for a version the table
  lacks raises `KeyError` in the source. The model leaves the state
  unchanged. `ValidDownloadsAreInTable` shows the decider never emits such an
  event.
- UpdateServer: the `client_id` of each command is carried but never used,
  as in the source.
- The gRPC transport (`server.py`), its thread pool and its test, and both
  `__main__` modules (printing demos) are left out. The Sudoku test module's
  grid and its expected outcome are left out too; only the saga it builds
  (`select_event`, `convert_command`, the adapter and `combine`) is
  modelled. The type modules `types.py` and `model.py` are used only for the
  datatypes' shapes.

## Findings

| source | as written | input that shows it | evidently intended | confidence | as-written member | corrected member |
|---|---|---|---|---|---|---|
| examples/sudoku_solver/sudoku_solver/process.py:17 | the first arm's pattern names `E.BoardInitialized`, a class the event vocabulary of `types.py` does not define, so matching any event that is not `StepCompleted` raises `AttributeError` | `react(state, BoardValidated(board))` raises instead of reaching its own arm | a completed step draws `CheckCompletion` and a validated board `RunSolverStep`, as the later arms say; a fresh board reaches the process as a completed step through `select_event` | not executed | SudokuProcesses.ReactAsWritten, SudokuProcesses.ReactAsWrittenRaisesOnValidated | SudokuProcesses.ProcessReact |
