/** The process layer of `pycider/processes.py` (repeated in
    `pycider/procs.py`).

    A process is a saga: it observes events, keeps a state of its own and
    reacts with follow-up commands. `Combine` couples a process with a
    decider into a single decider whose state is the pair (decider state,
    process state) and whose `decide` runs a FIFO work list: each dequeued
    command is decided, the new events are folded through the process, and
    the commands the process reacts with join the back of the queue.

    The work list is not guaranteed to empty. The model bounds it by `fuel`,
    the largest number of commands it will dequeue. */
module Processes {
  import opened Types
  import opened Deciders
  import opened Runner

  datatype Process<!E, C, !S> = Process(
    evolve: (S, E) -> S,
    resume: S -> seq<C>,
    react: (S, E) -> seq<C>,
    initialState: S,
    isTerminal: S -> bool)

  /** Events the selector drops are invisible to the inner process: the
      state stays as it is and there is no reaction. Selected events reach
      the inner process and its commands are converted one for one, in
      order. */
  function ProcessAdapt<EI(!new), CI(!new), S(!new), EO(!new), CO(!new)>(
    selectEvent: EI -> Option<EO>, convertCommand: CO -> CI, p: Process<EO, CO, S>)
    : (ap: Process<EI, CI, S>)
    ensures forall s, e :: selectEvent(e).None? ==> ap.evolve(s, e) == s
    ensures forall s, e :: selectEvent(e).None? ==> ap.react(s, e) == []
    ensures forall s, e :: selectEvent(e).Some? ==> ap.evolve(s, e) == p.evolve(s, selectEvent(e).value)
    ensures forall s, e :: selectEvent(e).Some? ==> ap.react(s, e) == MapSeq(convertCommand, p.react(s, selectEvent(e).value))
    ensures forall s :: ap.resume(s) == MapSeq(convertCommand, p.resume(s))
    ensures ap.initialState == p.initialState
    ensures forall s :: ap.isTerminal(s) == p.isTerminal(s)
  {
    Process(
      (s: S, e: EI) =>
        match selectEvent(e)
        case None => s
        case Some(eo) => p.evolve(s, eo),
      (s: S) => MapSeq(convertCommand, p.resume(s)),
      (s: S, e: EI) =>
        match selectEvent(e)
        case None => []
        case Some(eo) => MapSeq(convertCommand, p.react(s, eo)),
      p.initialState,
      (s: S) => p.isTerminal(s))
  }

  // ---------------------------------------------------------------------
  // process_collect_fold
  // ---------------------------------------------------------------------

  /** The process state after folding `evolve` over `events`. */
  function FoldState<E(!new), C(!new), S(!new)>(p: Process<E, C, S>, s: S, events: seq<E>): S
    decreases |events|
  {
    if events == [] then s else FoldState(p, p.evolve(s, events[0]), events[1..])
  }

  /** The commands a process reacts with over a batch: for each event in
      order, evolve first, then react on the new state and that event. */
  function CollectFold<E(!new), C(!new), S(!new)>(p: Process<E, C, S>, s: S, events: seq<E>): seq<C>
    decreases |events|
  {
    if events == [] then []
    else
      var s' := p.evolve(s, events[0]);
      p.react(s', events[0]) + CollectFold(p, s', events[1..])
  }

  /** `process_collect_fold`: pops events off the front of the batch and
      extends the collected commands. */
  method ProcessCollectFold<E(!new), C(!new), S(!new)>(p: Process<E, C, S>, state: S, events: seq<E>)
    returns (allCommands: seq<C>)
    ensures allCommands == CollectFold(p, state, events)
  {
    var s := state;
    var pending := events;
    allCommands := [];
    while pending != []
      invariant allCommands + CollectFold(p, s, pending) == CollectFold(p, state, events)
      decreases |pending|
    {
      var event := pending[0];
      pending := pending[1..];
      var newState := p.evolve(s, event);
      var commands := p.react(newState, event);
      allCommands := allCommands + commands;
      s := newState;
    }
  }

  /** The fold splits at any point: the second part starts from the state
      the first part reached. */
  lemma {:induction false} CollectFoldAppend<E(!new), C(!new), S(!new)>(p: Process<E, C, S>, s: S, a: seq<E>, b: seq<E>)
    ensures CollectFold(p, s, a + b) == CollectFold(p, s, a) + CollectFold(p, FoldState(p, s, a), b)
    ensures FoldState(p, s, a + b) == FoldState(p, FoldState(p, s, a), b)
    decreases |a|
  {
    if a == [] {
      assert a + b == b;
    } else {
      assert (a + b)[1..] == a[1..] + b;
      CollectFoldAppend(p, p.evolve(s, a[0]), a[1..], b);
    }
  }

  /** The reaction to a one-event batch. */
  lemma CollectFoldSingle<E(!new), C(!new), S(!new)>(p: Process<E, C, S>, s: S, e: E)
    ensures CollectFold(p, s, [e]) == p.react(p.evolve(s, e), e)
  {
    assert CollectFold(p, p.evolve(s, e), []) == [];
  }

  ghost predicate Silent<E(!new), C(!new), S(!new)>(p: Process<E, C, S>) {
    forall s, e :: p.react(s, e) == []
  }

  /** A process that never reacts collects nothing. */
  lemma {:induction false} CollectFoldSilent<E(!new), C(!new), S(!new)>(p: Process<E, C, S>, s: S, events: seq<E>)
    requires Silent(p)
    ensures CollectFold(p, s, events) == []
    decreases |events|
  {
    if events != [] {
      CollectFoldSilent(p, p.evolve(s, events[0]), events[1..]);
    }
  }

  // ---------------------------------------------------------------------
  // ProcessCombineWithDecider.combine
  // ---------------------------------------------------------------------

  /** The work list from `queue` on, with `acc` the events gathered so far.
      Every command is decided against the ORIGINAL decider half `s.0`, and
      every batch is folded through the process from the ORIGINAL process
      half `s.1`. `None` means the fuel ran out with commands still queued. */
  function CombineLoop<E(!new), C(!new), DS(!new), PS(!new)>(
    p: Process<E, C, PS>, d: Decider<E, C, DS>, s: (DS, PS), queue: seq<C>, acc: seq<E>, fuel: nat)
    : Option<seq<E>>
    decreases fuel
  {
    if queue == [] then Some(acc)
    else if fuel == 0 then None
    else
      var newEvents := d.decide(queue[0], s.0);
      CombineLoop(p, d, s, queue[1..] + CollectFold(p, s.1, newEvents), acc + newEvents, fuel - 1)
  }

  /** The commands the work list dequeues, in order. */
  function CombineTrace<E(!new), C(!new), DS(!new), PS(!new)>(
    p: Process<E, C, PS>, d: Decider<E, C, DS>, s: (DS, PS), queue: seq<C>, fuel: nat): seq<C>
    decreases fuel
  {
    if queue == [] || fuel == 0 then []
    else
      var newEvents := d.decide(queue[0], s.0);
      [queue[0]] + CombineTrace(p, d, s, queue[1..] + CollectFold(p, s.1, newEvents), fuel - 1)
  }

  /** The events of deciding each command against the same state, concatenated. */
  function Batches<E(!new), C(!new), S(!new)>(d: Decider<E, C, S>, s: S, commands: seq<C>): seq<E>
    decreases |commands|
  {
    if commands == [] then [] else d.decide(commands[0], s) + Batches(d, s, commands[1..])
  }

  /** The process reactions to each command's batch, each fold from `s.1`. */
  function Reactions<E(!new), C(!new), DS(!new), PS(!new)>(
    p: Process<E, C, PS>, d: Decider<E, C, DS>, s: (DS, PS), commands: seq<C>): seq<C>
    decreases |commands|
  {
    if commands == [] then []
    else CollectFold(p, s.1, d.decide(commands[0], s.0)) + Reactions(p, d, s, commands[1..])
  }

  /** The combined decider. Its `decide` is the work list (or no events if
      the fuel runs out, where the source recurses once per dequeued
      command and raises `RecursionError` at Python's recursion limit); both
      halves evolve on every event; it is terminal when both halves are. */
  function Combine<E(!new), C(!new), DS(!new), PS(!new)>(p: Process<E, C, PS>, d: Decider<E, C, DS>, fuel: nat)
    : (cd: Decider<E, C, (DS, PS)>)
    ensures forall c, s :: cd.decide(c, s) == CombineLoop(p, d, s, [c], [], fuel).GetOr([])
    ensures forall s, e :: cd.evolve(s, e) == (d.evolve(s.0, e), p.evolve(s.1, e))
    ensures cd.initialState == (d.initialState, p.initialState)
    ensures forall s :: cd.isTerminal(s) <==> d.isTerminal(s.0) && p.isTerminal(s.1)
  {
    BaseDecider(
      (c: C, s: (DS, PS)) => CombineLoop(p, d, s, [c], [], fuel).GetOr([]),
      (s: (DS, PS), e: E) => (d.evolve(s.0, e), p.evolve(s.1, e)),
      (d.initialState, p.initialState),
      (s: (DS, PS)) => d.isTerminal(s.0) && p.isTerminal(s.1))
  }

  /** The combined `decide` loop: pop a command, decide it against `state.0`,
      fold the new events through the process from `state.1`, enqueue the
      reactions, until the queue is empty (or the fuel is spent). */
  method CombineDecide<E(!new), C(!new), DS(!new), PS(!new)>(
    p: Process<E, C, PS>, d: Decider<E, C, DS>, command: C, state: (DS, PS), fuel: nat)
    returns (result: Option<seq<E>>)
    ensures result == CombineLoop(p, d, state, [command], [], fuel)
  {
    var commands := [command];
    var allEvents := [];
    var budget := fuel;
    while commands != [] && budget > 0
      invariant CombineLoop(p, d, state, commands, allEvents, budget) == CombineLoop(p, d, state, [command], [], fuel)
      decreases budget
    {
      var c := commands[0];
      commands := commands[1..];
      var newEvents := d.decide(c, state.0);
      var newCommands := ProcessCollectFold(p, state.1, newEvents);
      commands := commands + newCommands;
      allEvents := allEvents + newEvents;
      budget := budget - 1;
    }
    if commands == [] {
      result := Some(allEvents);
    } else {
      result := None;
    }
  }

  lemma {:induction false} CombineLoopShape<E(!new), C(!new), DS(!new), PS(!new)>(
    p: Process<E, C, PS>, d: Decider<E, C, DS>, s: (DS, PS), queue: seq<C>, acc: seq<E>, fuel: nat)
    requires CombineLoop(p, d, s, queue, acc, fuel).Some?
    ensures CombineLoop(p, d, s, queue, acc, fuel).value == acc + Batches(d, s.0, CombineTrace(p, d, s, queue, fuel))
    ensures queue + Reactions(p, d, s, CombineTrace(p, d, s, queue, fuel)) == CombineTrace(p, d, s, queue, fuel)
    decreases fuel
  {
    if queue != [] {
      var newEvents := d.decide(queue[0], s.0);
      var reaction := CollectFold(p, s.1, newEvents);
      var queue' := queue[1..] + reaction;
      var t' := CombineTrace(p, d, s, queue', fuel - 1);
      CombineLoopShape(p, d, s, queue', acc + newEvents, fuel - 1);
      assert CombineTrace(p, d, s, queue, fuel) == [queue[0]] + t';
      assert Reactions(p, d, s, [queue[0]] + t') == reaction + Reactions(p, d, s, t') by {
        assert ([queue[0]] + t')[1..] == t';
      }
      assert Batches(d, s.0, [queue[0]] + t') == newEvents + Batches(d, s.0, t') by {
        assert ([queue[0]] + t')[1..] == t';
      }
      assert queue == [queue[0]] + queue[1..];
    }
  }

  /** The fixed point the work list reaches. When it empties, the commands
      it dequeued are the input command followed, in FIFO order, by the
      process's reactions to each dequeued command's events (every fold from
      the original process state), and the events returned are the batches
      of those commands, in the same order, each decided against the
      original decider state. */
  lemma CombineFixedPoint<E(!new), C(!new), DS(!new), PS(!new)>(
    p: Process<E, C, PS>, d: Decider<E, C, DS>, s: (DS, PS), c: C, fuel: nat)
    requires CombineLoop(p, d, s, [c], [], fuel).Some?
    ensures var trace := CombineTrace(p, d, s, [c], fuel);
      && trace == [c] + Reactions(p, d, s, trace)
      && CombineLoop(p, d, s, [c], [], fuel).value == Batches(d, s.0, trace)
  {
    CombineLoopShape(p, d, s, [c], [], fuel);
  }

  /** The first batch is the input command decided against the original
      decider state. */
  lemma CombineFirstBatch<E(!new), C(!new), DS(!new), PS(!new)>(
    p: Process<E, C, PS>, d: Decider<E, C, DS>, s: (DS, PS), c: C, fuel: nat)
    requires CombineLoop(p, d, s, [c], [], fuel).Some?
    ensures var es := CombineLoop(p, d, s, [c], [], fuel).value;
      |d.decide(c, s.0)| <= |es| && es[..|d.decide(c, s.0)|] == d.decide(c, s.0)
  {
    CombineFixedPoint(p, d, s, c, fuel);
    var trace := CombineTrace(p, d, s, [c], fuel);
    assert trace[0] == c;
    assert Batches(d, s.0, trace) == d.decide(c, s.0) + Batches(d, s.0, trace[1..]);
  }

  /** With a process that never reacts, the combined `decide` is exactly the
      decider's own `decide` on the original decider state. */
  lemma CombineSilent<E(!new), C(!new), DS(!new), PS(!new)>(
    p: Process<E, C, PS>, d: Decider<E, C, DS>, s: (DS, PS), c: C, fuel: nat)
    requires Silent(p) && fuel >= 1
    ensures CombineLoop(p, d, s, [c], [], fuel) == Some(d.decide(c, s.0))
  {
    CollectFoldSilent(p, s.1, d.decide(c, s.0));
    CombineUnreactive(p, d, s, c, fuel);
  }

  /** When the process draws no command from the input command's events,
      the work list stops after one step with exactly those events. */
  lemma CombineUnreactive<E(!new), C(!new), DS(!new), PS(!new)>(
    p: Process<E, C, PS>, d: Decider<E, C, DS>, s: (DS, PS), c: C, fuel: nat)
    requires fuel >= 1
    requires CollectFold(p, s.1, d.decide(c, s.0)) == []
    ensures CombineLoop(p, d, s, [c], [], fuel) == Some(d.decide(c, s.0))
  {
    assert [c][1..] + CollectFold(p, s.1, d.decide(c, s.0)) == [];
    assert [] + d.decide(c, s.0) == d.decide(c, s.0);
  }

  /** When the process answers the input command's events with a single
      command that, decided against the same original state, has no events,
      the work list stops after two steps with the first command's events. */
  lemma CombineIdleReaction<E(!new), C(!new), DS(!new), PS(!new)>(
    p: Process<E, C, PS>, d: Decider<E, C, DS>, s: (DS, PS), c: C, r: C, fuel: nat)
    requires fuel >= 2
    requires CollectFold(p, s.1, d.decide(c, s.0)) == [r]
    requires d.decide(r, s.0) == []
    ensures CombineLoop(p, d, s, [c], [], fuel) == Some(d.decide(c, s.0))
  {
    var es := d.decide(c, s.0);
    assert [c][1..] + [r] == [r];
    assert [] + es == es;
    assert CollectFold(p, s.1, []) == [];
    assert [r][1..] + [] == [];
    assert es + [] == es;
    assert CombineLoop(p, d, s, [c], [], fuel)
        == CombineLoop(p, d, s, [r], es, fuel - 1)
        == CombineLoop(p, d, s, [], es, fuel - 2);
  }

  /** When the process answers the input command's events with a single
      command `r`, and `r`'s own events (decided against the same original
      state) draw no further command, the work list stops after two steps
      with both batches in order. */
  lemma CombineOneReaction<E(!new), C(!new), DS(!new), PS(!new)>(
    p: Process<E, C, PS>, d: Decider<E, C, DS>, s: (DS, PS), c: C, r: C, fuel: nat)
    requires fuel >= 2
    requires CollectFold(p, s.1, d.decide(c, s.0)) == [r]
    requires CollectFold(p, s.1, d.decide(r, s.0)) == []
    ensures CombineLoop(p, d, s, [c], [], fuel) == Some(d.decide(c, s.0) + d.decide(r, s.0))
  {
    var es := d.decide(c, s.0);
    assert [c][1..] + [r] == [r];
    assert [] + es == es;
    assert [r][1..] + [] == [];
    assert CombineLoop(p, d, s, [c], [], fuel)
        == CombineLoop(p, d, s, [r], es, fuel - 1)
        == CombineLoop(p, d, s, [], es + d.decide(r, s.0), fuel - 2);
  }

  /** Submitting to the combined decider a command whose work list yields
      one event moves each half by that event. */
  lemma CombineSubmitOne<E(!new), C(!new), DS(!new), PS(!new)>(
    p: Process<E, C, PS>, d: Decider<E, C, DS>, s: (DS, PS), c: C, e: E, fuel: nat)
    requires CombineLoop(p, d, s, [c], [], fuel) == Some([e])
    ensures Combine(p, d, fuel).decide(c, s) == [e]
    ensures Submit(Combine(p, d, fuel), s, c) == (d.evolve(s.0, e), p.evolve(s.1, e))
  {
    SubmitOneEvent(Combine(p, d, fuel), s, c, e);
  }

  /** Submitting to the combined decider a command whose work list yields
      two events moves each half by both, in order. */
  lemma CombineSubmitTwo<E(!new), C(!new), DS(!new), PS(!new)>(
    p: Process<E, C, PS>, d: Decider<E, C, DS>, s: (DS, PS), c: C, e1: E, e2: E, fuel: nat)
    requires CombineLoop(p, d, s, [c], [], fuel) == Some([e1, e2])
    ensures Combine(p, d, fuel).decide(c, s) == [e1, e2]
    ensures Submit(Combine(p, d, fuel), s, c)
      == (d.evolve(d.evolve(s.0, e1), e2), p.evolve(p.evolve(s.1, e1), e2))
  {
    SubmitTwoEvents(Combine(p, d, fuel), s, c, e1, e2);
  }
}
