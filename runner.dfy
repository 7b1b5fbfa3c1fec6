/** The in-memory runner the tests drive (`pycider.utils.InMemory`, which is
    not part of the repository's shown code). It is test harness, not
    library: it holds one decider and its current state, and each submitted
    command is decided against the current state, after which `evolve` is
    folded over the returned events in order. */
module Runner {
  import opened Deciders

  /** The state reached by folding `evolve` over `events`, left to right. */
  function EvolveAll<E(!new), C(!new), S(!new)>(d: Decider<E, C, S>, s: S, events: seq<E>): S
    decreases |events|
  {
    if events == [] then s else EvolveAll(d, d.evolve(s, events[0]), events[1..])
  }

  /** One submission: decide against the current state, then fold. */
  function Submit<E(!new), C(!new), S(!new)>(d: Decider<E, C, S>, s: S, c: C): S {
    EvolveAll(d, s, d.decide(c, s))
  }

  /** A sequence of submissions, in order. */
  function RunAll<E(!new), C(!new), S(!new)>(d: Decider<E, C, S>, s: S, commands: seq<C>): S
    decreases |commands|
  {
    if commands == [] then s else RunAll(d, Submit(d, s, commands[0]), commands[1..])
  }

  lemma {:induction false} EvolveAllAppend<E(!new), C(!new), S(!new)>(d: Decider<E, C, S>, s: S, a: seq<E>, b: seq<E>)
    ensures EvolveAll(d, s, a + b) == EvolveAll(d, EvolveAll(d, s, a), b)
    decreases |a|
  {
    if a == [] {
      assert a + b == b;
    } else {
      assert (a + b)[1..] == a[1..] + b;
      EvolveAllAppend(d, d.evolve(s, a[0]), a[1..], b);
    }
  }

  /** A decision with no events leaves the state as it was. */
  lemma SubmitNoEvents<E(!new), C(!new), S(!new)>(d: Decider<E, C, S>, s: S, c: C)
    requires d.decide(c, s) == []
    ensures Submit(d, s, c) == s
  {
  }

  /** A decision with one event moves the state by that event. */
  lemma SubmitOneEvent<E(!new), C(!new), S(!new)>(d: Decider<E, C, S>, s: S, c: C, e: E)
    requires d.decide(c, s) == [e]
    ensures Submit(d, s, c) == d.evolve(s, e)
  {
    assert [e][1..] == [];
    assert EvolveAll(d, s, [e]) == EvolveAll(d, d.evolve(s, e), []);
  }

  /** A decision with two events moves the state by both, in order. */
  lemma SubmitTwoEvents<E(!new), C(!new), S(!new)>(d: Decider<E, C, S>, s: S, c: C, e1: E, e2: E)
    requires d.decide(c, s) == [e1, e2]
    ensures Submit(d, s, c) == d.evolve(d.evolve(s, e1), e2)
  {
    assert [e1, e2][1..] == [e2];
    assert [e2][1..] == [];
    assert EvolveAll(d, s, [e1, e2]) == EvolveAll(d, d.evolve(s, e1), [e2]);
  }

  class InMemory<E(!new), C(!new), S(!new)> {
    const decider: Decider<E, C, S>
    var state: S

    constructor (d: Decider<E, C, S>)
      ensures decider == d && state == d.initialState
    {
      decider := d;
      state := d.initialState;
    }

    /** Submit one command: the events are those `decide` returns for the
        current state, and the new state folds `evolve` over them. */
    method Call(command: C) returns (events: seq<E>)
      modifies this
      ensures events == decider.decide(command, old(state))
      ensures state == EvolveAll(decider, old(state), events)
    {
      events := decider.decide(command, state);
      var i := 0;
      while i < |events|
        invariant 0 <= i <= |events|
        invariant EvolveAll(decider, state, events[i..]) == EvolveAll(decider, old(state), events)
      {
        assert events[i..][1..] == events[i + 1..];
        state := decider.evolve(state, events[i]);
        i := i + 1;
      }
    }
  }
}
