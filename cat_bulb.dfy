/** The Cat decider of `tests/test_compositions.py`: a cat is awake or asleep;
    it can be told to wake up or to go to sleep. */
module Cats {
  import opened Deciders
  import opened Runner

  datatype Command = WakeUp | GetToSleep
  datatype Event = GotToSleep | WokeUp
  datatype State = Asleep | Awake

  /** Waking up emits `WokeUp` only from `Asleep`; going to sleep emits
      `GotToSleep` only from `Awake`; every other pair emits nothing. */
  function Decide(c: Command, s: State): (events: seq<Event>)
    ensures |events| <= 1
    ensures events == [WokeUp] <==> c == WakeUp && s == Asleep
    ensures events == [GotToSleep] <==> c == GetToSleep && s == Awake
  {
    match (c, s)
    case (WakeUp, Asleep) => [WokeUp]
    case (GetToSleep, Awake) => [GotToSleep]
    case _ => []
  }

  function Evolve(s: State, e: Event): (s': State)
    ensures s == Awake && e == GotToSleep ==> s' == Asleep
    ensures s == Asleep && e == WokeUp ==> s' == Awake
    ensures !(s == Awake && e == GotToSleep) && !(s == Asleep && e == WokeUp) ==> s' == s
  {
    match (s, e)
    case (Awake, GotToSleep) => Asleep
    case (Asleep, WokeUp) => Awake
    case _ => s
  }

  /** A cat starts awake and is never finished. */
  function Cat(): (d: Decider<Event, Command, State>)
    ensures d.initialState == Awake
    ensures forall s :: !d.isTerminal(s)
    ensures forall c, s :: d.decide(c, s) == Decide(c, s)
    ensures forall s, e :: d.evolve(s, e) == Evolve(s, e)
  {
    BaseDecider(Decide, Evolve, Awake, (s: State) => false)
  }

  /** Each command drives the cat to its target state from either state,
      emitting an event exactly when the state changes. */
  lemma CommandsReachTarget(s: State)
    ensures Submit(Cat(), s, WakeUp) == Awake
    ensures Submit(Cat(), s, GetToSleep) == Asleep
    ensures Cat().decide(WakeUp, s) == [] <==> s == Awake
    ensures Cat().decide(GetToSleep, s) == [] <==> s == Asleep
  {
    assert EvolveAll(Cat(), Awake, []) == Awake;
    assert EvolveAll(Cat(), Asleep, []) == Asleep;
    assert EvolveAll(Cat(), Asleep, [WokeUp]) == EvolveAll(Cat(), Awake, []);
    assert EvolveAll(Cat(), Awake, [GotToSleep]) == EvolveAll(Cat(), Asleep, []);
  }
}

/** The Bulb decider of `tests/test_compositions.py`: a bulb is fitted with a
    number of uses, switched on and off, and blows when switched on with no
    uses left. */
module Bulbs {
  import opened Deciders
  import opened Runner

  datatype Command = Fit(maxUses: int) | SwitchOn | SwitchOff
  datatype Event = Fitted(maxUses: int) | SwitchedOn | SwitchedOff | Blew
  datatype State = NotFitted | Working(isOn: bool, remainingUses: int) | Blown

  /** First matching arm wins: fitting works only on an unfitted bulb;
      switching on an off bulb succeeds while uses remain and blows it
      otherwise; switching off works only on an on bulb. */
  function Decide(c: Command, s: State): (events: seq<Event>)
    ensures |events| <= 1
    ensures c.Fit? && s.NotFitted? ==> events == [Fitted(c.maxUses)]
    ensures c.SwitchOn? && s.Working? && !s.isOn ==> events == (if s.remainingUses > 0 then [SwitchedOn] else [Blew])
    ensures c.SwitchOff? && s.Working? && s.isOn ==> events == [SwitchedOff]
    ensures events == [] <==>
      !(c.Fit? && s.NotFitted?) && !(c.SwitchOn? && s.Working? && !s.isOn) && !(c.SwitchOff? && s.Working? && s.isOn)
  {
    match (c, s)
    case (Fit(maxUses), NotFitted) => [Fitted(maxUses)]
    case (SwitchOn, Working(false, remainingUses)) =>
      if remainingUses > 0 then [SwitchedOn] else [Blew]
    case (SwitchOff, Working(true, _)) => [SwitchedOff]
    case _ => []
  }

  function Evolve(s: State, e: Event): (s': State)
    ensures s.NotFitted? && e.Fitted? ==> s' == Working(false, e.maxUses)
    ensures s.Working? && e.SwitchedOn? ==> s' == Working(true, s.remainingUses - 1)
    ensures s.Working? && e.SwitchedOff? ==> s' == Working(false, s.remainingUses)
    ensures s.Working? && e.Blew? ==> s' == Blown
    ensures s.Blown? || (s.NotFitted? && !e.Fitted?) || (s.Working? && e.Fitted?) ==> s' == s
  {
    match (s, e)
    case (NotFitted, Fitted(maxUses)) => Working(false, maxUses)
    case (Working(_, remainingUses), SwitchedOn) => Working(true, remainingUses - 1)
    case (Working(_, remainingUses), SwitchedOff) => Working(false, remainingUses)
    case (Working(_, _), Blew) => Blown
    case _ => s
  }

  /** A bulb starts unfitted and is finished exactly when blown. */
  function Bulb(): (d: Decider<Event, Command, State>)
    ensures d.initialState == NotFitted
    ensures forall s :: d.isTerminal(s) <==> s.Blown?
    ensures forall c, s :: d.decide(c, s) == Decide(c, s)
    ensures forall s, e :: d.evolve(s, e) == Evolve(s, e)
  {
    BaseDecider(Decide, Evolve, NotFitted, (s: State) => s.Blown?)
  }

  /** Once fitted, no sequence of events ever raises the remaining uses:
      the bulb stays working with at most as many uses, or it is blown. */
  lemma {:induction false} RemainingUsesNeverIncrease(s: State, events: seq<Event>)
    requires s.Working?
    ensures var s' := EvolveAll(Bulb(), s, events);
      s'.Blown? || (s'.Working? && s'.remainingUses <= s.remainingUses)
    decreases |events|
  {
    if events != [] {
      var next := Evolve(s, events[0]);
      if next.Blown? {
        BlownIsAbsorbing(events[1..]);
      } else {
        RemainingUsesNeverIncrease(next, events[1..]);
      }
    }
  }

  /** A blown bulb stays blown whatever happens to it. */
  lemma {:induction false} BlownIsAbsorbing(events: seq<Event>)
    ensures EvolveAll(Bulb(), Blown, events) == Blown
    decreases |events|
  {
    if events != [] {
      BlownIsAbsorbing(events[1..]);
    }
  }

  /** The life of a bulb, one submission at a time: fitting sets the uses,
      switching on spends one use (or blows the bulb when none is left),
      switching off keeps the uses; switching on an unfitted bulb is an
      unmatched pair and changes nothing. */
  lemma Lifecycle(n: int)
    ensures Submit(Bulb(), NotFitted, Fit(n)) == Working(false, n)
    ensures Submit(Bulb(), Working(false, n), SwitchOn) == if n > 0 then Working(true, n - 1) else Blown
    ensures Submit(Bulb(), Working(true, n), SwitchOff) == Working(false, n)
    ensures Submit(Bulb(), NotFitted, SwitchOn) == NotFitted
  {
    SubmitOneEvent(Bulb(), NotFitted, Fit(n), Fitted(n));
    if n > 0 {
      SubmitOneEvent(Bulb(), Working(false, n), SwitchOn, SwitchedOn);
    } else {
      SubmitOneEvent(Bulb(), Working(false, n), SwitchOn, Blew);
    }
    SubmitOneEvent(Bulb(), Working(true, n), SwitchOff, SwitchedOff);
    SubmitNoEvents(Bulb(), NotFitted, SwitchOn);
  }
}

/** The CatLight process (`pycider/procs.py`, repeated in
    `tests/test_compositions.py`): when the light is switched on it wants the
    cat woken up. */
module CatLights {
  import opened Processes

  datatype Event = SwitchedOn | WokeUp
  datatype Command = WakeUp
  datatype State = Idle | WakingUp

  function Evolve(s: State, e: Event): (s': State)
    ensures e == SwitchedOn ==> s' == WakingUp
    ensures e == WokeUp ==> s' == Idle
  {
    match e
    case SwitchedOn => WakingUp
    case WokeUp => Idle
  }

  /** Only a light switched on while waking the cat asks for `WakeUp`. */
  function React(s: State, e: Event): (commands: seq<Command>)
    ensures commands == [WakeUp] <==> s == WakingUp && e == SwitchedOn
    ensures commands == [] <==> !(s == WakingUp && e == SwitchedOn)
  {
    match (s, e)
    case (WakingUp, SwitchedOn) => [WakeUp]
    case _ => []
  }

  /** Resuming a light that is waking the cat re-issues `WakeUp`. */
  function Resume(s: State): (commands: seq<Command>)
    ensures commands == [WakeUp] <==> s == WakingUp
    ensures commands == [] <==> s == Idle
  {
    match s
    case WakingUp => [WakeUp]
    case _ => []
  }

  function CatLight(): (p: Process<Event, Command, State>)
    ensures p.initialState == Idle
    ensures forall s :: p.isTerminal(s) <==> s == Idle
    ensures forall s, e :: p.evolve(s, e) == Evolve(s, e)
    ensures forall s, e :: p.react(s, e) == React(s, e)
    ensures forall s :: p.resume(s) == Resume(s)
  {
    Process(Evolve, Resume, React, Idle, (s: State) => s == Idle)
  }

  function CountSwitchedOn(events: seq<Event>): (n: nat)
    ensures n <= |events|
    decreases |events|
  {
    if events == [] then 0 else (if events[0] == SwitchedOn then 1 else 0) + CountSwitchedOn(events[1..])
  }

  /** Folded over any batch, from any state, the light asks for exactly one
      `WakeUp` per `SwitchedOn` in the batch: the evolve-then-react order
      means every `SwitchedOn` is seen in the `WakingUp` state. */
  lemma {:induction false} CollectFoldCountsSwitchOns(s: State, events: seq<Event>)
    ensures CollectFold(CatLight(), s, events) == seq(CountSwitchedOn(events), _ => WakeUp)
    decreases |events|
  {
    if events != [] {
      var s' := Evolve(s, events[0]);
      CollectFoldCountsSwitchOns(s', events[1..]);
      var rest := seq(CountSwitchedOn(events[1..]), _ => WakeUp);
      if events[0] == SwitchedOn {
        assert [WakeUp] + rest == seq(CountSwitchedOn(events), _ => WakeUp);
      } else {
        assert [] + rest == rest;
      }
    }
  }
}
