/** The three scenarios of `tests/test_compositions.py`, each driven through
    the in-memory runner, with the final state the test asserts stated as
    the method's postcondition. */
module CompositionScenarios {
  import opened Types
  import opened Deciders
  import opened Runner
  import opened Processes
  import opened CompositionLaws
  import Cats
  import Bulbs
  import CatLights

  type CatBulbEvent = Either<Cats.Event, Bulbs.Event>
  type CatBulbCommand = Either<Cats.Command, Bulbs.Command>

  function CatAndBulbDecider(): Decider<CatBulbEvent, CatBulbCommand, (Cats.State, Bulbs.State)> {
    Compose(Cats.Cat(), Bulbs.Bulb())
  }

  /** The composed cat and bulb, stated on the two deciders' own functions:
      a cat command is decided by the cat alone, a bulb command by the bulb
      alone, and an event moves only the half it belongs to. */
  lemma CatAndBulbSteps(s: (Cats.State, Bulbs.State))
    ensures forall c :: CatAndBulbDecider().decide(Left(c), s) == Lefts(Cats.Decide(c, s.0))
    ensures forall c :: CatAndBulbDecider().decide(Right(c), s) == Rights(Bulbs.Decide(c, s.1))
    ensures forall e :: CatAndBulbDecider().evolve(s, Left(e)) == (Cats.Evolve(s.0, e), s.1)
    ensures forall e :: CatAndBulbDecider().evolve(s, Right(e)) == (s.0, Bulbs.Evolve(s.1, e))
  {
  }

  /** `test_cat_and_bulb`: the cat is woken (already awake: nothing), put to
      sleep; the bulb is fitted with five uses, switched on and off. The cat
      ends asleep and the bulb off with four uses left. */
  method CatAndBulb() returns (final: (Cats.State, Bulbs.State))
    ensures final == (Cats.Asleep, Bulbs.Working(false, 4))
  {
    var cat, bulb := Cats.Cat(), Bulbs.Bulb();
    var cnb := new InMemory(CatAndBulbDecider());
    Cats.CommandsReachTarget(Cats.Awake);
    ComposeSubmitLeft(cat, bulb, cnb.state, Cats.WakeUp);
    var events := cnb.Call(Left(Cats.WakeUp));
    ComposeSubmitLeft(cat, bulb, cnb.state, Cats.GetToSleep);
    events := cnb.Call(Left(Cats.GetToSleep));
    Bulbs.Lifecycle(5);
    ComposeSubmitRight(cat, bulb, cnb.state, Bulbs.Fit(5));
    events := cnb.Call(Right(Bulbs.Fit(5)));
    ComposeSubmitRight(cat, bulb, cnb.state, Bulbs.SwitchOn);
    events := cnb.Call(Right(Bulbs.SwitchOn));
    Bulbs.Lifecycle(4);
    ComposeSubmitRight(cat, bulb, cnb.state, Bulbs.SwitchOff);
    events := cnb.Call(Right(Bulbs.SwitchOff));
    final := cnb.state;
  }

  function ManyCatsDecider(): Decider<(string, Cats.Event), (string, Cats.Command), map<string, Cats.State>> {
    Many(Cats.Cat())
  }

  /** One command to a named cat moves that cat (a new name starts awake)
      to the command's target state, recording it only when it changed. */
  lemma ManyCatsSubmit(m: map<string, Cats.State>, id: string, c: Cats.Command)
    ensures var target := if c == Cats.WakeUp then Cats.Awake else Cats.Asleep;
      Submit(ManyCatsDecider(), m, (id, c))
      == if Lookup(Cats.Cat(), m, id) == target then m else m[id := target]
  {
    Cats.CommandsReachTarget(Lookup(Cats.Cat(), m, id));
    ManySubmit(Cats.Cat(), m, id, c);
  }

  /** Submits one command to a named cat through the runner. */
  method CallCat(cats: InMemory<(string, Cats.Event), (string, Cats.Command), map<string, Cats.State>>, id: string, c: Cats.Command)
    requires cats.decider == ManyCatsDecider()
    modifies cats
    ensures var target := if c == Cats.WakeUp then Cats.Awake else Cats.Asleep;
      cats.state == if Lookup(Cats.Cat(), old(cats.state), id) == target then old(cats.state) else old(cats.state)[id := target]
  {
    var before := cats.state;
    var events := cats.Call((id, c));
    ManyCatsSubmit(before, id, c);
  }

  /** `test_in_memory_many_cats`: two cats addressed by name. "boulette" is
      put to sleep and woken; "guevara" is woken (a cat seen for the first
      time is awake, so nothing happens) and put to sleep. */
  method ManyCats() returns (boulette: Cats.State, guevara: Cats.State)
    ensures boulette == Cats.Awake
    ensures guevara == Cats.Asleep
  {
    var cats := new InMemory(ManyCatsDecider());
    CallCat(cats, "boulette", Cats.GetToSleep);
    CallCat(cats, "boulette", Cats.WakeUp);
    CallCat(cats, "guevara", Cats.WakeUp);
    CallCat(cats, "guevara", Cats.GetToSleep);
    assert cats.state == map["boulette" := Cats.Awake, "guevara" := Cats.Asleep];
    boulette := cats.state["boulette"];
    guevara := cats.state["guevara"];
  }

  /** The event selector of `test_compose_process`: the cat waking up and
      the bulb switching on are the two events the light process sees. */
  function SelectEvent(e: CatBulbEvent): (r: Option<CatLights.Event>)
    ensures r == Some(CatLights.WokeUp) <==> e == Left(Cats.WokeUp)
    ensures r == Some(CatLights.SwitchedOn) <==> e == Right(Bulbs.SwitchedOn)
    ensures r.None? <==> e != Left(Cats.WokeUp) && e != Right(Bulbs.SwitchedOn)
  {
    if e == Left(Cats.WokeUp) then Some(CatLights.WokeUp)
    else if e == Right(Bulbs.SwitchedOn) then Some(CatLights.SwitchedOn)
    else None
  }

  /** The command converter of `test_compose_process`: the light's `WakeUp`
      is the cat's `WakeUp`, tagged for the left half. */
  function CommandConverter(c: CatLights.Command): (r: CatBulbCommand)
    ensures r.Left? && r.left == Cats.WakeUp
  {
    Left(Cats.WakeUp)
  }

  /** The adapted light process of `test_compose_process`. */
  function LightProcess(): Process<CatBulbEvent, CatBulbCommand, CatLights.State> {
    ProcessAdapt(SelectEvent, CommandConverter, CatLights.CatLight())
  }

  type CatBulbLightState = ((Cats.State, Bulbs.State), CatLights.State)

  /** The light process combined with the cat and bulb, its work list
      bounded by `fuel` commands per decision. */
  function CatBulbLight(fuel: nat): Decider<CatBulbEvent, CatBulbCommand, CatBulbLightState> {
    Combine(LightProcess(), CatAndBulbDecider(), fuel)
  }

  /** The adapted light reacts to exactly one event, the bulb switching
      on, and then asks to wake the cat; every other event, from any light
      state, draws no command. */
  lemma LightReactions(s: CatLights.State, e: CatBulbEvent)
    ensures CollectFold(LightProcess(), s, [e]) == if e == Right(Bulbs.SwitchedOn) then [Left(Cats.WakeUp)] else []
  {
    CollectFoldSingle(LightProcess(), s, e);
  }

  /** A command whose single event draws no reaction from the light is
      decided as the composed cat and bulb alone decide it. */
  lemma UnreactiveDecision(fuel: nat, c: CatBulbCommand, s: CatBulbLightState, e: CatBulbEvent)
    requires fuel >= 1
    requires CatAndBulbDecider().decide(c, s.0) == [e]
    requires e != Right(Bulbs.SwitchedOn)
    ensures CatBulbLight(fuel).decide(c, s) == [e]
  {
    LightReactions(s.1, e);
    CombineUnreactive(LightProcess(), CatAndBulbDecider(), s, c, fuel);
  }

  /** A command that switches the bulb on: the light asks to wake the cat,
      and that `WakeUp` is decided against the cat's state from before the
      command. When the cat is awake it adds nothing, so the decision is
      the bulb's event alone, after two commands are dequeued. */
  lemma SwitchOnDecision(fuel: nat, c: CatBulbCommand, s: CatBulbLightState)
    requires fuel >= 2
    requires CatAndBulbDecider().decide(c, s.0) == [Right(Bulbs.SwitchedOn)]
    requires s.0.0 == Cats.Awake
    ensures CatBulbLight(fuel).decide(c, s) == [Right(Bulbs.SwitchedOn)]
  {
    LightReactions(s.1, Right(Bulbs.SwitchedOn));
    assert CatAndBulbDecider().decide(Left(Cats.WakeUp), s.0) == [];
    CombineIdleReaction(LightProcess(), CatAndBulbDecider(), s, c, Left(Cats.WakeUp), fuel);
  }

  /** The adapted light wakes up when the bulb is switched on, goes idle
      when the cat wakes up, and ignores every other event. */
  lemma LightEvolve(s: CatLights.State, e: CatBulbEvent)
    ensures LightProcess().evolve(s, e)
         == if e == Left(Cats.WokeUp) then CatLights.Idle
            else if e == Right(Bulbs.SwitchedOn) then CatLights.WakingUp
            else s
  {
  }

  /** Both halves of the combined state evolve on every event: the cat and
      bulb pair as the composed decider says, the light as the adapted
      process says. */
  lemma CatBulbLightEvolve(fuel: nat, s: CatBulbLightState, e: CatBulbEvent)
    ensures CatBulbLight(fuel).evolve(s, e) == (CatAndBulbDecider().evolve(s.0, e), LightProcess().evolve(s.1, e))
  {
  }

  /** Submits one command whose combined decision is the single event `e`
      through the runner. */
  method CallCatBulbLight(catB: InMemory<CatBulbEvent, CatBulbCommand, CatBulbLightState>, fuel: nat, c: CatBulbCommand, ghost e: CatBulbEvent)
    requires catB.decider == CatBulbLight(fuel)
    requires CatBulbLight(fuel).decide(c, catB.state) == [e]
    modifies catB
    ensures catB.state == CatBulbLight(fuel).evolve(old(catB.state), e)
  {
    var before := catB.state;
    var events := catB.Call(c);
    SubmitOneEvent(CatBulbLight(fuel), before, c, e);
  }

  /** A cat command with one event: the combined decision is that event
      (the light never reacts to the cat), the cat moves by it, the bulb
      stays, and the light follows its own evolve. */
  lemma CatCommandStep(fuel: nat, s: CatBulbLightState, c: Cats.Command, e: Cats.Event)
    requires fuel >= 1
    requires Cats.Decide(c, s.0.0) == [e]
    ensures CatBulbLight(fuel).decide(Left(c), s) == [Left(e)]
    ensures CatBulbLight(fuel).evolve(s, Left(e)) == ((Cats.Evolve(s.0.0, e), s.0.1), LightProcess().evolve(s.1, Left(e)))
  {
    CatAndBulbSteps(s.0);
    assert Lefts<Cats.Event, Bulbs.Event>([e]) == [Left(e)];
    UnreactiveDecision(fuel, Left(c), s, Left(e));
    CatBulbLightEvolve(fuel, s, Left(e));
  }

  /** A bulb command with one event other than switching on: the combined
      decision is that event, the bulb moves by it, the cat stays, and the
      light follows its own evolve. */
  lemma BulbCommandStep(fuel: nat, s: CatBulbLightState, c: Bulbs.Command, e: Bulbs.Event)
    requires fuel >= 1
    requires Bulbs.Decide(c, s.0.1) == [e]
    requires e != Bulbs.SwitchedOn
    ensures CatBulbLight(fuel).decide(Right(c), s) == [Right(e)]
    ensures CatBulbLight(fuel).evolve(s, Right(e)) == ((s.0.0, Bulbs.Evolve(s.0.1, e)), LightProcess().evolve(s.1, Right(e)))
  {
    CatAndBulbSteps(s.0);
    assert Rights<Cats.Event, Bulbs.Event>([e]) == [Right(e)];
    UnreactiveDecision(fuel, Right(c), s, Right(e));
    CatBulbLightEvolve(fuel, s, Right(e));
  }

  /** Fitting the bulb: no reaction from the light. */
  lemma FitStep(fuel: nat)
    requires fuel >= 1
    ensures CatBulbLight(fuel).decide(Right(Bulbs.Fit(5)), ((Cats.Awake, Bulbs.NotFitted), CatLights.Idle)) == [Right(Bulbs.Fitted(5))]
    ensures CatBulbLight(fuel).evolve(((Cats.Awake, Bulbs.NotFitted), CatLights.Idle), Right(Bulbs.Fitted(5)))
         == ((Cats.Awake, Bulbs.Working(false, 5)), CatLights.Idle)
  {
    BulbCommandStep(fuel, ((Cats.Awake, Bulbs.NotFitted), CatLights.Idle), Bulbs.Fit(5), Bulbs.Fitted(5));
    LightEvolve(CatLights.Idle, Right(Bulbs.Fitted(5)));
  }

  /** Putting the cat to sleep: no reaction from the light. */
  lemma GetToSleepStep(fuel: nat)
    requires fuel >= 1
    ensures CatBulbLight(fuel).decide(Left(Cats.GetToSleep), ((Cats.Awake, Bulbs.Working(false, 5)), CatLights.Idle)) == [Left(Cats.GotToSleep)]
    ensures CatBulbLight(fuel).evolve(((Cats.Awake, Bulbs.Working(false, 5)), CatLights.Idle), Left(Cats.GotToSleep))
         == ((Cats.Asleep, Bulbs.Working(false, 5)), CatLights.Idle)
  {
    CatCommandStep(fuel, ((Cats.Awake, Bulbs.Working(false, 5)), CatLights.Idle), Cats.GetToSleep, Cats.GotToSleep);
    LightEvolve(CatLights.Idle, Left(Cats.GotToSleep));
  }

  /** Waking the cat: the light sees `WokeUp` and stays idle. */
  lemma WakeUpStep(fuel: nat)
    requires fuel >= 1
    ensures CatBulbLight(fuel).decide(Left(Cats.WakeUp), ((Cats.Asleep, Bulbs.Working(false, 5)), CatLights.Idle)) == [Left(Cats.WokeUp)]
    ensures CatBulbLight(fuel).evolve(((Cats.Asleep, Bulbs.Working(false, 5)), CatLights.Idle), Left(Cats.WokeUp))
         == ((Cats.Awake, Bulbs.Working(false, 5)), CatLights.Idle)
  {
    CatCommandStep(fuel, ((Cats.Asleep, Bulbs.Working(false, 5)), CatLights.Idle), Cats.WakeUp, Cats.WokeUp);
    LightEvolve(CatLights.Idle, Left(Cats.WokeUp));
  }

  /** Switching the bulb on: one use is spent and the light starts waking
      the cat. */
  lemma SwitchOnStep(fuel: nat)
    requires fuel >= 2
    ensures CatBulbLight(fuel).decide(Right(Bulbs.SwitchOn), ((Cats.Awake, Bulbs.Working(false, 5)), CatLights.Idle)) == [Right(Bulbs.SwitchedOn)]
    ensures CatBulbLight(fuel).evolve(((Cats.Awake, Bulbs.Working(false, 5)), CatLights.Idle), Right(Bulbs.SwitchedOn))
         == ((Cats.Awake, Bulbs.Working(true, 4)), CatLights.WakingUp)
  {
    var s0 := (Cats.Awake, Bulbs.Working(false, 5));
    CatAndBulbSteps(s0);
    assert Bulbs.Decide(Bulbs.SwitchOn, Bulbs.Working(false, 5)) == [Bulbs.SwitchedOn];
    assert Rights<Cats.Event, Bulbs.Event>([Bulbs.SwitchedOn]) == [Right(Bulbs.SwitchedOn)];
    SwitchOnDecision(fuel, Right(Bulbs.SwitchOn), (s0, CatLights.Idle));
    LightEvolve(CatLights.Idle, Right(Bulbs.SwitchedOn));
    CatBulbLightEvolve(fuel, (s0, CatLights.Idle), Right(Bulbs.SwitchedOn));
  }

  /** Switching the bulb off: no reaction; the light keeps waking the cat. */
  lemma SwitchOffStep(fuel: nat)
    requires fuel >= 1
    ensures CatBulbLight(fuel).decide(Right(Bulbs.SwitchOff), ((Cats.Awake, Bulbs.Working(true, 4)), CatLights.WakingUp)) == [Right(Bulbs.SwitchedOff)]
    ensures CatBulbLight(fuel).evolve(((Cats.Awake, Bulbs.Working(true, 4)), CatLights.WakingUp), Right(Bulbs.SwitchedOff))
         == ((Cats.Awake, Bulbs.Working(false, 4)), CatLights.WakingUp)
  {
    BulbCommandStep(fuel, ((Cats.Awake, Bulbs.Working(true, 4)), CatLights.WakingUp), Bulbs.SwitchOff, Bulbs.SwitchedOff);
    LightEvolve(CatLights.WakingUp, Right(Bulbs.SwitchedOff));
  }

  /** `test_compose_process`: fit the bulb, put the cat to sleep, wake it,
      switch the bulb on (the light reacts with `WakeUp`, which is decided
      against the cat's state before the switch: already awake, nothing),
      switch it off. The cat is awake, the bulb off with four uses, and the
      light still waking the cat. Any work-list bound of two commands or
      more gives this outcome. */
  method ComposeProcess(fuel: nat) returns (final: CatBulbLightState)
    requires fuel >= 2
    ensures final == ((Cats.Awake, Bulbs.Working(false, 4)), CatLights.WakingUp)
  {
    var catB := new InMemory(CatBulbLight(fuel));
    FitStep(fuel);
    CallCatBulbLight(catB, fuel, Right(Bulbs.Fit(5)), Right(Bulbs.Fitted(5)));
    GetToSleepStep(fuel);
    CallCatBulbLight(catB, fuel, Left(Cats.GetToSleep), Left(Cats.GotToSleep));
    WakeUpStep(fuel);
    CallCatBulbLight(catB, fuel, Left(Cats.WakeUp), Left(Cats.WokeUp));
    SwitchOnStep(fuel);
    CallCatBulbLight(catB, fuel, Right(Bulbs.SwitchOn), Right(Bulbs.SwitchedOn));
    SwitchOffStep(fuel);
    CallCatBulbLight(catB, fuel, Right(Bulbs.SwitchOff), Right(Bulbs.SwitchedOff));
    final := catB.state;
  }
}
