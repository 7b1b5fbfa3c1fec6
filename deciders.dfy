/** The decider algebra of `pycider/deciders.py`.

    A decider is a record of four pure operations: `decide` turns a command
    and a state into events, `evolve` turns a state and an event into a new
    state, `initialState` is the canonical starting state and `isTerminal`
    says whether a state is finished. `BaseDecider` lets the input and output
    state types differ (`SI`, `SO`); `Decider` is the usual case where they
    coincide. Each combinator of the source becomes a function that builds a
    new record from the records it is given. */
module Deciders {
  import opened Types

  datatype BaseDecider<!E, -C, -SI, SO> = BaseDecider(
    decide: (C, SI) -> seq<E>,
    evolve: (SI, E) -> SO,
    initialState: SO,
    isTerminal: SI -> bool)

  type Decider<!E, -C, !S> = BaseDecider<E, C, S, S>

  /** Two deciders that answer every question alike. */
  ghost predicate Equivalent<E(!new), C(!new), SI(!new), SO(!new)>(d1: BaseDecider<E, C, SI, SO>, d2: BaseDecider<E, C, SI, SO>) {
    && (forall c, s :: d1.decide(c, s) == d2.decide(c, s))
    && (forall s, e :: d1.evolve(s, e) == d2.evolve(s, e))
    && d1.initialState == d2.initialState
    && (forall s :: d1.isTerminal(s) == d2.isTerminal(s))
  }

  // ---------------------------------------------------------------------
  // Compose: the product of two deciders, routed by the Either tag.
  // ---------------------------------------------------------------------

  function Lefts<A(!new), B(!new)>(xs: seq<A>): (r: seq<Either<A, B>>)
    ensures |r| == |xs|
    ensures forall i :: 0 <= i < |xs| ==> r[i] == Left(xs[i])
  {
    MapSeq((x: A) => Left(x), xs)
  }

  function Rights<A(!new), B(!new)>(xs: seq<B>): (r: seq<Either<A, B>>)
    ensures |r| == |xs|
    ensures forall i :: 0 <= i < |xs| ==> r[i] == Right(xs[i])
  {
    MapSeq((x: B) => Right(x), xs)
  }

  /** A `Left(c)` command is decided by `dx` alone against the left half of
      the pair and a `Right(c)` command by `dy` alone against the right half;
      an event changes only the half its tag names. */
  function Compose<EX(!new), CX(!new), SX(!new), EY(!new), CY(!new), SY(!new)>(dx: Decider<EX, CX, SX>, dy: Decider<EY, CY, SY>)
    : (d: Decider<Either<EX, EY>, Either<CX, CY>, (SX, SY)>)
    ensures forall c, s :: d.decide(Left(c), s) == Lefts(dx.decide(c, s.0))
    ensures forall c, s :: d.decide(Right(c), s) == Rights(dy.decide(c, s.1))
    ensures forall s, e :: d.evolve(s, Left(e)).0 == dx.evolve(s.0, e) && d.evolve(s, Left(e)).1 == s.1
    ensures forall s, e :: d.evolve(s, Right(e)).0 == s.0 && d.evolve(s, Right(e)).1 == dy.evolve(s.1, e)
    ensures d.initialState == (dx.initialState, dy.initialState)
    ensures forall s :: d.isTerminal(s) <==> dx.isTerminal(s.0) && dy.isTerminal(s.1)
  {
    BaseDecider(
      (c: Either<CX, CY>, s: (SX, SY)) =>
        match c
        case Left(cx) => Lefts(dx.decide(cx, s.0))
        case Right(cy) => Rights(dy.decide(cy, s.1)),
      (s: (SX, SY), e: Either<EX, EY>) =>
        match e
        case Left(ex) => (dx.evolve(s.0, ex), s.1)
        case Right(ey) => (s.0, dy.evolve(s.1, ey)),
      (dx.initialState, dy.initialState),
      (s: (SX, SY)) => dx.isTerminal(s.0) && dy.isTerminal(s.1))
  }

  // ---------------------------------------------------------------------
  // Neutral: the trivial decider.
  // ---------------------------------------------------------------------

  /** Never emits an event and is terminal in every state. */
  function Neutral(): (d: Decider<(), (), ()>)
    ensures forall c, s :: d.decide(c, s) == []
    ensures forall s :: d.isTerminal(s)
  {
    BaseDecider((c: (), s: ()) => [], (s: (), e: ()) => (), (), (s: ()) => true)
  }

  // ---------------------------------------------------------------------
  // Many: one decider multiplexed over identifiers, state kept in a map.
  // ---------------------------------------------------------------------

  /** The state an identifier currently has: its entry, or the inner
      decider's initial state when it has none yet. */
  function Lookup<E(!new), C(!new), I(!new), S(!new)>(d: Decider<E, C, S>, m: map<I, S>, id: I): (s: S)
    ensures id in m ==> s == m[id]
    ensures id !in m ==> s == d.initialState
  {
    if id in m then m[id] else d.initialState
  }

  function Tagged<I(!new), E(!new)>(id: I, events: seq<E>): (r: seq<(I, E)>)
    ensures |r| == |events|
    ensures forall i :: 0 <= i < |events| ==> r[i] == (id, events[i])
  {
    MapSeq((e: E) => (id, e), events)
  }

  function ManyEvolve<E(!new), C(!new), I(!new), S(!new)>(d: Decider<E, C, S>, m: map<I, S>, event: (I, E)): (m': map<I, S>)
    ensures m'.Keys == m.Keys + {event.0}
    ensures m'[event.0] == d.evolve(Lookup(d, m, event.0), event.1)
    ensures forall id :: id in m && id != event.0 ==> m'[id] == m[id]
  {
    m[event.0 := d.evolve(Lookup(d, m, event.0), event.1)]
  }

  ghost predicate AllTerminal<E(!new), C(!new), I(!new), S(!new)>(d: Decider<E, C, S>, m: map<I, S>) {
    forall id :: id in m ==> d.isTerminal(m[id])
  }

  /** `decide` reads the identifier's state with the lazy default and never
      writes; `evolve` is the only place an entry is created or replaced;
      the whole is terminal when every stored instance is. */
  function Many<I(!new), E(!new), C(!new), S(!new)>(d: Decider<E, C, S>): (md: Decider<(I, E), (I, C), map<I, S>>)
    ensures forall id, c, m :: md.decide((id, c), m) == Tagged(id, d.decide(c, Lookup(d, m, id)))
    ensures forall m, id, e :: md.evolve(m, (id, e)) == ManyEvolve(d, m, (id, e))
    ensures md.initialState == map[]
    ensures forall m :: md.isTerminal(m) <==> AllTerminal(d, m)
  {
    BaseDecider(
      (c: (I, C), m: map<I, S>) => Tagged(c.0, d.decide(c.1, Lookup(d, m, c.0))),
      (m: map<I, S>, e: (I, E)) => ManyEvolve(d, m, e),
      map[],
      (m: map<I, S>) => forall id | id in m :: d.isTerminal(m[id]))
  }

  /** `ManyDecider.is_terminal`: the loop over the stored states with an
      early return on the first one that is not terminal. */
  method ManyIsTerminal<I(!new), E(!new), C(!new), S(!new)>(d: Decider<E, C, S>, m: map<I, S>) returns (terminal: bool)
    ensures terminal <==> forall id :: id in m ==> d.isTerminal(m[id])
  {
    var remaining := m.Keys;
    while remaining != {}
      invariant remaining <= m.Keys
      invariant forall id :: id in m.Keys - remaining ==> d.isTerminal(m[id])
      decreases remaining
    {
      var id :| id in remaining;
      if !d.isTerminal(m[id]) {
        return false;
      }
      remaining := remaining - {id};
    }
    return true;
  }

  // ---------------------------------------------------------------------
  // Adapt: translate an outer vocabulary onto an inner decider.
  // ---------------------------------------------------------------------

  /** `fci` and `fei` are partial: a command they drop yields no event, an
      event they drop leaves the translated state as it is. */
  function Adapt<E(!new), C(!new), S(!new), EO(!new), CO(!new), SO(!new)>(
    fci: C -> Option<CO>, fei: E -> Option<EO>, feo: EO -> E, fsi: S -> SO, d: Decider<EO, CO, SO>)
    : (ad: BaseDecider<E, C, S, SO>)
    ensures forall c, s :: fci(c).None? ==> ad.decide(c, s) == []
    ensures forall c, s :: fci(c).Some? ==> ad.decide(c, s) == MapSeq(feo, d.decide(fci(c).value, fsi(s)))
    ensures forall s, e :: fei(e).None? ==> ad.evolve(s, e) == fsi(s)
    ensures forall s, e :: fei(e).Some? ==> ad.evolve(s, e) == d.evolve(fsi(s), fei(e).value)
    ensures ad.initialState == d.initialState
    ensures forall s :: ad.isTerminal(s) == d.isTerminal(fsi(s))
  {
    BaseDecider(
      (c: C, s: S) =>
        match fci(c)
        case None => []
        case Some(co) => MapSeq(feo, d.decide(co, fsi(s))),
      (s: S, e: E) =>
        match fei(e)
        case None => fsi(s)
        case Some(eo) => d.evolve(fsi(s), eo),
      d.initialState,
      (s: S) => d.isTerminal(fsi(s)))
  }

  // ---------------------------------------------------------------------
  // Map, Map2 and apply: transformations of the output state.
  // ---------------------------------------------------------------------

  /** `evolve` and `initialState` return `f` of the inner result; `decide`
      and `isTerminal` pass through unchanged. */
  function MapDecider<E(!new), C(!new), SI(!new), SA(!new), SB(!new)>(f: SA -> SB, d: BaseDecider<E, C, SI, SA>)
    : (md: BaseDecider<E, C, SI, SB>)
    ensures forall c, s :: md.decide(c, s) == d.decide(c, s)
    ensures forall s, e :: md.evolve(s, e) == f(d.evolve(s, e))
    ensures md.initialState == f(d.initialState)
    ensures forall s :: md.isTerminal(s) == d.isTerminal(s)
  {
    BaseDecider(
      (c: C, s: SI) => d.decide(c, s),
      (s: SI, e: E) => f(d.evolve(s, e)),
      f(d.initialState),
      (s: SI) => d.isTerminal(s))
  }

  /** Both deciders see every command and event: the events of `dx` come
      first, then those of `dy`; the two output states are joined by `f`. */
  function Map2Decider<E(!new), C(!new), S(!new), SX(!new), SY(!new), SI(!new)>(
    f: (SX, SY) -> S, dx: BaseDecider<E, C, SI, SX>, dy: BaseDecider<E, C, SI, SY>)
    : (md: BaseDecider<E, C, SI, S>)
    ensures forall c, s :: md.decide(c, s) == dx.decide(c, s) + dy.decide(c, s)
    ensures forall s, e :: md.evolve(s, e) == f(dx.evolve(s, e), dy.evolve(s, e))
    ensures md.initialState == f(dx.initialState, dy.initialState)
    ensures forall s :: md.isTerminal(s) <==> dx.isTerminal(s) && dy.isTerminal(s)
  {
    BaseDecider(
      (c: C, s: SI) => dx.decide(c, s) + dy.decide(c, s),
      (s: SI, e: E) => f(dx.evolve(s, e), dy.evolve(s, e)),
      f(dx.initialState, dy.initialState),
      (s: SI) => dx.isTerminal(s) && dy.isTerminal(s))
  }

  /** `apply`: a decider whose output state is a function, applied to the
      output state of a second decider. */
  function Apply<E(!new), C(!new), SI(!new), SX(!new), SO(!new)>(f: BaseDecider<E, C, SI, SX -> SO>, d: BaseDecider<E, C, SI, SX>)
    : (ad: BaseDecider<E, C, SI, SO>)
    ensures forall c, s :: ad.decide(c, s) == f.decide(c, s) + d.decide(c, s)
    ensures forall s, e :: ad.evolve(s, e) == f.evolve(s, e)(d.evolve(s, e))
    ensures ad.initialState == f.initialState(d.initialState)
    ensures forall s :: ad.isTerminal(s) <==> f.isTerminal(s) && d.isTerminal(s)
  {
    Map2Decider((g: SX -> SO, x: SX) => g(x), f, d)
  }

  // ---------------------------------------------------------------------
  // Laws relating the combinators.
  // ---------------------------------------------------------------------

  /** A decider that emits nothing, is always terminal and whose output
      state is the constant `v` (the unit of `Apply`). */
  function Pure<E(!new), C(!new), SI(!new), SO(!new)>(v: SO): (d: BaseDecider<E, C, SI, SO>)
    ensures forall c, s :: d.decide(c, s) == []
    ensures forall s, e :: d.evolve(s, e) == v
  {
    BaseDecider((c: C, s: SI) => [], (s: SI, e: E) => v, v, (s: SI) => true)
  }

  lemma MapIdentity<E(!new), C(!new), SI(!new), SA(!new)>(d: BaseDecider<E, C, SI, SA>)
    ensures Equivalent(MapDecider((x: SA) => x, d), d)
  {
  }

  lemma MapComposition<E(!new), C(!new), SI(!new), SA(!new), SB(!new), SC(!new)>(f: SA -> SB, g: SB -> SC, d: BaseDecider<E, C, SI, SA>)
    ensures Equivalent(MapDecider(g, MapDecider(f, d)), MapDecider((x: SA) => g(f(x)), d))
  {
  }

  /** Applying a constant function decider is the same as mapping. */
  lemma ApplyPureIsMap<E(!new), C(!new), SI(!new), SX(!new), SO(!new)>(f: SX -> SO, d: BaseDecider<E, C, SI, SX>)
    ensures Equivalent(Apply(Pure<E, C, SI, SX -> SO>(f), d), MapDecider(f, d))
  {
    forall c, s ensures Apply(Pure<E, C, SI, SX -> SO>(f), d).decide(c, s) == MapDecider(f, d).decide(c, s) {
      assert [] + d.decide(c, s) == d.decide(c, s);
    }
  }

  /** `Map2` is `Apply` after mapping the curried join over the first decider. */
  lemma Map2IsApplyOfMap<E(!new), C(!new), S(!new), SX(!new), SY(!new), SI(!new)>(
    f: (SX, SY) -> S, dx: BaseDecider<E, C, SI, SX>, dy: BaseDecider<E, C, SI, SY>)
    ensures Equivalent(Map2Decider(f, dx, dy), Apply(MapDecider((x: SX) => (y: SY) => f(x, y), dx), dy))
  {
  }

  /** Adapting with identity translations changes nothing. */
  lemma AdaptIdentity<E(!new), C(!new), S(!new)>(d: Decider<E, C, S>)
    ensures Equivalent(Adapt((c: C) => Some(c), (e: E) => Some(e), (e: E) => e, (s: S) => s, d), d)
  {
    forall c, s ensures Adapt((c: C) => Some(c), (e: E) => Some(e), (e: E) => e, (s: S) => s, d).decide(c, s) == d.decide(c, s) {
      var r := MapSeq((e: E) => e, d.decide(c, s));
      assert |r| == |d.decide(c, s)|;
      assert forall i :: 0 <= i < |r| ==> r[i] == d.decide(c, s)[i];
    }
  }

  /** Looking up a key that was never written gives the same outcome as an
      explicitly initialised instance. */
  lemma ManyLazyDefault<I(!new), E(!new), C(!new), S(!new)>(d: Decider<E, C, S>, m: map<I, S>, id: I, c: C, e: E)
    requires id !in m
    ensures Many(d).decide((id, c), m) == Many(d).decide((id, c), m[id := d.initialState])
    ensures Many(d).evolve(m, (id, e)) == Many(d).evolve(m[id := d.initialState], (id, e))
  {
  }

  lemma ManyInitialIsTerminal<I(!new), E(!new), C(!new), S(!new)>(d: Decider<E, C, S>)
    ensures Many<I, E, C, S>(d).isTerminal(Many<I, E, C, S>(d).initialState)
  {
  }
}
