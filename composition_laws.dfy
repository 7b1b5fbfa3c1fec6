/** What running a composed decider means, stated against running its parts:
    a product decider runs its two halves independently on the commands
    tagged for each, and a keyed decider runs every identifier's instance
    independently on the commands addressed to it. */
module CompositionLaws {
  import opened Types
  import opened Deciders
  import opened Runner

  /** The commands of a mixed stream that carry the `Left` tag, in order. */
  function LeftsOf<A, B>(xs: seq<Either<A, B>>): (r: seq<A>)
    ensures |r| <= |xs|
    decreases |xs|
  {
    if xs == [] then []
    else (if xs[0].Left? then [xs[0].left] else []) + LeftsOf(xs[1..])
  }

  /** The commands of a mixed stream that carry the `Right` tag, in order. */
  function RightsOf<A, B>(xs: seq<Either<A, B>>): (r: seq<B>)
    ensures |r| <= |xs|
    decreases |xs|
  {
    if xs == [] then []
    else (if xs[0].Right? then [xs[0].right] else []) + RightsOf(xs[1..])
  }

  /** Folding `Left`-tagged events through the product moves only the left half. */
  lemma {:induction false} ComposeEvolveLefts<EX(!new), CX(!new), SX(!new), EY(!new), CY(!new), SY(!new)>(
    dx: Decider<EX, CX, SX>, dy: Decider<EY, CY, SY>, s: (SX, SY), es: seq<EX>)
    ensures EvolveAll(Compose(dx, dy), s, Lefts(es)) == (EvolveAll(dx, s.0, es), s.1)
    decreases |es|
  {
    var d := Compose(dx, dy);
    if es != [] {
      assert Lefts<EX, EY>(es)[1..] == Lefts(es[1..]);
      ComposeEvolveLefts(dx, dy, d.evolve(s, Left(es[0])), es[1..]);
    }
  }

  /** Folding `Right`-tagged events through the product moves only the right half. */
  lemma {:induction false} ComposeEvolveRights<EX(!new), CX(!new), SX(!new), EY(!new), CY(!new), SY(!new)>(
    dx: Decider<EX, CX, SX>, dy: Decider<EY, CY, SY>, s: (SX, SY), es: seq<EY>)
    ensures EvolveAll(Compose(dx, dy), s, Rights(es)) == (s.0, EvolveAll(dy, s.1, es))
    decreases |es|
  {
    var d := Compose(dx, dy);
    if es != [] {
      assert Rights<EX, EY>(es)[1..] == Rights(es[1..]);
      ComposeEvolveRights(dx, dy, d.evolve(s, Right(es[0])), es[1..]);
    }
  }

  /** Isolation: running any interleaving of tagged commands through the
      product gives, in each half, exactly what running that half alone on
      its own commands gives. */
  lemma {:induction false} ComposeRunIsolation<EX(!new), CX(!new), SX(!new), EY(!new), CY(!new), SY(!new)>(
    dx: Decider<EX, CX, SX>, dy: Decider<EY, CY, SY>, s: (SX, SY), commands: seq<Either<CX, CY>>)
    ensures RunAll(Compose(dx, dy), s, commands) == (RunAll(dx, s.0, LeftsOf(commands)), RunAll(dy, s.1, RightsOf(commands)))
    decreases |commands|
  {
    var d := Compose(dx, dy);
    if commands != [] {
      var c := commands[0];
      var next := Submit(d, s, c);
      match c
      case Left(cx) =>
        ComposeEvolveLefts(dx, dy, s, dx.decide(cx, s.0));
        assert next == (Submit(dx, s.0, cx), s.1);
        assert LeftsOf(commands) == [cx] + LeftsOf(commands[1..]);
        assert RightsOf(commands) == RightsOf(commands[1..]);
        ComposeRunIsolation(dx, dy, next, commands[1..]);
      case Right(cy) =>
        ComposeEvolveRights(dx, dy, s, dy.decide(cy, s.1));
        assert next == (s.0, Submit(dy, s.1, cy));
        assert LeftsOf(commands) == LeftsOf(commands[1..]);
        assert RightsOf(commands) == [cy] + RightsOf(commands[1..]);
        ComposeRunIsolation(dx, dy, next, commands[1..]);
    }
  }

  /** The commands of a keyed stream addressed to `id`, in order. */
  function CommandsFor<I(==), C>(commands: seq<(I, C)>, id: I): (r: seq<C>)
    ensures |r| <= |commands|
    decreases |commands|
  {
    if commands == [] then []
    else (if commands[0].0 == id then [commands[0].1] else []) + CommandsFor(commands[1..], id)
  }

  /** Folding events tagged with `id` moves `id`'s instance alone. */
  lemma {:induction false} ManyEvolveTagged<I(!new), E(!new), C(!new), S(!new)>(
    d: Decider<E, C, S>, m: map<I, S>, id: I, es: seq<E>, k: I)
    ensures Lookup(d, EvolveAll(Many(d), m, Tagged(id, es)), k)
         == if k == id then EvolveAll(d, Lookup(d, m, id), es) else Lookup(d, m, k)
    decreases |es|
  {
    var md := Many<I, E, C, S>(d);
    if es != [] {
      assert Tagged(id, es)[1..] == Tagged(id, es[1..]);
      ManyEvolveTagged(d, md.evolve(m, (id, es[0])), id, es[1..], k);
    }
  }

  /** Per-identifier projection: after any stream of keyed commands, the
      state of `k` (with the lazy default) is what running the inner
      decider alone on the commands addressed to `k` gives. */
  lemma {:induction false} ManyRunProjection<I(!new), E(!new), C(!new), S(!new)>(
    d: Decider<E, C, S>, m: map<I, S>, commands: seq<(I, C)>, k: I)
    ensures Lookup(d, RunAll(Many(d), m, commands), k) == RunAll(d, Lookup(d, m, k), CommandsFor(commands, k))
    decreases |commands|
  {
    var md := Many<I, E, C, S>(d);
    if commands != [] {
      var (id, c) := commands[0];
      var next := Submit(md, m, (id, c));
      ManyEvolveTagged(d, m, id, d.decide(c, Lookup(d, m, id)), k);
      ManyRunProjection(d, next, commands[1..], k);
      if id == k {
        assert CommandsFor(commands, k) == [c] + CommandsFor(commands[1..], k);
      } else {
        assert CommandsFor(commands, k) == CommandsFor(commands[1..], k);
      }
    }
  }

  /** A key that no command addresses is never written. */
  lemma {:induction false} ManyRunUntouchedKey<I(!new), E(!new), C(!new), S(!new)>(
    d: Decider<E, C, S>, m: map<I, S>, commands: seq<(I, C)>, k: I)
    requires forall i :: 0 <= i < |commands| ==> commands[i].0 != k
    ensures k in RunAll(Many(d), m, commands) <==> k in m
    decreases |commands|
  {
    if commands != [] {
      var md := Many<I, E, C, S>(d);
      var (id, c) := commands[0];
      ManyEvolveKeys(d, m, id, d.decide(c, Lookup(d, m, id)));
      ManyRunUntouchedKey(d, Submit(md, m, (id, c)), commands[1..], k);
    }
  }

  lemma {:induction false} ManyEvolveKeys<I(!new), E(!new), C(!new), S(!new)>(
    d: Decider<E, C, S>, m: map<I, S>, id: I, es: seq<E>)
    ensures EvolveAll(Many(d), m, Tagged(id, es)).Keys == if es == [] then m.Keys else m.Keys + {id}
    decreases |es|
  {
    var md := Many<I, E, C, S>(d);
    if es != [] {
      assert Tagged(id, es)[1..] == Tagged(id, es[1..]);
      ManyEvolveKeys(d, md.evolve(m, (id, es[0])), id, es[1..]);
    }
  }

  /** One left-tagged submission to the product is one submission to the
      left decider; the right half is untouched. */
  lemma ComposeSubmitLeft<EX(!new), CX(!new), SX(!new), EY(!new), CY(!new), SY(!new)>(
    dx: Decider<EX, CX, SX>, dy: Decider<EY, CY, SY>, s: (SX, SY), c: CX)
    ensures Submit(Compose(dx, dy), s, Left(c)) == (Submit(dx, s.0, c), s.1)
  {
    ComposeEvolveLefts(dx, dy, s, dx.decide(c, s.0));
  }

  /** One right-tagged submission to the product is one submission to the
      right decider; the left half is untouched. */
  lemma ComposeSubmitRight<EX(!new), CX(!new), SX(!new), EY(!new), CY(!new), SY(!new)>(
    dx: Decider<EX, CX, SX>, dy: Decider<EY, CY, SY>, s: (SX, SY), c: CY)
    ensures Submit(Compose(dx, dy), s, Right(c)) == (s.0, Submit(dy, s.1, c))
  {
    ComposeEvolveRights(dx, dy, s, dy.decide(c, s.1));
  }

  /** One keyed submission writes the addressed instance's new state under
      its key (creating the entry from the initial state if needed) when
      the inner decision has events, and leaves the map as it was when it
      has none. */
  lemma ManySubmit<I(!new), E(!new), C(!new), S(!new)>(d: Decider<E, C, S>, m: map<I, S>, id: I, c: C)
    ensures Submit(Many(d), m, (id, c))
         == if d.decide(c, Lookup(d, m, id)) == [] then m else m[id := Submit(d, Lookup(d, m, id), c)]
  {
    var es := d.decide(c, Lookup(d, m, id));
    var m' := Submit(Many(d), m, (id, c));
    assert m' == EvolveAll(Many(d), m, Tagged(id, es));
    ManyEvolveKeys(d, m, id, es);
    if es == [] {
      assert m' == m;
    } else {
      forall k | k in m'
        ensures m'[k] == m[id := Submit(d, Lookup(d, m, id), c)][k]
      {
        ManyEvolveTagged(d, m, id, es, k);
      }
    }
  }
}
