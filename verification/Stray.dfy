/** Why normalisation is needed: a model the constructor accepts, with one context summing to
    1 + 5e-10, whose exact arrival probability escapes the bracket. */
module Stray {
  import opened Ranking
  import opened Rollout
  import opened Bracketing
  import opened Guarantees
  import opened Wrappers

  const STRAY: real := 0.0000000005

  const CHOICES: seq<(Token<int>, real)> := [(Act(0), 0.5), (Act(1), 0.5 + STRAY)]

  /** One context, every action possible, every path a sink arrival. */
  function Sample(): World<(), (), int, (), ()> {
    World((s: ()) => (), map[() := CHOICES], (s: (), p: (), a: int) => Some(((), ())),
          (p: ()) => Some(()), (r: ()) => true, (a: int, b: int) => a <= b)
  }

  lemma SampleChoices()
    ensures Sample().Choices(()) == CHOICES
    ensures ProbabilitySum(CHOICES) == 1.0 + STRAY && Accepted(Sample()) && TotalOrder(Sample().le)
  {
    assert CHOICES[..1] == [CHOICES[0]];
    assert CHOICES[..1][..0] == [];
    assert ProbabilitySum(CHOICES[..1]) == 0.5;
    assert Sample().transitions[()] == CHOICES;
    assert |Sample().transitions| == 1;
  }

  lemma {:induction false} SampleExact(u: Oracle<int>, n: nat, actions: seq<int>)
    ensures Sample().Exact(u, n, (), (), actions) == Power(1.0 + STRAY, n)
  {
    hide World.ExactOver, Sample;
    if n == 0 {
      SampleArrives(u, actions);
    } else {
      SampleExact(u, n - 1, actions + [0]);
      SampleExact(u, n - 1, actions + [1]);
      SampleStep(u, n, actions, Power(1.0 + STRAY, n - 1));
      SampleChoices();
    }
  }

  lemma SampleArrives(u: Oracle<int>, actions: seq<int>)
    ensures Sample().Exact(u, 0, (), (), actions) == 1.0
  {
  }

  lemma SampleBranch(u: Oracle<int>, n: nat, actions: seq<int>, a: int)
    requires n > 0
    ensures Sample().Branch(u, n, (), (), actions, Act(a)) == Sample().Exact(u, n - 1, (), (), actions + [a])
  {
    hide World.Exact;
  }

  lemma SampleStep(u: Oracle<int>, n: nat, actions: seq<int>, e: real)
    requires n > 0
    requires Sample().Exact(u, n - 1, (), (), actions + [0]) == e == Sample().Exact(u, n - 1, (), (), actions + [1])
    ensures Sample().ExactOver(u, n, (), (), actions, CHOICES) == (1.0 + STRAY) * e
  {
    hide World.Exact, World.Branch, Sample;
    var w := Sample();
    SampleBranch(u, n, actions, 0);
    SampleBranch(u, n, actions, 1);
    assert CHOICES[..1][..0] == [] && CHOICES[..1][0] == CHOICES[0];
    assert w.ExactOver(u, n, (), (), actions, CHOICES[..1][..0]) == 0.0;
    assert w.ExactOver(u, n, (), (), actions, CHOICES[..1]) == 0.5 * e;
    assert w.ExactOver(u, n, (), (), actions, CHOICES) == 0.5 * e + (0.5 + STRAY) * e;
  }

  const LIGHT: Row<(), (), int> := Item(0.5, [0], ((), ()))
  const HEAVY: Row<(), (), int> := Item(0.5 + STRAY, [1], ((), ()))
  const ROOT: Row<(), (), int> := Item(1.0, [], ((), ()))

  lemma FirstEvents()
    ensures Sample().LayerEvents([ROOT]) == [Grow(LIGHT), Grow(HEAVY)]
  {
    hide World.EventOf, World.RowEvents, World.LayerEvents, Sample, Accepted, ProbabilitySum;
    SampleChoices();
    var w := Sample();
    assert [] + [CHOICES[0]] == CHOICES[..1] && CHOICES[..1] + [CHOICES[1]] == CHOICES;
    FirstMoves();
    NoRows(w, ROOT);
    OneRowLayer(w, ROOT);
    RowEventsSnoc(w, ROOT, [], CHOICES[0]);
    RowEventsSnoc(w, ROOT, CHOICES[..1], CHOICES[1]);
  }

  lemma FirstMoves()
    ensures Sample().EventOf(ROOT, CHOICES[0]) == Grow(LIGHT) && Sample().EventOf(ROOT, CHOICES[1]) == Grow(HEAVY)
  {
    assert [] + [0] == LIGHT.actions && [] + [1] == HEAVY.actions;
  }

  lemma FirstBest()
    ensures Best(Sample().le, 1, [LIGHT, HEAVY]) == [HEAVY]
  {
    var le := Sample().le;
    assert [LIGHT, HEAVY][..1] == [LIGHT] && [LIGHT][..0] == [];
    assert Sort(le, [LIGHT]) == [LIGHT];
    assert Sort(le, [LIGHT, HEAVY]) == [HEAVY, LIGHT];
  }

  lemma FirstPush(t0: Tally<(), (), int, ()>)
    requires t0 == Start((), ())
    ensures PushAll(Open(t0), [Grow(LIGHT), Grow(HEAVY)]).grown == [LIGHT, HEAVY]
  {
    var es: seq<Event<(), (), int, ()>> := [Grow(LIGHT), Grow(HEAVY)];
    assert es[..1] == [Grow(LIGHT)] && es[..1][..0] == [];
    assert PushAll(Open(t0), es[..1]).grown == [LIGHT];
  }

  /** A beam of one keeps the heavier of the two actions. */
  lemma FirstLayer()
    ensures var t: Tally<(), (), int, ()> := Sample().Round(1, Start((), ()));
      MassOf(t.active) == 0.5 + STRAY && TallyMass(t) == 1.0 + STRAY
  {
    hide World.LayerEvents, PushAll, Best, Dropped, ProbabilitySum, EventMass, Sum;
    var w := Sample();
    var t0: Tally<(), (), int, ()> := Start((), ());
    assert t0.active == [ROOT];
    FirstEvents();
    FirstPush(t0);
    FirstBest();
    assert w.Round(1, t0).active == [HEAVY];
    SingleMass(HEAVY);
    SingleRow(w, ROOT);
    SampleChoices();
    RoundMass(w, 1, t0);
    assert MassOf(t0.finished) == 0.0 by { NoMass(); }
  }

  lemma NoMass()
    ensures MassOf<int, ((), bool)>([]) == 0.0
  {
  }

  /** With a beam of one and two operations to come, more arrives than was accounted for. */
  lemma BracketEscaped(u: Oracle<int>)
    ensures Accepted(Sample()) && !Normalised(Sample())
    ensures var t := Sample().Run(1, 2, (), ());
      Sample().Exact(u, 2, (), (), []) > Arrived(Sample(), t) + t.unknown + t.other
  {
    hide World.Round, World.Close, World.Exact, ProbabilitySum, Power, Sum, Accepted;
    var w := Sample();
    SampleChoices();
    assert ProbabilitySum(w.Choices(())) != 1.0;
    SampleExact(u, 2, []);
    FirstLayer();
    var t0: Tally<(), (), int, ()> := Start((), ());
    var t1 := w.Round(1, t0);
    SecondLayer(t1);
    assert w.Rounds(1, 0, t0) == t0;
    assert w.Rounds(1, 1, t0) == t1;
    assert w.Run(1, 2, (), ()) == w.Close(1, w.Round(1, t1));
    assert TallyMass(w.Round(1, t1)) == 1.0 + STRAY + STRAY * (0.5 + STRAY);
    CloseConserves(w, 1, w.Round(1, t1));
    NothingPending(w);
    AllArrive(w.Run(1, 2, (), ()).finished);
    SquareEscapes();
  }

  lemma SquareEscapes()
    ensures Power(1.0 + STRAY, 2) > 1.0 + STRAY + STRAY * (0.5 + STRAY)
  {
    assert Power(1.0 + STRAY, 1) == 1.0 + STRAY;
  }

  lemma SecondLayer(t: Tally<(), (), int, ()>)
    ensures TallyMass(Sample().Round(1, t)) == TallyMass(t) + STRAY * MassOf(t.active)
  {
    hide World.Round, TallyMass, MassOf, World.LayerEvents, EventMass;
    RoundMass(Sample(), 1, t);
    LayerStretch(t.active);
  }

  lemma {:induction false} LayerStretch(active: seq<Row<(), (), int>>)
    ensures EventMass(Sample().LayerEvents(active)) == MassOf(active) + STRAY * MassOf(active)
  {
    hide MassOf, World.LayerEvents, ProbabilitySum;
    if active == [] {
      NothingPending(Sample());
    } else {
      var init, row := active[..|active| - 1], active[|active| - 1];
      assert active == init + [row];
      LayerStretch(init);
      LayerStep(Sample(), init, row);
      SampleChoices();
      assert row.value.0 == ();
      Distribute(STRAY, MassOf(init), row.mass);
      Distribute(row.mass, 1.0, STRAY);
    }
  }

  lemma {:induction false} AllArrive(finished: seq<Final<int, ()>>)
    ensures Sum(ByHit(Sample()), finished) == MassOf(finished)
  {
    if finished != [] {
      AllArrive(finished[1..]);
    }
  }
}
