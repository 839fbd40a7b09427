/** What the bounded rollout guarantees about the exact recursion: no mass is unaccounted for,
    and the exact arrival probability is bracketed by what was enumerated and what was not. */
module Bracketing {
  import opened Ranking
  import opened Rollout
  import opened Wrappers

  // ------------------------------------------------------------- sums over events

  function EventMass<S, P, A, R>(es: seq<Event<S, P, A, R>>): real {
    if es == [] then 0.0 else EventMass(es[..|es| - 1]) + es[|es| - 1].Mass()
  }

  function ProbabilitySum<A>(choices: seq<(Token<A>, real)>): real {
    if choices == [] then 0.0 else ProbabilitySum(choices[..|choices| - 1]) + choices[|choices| - 1].1
  }

  function BufferMass<S, P, A, R>(b: Buffer<S, P, A, R>): real {
    MassOf(b.grown) + MassOf(b.finished) + b.unknown + b.other
  }

  function TallyMass<S, P, A, R>(t: Tally<S, P, A, R>): real {
    MassOf(t.active) + MassOf(t.finished) + t.unknown + t.other
  }

  lemma {:induction false} EventMassAppend<S, P, A, R>(xs: seq<Event<S, P, A, R>>, ys: seq<Event<S, P, A, R>>)
    ensures EventMass(xs + ys) == EventMass(xs) + EventMass(ys)
  {
    if ys == [] {
      assert xs + ys == xs;
    } else {
      EventMassAppend(xs, ys[..|ys| - 1]);
      assert (xs + ys)[..|xs + ys| - 1] == xs + ys[..|ys| - 1];
    }
  }

  lemma RecordMass<S, P, A, R>(b: Buffer<S, P, A, R>, e: Event<S, P, A, R>)
    ensures BufferMass(Record(b, e)) == BufferMass(b) + e.Mass()
  {
    match e
    case Lost(_, _, _) =>
    case Finish(i) => SumAppend(ByMass(), b.finished, [i]);
    case Grow(i) => SumAppend(ByMass(), b.grown, [i]);
  }

  lemma {:induction false} PushAllMass<S, P, A, R>(b: Buffer<S, P, A, R>, es: seq<Event<S, P, A, R>>)
    ensures BufferMass(PushAll(b, es)) == BufferMass(b) + EventMass(es)
  {
    if es != [] {
      var init, e := es[..|es| - 1], es[|es| - 1];
      PushAllMass(b, init);
      var c := PushAll(b, init);
      RecordMass(c.(used := c.used + 1), e);
    }
  }

  lemma {:induction false} RecordAllMass<S, P, A, R>(b: Buffer<S, P, A, R>, es: seq<Event<S, P, A, R>>)
    ensures BufferMass(RecordAll(b, es)) == BufferMass(b) + EventMass(es)
  {
    if es != [] {
      RecordAllMass(b, es[..|es| - 1]);
      RecordMass(RecordAll(b, es[..|es| - 1]), es[|es| - 1]);
    }
  }

  lemma PruneMass<S, P, A, R, K>(w: World<S, P, A, R, K>, k: nat, b: Buffer<S, P, A, R>)
    ensures TallyMass(w.Prune(k, b)) == BufferMass(b)
  {
    SumSplit(ByMass(), w.le, k, b.grown);
    SumSplit(ByMass(), w.le, k, b.finished);
  }

  // ------------------------------------------------------------ mass of a layer

  lemma EventOfMass<S, P, A, R, K>(w: World<S, P, A, R, K>, row: Row<S, P, A>, choice: (Token<A>, real))
    ensures w.EventOf(row, choice).Mass() == row.mass * choice.1
  {
  }

  lemma Distribute(m: real, a: real, b: real)
    ensures m * (a + b) == m * a + m * b
  {
  }

  lemma NoEvents<S, P, A, R, K>(w: World<S, P, A, R, K>, row: Row<S, P, A>)
    ensures EventMass(w.RowEvents(row, [])) == 0.0
  {
  }

  lemma RowEventsStep<S, P, A, R, K>(w: World<S, P, A, R, K>, row: Row<S, P, A>, init: seq<(Token<A>, real)>,
      last: (Token<A>, real))
    ensures EventMass(w.RowEvents(row, init + [last])) == EventMass(w.RowEvents(row, init)) + row.mass * last.1
  {
    RowEventsSnoc(w, row, init, last);
    EventOfMass(w, row, last);
    hide World.RowEvents, World.EventOf;
    var before, e := w.RowEvents(row, init), w.EventOf(row, last);
    if row.mass * last.1 == 0.0 {
      assert before + [] == before;
    } else {
      EventMassOne(before, e);
    }
  }

  lemma RowEventsSnoc<S, P, A, R, K>(w: World<S, P, A, R, K>, row: Row<S, P, A>, init: seq<(Token<A>, real)>,
      last: (Token<A>, real))
    ensures w.RowEvents(row, init + [last]) ==
      w.RowEvents(row, init) + if row.mass * last.1 == 0.0 then [] else [w.EventOf(row, last)]
  {
    hide World.EventOf;
    assert (init + [last])[..|init|] == init;
  }

  lemma EventMassOne<S, P, A, R>(before: seq<Event<S, P, A, R>>, e: Event<S, P, A, R>)
    ensures EventMass(before + [e]) == EventMass(before) + e.Mass()
  {
    assert (before + [e])[..|before|] == before;
  }

  lemma {:induction false} RowEventsMass<S, P, A, R, K>(w: World<S, P, A, R, K>, row: Row<S, P, A>,
      choices: seq<(Token<A>, real)>)
    ensures EventMass(w.RowEvents(row, choices)) == row.mass * ProbabilitySum(choices)
  {
    hide World.RowEvents;
    if choices == [] {
      NoEvents(w, row);
    } else {
      var init, last := choices[..|choices| - 1], choices[|choices| - 1];
      assert choices == init + [last];
      RowEventsMass(w, row, init);
      RowEventsStep(w, row, init, last);
      Distribute(row.mass, ProbabilitySum(init), last.1);
    }
  }

  /** Every context this world can meet has a distribution summing to 1. */
  ghost predicate Normalised<S(!new), P, A, R, K>(w: World<S, P, A, R, K>) {
    forall s :: ProbabilitySum(w.Choices(s)) == 1.0
  }

  lemma LayerStep<S, P, A, R, K>(w: World<S, P, A, R, K>, init: seq<Row<S, P, A>>, row: Row<S, P, A>)
    ensures EventMass(w.LayerEvents(init + [row]))
      == EventMass(w.LayerEvents(init)) + row.mass * ProbabilitySum(w.Choices(row.value.0))
    ensures MassOf(init + [row]) == MassOf(init) + row.mass
  {
    hide World.RowEvents, World.Choices, ProbabilitySum, EventMass, Sum;
    assert (init + [row])[..|init|] == init;
    RowEventsMass(w, row, w.Choices(row.value.0));
    EventMassAppend(w.LayerEvents(init), w.RowEvents(row, w.Choices(row.value.0)));
    SumAppend(ByMass(), init, [row]);
    SingleMass(row);
  }

  lemma SingleMass<A, V>(x: Item<A, V>)
    ensures MassOf([x]) == x.mass
  {
    SumOne(ByMass(), x);
  }

  lemma {:induction false} LayerMass<S(!new), P, A, R, K>(w: World<S, P, A, R, K>, active: seq<Row<S, P, A>>)
    requires Normalised(w)
    ensures EventMass(w.LayerEvents(active)) == MassOf(active)
  {
    if active != [] {
      var init, row := active[..|active| - 1], active[|active| - 1];
      assert active == init + [row];
      LayerMass(w, init);
      LayerStep(w, init, row);
    }
  }

  lemma {:induction false} HorizonMass<S, P, A, R, K>(w: World<S, P, A, R, K>, active: seq<Row<S, P, A>>)
    ensures EventMass(w.HorizonEvents(active)) == MassOf(active)
  {
    if active != [] {
      var n := |active| - 1;
      HorizonMass(w, active[..n]);
      SumAppend(ByMass(), active[..n], [active[n]]);
      assert active == active[..n] + [active[n]];
    }
  }

  lemma RoundMass<S, P, A, R, K>(w: World<S, P, A, R, K>, k: nat, t: Tally<S, P, A, R>)
    ensures TallyMass(w.Round(k, t)) == TallyMass(t) - MassOf(t.active) + EventMass(w.LayerEvents(t.active))
  {
    var es := w.LayerEvents(t.active);
    PushAllMass(Open(t), es);
    PruneMass(w, k, PushAll(Open(t), es));
  }

  lemma {:induction false} RoundsConserve<S(!new), P, A, R, K>(w: World<S, P, A, R, K>, k: nat, n: nat,
      t: Tally<S, P, A, R>)
    requires Normalised(w)
    ensures TallyMass(w.Rounds(k, n, t)) == TallyMass(t)
  {
    hide World.Round, TallyMass;
    if n > 0 {
      RoundsConserve(w, k, n - 1, t);
      var before := w.Rounds(k, n - 1, t);
      LayerMass(w, before.active);
      RoundMass(w, k, before);
    }
  }

  lemma CloseConserves<S, P, A, R, K>(w: World<S, P, A, R, K>, k: nat, t: Tally<S, P, A, R>)
    ensures TallyMass(w.Close(k, t)) == TallyMass(t)
    ensures w.Close(k, t).active == []
  {
    var es := w.HorizonEvents(t.active);
    HorizonMass(w, t.active);
    RecordAllMass(Open(t), es);
    PruneMass(w, k, RecordAll(Open(t), es));
    NothingGrows(w, Open(t), t.active);
  }

  lemma {:induction false} NothingGrows<S, P, A, R, K>(w: World<S, P, A, R, K>, b: Buffer<S, P, A, R>,
      active: seq<Row<S, P, A>>)
    requires b.grown == []
    ensures RecordAll(b, w.HorizonEvents(active)).grown == []
  {
    if active != [] {
      var n := |active| - 1;
      var init := w.HorizonEvents(active[..n]);
      NothingGrows(w, b, active[..n]);
      var es := w.HorizonEvents(active);
      assert es[..|es| - 1] == init;
    }
  }

  lemma OneRowLayer<S, P, A, R, K>(w: World<S, P, A, R, K>, row: Row<S, P, A>)
    ensures w.LayerEvents([row]) == w.RowEvents(row, w.Choices(row.value.0))
  {
    hide World.RowEvents, World.Choices;
    assert [row][..0] == [];
    assert w.LayerEvents([]) == [];
  }

  lemma NoRows<S, P, A, R, K>(w: World<S, P, A, R, K>, row: Row<S, P, A>)
    ensures w.RowEvents(row, []) == []
  {
  }

  lemma SingleRow<S, P, A, R, K>(w: World<S, P, A, R, K>, row: Row<S, P, A>)
    ensures EventMass(w.LayerEvents([row])) == row.mass * ProbabilitySum(w.Choices(row.value.0))
    ensures MassOf([row]) == row.mass
  {
    LayerStep(w, [], row);
    assert [] + [row] == [row];
  }

  lemma RunConserves<S(!new), P, A, R, K>(w: World<S, P, A, R, K>, k: nat, horizon: nat, s: S, p: P)
    requires Normalised(w)
    ensures var t := w.Run(k, horizon, s, p); MassOf(t.finished) + t.unknown + t.other == 1.0
  {
    hide World.Rounds, World.Close;
    var t0: Tally<S, P, A, R> := Start(s, p);
    SingleRow(w, t0.active[0]);
    RoundsConserve(w, k, horizon, t0);
    CloseConserves(w, k, w.Rounds(k, horizon, t0));
  }

  /** Every unit of probability ends in an enumerated outcome, in `unknown` or in `other` --
      for every start, horizon and beam -- exactly when every context is normalised. */
  lemma Conservation<S(!new), P(00, !new), A, R, K>(w: World<S, P, A, R, K>)
    ensures Normalised(w) <==>
            forall k: nat, horizon: nat, s: S, p: P ::
              var t := w.Run(k, horizon, s, p); MassOf(t.finished) + t.unknown + t.other == 1.0
  {
    hide World.Choices, World.Run;
    if Normalised(w) {
      forall k: nat, horizon: nat, s: S, p: P
        ensures var t := w.Run(k, horizon, s, p); MassOf(t.finished) + t.unknown + t.other == 1.0
      {
        RunConserves(w, k, horizon, s, p);
      }
    } else {
      var s :| ProbabilitySum(w.Choices(s)) != 1.0;
      var p: P :| true;
      OneStepMass(w, MAX_BEAM, s, p);
    }
  }

  /** One operation ahead, the accounted mass is the sum of the start context's distribution. */
  lemma OneStepMass<S, P, A, R, K>(w: World<S, P, A, R, K>, k: nat, s: S, p: P)
    ensures var t := w.Run(k, 1, s, p); MassOf(t.finished) + t.unknown + t.other == ProbabilitySum(w.Choices(s))
  {
    var t0: Tally<S, P, A, R> := Start(s, p);
    SingleRow(w, t0.active[0]);
    assert w.Rounds(k, 0, t0) == t0;
    RoundMass(w, k, t0);
    CloseConserves(w, k, w.Rounds(k, 1, t0));
  }

  // ---------------------------------------------------------------- bracketing

  ghost function Hit<S, P, A, R, K>(w: World<S, P, A, R, K>, r: R): real {
    if w.sink(r) then 1.0 else 0.0
  }

  ghost function ByHit<S, P, A, R, K>(w: World<S, P, A, R, K>): Final<A, R> -> real {
    (x: Final<A, R>) => x.mass * Hit(w, x.value.0)
  }

  ghost function ByExact<S, P, A, R, K>(w: World<S, P, A, R, K>, u: Oracle<A>, n: nat): Row<S, P, A> -> real {
    (x: Row<S, P, A>) => x.mass * w.Exact(u, n, x.value.0, x.value.1, x.actions)
  }

  /** The exact worth of an event with n operations still to come. */
  ghost function EventValue<S, P, A, R, K>(w: World<S, P, A, R, K>, u: Oracle<A>, n: nat, e: Event<S, P, A, R>): real {
    match e
    case Lost(m, actions, token) => m * u(actions, token)
    case Finish(x) => ByHit(w)(x)
    case Grow(x) => ByExact(w, u, n)(x)
  }

  ghost function EventsValue<S, P, A, R, K>(w: World<S, P, A, R, K>, u: Oracle<A>, n: nat,
      es: seq<Event<S, P, A, R>>): real {
    if es == [] then 0.0 else EventsValue(w, u, n, es[..|es| - 1]) + EventValue(w, u, n, es[|es| - 1])
  }

  ghost function BufferValue<S, P, A, R, K>(w: World<S, P, A, R, K>, u: Oracle<A>, n: nat,
      b: Buffer<S, P, A, R>): real {
    Sum(ByExact(w, u, n), b.grown) + Sum(ByHit(w), b.finished)
  }

  ghost function TallyValue<S, P, A, R, K>(w: World<S, P, A, R, K>, u: Oracle<A>, n: nat, t: Tally<S, P, A, R>): real {
    Sum(ByExact(w, u, n), t.active) + Sum(ByHit(w), t.finished)
  }

  lemma {:induction false} EventsValueAppend<S, P, A, R, K>(w: World<S, P, A, R, K>, u: Oracle<A>, n: nat,
      xs: seq<Event<S, P, A, R>>, ys: seq<Event<S, P, A, R>>)
    ensures EventsValue(w, u, n, xs + ys) == EventsValue(w, u, n, xs) + EventsValue(w, u, n, ys)
  {
    hide EventValue;
    if ys == [] {
      assert xs + ys == xs;
    } else {
      EventsValueAppend(w, u, n, xs, ys[..|ys| - 1]);
      assert (xs + ys)[..|xs + ys| - 1] == xs + ys[..|ys| - 1];
    }
  }

  lemma Combine(m: real, e0: real, p: real, b: real, v0: real, v: real, e: real)
    requires v0 == m * e0 && v == v0 + m * p * b && e == e0 + p * b
    ensures v == m * e
  {
    assert m * p * b == m * (p * b);
    Distribute(m, e0, p * b);
  }

  /** A row's event for one token is worth the row's mass times that token's exact branch. */
  lemma EventOfValue<S, P, A, R, K>(w: World<S, P, A, R, K>, u: Oracle<A>, n: nat, row: Row<S, P, A>,
      c: (Token<A>, real))
    ensures EventValue(w, u, n, w.EventOf(row, c))
      == row.mass * c.1 * w.Branch(u, n + 1, row.value.0, row.value.1, row.actions, c.0)
  {
    hide World.Exact;
  }

  lemma NoValue<S, P, A, R, K>(w: World<S, P, A, R, K>, u: Oracle<A>, n: nat, row: Row<S, P, A>)
    ensures EventsValue(w, u, n, w.RowEvents(row, [])) == 0.0
  {
  }

  lemma RowValueStep<S, P, A, R, K>(w: World<S, P, A, R, K>, u: Oracle<A>, n: nat, row: Row<S, P, A>,
      init: seq<(Token<A>, real)>, last: (Token<A>, real))
    ensures EventsValue(w, u, n, w.RowEvents(row, init + [last]))
         == EventsValue(w, u, n, w.RowEvents(row, init))
           + row.mass * last.1 * w.Branch(u, n + 1, row.value.0, row.value.1, row.actions, last.0)
  {
    hide World.Branch, EventValue, World.EventOf;
    assert (init + [last])[..|init|] == init;
    var before, e := w.RowEvents(row, init), w.EventOf(row, last);
    if row.mass * last.1 == 0.0 {
      assert before + [] == before;
    } else {
      EventOfValue(w, u, n, row, last);
      assert (before + [e])[..|before|] == before;
    }
  }

  lemma {:induction false} RowValue<S, P, A, R, K>(w: World<S, P, A, R, K>, u: Oracle<A>, n: nat, row: Row<S, P, A>,
      choices: seq<(Token<A>, real)>)
    ensures EventsValue(w, u, n, w.RowEvents(row, choices))
      == row.mass * w.ExactOver(u, n + 1, row.value.0, row.value.1, row.actions, choices)
  {
    hide World.Branch, EventsValue, World.RowEvents;
    if choices == [] {
      NoValue(w, u, n, row);
    } else {
      var init, last := choices[..|choices| - 1], choices[|choices| - 1];
      assert choices == init + [last];
      RowValue(w, u, n, row, init);
      RowValueStep(w, u, n, row, init, last);
      Combine(row.mass, w.ExactOver(u, n + 1, row.value.0, row.value.1, row.actions, init), last.1,
              w.Branch(u, n + 1, row.value.0, row.value.1, row.actions, last.0),
              EventsValue(w, u, n, w.RowEvents(row, init)), EventsValue(w, u, n, w.RowEvents(row, choices)),
              w.ExactOver(u, n + 1, row.value.0, row.value.1, row.actions, choices));
    }
  }

  lemma {:induction false} LayerValue<S, P, A, R, K>(w: World<S, P, A, R, K>, u: Oracle<A>, n: nat,
      active: seq<Row<S, P, A>>)
    ensures EventsValue(w, u, n, w.LayerEvents(active)) == Sum(ByExact(w, u, n + 1), active)
  {
    hide EventsValue, Sum, ByExact, World.RowEvents, World.Choices, World.ExactOver;
    if active == [] {
      NoLayerValue(w, u, n);
    } else {
      var init, row := active[..|active| - 1], active[|active| - 1];
      LayerValue(w, u, n, init);
      RowValue(w, u, n, row, w.Choices(row.value.0));
      ByExactIs(w, u, n, row);
      EventsValueAppend(w, u, n, w.LayerEvents(init), w.RowEvents(row, w.Choices(row.value.0)));
      SumAppend(ByExact(w, u, n + 1), init, [row]);
      SumOne(ByExact(w, u, n + 1), row);
      assert active == init + [row];
    }
  }

  lemma NoLayerValue<S, P, A, R, K>(w: World<S, P, A, R, K>, u: Oracle<A>, n: nat)
    ensures EventsValue(w, u, n, []) == 0.0 && Sum(ByExact(w, u, n + 1), []) == 0.0
  {
  }

  lemma ByExactIs<S, P, A, R, K>(w: World<S, P, A, R, K>, u: Oracle<A>, n: nat, row: Row<S, P, A>)
    ensures ByExact(w, u, n + 1)(row)
      == row.mass * w.ExactOver(u, n + 1, row.value.0, row.value.1, row.actions, w.Choices(row.value.0))
  {
    hide World.ExactOver, World.Choices;
  }

  lemma SumOne<A, V>(f: Item<A, V> -> real, x: Item<A, V>)
    ensures Sum(f, [x]) == f(x)
  {
    assert [x][1..] == [];
    assert Sum(f, [x]) == f([x][0]) + Sum(f, [x][1..]);
  }

  /** No context's distribution has a negative entry or sums to more than g. */
  ghost predicate Within<S(!new), P, A, R, K>(w: World<S, P, A, R, K>, g: real) {
    && g >= 1.0
    && (forall s, i :: 0 <= i < |w.Choices(s)| ==> w.Choices(s)[i].1 >= 0.0)
    && (forall s :: ProbabilitySum(w.Choices(s)) <= g)
  }

  function Power(g: real, n: nat): real {
    if n == 0 then 1.0 else g * Power(g, n - 1)
  }

  lemma {:induction false} PowerGrows(g: real, m: nat, n: nat)
    requires g >= 1.0 && m <= n
    ensures 1.0 <= Power(g, m) <= Power(g, n)
  {
    if n > 0 {
      if m == n {
        PowerGrows(g, n - 1, n - 1);
      } else {
        PowerGrows(g, m, n - 1);
      }
      Monotone(Power(g, n - 1), 1.0, g);
    }
  }

  lemma Monotone(m: real, a: real, b: real)
    requires m >= 0.0 && a <= b
    ensures m * a <= m * b
  {
  }

  /** n operations can at most multiply the mass by g to the n. */
  lemma {:induction false} ExactBounds<S(!new), P, A(!new), R, K>(w: World<S, P, A, R, K>, u: Oracle<A>, g: real,
      n: nat, s: S, p: P, actions: seq<A>)
    requires Within(w, g) && Bounded(u)
    ensures 0.0 <= w.Exact(u, n, s, p, actions) <= Power(g, n)
    decreases n, 0, 0
  {
    if n > 0 {
      var choices := w.Choices(s);
      ExactOverBounds(w, u, g, n, s, p, actions, choices);
      PowerGrows(g, 0, n - 1);
      Monotone(Power(g, n - 1), ProbabilitySum(choices), g);
    }
  }

  lemma {:induction false} ExactOverBounds<S(!new), P, A(!new), R, K>(w: World<S, P, A, R, K>, u: Oracle<A>, g: real,
      n: nat, s: S, p: P, actions: seq<A>, choices: seq<(Token<A>, real)>)
    requires Within(w, g) && Bounded(u) && n > 0
    requires forall i :: 0 <= i < |choices| ==> choices[i].1 >= 0.0
    ensures 0.0 <= w.ExactOver(u, n, s, p, actions, choices) <= Power(g, n - 1) * ProbabilitySum(choices)
    decreases n - 1, 2, |choices|
  {
    hide World.Branch, World.Exact;
    if choices != [] {
      var init, last := choices[..|choices| - 1], choices[|choices| - 1];
      ExactOverBounds(w, u, g, n, s, p, actions, init);
      BranchBounds(w, u, g, n, s, p, actions, last.0);
      Monotone(last.1, 0.0, w.Branch(u, n, s, p, actions, last.0));
      Monotone(last.1, w.Branch(u, n, s, p, actions, last.0), Power(g, n - 1));
      Distribute(Power(g, n - 1), ProbabilitySum(init), last.1);
    }
  }

  lemma {:induction false} BranchBounds<S(!new), P, A(!new), R, K>(w: World<S, P, A, R, K>, u: Oracle<A>, g: real,
      n: nat, s: S, p: P, actions: seq<A>, token: Token<A>)
    requires Within(w, g) && Bounded(u) && n > 0
    ensures 0.0 <= w.Branch(u, n, s, p, actions, token) <= Power(g, n - 1)
    decreases n - 1, 1, 0
  {
    PowerGrows(g, 0, n - 1);
    match token
    case Unknown =>
    case End =>
    case Act(a) =>
      match w.advance(s, p, a)
      case None =>
      case Some((s', p')) => ExactBounds(w, u, g, n - 1, s', p', actions + [a]);
  }

  // --------------------------------------------------- an interval per buffer

  ghost predicate NonNegative<A, V>(s: seq<Item<A, V>>) {
    forall i :: 0 <= i < |s| ==> s[i].mass >= 0.0
  }

  /** Worth something between nothing and `bound` times its mass, and no more than its mass when unresolved. */
  ghost predicate Fair<S, P, A, R, K>(w: World<S, P, A, R, K>, u: Oracle<A>, bound: real, n: nat,
      e: Event<S, P, A, R>) {
    && e.Mass() >= 0.0
    && 0.0 <= EventValue(w, u, n, e) <= bound * e.Mass()
    && (e.Lost? ==> EventValue(w, u, n, e) <= e.Mass())
  }

  lemma EventFair<S(!new), P, A(!new), R, K>(w: World<S, P, A, R, K>, u: Oracle<A>, g: real, bound: real, n: nat,
      e: Event<S, P, A, R>)
    requires Within(w, g) && Bounded(u) && Power(g, n) <= bound && 1.0 <= bound
    requires e.Mass() >= 0.0
    ensures Fair(w, u, bound, n, e)
  {
    hide World.Exact, Within, Power, EventValue, Worth, Event.Mass;
    WorthBounds(w, u, g, bound, n, e);
    FairWorth(e.Mass(), Worth(w, u, n, e), bound, EventValue(w, u, n, e), e.Lost?);
  }

  lemma FairWorth(m: real, worth: real, bound: real, value: real, lost: bool)
    requires m >= 0.0 && 0.0 <= worth <= bound && 1.0 <= bound && value == m * worth && (lost ==> worth <= 1.0)
    ensures 0.0 <= value <= bound * m && (lost ==> value <= m)
  {
    MassTimes(m, worth, bound);
  }

  /** The worth of an event per unit of its mass. */
  ghost function Worth<S, P, A, R, K>(w: World<S, P, A, R, K>, u: Oracle<A>, n: nat, e: Event<S, P, A, R>): real {
    match e
    case Lost(_, actions, token) => u(actions, token)
    case Finish(x) => Hit(w, x.value.0)
    case Grow(x) => w.Exact(u, n, x.value.0, x.value.1, x.actions)
  }

  lemma WorthBounds<S(!new), P, A(!new), R, K>(w: World<S, P, A, R, K>, u: Oracle<A>, g: real, bound: real, n: nat,
      e: Event<S, P, A, R>)
    requires Within(w, g) && Bounded(u) && Power(g, n) <= bound && 1.0 <= bound
    ensures EventValue(w, u, n, e) == e.Mass() * Worth(w, u, n, e)
    ensures 0.0 <= Worth(w, u, n, e) <= bound && (e.Lost? ==> Worth(w, u, n, e) <= 1.0)
  {
    hide World.Exact, Within, Power;
    if e.Grow? {
      ExactBounds(w, u, g, n, e.row.value.0, e.row.value.1, e.row.actions);
    }
  }

  lemma GrowFair<S(!new), P, A(!new), R, K>(w: World<S, P, A, R, K>, u: Oracle<A>, g: real, bound: real, n: nat,
      x: Row<S, P, A>)
    requires Within(w, g) && Bounded(u) && Power(g, n) <= bound && 1.0 <= bound
    requires x.mass >= 0.0
    ensures 0.0 <= ByExact(w, u, n)(x) <= bound * x.mass
  {
    hide World.Exact, Within;
    ExactBounds(w, u, g, n, x.value.0, x.value.1, x.actions);
    MassTimes(x.mass, w.Exact(u, n, x.value.0, x.value.1, x.actions), bound);
  }

  lemma HitFair<S, P, A, R, K>(w: World<S, P, A, R, K>, bound: real, x: Final<A, R>)
    requires x.mass >= 0.0 && 1.0 <= bound
    ensures 0.0 <= ByHit(w)(x) <= bound * x.mass
  {
    MassTimes(x.mass, Hit(w, x.value.0), bound);
  }

  lemma MassTimes(m: real, v: real, bound: real)
    requires m >= 0.0 && 0.0 <= v <= bound && 1.0 <= bound
    ensures 0.0 <= m * v <= bound * m
    ensures v <= 1.0 ==> m * v <= m
  {
  }

  ghost predicate Brackets<S, P, A, R, K>(w: World<S, P, A, R, K>, u: Oracle<A>, bound: real, n: nat,
      b: Buffer<S, P, A, R>, v: real) {
    BufferValue(w, u, n, b) <= v <= BufferValue(w, u, n, b) + Gap(bound, b.unknown, b.other)
  }

  /** How far the enumerated worth can fall short of the exact one. */
  ghost function Gap(bound: real, unknown: real, other: real): real {
    unknown + bound * other
  }

  lemma GapWidens(bound: real, unknown: real, other: real, dUnknown: real, dOther: real)
    ensures Gap(bound, unknown + dUnknown, other + dOther) == Gap(bound, unknown, other) + dUnknown + bound * dOther
  {
    Distribute(bound, other, dOther);
  }

  /** What recording needs: an unresolved future is worth no more than its mass. */
  ghost predicate Covered<S, P, A, R, K>(w: World<S, P, A, R, K>, u: Oracle<A>, n: nat, e: Event<S, P, A, R>) {
    e.Lost? ==> 0.0 <= EventValue(w, u, n, e) <= e.Mass()
  }

  lemma RecordBrackets<S, P, A, R, K>(w: World<S, P, A, R, K>, u: Oracle<A>, bound: real, n: nat,
      b: Buffer<S, P, A, R>, v: real, e: Event<S, P, A, R>)
    requires Brackets(w, u, bound, n, b, v) && Covered(w, u, n, e)
    ensures Brackets(w, u, bound, n, Record(b, e), v + EventValue(w, u, n, e))
  {
    hide World.Exact, Gap;
    match e
    case Lost(m, _, _) => GapWidens(bound, b.unknown, b.other, m, 0.0);
    case Finish(x) => SumAppend(ByHit(w), b.finished, [x]);
    case Grow(x) => SumAppend(ByExact(w, u, n), b.grown, [x]);
  }

  lemma {:induction false} PushAllBrackets<S, P, A, R, K>(w: World<S, P, A, R, K>, u: Oracle<A>, bound: real, n: nat,
      b: Buffer<S, P, A, R>, v: real, es: seq<Event<S, P, A, R>>)
    requires Brackets(w, u, bound, n, b, v)
    requires forall i :: 0 <= i < |es| ==> Fair(w, u, bound, n, es[i])
    ensures Brackets(w, u, bound, n, PushAll(b, es), v + EventsValue(w, u, n, es))
  {
    hide EventValue, Brackets, Fair, Push;
    if es != [] {
      var init, e := es[..|es| - 1], es[|es| - 1];
      PushAllBrackets(w, u, bound, n, b, v, init);
      PushBrackets(w, u, bound, n, PushAll(b, init), v + EventsValue(w, u, n, init), e);
    }
  }

  lemma PushBrackets<S, P, A, R, K>(w: World<S, P, A, R, K>, u: Oracle<A>, bound: real, n: nat, b: Buffer<S, P, A, R>,
      v: real, e: Event<S, P, A, R>)
    requires Brackets(w, u, bound, n, b, v) && Fair(w, u, bound, n, e)
    ensures Brackets(w, u, bound, n, Push(b, e), v + EventValue(w, u, n, e))
  {
    hide EventValue, Gap, Sum, Record;
    if b.used >= MAX_EXPANSIONS {
      GapWidens(bound, b.unknown, b.other, 0.0, e.Mass());
    } else {
      assert Brackets(w, u, bound, n, b.(used := b.used + 1), v);
      RecordBrackets(w, u, bound, n, b.(used := b.used + 1), v, e);
    }
  }

  lemma {:induction false} RecordAllBrackets<S, P, A, R, K>(w: World<S, P, A, R, K>, u: Oracle<A>, bound: real,
      n: nat, b: Buffer<S, P, A, R>, v: real, es: seq<Event<S, P, A, R>>)
    requires Brackets(w, u, bound, n, b, v)
    requires forall i :: 0 <= i < |es| ==> Covered(w, u, n, es[i])
    ensures Brackets(w, u, bound, n, RecordAll(b, es), v + EventsValue(w, u, n, es))
  {
    hide EventValue;
    if es != [] {
      var init, e := es[..|es| - 1], es[|es| - 1];
      RecordAllBrackets(w, u, bound, n, b, v, init);
      RecordBrackets(w, u, bound, n, RecordAll(b, init), v + EventsValue(w, u, n, init), e);
    }
  }

  /** Reading a tally as a buffer about to be filled. */
  function Filled<S, P, A, R>(t: Tally<S, P, A, R>): Buffer<S, P, A, R> {
    Buffer(t.active, t.finished, t.unknown, t.other, t.used)
  }

  lemma DroppedIn<A, V>(le: (A, A) -> bool, k: nat, s: seq<Item<A, V>>)
    requires NonNegative(s)
    ensures NonNegative(Best(le, k, s)) && NonNegative(Dropped(le, k, s))
  {
    SortPermutes(le, s);
    var t := Sort(le, s);
    forall i | 0 <= i < |t| ensures t[i].mass >= 0.0 {
      assert t[i] in multiset(t);
      assert t[i] in s;
    }
  }

  /** Pruning moves at most `bound` times the dropped mass out of the lower end. */
  lemma PruneBrackets<S(!new), P, A(!new), R, K>(w: World<S, P, A, R, K>, u: Oracle<A>, g: real, bound: real, k: nat,
      n: nat, b: Buffer<S, P, A, R>, v: real)
    requires Within(w, g) && Bounded(u) && Power(g, n) <= bound && 1.0 <= bound
    requires NonNegative(b.grown) && NonNegative(b.finished)
    requires Brackets(w, u, bound, n, b, v)
    ensures Brackets(w, u, bound, n, Filled(w.Prune(k, b)), v)
  {
    hide World.Exact, Within, Power, Gap, Best, Dropped, EventValue, Sum, MassOf, ByExact, ByHit;
    SumSplit(ByExact(w, u, n), w.le, k, b.grown);
    SumSplit(ByHit(w), w.le, k, b.finished);
    var rows, lasts := Dropped(w.le, k, b.grown), Dropped(w.le, k, b.finished);
    DroppedIn(w.le, k, b.grown);
    DroppedIn(w.le, k, b.finished);
    forall x | x in rows ensures 0.0 <= ByExact(w, u, n)(x) <= bound * x.mass {
      GrowFair(w, u, g, bound, n, x);
    }
    forall x | x in lasts ensures 0.0 <= ByHit(w)(x) <= bound * x.mass {
      HitFair(w, bound, x);
    }
    SumBounds(ByExact(w, u, n), bound, rows);
    SumBounds(ByHit(w), bound, lasts);
    var b' := Filled(w.Prune(k, b));
    assert BufferValue(w, u, n, b) == BufferValue(w, u, n, b') + Sum(ByExact(w, u, n), rows) + Sum(ByHit(w), lasts);
    GapWidens(bound, b.unknown, b.other, 0.0, MassOf(rows));
    GapWidens(bound, b.unknown, b.other + MassOf(rows), 0.0, MassOf(lasts));
  }

  // ------------------------------------------------------------- whole rollouts

  ghost predicate NonNegativeTally<S, P, A, R>(t: Tally<S, P, A, R>) {
    NonNegative(t.active) && NonNegative(t.finished)
  }

  lemma {:induction false} RowEventsNonNegative<S, P, A, R, K>(w: World<S, P, A, R, K>, row: Row<S, P, A>,
      choices: seq<(Token<A>, real)>)
    requires row.mass >= 0.0
    requires forall i :: 0 <= i < |choices| ==> choices[i].1 >= 0.0
    ensures forall e :: e in w.RowEvents(row, choices) ==> e.Mass() >= 0.0
  {
    hide World.EventOf;
    if choices != [] {
      var n := |choices| - 1;
      RowEventsNonNegative(w, row, choices[..n]);
      EventOfMass(w, row, choices[n]);
      MassTimes(row.mass, choices[n].1, 1.0 + choices[n].1);
    }
  }

  lemma {:induction false} LayerEventsNonNegative<S(!new), P, A, R, K>(w: World<S, P, A, R, K>, g: real,
      active: seq<Row<S, P, A>>)
    requires Within(w, g) && NonNegative(active)
    ensures forall e :: e in w.LayerEvents(active) ==> e.Mass() >= 0.0
  {
    hide World.RowEvents;
    if active != [] {
      var n := |active| - 1;
      LayerEventsNonNegative(w, g, active[..n]);
      RowEventsNonNegative(w, active[n], w.Choices(active[n].value.0));
    }
  }

  lemma {:induction false} PushAllNonNegative<S, P, A, R>(b: Buffer<S, P, A, R>, es: seq<Event<S, P, A, R>>)
    requires NonNegative(b.grown) && NonNegative(b.finished)
    requires forall e :: e in es ==> e.Mass() >= 0.0
    ensures NonNegative(PushAll(b, es).grown) && NonNegative(PushAll(b, es).finished)
    ensures NonNegative(RecordAll(b, es).grown) && NonNegative(RecordAll(b, es).finished)
  {
    if es != [] {
      PushAllNonNegative(b, es[..|es| - 1]);
      assert es[|es| - 1] in es;
    }
  }

  /** One layer keeps the exact value inside the interval. */
  lemma RoundBrackets<S(!new), P, A(!new), R, K>(w: World<S, P, A, R, K>, u: Oracle<A>, g: real, bound: real, k: nat,
      n: nat, t: Tally<S, P, A, R>, v: real)
    requires Within(w, g) && Bounded(u) && Power(g, n) <= bound && 1.0 <= bound
    requires NonNegativeTally(t) && Brackets(w, u, bound, n + 1, Filled(t), v)
    ensures Brackets(w, u, bound, n, Filled(w.Round(k, t)), v) && NonNegativeTally(w.Round(k, t))
  {
    hide World.LayerEvents, World.Exact, Power, Within, Gap, PushAll, EventsValue, World.Prune, NonNegative;
    var es := w.LayerEvents(t.active);
    var pending := Sum(ByExact(w, u, n + 1), t.active);
    LayerValue(w, u, n, t.active);
    LayerEventsNonNegative(w, g, t.active);
    forall i | 0 <= i < |es| ensures Fair(w, u, bound, n, es[i]) {
      EventFair(w, u, g, bound, n, es[i]);
    }
    PushAllBrackets(w, u, bound, n, Open(t), v - pending, es);
    OpenNonNegative(t);
    PushAllNonNegative(Open(t), es);
    PruneBrackets(w, u, g, bound, k, n, PushAll(Open(t), es), v);
    PruneNonNegative(w, k, PushAll(Open(t), es));
  }

  lemma OpenNonNegative<S, P, A, R>(t: Tally<S, P, A, R>)
    requires NonNegativeTally(t)
    ensures NonNegative(Open(t).grown) && NonNegative(Open(t).finished)
  {
  }

  lemma PruneNonNegative<S, P, A, R, K>(w: World<S, P, A, R, K>, k: nat, b: Buffer<S, P, A, R>)
    requires NonNegative(b.grown) && NonNegative(b.finished)
    ensures NonNegativeTally(w.Prune(k, b))
  {
    DroppedIn(w.le, k, b.grown);
    DroppedIn(w.le, k, b.finished);
  }

  lemma {:induction false} HorizonValue<S, P, A, R, K>(w: World<S, P, A, R, K>, u: Oracle<A>, active: seq<Row<S, P, A>>)
    requires NonNegative(active)
    ensures EventsValue(w, u, 0, w.HorizonEvents(active)) == Sum(ByExact(w, u, 0), active)
    ensures forall e :: e in w.HorizonEvents(active) ==> e.Mass() >= 0.0
  {
    if active != [] {
      var init, row := active[..|active| - 1], active[|active| - 1];
      HorizonValue(w, u, init);
      var e := w.Arrive(row.mass, row.value.1, row.actions, None);
      assert EventValue(w, u, 0, e) == ByExact(w, u, 0)(row);
      EventsValueAppend(w, u, 0, w.HorizonEvents(init), [e]);
      SumAppend(ByExact(w, u, 0), init, [row]);
      assert active == init + [row];
      assert [e][..0] == [];
    }
  }

  lemma CloseBrackets<S(!new), P, A(!new), R, K>(w: World<S, P, A, R, K>, u: Oracle<A>, g: real, bound: real, k: nat,
      t: Tally<S, P, A, R>, v: real)
    requires Within(w, g) && Bounded(u) && 1.0 <= bound
    requires NonNegativeTally(t) && Brackets(w, u, bound, 0, Filled(t), v)
    ensures Brackets(w, u, bound, 0, Filled(w.Close(k, t)), v)
  {
    hide World.HorizonEvents, World.Exact, Within, Gap, RecordAll, EventsValue, World.Prune, NonNegative;
    var es := w.HorizonEvents(t.active);
    var pending := Sum(ByExact(w, u, 0), t.active);
    HorizonValue(w, u, t.active);
    forall i | 0 <= i < |es| ensures Fair(w, u, bound, 0, es[i]) {
      EventFair(w, u, g, bound, 0, es[i]);
    }
    RecordAllBrackets(w, u, bound, 0, Open(t), v - pending, es);
    OpenNonNegative(t);
    PushAllNonNegative(Open(t), es);
    PruneBrackets(w, u, g, bound, k, 0, RecordAll(Open(t), es), v);
  }

  lemma {:induction false} RoundsBracket<S(!new), P, A(!new), R, K>(w: World<S, P, A, R, K>, u: Oracle<A>, g: real,
      bound: real, k: nat, n: nat, more: nat, t: Tally<S, P, A, R>, v: real)
    requires Within(w, g) && Bounded(u) && Power(g, n + more) <= bound
    requires NonNegativeTally(t) && Brackets(w, u, bound, n + more, Filled(t), v)
    ensures Brackets(w, u, bound, more, Filled(w.Rounds(k, n, t)), v) && NonNegativeTally(w.Rounds(k, n, t))
  {
    hide World.Round, Brackets, Power, NonNegativeTally;
    if n > 0 {
      RoundsBracket(w, u, g, bound, k, n - 1, more + 1, t, v);
      var before := w.Rounds(k, n - 1, t);
      PowerGrows(g, more, n + more);
      RoundBrackets(w, u, g, bound, k, more, before, v);
    }
  }

  /** The probability that the enumerated outcomes reach a sink. */
  ghost function Arrived<S, P, A, R, K>(w: World<S, P, A, R, K>, t: Tally<S, P, A, R>): real {
    Sum(ByHit(w), t.finished)
  }

  /** Bracketing. Whatever the unresolved futures turn out to be worth, the exact arrival
      probability is at least what was enumerated and at most that plus everything unaccounted
      for; the pruned part is stretched only by how far contexts exceed a total of 1. */
  lemma ArrivalBracketed<S(!new), P, A(!new), R, K>(w: World<S, P, A, R, K>, u: Oracle<A>, g: real, k: nat,
      horizon: nat, s: S, p: P)
    requires Within(w, g) && Bounded(u)
    ensures var t := w.Run(k, horizon, s, p);
      Arrived(w, t) <= w.Exact(u, horizon, s, p, []) <= Arrived(w, t) + t.unknown + Power(g, horizon) * t.other
  {
    hide World.Rounds, World.Close, World.Exact, Power, World.Prune;
    var t0: Tally<S, P, A, R> := Start(s, p);
    var v := w.Exact(u, horizon, s, p, []);
    StartValue(w, u, horizon, s, p);
    PowerGrows(g, 0, horizon);
    assert Power(g, 0) == 1.0 by { PowerZero(g); }
    RoundsBracket(w, u, g, Power(g, horizon), k, horizon, 0, t0, v);
    CloseBrackets(w, u, g, Power(g, horizon), k, w.Rounds(k, horizon, t0), v);
    CloseConserves(w, k, w.Rounds(k, horizon, t0));
  }

  lemma PowerZero(g: real)
    ensures Power(g, 0) == 1.0
  {
  }

  lemma StartValue<S, P, A, R, K>(w: World<S, P, A, R, K>, u: Oracle<A>, n: nat, s: S, p: P)
    ensures var t: Tally<S, P, A, R> := Start(s, p);
      TallyValue(w, u, n, t) == w.Exact(u, n, s, p, []) && NonNegativeTally(t)
  {
    hide World.Exact;
    var t: Tally<S, P, A, R> := Start(s, p);
    assert t.active[1..] == [];
    assert Sum(ByExact(w, u, n), t.active) == ByExact(w, u, n)(t.active[0]) + Sum(ByExact(w, u, n), t.active[1..]);
  }
}
