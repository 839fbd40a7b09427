/** When an accepted model's request is answered: totals so close to 1 that eight operations cannot
    carry the mass out of the record's tolerance, and a model that drifts out of it. */
module Answers {
  import opened Ranking
  import opened Rollout
  import opened Bracketing
  import opened Generate
  import opened Guarantees
  import opened Wrappers

  /** Every context totals within d of 1. */
  ghost predicate Near<A, K>(table: map<K, seq<(Token<A>, real)>>, d: real) {
    forall key :: key in table ==> -d <= ProbabilitySum(table[key]) - 1.0 <= d
  }

  ghost predicate AtLeast<S(!new), P, A, R, K>(w: World<S, P, A, R, K>, low: real) {
    forall s :: ProbabilitySum(w.Choices(s)) >= low
  }

  lemma NearWithin<S(!new), P, A, R, K>(w: World<S, P, A, R, K>, d: real)
    requires Accepted(w) && Near(w.transitions, d) && d >= 0.0
    ensures Within(w, 1.0 + d) && AtLeast(w, 1.0 - d)
  {
    AcceptedWithin(w);
    UnknownSum<A>();
  }

  // ------------------------------------------------------------- mass from below

  lemma {:induction false} LayerKeeps<S(!new), P, A, R, K>(w: World<S, P, A, R, K>, d: real,
      active: seq<Row<S, P, A>>)
    requires AtLeast(w, 1.0 - d) && NonNegative(active)
    ensures EventMass(w.LayerEvents(active)) >= MassOf(active) - d * MassOf(active)
  {
    hide World.LayerEvents, MassOf, ProbabilitySum;
    if active == [] {
      NothingPending(w);
    } else {
      var init, row := active[..|active| - 1], active[|active| - 1];
      assert active == init + [row];
      LayerKeeps(w, d, init);
      LayerStep(w, init, row);
      KeepStep(d, MassOf(init), EventMass(w.LayerEvents(init)), row.mass, ProbabilitySum(w.Choices(row.value.0)));
    }
  }

  lemma KeepStep(d: real, mass: real, events: real, m: real, p: real)
    requires events >= mass - d * mass && m >= 0.0 && p >= 1.0 - d
    ensures events + m * p >= (mass + m) - d * (mass + m)
  {
    var low := 1.0 - d;
    Monotone(m, low, p);
    assert m * low == m - d * m;
    Distribute(d, mass, m);
  }

  /** What the upper bound may gain the lower one may lose. */
  lemma {:induction false} RoundsKeep<S(!new), P, A, R, K>(w: World<S, P, A, R, K>, d: real, k: nat, n: nat, s: S, p: P)
    requires Within(w, 1.0 + d) && AtLeast(w, 1.0 - d) && d >= 0.0
    ensures var t0: Tally<S, P, A, R> := Start(s, p);
      TallyMass(w.Rounds(k, n, t0)) >= 2.0 - Power(1.0 + d, n)
  {
    hide World.Round, TallyMass, Plain, Start, Within, AtLeast;
    var t0: Tally<S, P, A, R> := Start(s, p);
    if n == 0 {
      StartMass<S, P, A, R>(s, p);
    } else {
      RoundsKeep(w, d, k, n - 1, s, p);
      RoundsGrowth(w, 1.0 + d, k, n - 1, s, p);
      RoundKeeps(w, d, k, w.Rounds(k, n - 1, t0), Power(1.0 + d, n - 1));
    }
  }

  lemma RoundKeeps<S(!new), P, A, R, K>(w: World<S, P, A, R, K>, d: real, k: nat, t: Tally<S, P, A, R>, high: real)
    requires AtLeast(w, 1.0 - d) && d >= 0.0 && Plain(t) && 2.0 - high <= TallyMass(t) <= high
    ensures TallyMass(w.Round(k, t)) >= 2.0 - (1.0 + d) * high
  {
    hide World.Round, EventMass, World.LayerEvents, AtLeast, Sum;
    RoundMass(w, k, t);
    LayerKeeps(w, d, t.active);
    MassNonNegative(t.finished);
    var mass := MassOf(t.active);
    Monotone(d, mass, high);
    assert (1.0 + d) * high == high + d * high;
  }

  /** The accounted mass of a whole run, from below. */
  lemma RunKeeps<S(!new), P, A, R, K>(w: World<S, P, A, R, K>, d: real, k: nat, horizon: nat, s: S, p: P)
    requires Within(w, 1.0 + d) && AtLeast(w, 1.0 - d) && d >= 0.0
    ensures var t := w.Run(k, horizon, s, p);
      MassOf(t.finished) + t.unknown + t.other >= 2.0 - Power(1.0 + d, horizon)
  {
    hide World.Rounds, World.Close, Power, Sum;
    var t0: Tally<S, P, A, R> := Start(s, p);
    RoundsKeep(w, d, k, horizon, s, p);
    CloseConserves(w, k, w.Rounds(k, horizon, t0));
    assert MassOf<A, (S, P)>([]) == 0.0 by { NothingPending(w); }
  }

  // ------------------------------------------------------------------- clamping

  lemma {:induction false} ClampedOrFull<R>(table: seq<(R, real)>)
    requires forall i :: 0 <= i < |table| ==> table[i].1 >= 0.0
    ensures 0.0 <= TableSum(Clamped(table)) <= TableSum(table)
    ensures TableSum(Clamped(table)) == TableSum(table) || TableSum(Clamped(table)) >= 1.0
  {
    if table != [] {
      ClampedOrFull(table[1..]);
    }
  }

  /** Clamping cannot carry a mass within the tolerance out of it. */
  lemma ConcludesNear<A, R>(sink: R -> bool, table: seq<(R, real)>, finished: seq<Final<A, R>>, unknown: real,
      other: real, used: nat)
    requires forall i :: 0 <= i < |table| ==> table[i].1 >= 0.0
    requires 0.0 <= unknown && 0.0 <= other
    requires 1.0 - EPSILON <= TableSum(table) + unknown + other <= 1.0 + EPSILON
    ensures var r := Conclude(sink, table, finished, unknown, other, used); r.Err? ==> r.error == RiskInconsistent
  {
    hide TableSum, SinkSum, Clamped;
    ClampedOrFull(table);
  }

  /** When every total lies within d of 1 and eight operations stretch d to at most 1e-9, the requests
      answered are exactly those for 1, 2, 4 or 8 operations with a beam of 1 to 64. */
  lemma AnsweredWhenNear<S(!new), P, A(!new), R, K>(w: World<S, P, A, R, K>, d: real, s: S, p: P, horizon: nat,
      k: nat)
    requires Accepted(w) && Near(w.transitions, d) && d >= 0.0 && Power(1.0 + d, 8) - 1.0 <= EPSILON
    ensures Predict(w, s, p, horizon, k).Ok? <==> horizon in {1, 2, 4, 8} && 1 <= k <= 64
    ensures Predict(w, s, p, horizon, k).Err? ==> Predict(w, s, p, horizon, k) == Err(InvalidRequest)
  {
    hide World.Run, World.Exact, Group, Conclude, TableSum, Accepted, Power, Sum, Within, AtLeast, NonNegative, Near;
    if horizon in HORIZONS && 1 <= k <= MAX_BEAM {
      ValidIsAnswered(w, d, s, p, horizon, k);
    }
  }

  lemma ValidIsAnswered<S(!new), P, A(!new), R, K>(w: World<S, P, A, R, K>, d: real, s: S, p: P, horizon: nat,
      k: nat)
    requires Accepted(w) && Near(w.transitions, d) && d >= 0.0 && Power(1.0 + d, 8) - 1.0 <= EPSILON
    requires horizon in HORIZONS && 1 <= k <= MAX_BEAM
    ensures Predict(w, s, p, horizon, k).Ok?
  {
    hide World.Run, World.Exact, Group, Conclude, TableSum, Accepted, Power, Sum, Within, AtLeast, NonNegative, Near;
    var t := w.Run(k, horizon, s, p);
    NearWithin(w, d);
    RunGrowth(w, 1.0 + d, k, horizon, s, p);
    RunKeeps(w, d, k, horizon, s, p);
    PowerGrows(1.0 + d, horizon, 8);
    GroupSums(w, t.finished);
    ConcludesNear(w.sink, Group(t.finished), t.finished, t.unknown, t.other, t.used);
    var u: Oracle<A> := (h, token) => 0.0;
    RiskIsClose(w, u, s, p, horizon, k);
  }

  // ------------------------------------------------------------ a refused answer

  const DRIFT: seq<(Token<int>, real)> := [(Unknown, 0.5), (Act(0), 0.5 + EPSILON)]

  /** One context totalling 1 + 1e-9 with one action, always possible and always arriving. */
  function Drifting(): World<(), (), int, (), ()> {
    World((s: ()) => (), map[() := DRIFT], (s: (), p: (), a: int) => Some(((), ())),
          (p: ()) => Some(()), (r: ()) => true, (a: int, b: int) => a <= b)
  }

  lemma DriftingAccepted()
    ensures Accepted(Drifting()) && Drifting().Choices(()) == DRIFT && Near(Drifting().transitions, EPSILON)
  {
    assert DRIFT[..1] == [DRIFT[0]] && DRIFT[..1][..0] == [];
    assert ProbabilitySum(DRIFT[..1]) == 0.5;
    assert |Drifting().transitions| == 1;
  }

  /** A row's successor. */
  function After(row: Row<(), (), int>): Row<(), (), int> {
    Item(row.mass * (0.5 + EPSILON), row.actions + [0], ((), ()))
  }

  lemma DriftingEvents(row: Row<(), (), int>)
    requires row.mass > 0.0
    ensures Drifting().LayerEvents([row]) == [Lost(row.mass * 0.5, row.actions, Some(Unknown)), Grow(After(row))]
  {
    hide World.EventOf, World.RowEvents, World.LayerEvents, Drifting, Accepted, Near;
    var w := Drifting();
    DriftingAccepted();
    DriftingMoves(row);
    assert row.value.0 == ();
    assert [] + [DRIFT[0]] == DRIFT[..1] && DRIFT[..1] + [DRIFT[1]] == DRIFT;
    NoRows(w, row);
    OneRowLayer(w, row);
    RowEventsSnoc(w, row, [], DRIFT[0]);
    RowEventsSnoc(w, row, DRIFT[..1], DRIFT[1]);
  }

  lemma DriftingMoves(row: Row<(), (), int>)
    requires row.mass > 0.0
    ensures Drifting().EventOf(row, DRIFT[0]) == Lost(row.mass * 0.5, row.actions, Some(Unknown))
    ensures Drifting().EventOf(row, DRIFT[1]) == Grow(After(row))
    ensures row.mass * DRIFT[0].1 != 0.0 && row.mass * DRIFT[1].1 != 0.0
  {
  }

  lemma BestOfOne<A, V>(le: (A, A) -> bool, k: nat, x: Item<A, V>)
    requires k >= 1
    ensures Best(le, k, [x]) == [x] && MassOf(Dropped(le, k, [x])) == 0.0
  {
    assert [x][..0] == [];
    assert Sort(le, [x]) == [x];
  }

  lemma BestOfNone<A, V>(le: (A, A) -> bool, k: nat)
    ensures Best<A, V>(le, k, []) == [] && MassOf(Dropped<A, V>(le, k, [])) == 0.0
  {
  }

  lemma DriftingRound(k: nat, row: Row<(), (), int>, unknown: real, used: nat)
    requires k >= 1 && row.mass > 0.0 && used + 2 <= MAX_EXPANSIONS
    ensures Drifting().Round(k, Tally([row], [], unknown, 0.0, used))
         == Tally([After(row)], [], unknown + row.mass * 0.5, 0.0, used + 2)
  {
    hide World.LayerEvents, Best, Dropped, Sum;
    var t: Tally<(), (), int, ()> := Tally([row], [], unknown, 0.0, used);
    DriftingEvents(row);
    var lost: Event<(), (), int, ()> := Lost(row.mass * 0.5, row.actions, Some(Unknown));
    PushOne(Open(t), [], lost);
    PushOne(Open(t), [lost], Grow(After(row)));
    assert [] + [lost] == [lost] && [lost] + [Grow(After(row))] == [lost, Grow(After(row))];
    BestOfOne(Drifting().le, k, After(row));
    BestOfNone<int, ((), bool)>(Drifting().le, k);
    var b := Buffer([After(row)], [], unknown + row.mass * 0.5, 0.0, used + 2);
    assert PushAll(Open(t), [lost]) == Buffer([], [], unknown + row.mass * 0.5, 0.0, used + 1);
    assert PushAll(Open(t), [lost, Grow(After(row))]) == b;
    assert Drifting().Prune(k, b) == Tally([After(row)], [], unknown + row.mass * 0.5, 0.0, used + 2);
  }

  lemma DriftingClose(k: nat, row: Row<(), (), int>, unknown: real, used: nat)
    requires k >= 1
    ensures Drifting().Close(k, Tally([row], [], unknown, 0.0, used))
         == Tally([], [Item(row.mass, row.actions, ((), false))], unknown, 0.0, used)
  {
    hide Best, Dropped, Sum;
    var w := Drifting();
    var t: Tally<(), (), int, ()> := Tally([row], [], unknown, 0.0, used);
    var last: Event<(), (), int, ()> := Finish(Item(row.mass, row.actions, ((), false)));
    assert [row][..0] == [] && w.HorizonEvents([]) == [] && [] + [last] == [last];
    assert w.HorizonEvents([row]) == [last];
    PushOne(Open(t), [], last);
    BestOfOne(w.le, k, Item(row.mass, row.actions, ((), false)));
    BestOfNone<int, ((), ())>(w.le, k);
    var b := Buffer([], [last.last], unknown, 0.0, used);
    assert RecordAll(Open(t), [last]) == b;
    assert w.Prune(k, b) == Tally([], [last.last], unknown, 0.0, used);
  }

  /** Two operations ahead nothing is pruned or capped, and the accounted mass is 1 + 1.5e-9 + 1e-18:
      the record refuses it, for every beam. */
  lemma DriftingRefused(k: nat)
    requires 1 <= k <= MAX_BEAM
    ensures Accepted(Drifting()) && Predict(Drifting(), (), (), 2, k) == Err(MassMismatch)
  {
    hide World.Round, World.Close, Accepted;
    var w := Drifting();
    DriftingAccepted();
    var t0: Tally<(), (), int, ()> := Start((), ());
    var row := t0.active[0];
    assert w.Rounds(k, 0, t0) == t0;
    DriftingRound(k, row, 0.0, 0);
    assert w.Rounds(k, 1, t0) == Tally([After(row)], [], 0.5, 0.0, 2);
    DriftingRound(k, After(row), 0.5, 2);
    var mass := (0.5 + EPSILON) * (0.5 + EPSILON);
    var unknown := 0.75 + EPSILON / 2.0;
    assert After(After(row)).mass == mass;
    DriftingClose(k, After(After(row)), unknown, 4);
    var last: Final<int, ()> := Item(mass, After(After(row)).actions, ((), false));
    assert w.Run(k, 2, (), ()) == Tally([], [last], unknown, 0.0, 4);
    TooMuch(w.sink, last, mass, unknown);
  }

  lemma TooMuch(sink: (()) -> bool, last: Final<int, ()>, mass: real, unknown: real)
    requires last.mass == mass == (0.5 + EPSILON) * (0.5 + EPSILON) && unknown == 0.75 + EPSILON / 2.0
    ensures Report(sink, [last], unknown, 0.0, 4) == Err(MassMismatch)
  {
    var table := [(last.value.0, mass)];
    assert [last][..0] == [];
    assert Group([last]) == table;
    assert mass + unknown == 1.0 + 1.5 * EPSILON + EPSILON * EPSILON;
    assert table[1..] == [] && Clamped(table) == table;
    assert TableSum(table) == mass;
  }
}
