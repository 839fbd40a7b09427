/** What a reported forecast means for a model the constructor accepts. */
module Guarantees {
  import opened Ranking
  import opened Rollout
  import opened Bracketing
  import opened Generate
  import opened Wrappers
  import Beam

  const MAX_CONTEXTS: nat := 4096
  const EPSILON: real := 0.000000001

  /** The constructor's check of one context. */
  ghost predicate ValidChoices<A>(choices: seq<(Token<A>, real)>) {
    && 1 <= |choices| <= MAX_CHOICES
    && (forall i :: 0 <= i < |choices| ==> 0.0 < choices[i].1 <= 1.0)
    && Beam.DistinctTokens(choices)
    && -EPSILON <= ProbabilitySum(choices) - 1.0 <= EPSILON
  }

  /** The constructor's check of the transitions. */
  ghost predicate AcceptedTable<A, K>(table: map<K, seq<(Token<A>, real)>>) {
    && 1 <= |table| <= MAX_CONTEXTS
    && (forall key :: key in table ==> ValidChoices(table[key]))
  }

  ghost predicate Accepted<S, P, A, R, K>(w: World<S, P, A, R, K>) {
    AcceptedTable(w.transitions)
  }

  lemma UnknownSum<A>()
    ensures ProbabilitySum<A>([(Unknown, 1.0)]) == 1.0
  {
    var one: seq<(Token<A>, real)> := [(Unknown, 1.0)];
    assert one[..0] == [];
  }

  lemma AcceptedWithin<S(!new), P, A, R, K>(w: World<S, P, A, R, K>)
    requires Accepted(w)
    ensures Within(w, 1.0 + EPSILON) && Beam.Deterministic(w)
    ensures Normalised(w) ==> Within(w, 1.0)
  {
    UnknownSum<A>();
  }

  // ---------------------------------------------------------- grouping outcomes

  ghost predicate DistinctKeys<R>(table: seq<(R, real)>) {
    forall i, j :: 0 <= i < j < |table| ==> table[i].0 != table[j].0
  }

  lemma {:induction false} CreditSums<R>(sink: R -> bool, table: seq<(R, real)>, r: R, mass: real)
    ensures TableSum(Credit(table, r, mass)) == TableSum(table) + mass
    ensures SinkSum(sink, Credit(table, r, mass)) == SinkSum(sink, table) + (if sink(r) then mass else 0.0)
  {
    if table == [] {
      assert [(r, mass)][1..] == [];
    } else if table[0].0 == r {
      assert ([(r, table[0].1 + mass)] + table[1..])[1..] == table[1..];
    } else {
      CreditSums(sink, table[1..], r, mass);
      assert ([table[0]] + Credit(table[1..], r, mass))[1..] == Credit(table[1..], r, mass);
    }
  }

  lemma {:induction false} CreditKeys<R>(table: seq<(R, real)>, r: R, mass: real)
    ensures DistinctKeys(table) ==> DistinctKeys(Credit(table, r, mass))
    ensures forall x :: x in Credit(table, r, mass) ==> x.0 == r || x in table
    ensures (forall i :: 0 <= i < |table| ==> table[i].1 >= 0.0) && mass >= 0.0
            ==> forall i :: 0 <= i < |Credit(table, r, mass)| ==> Credit(table, r, mass)[i].1 >= 0.0
  {
    if table != [] && table[0].0 != r {
      CreditKeys(table[1..], r, mass);
      var rest := Credit(table[1..], r, mass);
      assert Credit(table, r, mass) == [table[0]] + rest;
      if DistinctKeys(table) {
        forall j | 0 <= j < |rest| ensures rest[j].0 != table[0].0 {
          assert rest[j] in rest;
        }
      }
    }
  }

  /** Outcomes group the candidates: one entry per set of routes, nothing gained or lost. */
  lemma {:induction false} GroupSums<S, P, A, R, K>(w: World<S, P, A, R, K>, finished: seq<Final<A, R>>)
    requires NonNegative(finished)
    ensures TableSum(Group(finished)) == MassOf(finished)
    ensures SinkSum(w.sink, Group(finished)) == Sum(ByHit(w), finished)
    ensures DistinctKeys(Group(finished))
    ensures forall i :: 0 <= i < |Group(finished)| ==> Group(finished)[i].1 >= 0.0
  {
    if finished != [] {
      var init, x := finished[..|finished| - 1], finished[|finished| - 1];
      GroupSums(w, init);
      CreditSums(w.sink, Group(init), x.value.0, x.mass);
      CreditKeys(Group(init), x.value.0, x.mass);
      SumAppend(ByMass(), init, [x]);
      SumAppend(ByHit(w), init, [x]);
      assert finished == init + [x];
    }
  }

  lemma {:induction false} ClampedSums<R>(sink: R -> bool, table: seq<(R, real)>)
    requires forall i :: 0 <= i < |table| ==> table[i].1 >= 0.0
    ensures 0.0 <= SinkSum(sink, table) <= TableSum(table)
    ensures 0.0 <= SinkSum(sink, Clamped(table)) <= SinkSum(sink, table)
    ensures TableSum(Clamped(table)) - SinkSum(sink, Clamped(table)) <= TableSum(table) - SinkSum(sink, table)
    ensures TableSum(table) <= 1.0 ==> Clamped(table) == table
    ensures |Clamped(table)| == |table| && forall i :: 0 <= i < |table| ==> Clamped(table)[i].0 == table[i].0
    ensures 0.0 <= SinkSum(sink, Clamped(table)) <= TableSum(Clamped(table))
    ensures SinkSum(sink, table) - SinkSum(sink, Clamped(table)) <= Max(0.0, TableSum(table) - 1.0)
  {
    if table != [] {
      ClampedSums(sink, table[1..]);
    }
  }

  // ------------------------------------------------------------- growth of mass

  lemma {:induction false} LayerMassBound<S(!new), P, A, R, K>(w: World<S, P, A, R, K>, g: real,
      active: seq<Row<S, P, A>>)
    requires Within(w, g) && NonNegative(active)
    ensures EventMass(w.LayerEvents(active)) <= g * MassOf(active)
  {
    hide World.LayerEvents, MassOf;
    if active == [] {
      NothingPending(w);
    } else {
      var init, row := active[..|active| - 1], active[|active| - 1];
      assert active == init + [row];
      LayerMassBound(w, g, init);
      LayerStep(w, init, row);
      BoundStep(g, MassOf(init), EventMass(w.LayerEvents(init)), row.mass, ProbabilitySum(w.Choices(row.value.0)));
    }
  }

  lemma NothingPending<S, P, A, R, K>(w: World<S, P, A, R, K>)
    ensures EventMass(w.LayerEvents([])) == 0.0 && MassOf<A, (S, P)>([]) == 0.0
  {
  }

  lemma BoundStep(g: real, mass: real, events: real, m: real, p: real)
    requires events <= g * mass && m >= 0.0 && p <= g
    ensures events + m * p <= g * (mass + m)
  {
    Monotone(m, p, g);
    Distribute(g, mass, m);
  }

  ghost predicate Plain<S, P, A, R>(t: Tally<S, P, A, R>) {
    NonNegativeTally(t) && t.unknown >= 0.0 && t.other >= 0.0
  }

  lemma {:induction false} PushAllPlain<S, P, A, R>(b: Buffer<S, P, A, R>, es: seq<Event<S, P, A, R>>)
    requires b.unknown >= 0.0 && b.other >= 0.0
    requires forall e :: e in es ==> e.Mass() >= 0.0
    ensures PushAll(b, es).unknown >= 0.0 && PushAll(b, es).other >= 0.0
    ensures RecordAll(b, es).unknown >= 0.0 && RecordAll(b, es).other >= 0.0
  {
    if es != [] {
      PushAllPlain(b, es[..|es| - 1]);
      assert es[|es| - 1] in es;
    }
  }

  lemma {:induction false} MassNonNegative<A, V>(s: seq<Item<A, V>>)
    requires NonNegative(s)
    ensures MassOf(s) >= 0.0
  {
    if s != [] {
      MassNonNegative(s[1..]);
    }
  }

  lemma PrunePlain<S, P, A, R, K>(w: World<S, P, A, R, K>, k: nat, b: Buffer<S, P, A, R>)
    requires NonNegative(b.grown) && NonNegative(b.finished) && b.unknown >= 0.0 && b.other >= 0.0
    ensures Plain(w.Prune(k, b))
  {
    hide Best, Dropped, Sum;
    PruneNonNegative(w, k, b);
    DroppedIn(w.le, k, b.grown);
    DroppedIn(w.le, k, b.finished);
    MassNonNegative(Dropped(w.le, k, b.grown));
    MassNonNegative(Dropped(w.le, k, b.finished));
  }

  lemma RoundGrowth<S(!new), P, A, R, K>(w: World<S, P, A, R, K>, g: real, k: nat, t: Tally<S, P, A, R>)
    requires Within(w, g) && Plain(t)
    ensures Plain(w.Round(k, t)) && TallyMass(w.Round(k, t)) <= g * TallyMass(t)
  {
    hide PushAll, World.LayerEvents, World.Prune, MassOf;
    var es := w.LayerEvents(t.active);
    LayerMassBound(w, g, t.active);
    RoundMass(w, k, t);
    LayerEventsNonNegative(w, g, t.active);
    PushAllNonNegative(Open(t), es);
    PushAllPlain(Open(t), es);
    PrunePlain(w, k, PushAll(Open(t), es));
    MassNonNegative(t.active);
    MassNonNegative(t.finished);
    var rest := MassOf(t.finished) + t.unknown + t.other;
    Monotone(rest, 1.0, g);
    Distribute(g, MassOf(t.active), rest);
  }

  lemma StartMass<S, P, A, R>(s: S, p: P)
    ensures var t0: Tally<S, P, A, R> := Start(s, p); Plain(t0) && TallyMass(t0) == 1.0
  {
    var t0: Tally<S, P, A, R> := Start(s, p);
    SingleMass(t0.active[0]);
  }

  lemma {:induction false} RoundsGrowth<S(!new), P, A, R, K>(w: World<S, P, A, R, K>, g: real, k: nat, n: nat, s: S,
      p: P)
    requires Within(w, g)
    ensures var t0: Tally<S, P, A, R> := Start(s, p);
      Plain(w.Rounds(k, n, t0)) && TallyMass(w.Rounds(k, n, t0)) <= Power(g, n)
  {
    hide World.Round, TallyMass, Plain, Start;
    var t0: Tally<S, P, A, R> := Start(s, p);
    if n == 0 {
      StartMass<S, P, A, R>(s, p);
    } else {
      RoundsGrowth(w, g, k, n - 1, s, p);
      var before := w.Rounds(k, n - 1, t0);
      RoundGrowth(w, g, k, before);
      Monotone(g, TallyMass(before), Power(g, n - 1));
    }
  }

  /** However far contexts stray within g, the accounted mass stays below g to the horizon. */
  lemma RunGrowth<S(!new), P, A, R, K>(w: World<S, P, A, R, K>, g: real, k: nat, horizon: nat, s: S, p: P)
    requires Within(w, g)
    ensures var t := w.Run(k, horizon, s, p);
      Plain(t) && MassOf(t.finished) + t.unknown + t.other <= Power(g, horizon)
  {
    hide World.Rounds, RecordAll, World.HorizonEvents, World.Prune, Power;
    var t0: Tally<S, P, A, R> := Start(s, p);
    RoundsGrowth(w, g, k, horizon, s, p);
    var t := w.Rounds(k, horizon, t0);
    CloseConserves(w, k, t);
    MassNonNegative(t.active);
    HorizonNonNegative(w, t.active);
    PushAllNonNegative(Open(t), w.HorizonEvents(t.active));
    PushAllPlain(Open(t), w.HorizonEvents(t.active));
    PrunePlain(w, k, RecordAll(Open(t), w.HorizonEvents(t.active)));
  }

  lemma {:induction false} HorizonNonNegative<S, P, A, R, K>(w: World<S, P, A, R, K>, active: seq<Row<S, P, A>>)
    requires NonNegative(active)
    ensures forall e :: e in w.HorizonEvents(active) ==> e.Mass() >= 0.0
  {
    if active != [] {
      HorizonNonNegative(w, active[..|active| - 1]);
    }
  }

  // ------------------------------------------------------------ the final claims

  lemma {:induction false} PowerOne(n: nat)
    ensures Power(1.0, n) == 1.0
  {
    if n > 0 { PowerOne(n - 1); }
  }

  lemma PowerHorizon(horizon: nat)
    requires horizon in HORIZONS
    ensures 1.0 <= Power(1.0 + EPSILON, horizon) <= 1.000000009
  {
    var g := 1.0 + EPSILON;
    PowerGrows(g, horizon, 8);
    assert Power(g, 1) == g * Power(g, 0);
    var two := g * g;
    assert two == 1.000000002000000001;
    assert Power(g, 2) == two;
    assert Power(g, 4) == g * (g * Power(g, 2));
    var four := two * two;
    assert Power(g, 4) == four;
    assert Power(g, 6) == g * (g * Power(g, 4));
    assert Power(g, 8) == g * (g * Power(g, 6));
    assert Power(g, 8) == four * four;
  }

  /** The conclusion drawn from tallies that account for at most 1: nothing is clamped. */
  lemma ConcludesExactly<A, R>(sink: R -> bool, table: seq<(R, real)>, finished: seq<Final<A, R>>, unknown: real,
      other: real, used: nat, exact: real)
    requires forall i :: 0 <= i < |table| ==> table[i].1 >= 0.0
    requires 0.0 <= unknown && 0.0 <= other && TableSum(table) + unknown + other <= 1.0
    requires SinkSum(sink, table) <= exact <= SinkSum(sink, table) + unknown + other
    ensures var r := Conclude(sink, table, finished, unknown, other, used);
      && (r.Ok? <==> TableSum(table) + unknown + other >= 1.0 - EPSILON) && (r.Err? ==> r.error == MassMismatch)
      && (r.Ok? ==>
          var f := r.value.forecast;
          && f.outcomes == table && f.other == other && f.unknown == unknown
          && (f.risk.Some? <==> unknown + other < 0.000000000001)
          && (f.risk.Some? ==> f.risk.value <= exact < f.risk.value + 0.000000000001))
  {
    hide TableSum, SinkSum, Clamped;
    ClampedSums(sink, table);
  }

  /** When no context totals more than 1 an answer brackets the exact arrival probability, and a
      reported risk is exact to within 1e-12, whatever the unresolved futures hold. An answer is
      refused only for accounting for too little, and never when every context totals exactly 1. */
  lemma RiskIsExact<S(!new), P, A(!new), R, K>(w: World<S, P, A, R, K>, u: Oracle<A>, s: S, p: P, horizon: nat, k: nat)
    requires Accepted(w) && Within(w, 1.0) && Bounded(u)
    requires horizon in HORIZONS && 1 <= k <= MAX_BEAM
    ensures var r := Predict(w, s, p, horizon, k);
      && (Normalised(w) ==> r.Ok?)
      && (r.Err? ==> r.error == MassMismatch)
      && (r.Ok? ==>
          var f := r.value.forecast; var exact := w.Exact(u, horizon, s, p, []);
          && (Normalised(w) ==> TableSum(f.outcomes) + f.other + f.unknown == 1.0)
          && DistinctKeys(f.outcomes)
          && SinkSum(w.sink, f.outcomes) <= exact <= SinkSum(w.sink, f.outcomes) + f.unknown + f.other
          && (f.risk.Some? <==> f.unknown + f.other < 0.000000000001)
          && (f.risk.Some? ==> f.risk.value <= exact < f.risk.value + 0.000000000001))
  {
    hide World.Run, World.Exact, Group, Conclude, TableSum, SinkSum, Accepted, Within, Normalised, Bounded, Power, Sum,
      DistinctKeys, NonNegative;
    var t := w.Run(k, horizon, s, p);
    var exact := w.Exact(u, horizon, s, p, []);
    if Normalised(w) {
      RunConserves(w, k, horizon, s, p);
    }
    RunGrowth(w, 1.0, k, horizon, s, p);
    ArrivalBracketed(w, u, 1.0, k, horizon, s, p);
    PowerOne(horizon);
    GroupSums(w, t.finished);
    ConcludesExactly(w.sink, Group(t.finished), t.finished, t.unknown, t.other, t.used, exact);
  }

  /** A model may be accepted with sums off by 1e-9 per context. An answer is never refused for its
      risk, and a reported risk is still within 1.1e-8 of the exact value. It may be refused for its
      mass: `Answers` has such a model, and a condition under which none is. */
  lemma RiskIsClose<S(!new), P, A(!new), R, K>(w: World<S, P, A, R, K>, u: Oracle<A>, s: S, p: P, horizon: nat, k: nat)
    requires Accepted(w) && Bounded(u)
    requires horizon in HORIZONS && 1 <= k <= MAX_BEAM
    ensures var r := Predict(w, s, p, horizon, k);
      && r != Err(RiskInconsistent)
      && (r.Ok? ==>
          var f := r.value.forecast; var exact := w.Exact(u, horizon, s, p, []);
          && -EPSILON <= TableSum(f.outcomes) + f.other + f.unknown - 1.0 <= EPSILON
          && DistinctKeys(f.outcomes)
          && SinkSum(w.sink, f.outcomes) <= exact
          && (f.risk.Some? ==> f.risk.value <= exact < f.risk.value + 0.000000011))
  {
    hide World.Run, World.Exact, Group, Clamped, TableSum, SinkSum, Accepted, Bounded;
    var t := w.Run(k, horizon, s, p);
    CloseTally(w, u, s, p, horizon, k);
    GroupSums(w, t.finished);
    ClampedSums(w.sink, Group(t.finished));
    MassNonNegative(t.finished);
  }

  /** Eight operations stretch the mass by less than 9e-9. */
  lemma CloseTally<S(!new), P, A(!new), R, K>(w: World<S, P, A, R, K>, u: Oracle<A>, s: S, p: P, horizon: nat, k: nat)
    requires Accepted(w) && Bounded(u) && horizon in HORIZONS
    ensures var t := w.Run(k, horizon, s, p);
      && Plain(t) && MassOf(t.finished) + t.unknown + t.other <= 1.000000009
      && Arrived(w, t) <= w.Exact(u, horizon, s, p, []) <= Arrived(w, t) + t.unknown + t.other + t.other
  {
    hide World.Run, World.Exact, Accepted, Bounded, Power, Sum;
    var g := 1.0 + EPSILON;
    AcceptedWithin(w);
    RunGrowth(w, g, k, horizon, s, p);
    ArrivalBracketed(w, u, g, k, horizon, s, p);
    PowerHorizon(horizon);
    var t := w.Run(k, horizon, s, p);
    Squeeze(Arrived(w, t), w.Exact(u, horizon, s, p, []), t.unknown, t.other, Power(g, horizon));
  }

  lemma Squeeze(arrived: real, exact: real, unknown: real, other: real, stretch: real)
    requires arrived <= exact <= arrived + unknown + stretch * other && 0.0 <= other && stretch <= 2.0
    ensures exact <= arrived + unknown + other + other
  {
    assert stretch * other <= 2.0 * other;
  }
}
