/** When the bracket holds, as a condition on the learned table alone: in every environment exactly
    when no context totals more than 1 or no context offers two actions. */
module Sharpness {
  import opened Ranking
  import opened Rollout
  import opened Bracketing
  import opened Generate
  import opened Guarantees
  import opened Wrappers

  /** No context totals more than 1. */
  ghost predicate Modest<A, K>(table: map<K, seq<(Token<A>, real)>>) {
    forall key :: key in table ==> ProbabilitySum(table[key]) <= 1.0
  }

  ghost predicate OneAction<A>(choices: seq<(Token<A>, real)>) {
    forall i, j :: 0 <= i < j < |choices| ==> !(choices[i].0.Act? && choices[j].0.Act?)
  }

  /** No context offers two actions. */
  ghost predicate Unbranching<A, K>(table: map<K, seq<(Token<A>, real)>>) {
    forall key :: key in table ==> OneAction(table[key])
  }

  /** The exact arrival probability lies between what arrived and that plus everything unaccounted for. */
  ghost predicate Bracketed<S, P, A, R, K>(w: World<S, P, A, R, K>, u: Oracle<A>, k: nat, horizon: nat, s: S, p: P) {
    var t := w.Run(k, horizon, s, p);
    Arrived(w, t) <= w.Exact(u, horizon, s, p, []) <= Arrived(w, t) + t.unknown + t.other
  }

  // ------------------------------------------------------ layers under the cap

  /** The rows among some events. */
  function Grown<S, P, A, R>(es: seq<Event<S, P, A, R>>): seq<Row<S, P, A>> {
    if es == [] then []
    else Grown(es[..|es| - 1]) + (if es[|es| - 1].Grow? then [es[|es| - 1].row] else [])
  }

  lemma GrownSnoc<S, P, A, R>(es: seq<Event<S, P, A, R>>, e: Event<S, P, A, R>)
    ensures Grown(es + [e]) == Grown(es) + (if e.Grow? then [e.row] else [])
  {
    assert (es + [e])[..|es|] == es;
  }

  /** While the budget lasts, pushing only counts what recording records. */
  lemma {:induction false} Uncapped<S, P, A, R>(b: Buffer<S, P, A, R>, es: seq<Event<S, P, A, R>>)
    requires b.used + |es| <= MAX_EXPANSIONS
    ensures PushAll(b, es) == RecordAll(b, es).(used := b.used + |es|)
    ensures RecordAll(b, es).grown == b.grown + Grown(es)
  {
    if es != [] {
      var init, e := es[..|es| - 1], es[|es| - 1];
      Uncapped(b, init);
      RecordSteps(RecordAll(b, init), b.used + |init|, e);
    }
  }

  lemma RecordSteps<S, P, A, R>(b: Buffer<S, P, A, R>, used: nat, e: Event<S, P, A, R>)
    requires used < MAX_EXPANSIONS
    ensures Push(b.(used := used), e) == Record(b, e).(used := used + 1)
    ensures Record(b, e).grown == b.grown + (if e.Grow? then [e.row] else [])
  {
  }

  // ----------------------------------------------------- no context branches

  ghost predicate Narrow<S(!new), P, A, R, K>(w: World<S, P, A, R, K>) {
    forall s :: |w.Choices(s)| <= MAX_CHOICES && OneAction(w.Choices(s))
  }

  /** Without two actions a row has at most one successor. */
  lemma {:induction false} NarrowRow<S, P, A, R, K>(w: World<S, P, A, R, K>, row: Row<S, P, A>,
      choices: seq<(Token<A>, real)>)
    requires OneAction(choices)
    ensures |w.RowEvents(row, choices)| <= |choices| && |Grown(w.RowEvents(row, choices))| <= 1
    ensures (forall i :: 0 <= i < |choices| ==> !choices[i].0.Act?) ==> Grown(w.RowEvents(row, choices)) == []
  {
    hide World.RowEvents, Grown;
    if choices == [] {
      NoRows(w, row);
      NothingGrown<S, P, A, R>();
    } else {
      var init, last := choices[..|choices| - 1], choices[|choices| - 1];
      assert choices == init + [last];
      NarrowRow(w, row, init);
      RowEventsSnoc(w, row, init, last);
      var before := w.RowEvents(row, init);
      if row.mass * last.1 == 0.0 {
        assert before + [] == before;
      } else {
        GrownSnoc(before, w.EventOf(row, last));
      }
    }
  }

  lemma NothingGrown<S, P, A, R>()
    ensures Grown<S, P, A, R>([]) == []
  {
  }

  lemma NarrowLayer<S(!new), P, A, R, K>(w: World<S, P, A, R, K>, active: seq<Row<S, P, A>>)
    requires Narrow(w) && |active| <= 1
    ensures |w.LayerEvents(active)| <= MAX_CHOICES && |Grown(w.LayerEvents(active))| <= 1
  {
    hide World.RowEvents, World.Choices, OneAction;
    if active != [] {
      assert active == [active[0]];
      OneRowLayer(w, active[0]);
      NarrowRow(w, active[0], w.Choices(active[0].value.0));
    }
  }

  /** When the frontier fits the beam only finished candidates are dropped, each worth at most its mass. */
  lemma FinishedPruned<S, P, A, R, K>(w: World<S, P, A, R, K>, u: Oracle<A>, k: nat, n: nat, b: Buffer<S, P, A, R>,
      v: real)
    requires |b.grown| <= k && NonNegative(b.finished) && Brackets(w, u, 1.0, n, b, v)
    ensures Brackets(w, u, 1.0, n, Filled(w.Prune(k, b)), v)
  {
    hide World.Exact, Gap, Best, Sum, ByExact, ByHit, MassOf;
    var rows, lasts := Dropped(w.le, k, b.grown), Dropped(w.le, k, b.finished);
    SumSplit(ByExact(w, u, n), w.le, k, b.grown);
    SumSplit(ByHit(w), w.le, k, b.finished);
    DroppedIn(w.le, k, b.finished);
    forall x | x in lasts ensures 0.0 <= ByHit(w)(x) <= 1.0 * x.mass {
      HitFair(w, 1.0, x);
    }
    SumBounds(ByHit(w), 1.0, lasts);
    assert rows == [];
    SumOfNothing(ByExact(w, u, n));
    SumOfNothing(ByMass<A, (S, P)>());
    assert MassOf(rows) == 0.0 by { NoWeight<A, (S, P)>(); }
    GapWidens(1.0, b.unknown, b.other, 0.0, MassOf(lasts));
  }

  lemma SumOfNothing<A, V>(f: Item<A, V> -> real)
    ensures Sum(f, []) == 0.0
  {
  }

  lemma NoWeight<A, V>()
    ensures MassOf<A, V>([]) == 0.0
  {
  }

  lemma AllCovered<S(!new), P, A(!new), R, K>(w: World<S, P, A, R, K>, u: Oracle<A>, n: nat,
      es: seq<Event<S, P, A, R>>)
    requires Bounded(u) && forall e :: e in es ==> e.Mass() >= 0.0
    ensures forall i :: 0 <= i < |es| ==> Covered(w, u, n, es[i])
  {
    hide World.Exact;
    forall i | 0 <= i < |es| ensures Covered(w, u, n, es[i]) {
      assert es[i] in es;
      if es[i].Lost? {
        MassTimes(es[i].mass, u(es[i].actions, es[i].token), 1.0);
      }
    }
  }

  /** Opening a layer sets the frontier's worth aside. */
  lemma Opened<S, P, A, R, K>(w: World<S, P, A, R, K>, u: Oracle<A>, m: nat, n: nat, t: Tally<S, P, A, R>, v: real)
    requires Brackets(w, u, 1.0, m, Filled(t), v)
    ensures Brackets(w, u, 1.0, n, Open(t), v - Sum(ByExact(w, u, m), t.active))
  {
    SumOfNothing(ByExact(w, u, n));
  }

  /** One layer of at most one row keeps the plain bracket. */
  lemma NarrowRound<S(!new), P, A(!new), R, K>(w: World<S, P, A, R, K>, u: Oracle<A>, g: real, k: nat, n: nat,
      t: Tally<S, P, A, R>, v: real)
    requires Narrow(w) && Within(w, g) && Bounded(u) && k >= 1
    requires |t.active| <= 1 && t.used + MAX_CHOICES <= MAX_EXPANSIONS
    requires NonNegativeTally(t) && Brackets(w, u, 1.0, n + 1, Filled(t), v)
    ensures var next := w.Round(k, t);
      && |next.active| <= 1 && next.used <= t.used + MAX_CHOICES
      && NonNegativeTally(next) && Brackets(w, u, 1.0, n, Filled(next), v)
  {
    hide World.LayerEvents, World.Exact, Within, Narrow, Bounded, Gap, PushAll, RecordAll, EventsValue, World.Prune,
      NonNegative, Grown, Covered, Best, Sum;
    var es := w.LayerEvents(t.active);
    var pending := Sum(ByExact(w, u, n + 1), t.active);
    LayerValue(w, u, n, t.active);
    LayerEventsNonNegative(w, g, t.active);
    AllCovered(w, u, n, es);
    Opened(w, u, n + 1, n, t, v);
    RecordAllBrackets(w, u, 1.0, n, Open(t), v - pending, es);
    NarrowLayer(w, t.active);
    Uncapped(Open(t), es);
    OpenNonNegative(t);
    PushAllNonNegative(Open(t), es);
    var b := PushAll(Open(t), es);
    assert Brackets(w, u, 1.0, n, b, v);
    FinishedPruned(w, u, k, n, b, v);
    PruneNonNegative(w, k, b);
    PruneSizes(w, k, b);
  }

  lemma PruneSizes<S, P, A, R, K>(w: World<S, P, A, R, K>, k: nat, b: Buffer<S, P, A, R>)
    ensures |w.Prune(k, b).active| <= |b.grown| && w.Prune(k, b).used == b.used
  {
  }

  lemma {:induction false} NarrowRounds<S(!new), P, A(!new), R, K>(w: World<S, P, A, R, K>, u: Oracle<A>, g: real,
      k: nat, n: nat, more: nat, t: Tally<S, P, A, R>, v: real)
    requires Narrow(w) && Within(w, g) && Bounded(u) && k >= 1
    requires |t.active| <= 1 && t.used + n * MAX_CHOICES <= MAX_EXPANSIONS
    requires NonNegativeTally(t) && Brackets(w, u, 1.0, n + more, Filled(t), v)
    ensures var next := w.Rounds(k, n, t);
      && |next.active| <= 1 && next.used <= t.used + n * MAX_CHOICES
      && NonNegativeTally(next) && Brackets(w, u, 1.0, more, Filled(next), v)
  {
    hide World.Round, Brackets, Narrow, Within, Bounded, NonNegativeTally, Filled;
    if n > 0 {
      NarrowRounds(w, u, g, k, n - 1, more + 1, t, v);
      NarrowRound(w, u, g, k, more, w.Rounds(k, n - 1, t), v);
    }
  }

  lemma NarrowClose<S(!new), P, A(!new), R, K>(w: World<S, P, A, R, K>, u: Oracle<A>, k: nat, t: Tally<S, P, A, R>,
      v: real)
    requires Bounded(u) && NonNegativeTally(t) && Brackets(w, u, 1.0, 0, Filled(t), v)
    ensures Brackets(w, u, 1.0, 0, Filled(w.Close(k, t)), v)
  {
    hide World.HorizonEvents, World.Exact, Gap, RecordAll, EventsValue, World.Prune, NonNegative, Covered, Bounded, Sum;
    var es := w.HorizonEvents(t.active);
    var pending := Sum(ByExact(w, u, 0), t.active);
    HorizonValue(w, u, t.active);
    AllCovered(w, u, 0, es);
    Opened(w, u, 0, 0, t, v);
    RecordAllBrackets(w, u, 1.0, 0, Open(t), v - pending, es);
    OpenNonNegative(t);
    PushAllNonNegative(Open(t), es);
    NothingGrows(w, Open(t), t.active);
    FinishedPruned(w, u, k, 0, RecordAll(Open(t), es), v);
  }

  lemma UnbranchingIsNarrow<S(!new), P, A, R, K>(w: World<S, P, A, R, K>)
    requires Accepted(w) && Unbranching(w.transitions)
    ensures Narrow(w)
  {
  }

  /** With one action per context the frontier is a single row and the cap is never met. */
  lemma NarrowBracket<S(!new), P, A(!new), R, K>(w: World<S, P, A, R, K>, u: Oracle<A>, g: real, k: nat,
      horizon: nat, s: S, p: P)
    requires Narrow(w) && Within(w, g) && Bounded(u) && k >= 1 && horizon in HORIZONS
    ensures Bracketed(w, u, k, horizon, s, p)
  {
    hide World.Rounds, World.Close, World.Exact, World.Prune, Narrow, Within, Bounded, Sum;
    var t0: Tally<S, P, A, R> := Start(s, p);
    var v := w.Exact(u, horizon, s, p, []);
    StartValue(w, u, horizon, s, p);
    NarrowRounds(w, u, g, k, horizon, 0, t0, v);
    NarrowClose(w, u, k, w.Rounds(k, horizon, t0), v);
    CloseConserves(w, k, w.Rounds(k, horizon, t0));
    SumOfNothing(ByExact(w, u, 0));
  }

  /** The bracket for every environment whose table meets the condition. */
  lemma BracketHolds<S(!new), P, A(!new), R, K>(w: World<S, P, A, R, K>, u: Oracle<A>, k: nat, horizon: nat, s: S, p: P)
    requires Accepted(w) && Bounded(u) && 1 <= k && horizon in HORIZONS
    requires Modest(w.transitions) || Unbranching(w.transitions)
    ensures Bracketed(w, u, k, horizon, s, p)
  {
    hide World.Run, World.Exact, Bounded, Power;
    AcceptedWithin(w);
    if Modest(w.transitions) {
      ModestWithin(w);
      ArrivalBracketed(w, u, 1.0, k, horizon, s, p);
      PowerOne(horizon);
    } else {
      UnbranchingIsNarrow(w);
      NarrowBracket(w, u, 1.0 + EPSILON, k, horizon, s, p);
    }
  }

  lemma ModestWithin<S(!new), P, A, R, K>(w: World<S, P, A, R, K>)
    requires Accepted(w) && Modest(w.transitions)
    ensures Within(w, 1.0)
  {
    AcceptedWithin(w);
    UnknownSum<A>();
  }

  // ------------------------------------- a branching context and a heavy one

  /** Two states: the first meets the branching context, the second the heavy one. Every action is
      possible, every path is a sink arrival. */
  function Straying<A, K>(table: map<K, seq<(Token<A>, real)>>, le: (A, A) -> bool, branching: K,
      heavy: K): World<bool, (), A, (), K> {
    World((s: bool) => if s then heavy else branching, table, (s: bool, p: (), a: A) => Some((true, ())),
          (p: ()) => Some(()), (r: ()) => true, le)
  }

  /** Every unresolved future arrives. */
  function Hopeful<A>(): Oracle<A> {
    (h: seq<A>, t: Option<Token<A>>) => 1.0
  }

  lemma {:induction false} LastStep<A, K>(w: World<bool, (), A, (), K>, p: (), actions: seq<A>,
      choices: seq<(Token<A>, real)>)
    requires w == Straying(w.transitions, w.le, w.context(false), w.context(true))
    ensures w.ExactOver(Hopeful(), 1, true, p, actions, choices) == ProbabilitySum(choices)
  {
    if choices != [] {
      LastStep(w, p, actions, choices[..|choices| - 1]);
      assert w.Branch(Hopeful(), 1, true, p, actions, choices[|choices| - 1].0) == 1.0;
    }
  }

  lemma SecondState<A, K>(w: World<bool, (), A, (), K>, heavy: real, row: Row<bool, (), A>)
    requires w == Straying(w.transitions, w.le, w.context(false), w.context(true))
    requires heavy == ProbabilitySum(w.Choices(true)) && row.value.0
    ensures EventValue(w, Hopeful(), 1, Grow(row)) == row.mass * heavy
  {
    hide World.ExactOver, World.Choices, ProbabilitySum;
    LastStep(w, row.value.1, row.actions, w.Choices(true));
    ByExactIs(w, Hopeful(), 0, row);
  }

  /** What a row carries into the second state is worth its mass times the heavy total. */
  lemma {:induction false} StrayingValue<A, K>(w: World<bool, (), A, (), K>, heavy: real,
      es: seq<Event<bool, (), A, ()>>)
    requires w == Straying(w.transitions, w.le, w.context(false), w.context(true))
    requires heavy == ProbabilitySum(w.Choices(true))
    requires forall e :: e in es && e.Grow? ==> e.row.value.0
    ensures EventsValue(w, Hopeful(), 1, es) == EventMass(es) + (heavy - 1.0) * MassOf(Grown(es))
  {
    hide World.Choices, MassOf, EventValue, ProbabilitySum, Straying;
    if es == [] {
      NoWeight<A, (bool, ())>();
    } else {
      var init, e := es[..|es| - 1], es[|es| - 1];
      StrayingValue(w, heavy, init);
      assert e in es;
      StrayingEvent(w, heavy, Grown(init), e);
    }
  }

  lemma StrayingEvent<A, K>(w: World<bool, (), A, (), K>, heavy: real, grown: seq<Row<bool, (), A>>,
      e: Event<bool, (), A, ()>)
    requires w == Straying(w.transitions, w.le, w.context(false), w.context(true))
    requires heavy == ProbabilitySum(w.Choices(true)) && (e.Grow? ==> e.row.value.0)
    ensures var more := grown + (if e.Grow? then [e.row] else []);
      (heavy - 1.0) * MassOf(more) + e.Mass() == (heavy - 1.0) * MassOf(grown) + EventValue(w, Hopeful(), 1, e)
  {
    hide World.Choices, World.Exact, MassOf, ProbabilitySum, Straying;
    if e.Grow? {
      SecondState(w, heavy, e.row);
      MassSnoc(grown, e.row);
      Split(heavy, MassOf(grown), e.row.mass);
    } else {
      Unresolved(w, e);
      assert grown + [] == grown;
    }
  }

  lemma Unresolved<A, K>(w: World<bool, (), A, (), K>, e: Event<bool, (), A, ()>)
    requires w == Straying(w.transitions, w.le, w.context(false), w.context(true)) && !e.Grow?
    ensures EventValue(w, Hopeful(), 1, e) == e.Mass()
  {
  }

  lemma MassSnoc<A, V>(s: seq<Item<A, V>>, x: Item<A, V>)
    ensures MassOf(s + [x]) == MassOf(s) + x.mass
  {
    SumAppend(ByMass(), s, [x]);
    SingleMass(x);
  }

  lemma Split(heavy: real, mass: real, m: real)
    ensures (heavy - 1.0) * (mass + m) + m == (heavy - 1.0) * mass + m * heavy
  {
  }

  /** Every action of the context becomes a row of positive mass in the second state. */
  lemma {:induction false} StrayingRows<A, K>(w: World<bool, (), A, (), K>, row: Row<bool, (), A>,
      choices: seq<(Token<A>, real)>)
    requires w == Straying(w.transitions, w.le, w.context(false), w.context(true))
    requires row.mass == 1.0 && forall i :: 0 <= i < |choices| ==> choices[i].1 > 0.0
    ensures var es := w.RowEvents(row, choices);
      && |es| == |choices|
      && (forall e :: e in es && e.Grow? ==> e.row.value.0)
      && (forall x :: x in Grown(es) ==> x.mass > 0.0 && x.value.0)
    ensures (exists i :: 0 <= i < |choices| && choices[i].0.Act?) ==> |Grown(w.RowEvents(row, choices))| >= 1
    ensures !OneAction(choices) ==> |Grown(w.RowEvents(row, choices))| >= 2
  {
    hide World.RowEvents, Grown;
    if choices == [] {
      NoRows(w, row);
      NothingGrown<bool, (), A, ()>();
    } else {
      var init, last := choices[..|choices| - 1], choices[|choices| - 1];
      assert choices == init + [last];
      StrayingRows(w, row, init);
      RowEventsSnoc(w, row, init, last);
      var e := w.EventOf(row, last);
      GrownSnoc(w.RowEvents(row, init), e);
      assert e.Grow? <==> last.0.Act?;
      assert e.Grow? ==> e.row.mass == last.1 && e.row.value.0;
    }
  }

  lemma {:induction false} PositiveMass<A, V>(s: seq<Item<A, V>>)
    requires s != [] && forall x :: x in s ==> x.mass > 0.0
    ensures MassOf(s) > 0.0
  {
    if |s| > 1 {
      PositiveMass(s[1..]);
    } else {
      assert s == [s[0]];
      SingleMass(s[0]);
    }
  }

  /** A beam of one over at least two rows of positive mass loses some of it. */
  lemma BeamOfOne<A, V>(le: (A, A) -> bool, s: seq<Item<A, V>>)
    requires |s| >= 2 && forall x :: x in s ==> x.mass > 0.0
    ensures MassOf(Best(le, 1, s)) < MassOf(s) && |Best(le, 1, s)| == 1 && Best(le, 1, s)[0] in s
  {
    hide Sort, Sum;
    SumSplit(ByMass(), le, 1, s);
    BestAndDropped(le, 1, s);
    var gone := Dropped(le, 1, s);
    forall x | x in gone ensures x.mass > 0.0 {
      assert x in multiset(gone);
      assert x in multiset(s);
    }
    PositiveMass(gone);
    assert Best(le, 1, s)[0] in multiset(s);
  }

  lemma {:induction false} AllArrive<S, P, A, R, K>(w: World<S, P, A, R, K>, finished: seq<Final<A, R>>)
    requires forall x :: x in finished ==> w.sink(x.value.0)
    ensures Sum(ByHit(w), finished) == MassOf(finished)
  {
    if finished != [] {
      AllArrive(w, finished[1..]);
    }
  }

  /** What mass is worth beyond itself in the second state. */
  function Excess(heavy: real, mass: real): real { (heavy - 1.0) * mass }

  /** The first layer: all of the branching context's rows are worth the heavy total each, one is kept. */
  lemma FirstLayer<A, K>(w: World<bool, (), A, (), K>) returns (mass: real)
    requires w == Straying(w.transitions, w.le, w.context(false), w.context(true))
    requires Accepted(w) && w.context(false) in w.transitions && !OneAction(w.Choices(false))
    ensures var t0: Tally<bool, (), A, ()> := Start(false, ());
      var t1 := w.Round(1, t0);
      var heavy, total := ProbabilitySum(w.Choices(true)), ProbabilitySum(w.Choices(false));
      && TallyMass(t1) == total
      && |t1.active| == 1 && t1.active[0].value.0 && MassOf(t1.active) < mass
      && w.Exact(Hopeful(), 2, false, (), []) == total + Excess(heavy, mass)
  {
    hide World.Choices, World.RowEvents, ProbabilitySum, EventMass, Sum, World.Exact, EventsValue, Best, Grown, PushAll,
      RecordAll, Accepted, OneAction;
    var t0: Tally<bool, (), A, ()> := Start(false, ());
    var row := t0.active[0];
    var es := w.RowEvents(row, w.Choices(false));
    OneRowLayer(w, row);
    ChoicesPositive(w);
    StrayingRows(w, row, w.Choices(false));
    StrayingValue(w, ProbabilitySum(w.Choices(true)), es);
    SingleRow(w, row);
    LayerValue(w, Hopeful(), 1, [row]);
    StartValue(w, Hopeful(), 2, false, ());
    RoundMass(w, 1, t0);
    NoWeight<A, ((), bool)>();
    Uncapped(Open(t0), es);
    SumOfNothing(ByHit(w));
    var grown := Grown(es);
    assert PushAll(Open(t0), es).grown == [] + grown == grown;
    BeamOfOne(w.le, grown);
    mass := MassOf(grown);
  }

  lemma ChoicesPositive<A, K>(w: World<bool, (), A, (), K>)
    requires Accepted(w) && w.context(false) in w.transitions
    ensures |w.Choices(false)| <= MAX_CHOICES
    ensures forall i :: 0 <= i < |w.Choices(false)| ==> w.Choices(false)[i].1 > 0.0
  {
  }

  /** Two operations ahead with a beam of one, more arrives than was accounted for. */
  lemma BracketFails<A, K>(w: World<bool, (), A, (), K>)
    requires w == Straying(w.transitions, w.le, w.context(false), w.context(true))
    requires Accepted(w) && w.context(false) in w.transitions && !OneAction(w.Choices(false))
    requires ProbabilitySum(w.Choices(true)) > 1.0
    ensures !Bracketed(w, Hopeful(), 1, 2, false, ())
  {
    hide World.Choices, World.Round, World.Close, World.Exact, ProbabilitySum, EventMass, Sum, Accepted, OneAction,
      Excess;
    var t0: Tally<bool, (), A, ()> := Start(false, ());
    var t1 := w.Round(1, t0);
    var heavy, total := ProbabilitySum(w.Choices(true)), ProbabilitySum(w.Choices(false));
    var mass := FirstLayer(w);
    var kept := MassOf(t1.active);
    assert t1.active == [t1.active[0]];
    SingleRow(w, t1.active[0]);
    RoundMass(w, 1, t1);
    assert w.Rounds(1, 0, t0) == t0;
    assert w.Rounds(1, 1, t0) == t1;
    var t := w.Run(1, 2, false, ());
    assert t == w.Close(1, w.Round(1, t1));
    CloseConserves(w, 1, w.Round(1, t1));
    assert TallyMass(t) == total - kept + kept * heavy;
    Accounted(w, t);
    Exceeds(total, heavy, kept, mass);
    assert w.Exact(Hopeful(), 2, false, (), []) > TallyMass(t);
  }

  lemma Accounted<A, K>(w: World<bool, (), A, (), K>, t: Tally<bool, (), A, ()>)
    requires t.active == [] && forall r :: w.sink(r)
    ensures Arrived(w, t) + t.unknown + t.other == TallyMass(t)
  {
    NoWeight<A, (bool, ())>();
    AllArrive(w, t.finished);
  }

  lemma Stretched(stretch: real, kept: real, mass: real)
    requires stretch > 0.0 && mass > kept
    ensures stretch * mass > stretch * kept
  {
    assert stretch * (mass - kept) > 0.0;
  }

  lemma Exceeds(total: real, heavy: real, kept: real, mass: real)
    requires heavy > 1.0 && mass > kept
    ensures total + Excess(heavy, mass) > total - kept + kept * heavy
  {
    var stretch := heavy - 1.0;
    Stretched(stretch, kept, mass);
    assert stretch * kept == kept * heavy - kept;
    assert stretch * mass == (heavy - 1.0) * mass;
    assert stretch * mass > kept * heavy - kept;
    assert total + stretch * mass > total - kept + kept * heavy;
  }

  // --------------------------------------------------------- the exact condition

  /** For one accepted table the bracket holds in every environment -- contexts, moves, routes, sinks
      and worths of unresolved futures -- for every beam and horizon, if and only if no context totals
      more than 1 or no context offers two actions. */
  lemma BracketExactlyWhen<A(!new), K(!new)>(table: map<K, seq<(Token<A>, real)>>, le: (A, A) -> bool)
    requires AcceptedTable(table)
    ensures (Modest(table) || Unbranching(table)) <==>
      forall w: World<bool, (), A, (), K>, u: Oracle<A>, k: nat, horizon: nat, s: bool ::
        w.transitions == table && w.le == le && Bounded(u) && 1 <= k <= MAX_BEAM && horizon in HORIZONS ==>
          Bracketed(w, u, k, horizon, s, ())
  {
    hide Bracketed, ProbabilitySum, OneAction, ValidChoices;
    if Modest(table) || Unbranching(table) {
      forall w: World<bool, (), A, (), K>, u: Oracle<A>, k: nat, horizon: nat, s: bool |
          w.transitions == table && w.le == le && Bounded(u) && 1 <= k <= MAX_BEAM && horizon in HORIZONS
        ensures Bracketed(w, u, k, horizon, s, ())
      {
        BracketHolds(w, u, k, horizon, s, ());
      }
    } else {
      var heavy :| heavy in table && !(ProbabilitySum(table[heavy]) <= 1.0);
      var branching :| branching in table && !OneAction(table[branching]);
      var w := Straying(table, le, branching, heavy);
      BracketFails(w);
      assert w.transitions == table && w.le == le && Bounded(Hopeful<A>());
      assert !Bracketed(w, Hopeful(), 1, 2, false, ());
    }
  }
}
