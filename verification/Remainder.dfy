/** What the lost mass of a forecast is reported as: `unknown` is mass whose future is really
    unresolved, `other` is mass that the beam or the budget left out. */
module Remainder {
  import opened Ranking
  import opened Rollout
  import opened Bracketing
  import opened Generate
  import opened Guarantees
  import opened Sharpness
  import opened Wrappers

  // ------------------------------------------------------- an unseen start context

  lemma UnseenEvents<S, P, A, R, K>(w: World<S, P, A, R, K>, row: Row<S, P, A>)
    requires w.context(row.value.0) !in w.transitions && row.mass == 1.0
    ensures w.LayerEvents([row]) == [Lost(1.0, row.actions, Some(Unknown))]
  {
    hide World.RowEvents;
    var choices: seq<(Token<A>, real)> := [(Unknown, 1.0)];
    OneRowLayer(w, row);
    NoRows(w, row);
    RowEventsSnoc(w, row, [], choices[0]);
    assert [] + [choices[0]] == choices;
  }

  lemma UnseenRound<S, P, A, R, K>(w: World<S, P, A, R, K>, k: nat, s: S, p: P)
    requires w.context(s) !in w.transitions
    ensures w.Round(k, Start(s, p)) == Tally([], [], 1.0, 0.0, 1)
  {
    hide World.LayerEvents;
    var t: Tally<S, P, A, R> := Start(s, p);
    var lost: Event<S, P, A, R> := Lost(1.0, [], Some(Unknown));
    UnseenEvents(w, t.active[0]);
    PushOne(Open(t), [], lost);
    assert [] + [lost] == [lost];
  }

  lemma {:induction false} UnseenRounds<S, P, A, R, K>(w: World<S, P, A, R, K>, k: nat, n: nat, s: S, p: P)
    requires w.context(s) !in w.transitions && n > 0
    ensures w.Rounds(k, n, Start(s, p)) == Tally([], [], 1.0, 0.0, 1)
  {
    hide World.Round, Start;
    if n == 1 {
      UnseenRound(w, k, s, p);
      assert w.Rounds(k, 0, Start(s, p)) == Start(s, p);
    } else {
      UnseenRounds(w, k, n - 1, s, p);
      NothingLeft(w, k);
    }
  }

  lemma NothingLeft<S, P, A, R, K>(w: World<S, P, A, R, K>, k: nat)
    ensures var t: Tally<S, P, A, R> := Tally([], [], 1.0, 0.0, 1); w.Round(k, t) == t && w.Close(k, t) == t
  {
    var t: Tally<S, P, A, R> := Tally([], [], 1.0, 0.0, 1);
    assert w.LayerEvents([]) == [] && w.HorizonEvents([]) == [];
  }

  /** From a context nothing was learned about, everything is unknown and nothing is left out. */
  lemma UnseenIsUnknown<S, P, A, R, K>(w: World<S, P, A, R, K>, s: S, p: P, horizon: nat, k: nat)
    requires w.context(s) !in w.transitions && horizon in HORIZONS && 1 <= k <= MAX_BEAM
    ensures Predict(w, s, p, horizon, k) == Ok(Prediction(Forecast(None, [], 0.0, 1.0), [], 1))
  {
    hide World.Rounds, World.Close;
    UnseenRounds(w, k, horizon, s, p);
    NothingLeft(w, k);
  }

  // ----------------------------------------------------------- sinks do not steer

  lemma {:induction false} SameRowEvents<S, P, A, R, K>(w: World<S, P, A, R, K>, v: World<S, P, A, R, K>,
      row: Row<S, P, A>, choices: seq<(Token<A>, real)>)
    requires v == w.(sink := v.sink)
    ensures v.RowEvents(row, choices) == w.RowEvents(row, choices)
  {
    if choices != [] {
      SameRowEvents(w, v, row, choices[..|choices| - 1]);
      assert v.EventOf(row, choices[|choices| - 1]) == w.EventOf(row, choices[|choices| - 1]);
    }
  }

  lemma {:induction false} SameLayerEvents<S, P, A, R, K>(w: World<S, P, A, R, K>, v: World<S, P, A, R, K>,
      active: seq<Row<S, P, A>>)
    requires v == w.(sink := v.sink)
    ensures v.LayerEvents(active) == w.LayerEvents(active) && v.HorizonEvents(active) == w.HorizonEvents(active)
  {
    hide World.RowEvents;
    if active != [] {
      var n := |active| - 1;
      SameLayerEvents(w, v, active[..n]);
      SameRowEvents(w, v, active[n], w.Choices(active[n].value.0));
    }
  }

  lemma {:induction false} SameRounds<S, P, A, R, K>(w: World<S, P, A, R, K>, v: World<S, P, A, R, K>, k: nat, n: nat,
      t: Tally<S, P, A, R>)
    requires v == w.(sink := v.sink)
    ensures v.Rounds(k, n, t) == w.Rounds(k, n, t)
  {
    hide World.Round;
    if n > 0 {
      SameRounds(w, v, k, n - 1, t);
      SameRound(w, v, k, w.Rounds(k, n - 1, t));
    }
  }

  lemma SameRound<S, P, A, R, K>(w: World<S, P, A, R, K>, v: World<S, P, A, R, K>, k: nat, t: Tally<S, P, A, R>)
    requires v == w.(sink := v.sink)
    ensures v.Round(k, t) == w.Round(k, t)
  {
    hide World.LayerEvents, PushAll, World.Prune;
    SameLayerEvents(w, v, t.active);
    SamePrune(w, v, k, PushAll(Open(t), w.LayerEvents(t.active)));
  }

  lemma SamePrune<S, P, A, R, K>(w: World<S, P, A, R, K>, v: World<S, P, A, R, K>, k: nat, b: Buffer<S, P, A, R>)
    requires v == w.(sink := v.sink)
    ensures v.Prune(k, b) == w.Prune(k, b)
  {
    hide Best, Dropped, Sum;
  }

  /** What counts as a sink changes what is read off a run, not the run. */
  lemma SameRun<S, P, A, R, K>(w: World<S, P, A, R, K>, v: World<S, P, A, R, K>, k: nat, horizon: nat, s: S, p: P)
    requires v == w.(sink := v.sink)
    ensures v.Run(k, horizon, s, p) == w.Run(k, horizon, s, p)
  {
    hide World.Rounds, World.HorizonEvents, RecordAll, World.Prune;
    SameRounds(w, v, k, horizon, Start(s, p));
    var t := w.Rounds(k, horizon, Start(s, p));
    SameLayerEvents(w, v, t.active);
    SamePrune(w, v, k, RecordAll(Open(t), w.HorizonEvents(t.active)));
  }

  // ----------------------------------------- unresolved futures as an exact value

  /** The world in which nothing is a sink. */
  ghost function Sinkless<S, P, A, R, K>(w: World<S, P, A, R, K>): World<S, P, A, R, K> {
    w.(sink := (r: R) => false)
  }

  lemma {:induction false} UnresolvedIsExact<S, P, A, R, K>(w: World<S, P, A, R, K>, n: nat, s: S, p: P,
      actions: seq<A>)
    ensures Sinkless(w).Exact(Hopeful(), n, s, p, actions) == w.Unresolved(n, s, p)
    decreases n, 0, 0
  {
    if n > 0 {
      UnresolvedOverIsExact(w, n, s, p, actions, w.Choices(s));
    }
  }

  lemma {:induction false} UnresolvedOverIsExact<S, P, A, R, K>(w: World<S, P, A, R, K>, n: nat, s: S, p: P,
      actions: seq<A>, choices: seq<(Token<A>, real)>)
    requires n > 0
    ensures Sinkless(w).ExactOver(Hopeful(), n, s, p, actions, choices) == w.UnresolvedOver(n, s, p, choices)
    decreases n - 1, 2, |choices|
  {
    hide World.Branch, World.UnresolvedAfter;
    if choices != [] {
      UnresolvedOverIsExact(w, n, s, p, actions, choices[..|choices| - 1]);
      UnresolvedAfterIsExact(w, n, s, p, actions, choices[|choices| - 1].0);
    }
  }

  lemma {:induction false} UnresolvedAfterIsExact<S, P, A, R, K>(w: World<S, P, A, R, K>, n: nat, s: S, p: P,
      actions: seq<A>, token: Token<A>)
    requires n > 0
    ensures Sinkless(w).Branch(Hopeful(), n, s, p, actions, token) == w.UnresolvedAfter(n, s, p, token)
    decreases n - 1, 1, 0
  {
    hide World.Exact, World.Unresolved;
    match token
    case Unknown =>
    case End =>
    case Act(a) =>
      match w.advance(s, p, a)
      case None =>
      case Some((s', p')) => UnresolvedIsExact(w, n - 1, s', p', actions + [a]);
  }

  // ------------------------------------------------------ unknown mass is unresolved

  /** Unknown mass so far and what the grown rows may still add to it. */
  ghost function Losses<S, P, A, R, K>(w: World<S, P, A, R, K>, n: nat, b: Buffer<S, P, A, R>): real {
    b.unknown + Sum(ByExact(w, Hopeful(), n), b.grown)
  }

  lemma RecordLosses<S, P, A, R, K>(w: World<S, P, A, R, K>, n: nat, b: Buffer<S, P, A, R>, e: Event<S, P, A, R>)
    requires w == Sinkless(w)
    ensures Losses(w, n, Record(b, e)) == Losses(w, n, b) + EventValue(w, Hopeful(), n, e)
  {
    hide World.Exact;
    match e
    case Lost(m, _, _) =>
    case Finish(x) => assert w.sink(x.value.0) == Sinkless(w).sink(x.value.0);
    case Grow(x) =>
      SumAppend(ByExact(w, Hopeful(), n), b.grown, [x]);
      SumOne(ByExact(w, Hopeful(), n), x);
  }

  lemma {:induction false} RecordAllLosses<S, P, A, R, K>(w: World<S, P, A, R, K>, n: nat, b: Buffer<S, P, A, R>,
      es: seq<Event<S, P, A, R>>)
    requires w == Sinkless(w)
    ensures Losses(w, n, RecordAll(b, es)) == Losses(w, n, b) + EventsValue(w, Hopeful(), n, es)
  {
    hide Losses, EventValue, Record;
    if es != [] {
      RecordAllLosses(w, n, b, es[..|es| - 1]);
      RecordLosses(w, n, RecordAll(b, es[..|es| - 1]), es[|es| - 1]);
    }
  }

  lemma {:induction false} PushAllLosses<S, P, A, R, K>(w: World<S, P, A, R, K>, n: nat, b: Buffer<S, P, A, R>,
      es: seq<Event<S, P, A, R>>)
    requires w == Sinkless(w)
    requires forall i :: 0 <= i < |es| ==> EventValue(w, Hopeful(), n, es[i]) >= 0.0
    ensures Losses(w, n, PushAll(b, es)) <= Losses(w, n, b) + EventsValue(w, Hopeful(), n, es)
  {
    hide EventValue, Record, ByExact;
    if es != [] {
      var init, e := es[..|es| - 1], es[|es| - 1];
      PushAllLosses(w, n, b, init);
      var c := PushAll(b, init);
      RecordLosses(w, n, c.(used := c.used + 1), e);
    }
  }

  /** Pruning never adds to what is lost. */
  lemma PruneLosses<S(!new), P, A(!new), R, K>(w: World<S, P, A, R, K>, g: real, k: nat, n: nat,
      b: Buffer<S, P, A, R>)
    requires Within(w, g) && NonNegative(b.grown)
    ensures Losses(w, n, Filled(w.Prune(k, b))) <= Losses(w, n, b)
  {
    hide World.Exact, Within, Best, Dropped, Sum, ByExact;
    HopefulIsBounded<A>();
    WithinOne(w, g);
    SumSplit(ByExact(w, Hopeful(), n), w.le, k, b.grown);
    var rows := Dropped(w.le, k, b.grown);
    DroppedIn(w.le, k, b.grown);
    var bound := Power(g, n);
    PowerGrows(g, 0, n);
    PowerZero(g);
    forall x | x in rows ensures 0.0 <= ByExact(w, Hopeful(), n)(x) <= bound * x.mass {
      GrowFair(w, Hopeful(), g, bound, n, x);
    }
    SumBounds(ByExact(w, Hopeful(), n), bound, rows);
  }

  lemma WithinOne<S(!new), P, A, R, K>(w: World<S, P, A, R, K>, g: real)
    requires Within(w, g)
    ensures g >= 1.0
  {
  }

  lemma HopefulIsBounded<A(!new)>()
    ensures Bounded(Hopeful<A>())
  {
  }

  lemma RoundLosses<S(!new), P, A(!new), R, K>(w: World<S, P, A, R, K>, g: real, k: nat, n: nat,
      t: Tally<S, P, A, R>)
    requires w == Sinkless(w) && Within(w, g) && NonNegativeTally(t)
    ensures Losses(w, n, Filled(w.Round(k, t))) <= Losses(w, n + 1, Filled(t)) && NonNegativeTally(w.Round(k, t))
  {
    hide World.LayerEvents, World.Exact, Within, Power, PushAll, EventsValue, World.Prune, NonNegative, Sum, Fair;
    var es := w.LayerEvents(t.active);
    HopefulIsBounded<A>();
    WithinOne(w, g);
    PowerGrows(g, 0, n);
    PowerZero(g);
    LayerValue(w, Hopeful(), n, t.active);
    LayerEventsNonNegative(w, g, t.active);
    forall i | 0 <= i < |es| ensures EventValue(w, Hopeful(), n, es[i]) >= 0.0 {
      assert es[i] in es;
      EventFair(w, Hopeful(), g, Power(g, n), n, es[i]);
      FairIsNonNegative(w, g, n, es[i]);
    }
    PushAllLosses(w, n, Open(t), es);
    SumOfNothing(ByExact(w, Hopeful(), n));
    OpenNonNegative(t);
    PushAllNonNegative(Open(t), es);
    PruneLosses(w, g, k, n, PushAll(Open(t), es));
    PruneNonNegative(w, k, PushAll(Open(t), es));
  }

  lemma FairIsNonNegative<S, P, A, R, K>(w: World<S, P, A, R, K>, g: real, n: nat, e: Event<S, P, A, R>)
    requires Fair(w, Hopeful(), Power(g, n), n, e)
    ensures EventValue(w, Hopeful(), n, e) >= 0.0
  {
  }

  lemma {:induction false} RoundsLosses<S(!new), P, A(!new), R, K>(w: World<S, P, A, R, K>, g: real, k: nat, n: nat,
      more: nat, t: Tally<S, P, A, R>)
    requires w == Sinkless(w) && Within(w, g) && NonNegativeTally(t)
    ensures var next := w.Rounds(k, n, t);
      Losses(w, more, Filled(next)) <= Losses(w, n + more, Filled(t)) && NonNegativeTally(next)
  {
    hide World.Round, Losses, Within, NonNegativeTally, Sinkless, Filled;
    if n > 0 {
      RoundsLosses(w, g, k, n - 1, more + 1, t);
      RoundLosses(w, g, k, more, w.Rounds(k, n - 1, t));
    }
  }

  lemma CloseLosses<S(!new), P, A(!new), R, K>(w: World<S, P, A, R, K>, g: real, k: nat, t: Tally<S, P, A, R>)
    requires w == Sinkless(w) && Within(w, g) && NonNegativeTally(t)
    ensures w.Close(k, t).unknown == Losses(w, 0, Filled(t))
  {
    hide World.HorizonEvents, World.Exact, Within, RecordAll, EventsValue, NonNegative, Sum;
    var es := w.HorizonEvents(t.active);
    HorizonValue(w, Hopeful(), t.active);
    RecordAllLosses(w, 0, Open(t), es);
    SumOfNothing(ByExact(w, Hopeful(), 0));
    NothingGrows(w, Open(t), t.active);
  }

  /** Unknown mass is never more than the probability of an unresolved future. */
  lemma UnknownIsUnresolved<S(!new), P, A(!new), R, K>(w: World<S, P, A, R, K>, g: real, k: nat, horizon: nat, s: S,
      p: P)
    requires Within(w, g)
    ensures w.Run(k, horizon, s, p).unknown <= w.Unresolved(horizon, s, p)
  {
    hide World.Rounds, World.Close, World.Exact, World.Unresolved, Within;
    var v := Sinkless(w);
    SinklessWithin(w, g);
    var t0: Tally<S, P, A, R> := Start(s, p);
    SameRun(w, v, k, horizon, s, p);
    StartValue(v, Hopeful(), horizon, s, p);
    SumOfNothing(ByHit(v));
    RoundsLosses(v, g, k, horizon, 0, t0);
    CloseLosses(v, g, k, v.Rounds(k, horizon, t0));
    UnresolvedIsExact(w, horizon, s, p, []);
  }

  lemma SinklessWithin<S(!new), P, A, R, K>(w: World<S, P, A, R, K>, g: real)
    requires Within(w, g)
    ensures Within(Sinkless(w), g) && Sinkless(w) == Sinkless(Sinkless(w))
  {
    hide ProbabilitySum;
    var v := Sinkless(w);
    assert forall s :: v.Choices(s) == w.Choices(s);
  }

  /** What is neither unknown nor left out is resolved: at most unknown and what was left out can be. */
  lemma UnresolvedIsAccounted<S(!new), P, A(!new), R, K>(w: World<S, P, A, R, K>, g: real, k: nat, horizon: nat, s: S,
      p: P)
    requires Within(w, g)
    ensures var t := w.Run(k, horizon, s, p); w.Unresolved(horizon, s, p) <= t.unknown + Power(g, horizon) * t.other
  {
    hide World.Run, World.Exact, World.Unresolved, Within, Power;
    var v := Sinkless(w);
    SinklessWithin(w, g);
    HopefulIsBounded<A>();
    SameRun(w, v, k, horizon, s, p);
    ArrivalBracketed(v, Hopeful(), g, k, horizon, s, p);
    NothingHit(w, w.Run(k, horizon, s, p).finished);
    UnresolvedIsExact(w, horizon, s, p, []);
  }

  lemma {:induction false} NothingHit<S, P, A, R, K>(w: World<S, P, A, R, K>, finished: seq<Final<A, R>>)
    ensures Sum(ByHit(Sinkless(w)), finished) == 0.0
  {
    if finished != [] {
      NothingHit(w, finished[1..]);
    }
  }

  // ----------------------------------------------------- when nothing is left out

  /** The layer stays within the budget, and what it grows and finishes within the beam. */
  ghost predicate Fits<S, P, A, R, K>(w: World<S, P, A, R, K>, k: nat, t: Tally<S, P, A, R>) {
    var es := w.LayerEvents(t.active);
    && t.used + |es| <= MAX_EXPANSIONS
    && |RecordAll(Open(t), es).grown| <= k && |RecordAll(Open(t), es).finished| <= k
  }

  /** The cap is never met and neither cut drops anything, up to the horizon. */
  ghost predicate NothingDropped<S, P, A, R, K>(w: World<S, P, A, R, K>, k: nat, horizon: nat, s: S, p: P) {
    && (forall n | 0 <= n < horizon :: Fits(w, k, w.Rounds(k, n, Start(s, p))))
    && var t := w.Rounds(k, horizon, Start(s, p));
    |RecordAll(Open(t), w.HorizonEvents(t.active)).finished| <= k
  }

  lemma PruneFits<S, P, A, R, K>(w: World<S, P, A, R, K>, k: nat, b: Buffer<S, P, A, R>)
    requires |b.grown| <= k && |b.finished| <= k
    ensures w.Prune(k, b) == Tally(Sort(w.le, b.grown), Sort(w.le, b.finished), b.unknown, b.other, b.used)
  {
    hide Sort;
    NoWeight<A, (S, P)>();
    NoWeight<A, (R, bool)>();
  }

  lemma {:induction false} RecordsNoOther<S, P, A, R>(b: Buffer<S, P, A, R>, es: seq<Event<S, P, A, R>>)
    ensures RecordAll(b, es).other == b.other && RecordAll(b, es).used == b.used
  {
    if es != [] {
      RecordsNoOther(b, es[..|es| - 1]);
    }
  }

  /** A layer that fits is recorded whole and only sorted. */
  lemma FitRound<S, P, A, R, K>(w: World<S, P, A, R, K>, k: nat, t: Tally<S, P, A, R>)
    requires Fits(w, k, t)
    ensures var b := RecordAll(Open(t), w.LayerEvents(t.active));
      w.Round(k, t) == Tally(Sort(w.le, b.grown), Sort(w.le, b.finished), b.unknown, t.other,
                             t.used + |w.LayerEvents(t.active)|)
  {
    hide World.LayerEvents, RecordAll, PushAll, Sort, World.Prune;
    var es := w.LayerEvents(t.active);
    Uncapped(Open(t), es);
    RecordsNoOther(Open(t), es);
    PruneFits(w, k, PushAll(Open(t), es));
  }

  lemma {:induction false} NoOther<S, P, A, R, K>(w: World<S, P, A, R, K>, k: nat, n: nat, s: S, p: P)
    requires forall m | 0 <= m < n :: Fits(w, k, w.Rounds(k, m, Start(s, p)))
    ensures w.Rounds(k, n, Start(s, p)).other == 0.0
  {
    hide World.Round, Fits, World.LayerEvents, RecordAll, Sort;
    if n > 0 {
      NoOther(w, k, n - 1, s, p);
      FitRound(w, k, w.Rounds(k, n - 1, Start(s, p)));
    }
  }

  lemma NothingDroppedNoOther<S, P, A, R, K>(w: World<S, P, A, R, K>, k: nat, horizon: nat, s: S, p: P)
    requires NothingDropped(w, k, horizon, s, p)
    ensures w.Run(k, horizon, s, p).other == 0.0
  {
    hide World.Rounds, World.Prune, RecordAll, World.HorizonEvents, Fits, Sort;
    NoOther(w, k, horizon, s, p);
    var t := w.Rounds(k, horizon, Start(s, p));
    var es := w.HorizonEvents(t.active);
    NothingGrows(w, Open(t), t.active);
    RecordsNoOther(Open(t), es);
    PruneFits(w, k, RecordAll(Open(t), es));
  }

  // --------------------------------------------------------- what the record says

  /** The clamped numbers of an answer. */
  lemma ReportedAs<A, R>(sink: R -> bool, table: seq<(R, real)>, finished: seq<Final<A, R>>, unknown: real,
      other: real, used: nat)
    requires 0.0 <= unknown && 0.0 <= other
    ensures var r := Conclude(sink, table, finished, unknown, other, used);
      r.Ok? ==> r.value.forecast.unknown == Min(1.0, unknown) && r.value.forecast.other == Min(1.0, other)
  {
  }

  /** The answer of every accepted model: what it calls unknown is at most the probability that the
      future is unresolved; when no context totals more than 1, that probability is at most unknown
      and other together; and when nothing was dropped, other is 0 and unknown is that probability. */
  lemma RemainderIsExact<S(!new), P, A(!new), R, K>(w: World<S, P, A, R, K>, s: S, p: P, horizon: nat, k: nat)
    requires Accepted(w) && horizon in HORIZONS && 1 <= k <= MAX_BEAM
    ensures var r := Predict(w, s, p, horizon, k);
      r.Ok? ==>
        var f := r.value.forecast; var unresolved := w.Unresolved(horizon, s, p);
        && f.unknown <= unresolved
        && (Within(w, 1.0) ==> unresolved <= f.unknown + f.other)
        && (NothingDropped(w, k, horizon, s, p) ==> f.other == 0.0 && f.unknown == Min(1.0, unresolved))
  {
    hide World.Run, World.Unresolved, Conclude, Group, Accepted, Within, NothingDropped, Power, Sum, NonNegative;
    var t := w.Run(k, horizon, s, p);
    AcceptedWithin(w);
    RunGrowth(w, 1.0 + EPSILON, k, horizon, s, p);
    ReportedAs(w.sink, Group(t.finished), t.finished, t.unknown, t.other, t.used);
    UnknownIsUnresolved(w, 1.0 + EPSILON, k, horizon, s, p);
    if NothingDropped(w, k, horizon, s, p) {
      NothingDroppedNoOther(w, k, horizon, s, p);
      UnresolvedIsAccounted(w, 1.0 + EPSILON, k, horizon, s, p);
      Vanishes(Power(1.0 + EPSILON, horizon));
    }
    if Within(w, 1.0) {
      UnresolvedIsAccounted(w, 1.0, k, horizon, s, p);
      PowerOne(horizon);
      RunGrowth(w, 1.0, k, horizon, s, p);
      MassNonNegative(t.finished);
    }
  }

  lemma Vanishes(stretch: real)
    ensures stretch * 0.0 == 0.0
  {
  }
}
