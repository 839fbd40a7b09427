/** Ablations of the forecast: candidates whose attribution was removed become unknown mass. */
module Ablation {
  import opened Ranking
  import opened Rollout
  import opened Bracketing
  import opened Generate
  import opened Guarantees
  import opened Wrappers

  datatype Variant = WithoutObjectIdentity | WithoutParentRelations

  /** What the ablations look at: an action's parent links, whether an input of it has more than
      one peer of its kind in a state, and the state after an action. */
  datatype Lens<!S, !A> = Lens(linked: A -> bool, ambiguous: (S, A) -> bool, step: (S, A) -> Option<S>)

  datatype Ablated<R> = Ablated(forecast: Forecast<R>) | ReplayFailed | Rejected(error: Error)

  /** Replaying a candidate's actions from the prefix. */
  function Replay<S, A>(lens: Lens<S, A>, s: S, actions: seq<A>): Option<S> {
    if actions == [] then Some(s)
    else
      match Replay(lens, s, actions[..|actions| - 1])
      case None => None
      case Some(before) => lens.step(before, actions[|actions| - 1])
  }

  /** The variant removes what action i would be attributed by. */
  predicate Removed<S, A>(lens: Lens<S, A>, v: Variant, s: S, actions: seq<A>, i: nat)
    requires i < |actions|
  {
    match v
    case WithoutParentRelations => lens.linked(actions[i])
    case WithoutObjectIdentity =>
      var before := Replay(lens, s, actions[..i]);
      before.Some? && lens.ambiguous(before.value, actions[i])
  }

  predicate Unresolved<S, A>(lens: Lens<S, A>, v: Variant, s: S, actions: seq<A>) {
    exists i :: 0 <= i < |actions| && Removed(lens, v, s, actions, i)
  }

  function Keep<S, A, R>(lens: Lens<S, A>, v: Variant, s: S, candidates: seq<Final<A, R>>,
      unresolved: bool): seq<Final<A, R>> {
    if candidates == [] then []
    else
      var n := |candidates| - 1;
      Keep(lens, v, s, candidates[..n], unresolved)
      + (if Unresolved(lens, v, s, candidates[n].actions) == unresolved then [candidates[n]] else [])
  }

  /** The ablated record; a risk needs nothing unknown or left out, here with equality allowed. */
  function AblatedForecast<R>(sink: R -> bool, table: seq<(R, real)>, unknown: real, other: real): Ablated<R> {
    var outcomes := Clamped(table);
    var arrived := SinkSum(sink, outcomes);
    var risk := if unknown + other > 0.000000000001 then None else Some(Min(1.0, arrived));
    var u := Min(1.0, unknown);
    var mass := TableSum(outcomes) + other + u;
    if !(-0.000000001 <= mass - 1.0 <= 0.000000001) then Rejected(MassMismatch)
    else if risk.Some? && !(arrived - 0.000000001 <= risk.value <= arrived + other + u + 0.000000001)
      then Rejected(RiskInconsistent)
    else Ablated(Forecast(risk, outcomes, other, u))
  }

  function Ablate<S, A, R(==)>(lens: Lens<S, A>, v: Variant, sink: R -> bool, s: S, p: Prediction<A, R>): Ablated<R> {
    AblatedForecast(sink, Group(Keep(lens, v, s, p.candidates, false)),
                    p.forecast.unknown + MassOf(Keep(lens, v, s, p.candidates, true)), p.forecast.other)
  }

  ghost predicate Replays<S, A, R>(lens: Lens<S, A>, s: S, candidates: seq<Final<A, R>>) {
    forall i :: 0 <= i < |candidates| ==> Replay(lens, s, candidates[i].actions).Some?
  }

  lemma {:induction false} ReplayPrefix<S, A>(lens: Lens<S, A>, s: S, actions: seq<A>, i: nat)
    requires i <= |actions| && Replay(lens, s, actions).Some?
    ensures Replay(lens, s, actions[..i]).Some?
    ensures i < |actions| ==>
      lens.step(Replay(lens, s, actions[..i]).value, actions[i]) == Replay(lens, s, actions[..i + 1])
  {
    if i < |actions| {
      ReplayPrefix(lens, s, actions[..|actions| - 1], if i < |actions| - 1 then i else |actions| - 1);
      var init := actions[..|actions| - 1];
      if i < |actions| - 1 {
        assert init[..i] == actions[..i] && init[..i + 1] == actions[..i + 1];
      } else {
        assert init[..|init|] == actions[..i] && actions[..i + 1] == actions;
      }
    } else {
      assert actions[..i] == actions;
    }
  }

  /** One candidate, stepping the state and stopping at the first removed attribution. */
  method Resolve<S, A>(lens: Lens<S, A>, v: Variant, s: S, actions: seq<A>) returns (unresolved: bool, failed: bool)
    ensures failed ==> Replay(lens, s, actions).None?
    ensures Replay(lens, s, actions).Some? ==> !failed && unresolved == Unresolved(lens, v, s, actions)
  {
    var state := s;
    assert actions[..0] == [];
    for i := 0 to |actions|
      invariant Replay(lens, s, actions[..i]) == Some(state)
      invariant forall j :: 0 <= j < i ==> !Removed(lens, v, s, actions, j)
    {
      if v == WithoutParentRelations && lens.linked(actions[i]) {
        assert Removed(lens, v, s, actions, i);
        return true, false;
      }
      if v == WithoutObjectIdentity && lens.ambiguous(state, actions[i]) {
        assert Removed(lens, v, s, actions, i);
        return true, false;
      }
      assert actions[..i + 1][..i] == actions[..i];
      match lens.step(state, actions[i]) {
        case None =>
          if Replay(lens, s, actions).Some? {
            ReplayPrefix(lens, s, actions, i);
            ReplayPrefix(lens, s, actions, i + 1);
          }
          return false, true;
        case Some(next) => state := next;
      }
    }
    return false, false;
  }

  lemma KeepOne<S, A, R>(lens: Lens<S, A>, v: Variant, s: S, cs: seq<Final<A, R>>, c: Final<A, R>, unresolved: bool)
    ensures Keep(lens, v, s, cs + [c], unresolved)
         == Keep(lens, v, s, cs, unresolved) + (if Unresolved(lens, v, s, c.actions) == unresolved then [c] else [])
  {
    assert (cs + [c])[..|cs|] == cs;
  }

  lemma NothingKept<S, A, R>(lens: Lens<S, A>, v: Variant, s: S, none: seq<Final<A, R>>)
    requires none == []
    ensures Group(Keep(lens, v, s, none, false)) == [] && MassOf(Keep(lens, v, s, none, true)) == 0.0
  {
  }

  lemma GroupOne<A, R>(cs: seq<Final<A, R>>, c: Final<A, R>)
    ensures Group(cs + [c]) == Credit(Group(cs), c.value.0, c.mass)
    ensures MassOf(cs + [c]) == MassOf(cs) + c.mass
    ensures cs + [] == cs
  {
    assert (cs + [c])[..|cs|] == cs;
    SumAppend(ByMass(), cs, [c]);
    SingleMass(c);
  }

  /** The prediction's candidates are regrouped; unresolved ones only add to unknown. */
  method Predict<S, A, R(==)>(lens: Lens<S, A>, v: Variant, sink: R -> bool, s: S, p: Prediction<A, R>)
    returns (r: Ablated<R>)
    ensures Replays(lens, s, p.candidates) ==> r == Ablate(lens, v, sink, s, p)
    ensures r == ReplayFailed ==> !Replays(lens, s, p.candidates)
  {
    hide Keep, Group, MassOf, Unresolved;
    var unknown, outcomes := p.forecast.unknown, [];
    NothingKept(lens, v, s, p.candidates[..0]);
    for i := 0 to |p.candidates|
      invariant Replays(lens, s, p.candidates) ==>
        && unknown == p.forecast.unknown + MassOf(Keep(lens, v, s, p.candidates[..i], true))
        && outcomes == Group(Keep(lens, v, s, p.candidates[..i], false))
    {
      var c := p.candidates[i];
      assert p.candidates[..i + 1] == p.candidates[..i] + [c];
      ghost var kept, gone := Keep(lens, v, s, p.candidates[..i], false), Keep(lens, v, s, p.candidates[..i], true);
      KeepOne(lens, v, s, p.candidates[..i], c, false);
      KeepOne(lens, v, s, p.candidates[..i], c, true);
      GroupOne(kept, c);
      GroupOne(gone, c);
      var unresolved, failed := Resolve(lens, v, s, c.actions);
      if failed {
        return ReplayFailed;
      }
      if unresolved {
        unknown := unknown + c.mass;
      } else {
        outcomes := Credit(outcomes, c.value.0, c.mass);
      }
    }
    assert p.candidates[..|p.candidates|] == p.candidates;
    r := AblatedForecast(sink, outcomes, unknown, p.forecast.other);
  }

  // --------------------------------------------- every candidate can be replayed

  /** The rollout advances states exactly as a replay does. */
  ghost predicate Agrees<S(!new), P(!new), A(!new), R, K>(lens: Lens<S, A>, w: World<S, P, A, R, K>) {
    forall s, p, a :: w.advance(s, p, a).Some? ==> lens.step(s, a) == Some(w.advance(s, p, a).value.0)
  }

  ghost predicate RowsReplay<S, P, A>(lens: Lens<S, A>, s: S, active: seq<Row<S, P, A>>) {
    forall i :: 0 <= i < |active| ==> Replay(lens, s, active[i].actions) == Some(active[i].value.0)
  }

  ghost predicate EventReplays<S, P, A, R>(lens: Lens<S, A>, s: S, e: Event<S, P, A, R>) {
    && (e.Grow? ==> Replay(lens, s, e.row.actions) == Some(e.row.value.0))
    && (e.Finish? ==> Replay(lens, s, e.last.actions).Some?)
  }

  lemma EventOfReplays<S(!new), P(!new), A(!new), R, K>(lens: Lens<S, A>, w: World<S, P, A, R, K>, s: S,
      row: Row<S, P, A>, c: (Token<A>, real))
    requires Agrees(lens, w) && Replay(lens, s, row.actions) == Some(row.value.0)
    ensures EventReplays(lens, s, w.EventOf(row, c))
  {
    if c.0.Act? && w.advance(row.value.0, row.value.1, c.0.action).Some? {
      var longer := row.actions + [c.0.action];
      assert longer[..|longer| - 1] == row.actions;
    }
  }

  lemma {:induction false} RowReplays<S(!new), P(!new), A(!new), R, K>(lens: Lens<S, A>, w: World<S, P, A, R, K>,
      s: S, row: Row<S, P, A>, choices: seq<(Token<A>, real)>)
    requires Agrees(lens, w) && Replay(lens, s, row.actions) == Some(row.value.0)
    ensures forall e :: e in w.RowEvents(row, choices) ==> EventReplays(lens, s, e)
  {
    if choices != [] {
      RowReplays(lens, w, s, row, choices[..|choices| - 1]);
      EventOfReplays(lens, w, s, row, choices[|choices| - 1]);
    }
  }

  lemma {:induction false} LayerReplays<S(!new), P(!new), A(!new), R, K>(lens: Lens<S, A>, w: World<S, P, A, R, K>,
      s: S, active: seq<Row<S, P, A>>)
    requires Agrees(lens, w) && RowsReplay(lens, s, active)
    ensures forall e :: e in w.LayerEvents(active) ==> EventReplays(lens, s, e)
    ensures forall e :: e in w.HorizonEvents(active) ==> EventReplays(lens, s, e)
  {
    hide World.RowEvents;
    if active != [] {
      var n := |active| - 1;
      LayerReplays(lens, w, s, active[..n]);
      RowReplays(lens, w, s, active[n], w.Choices(active[n].value.0));
    }
  }

  ghost predicate BufferReplays<S, P, A, R>(lens: Lens<S, A>, s: S, b: Buffer<S, P, A, R>) {
    RowsReplay(lens, s, b.grown) && Replays(lens, s, b.finished)
  }

  lemma {:induction false} PushReplays<S, P, A, R>(lens: Lens<S, A>, s: S, b: Buffer<S, P, A, R>,
      es: seq<Event<S, P, A, R>>)
    requires BufferReplays(lens, s, b)
    requires forall e :: e in es ==> EventReplays(lens, s, e)
    ensures BufferReplays(lens, s, PushAll(b, es)) && BufferReplays(lens, s, RecordAll(b, es))
  {
    if es != [] {
      PushReplays(lens, s, b, es[..|es| - 1]);
      assert es[|es| - 1] in es;
    }
  }

  lemma PruneReplays<S, P, A, R, K>(lens: Lens<S, A>, w: World<S, P, A, R, K>, k: nat, s: S, b: Buffer<S, P, A, R>)
    requires BufferReplays(lens, s, b)
    ensures RowsReplay(lens, s, w.Prune(k, b).active) && Replays(lens, s, w.Prune(k, b).finished)
  {
    BestWithin(w.le, k, b.grown);
    BestWithin(w.le, k, b.finished);
  }

  lemma BestWithin<A, V>(le: (A, A) -> bool, k: nat, s: seq<Item<A, V>>)
    ensures forall i :: 0 <= i < |Best(le, k, s)| ==> Best(le, k, s)[i] in s
  {
    SortPermutes(le, s);
    var t := Sort(le, s);
    forall i | 0 <= i < |t| ensures t[i] in s {
      assert t[i] in multiset(t);
    }
  }

  lemma {:induction false} RoundsReplay<S(!new), P(!new), A(!new), R, K>(lens: Lens<S, A>, w: World<S, P, A, R, K>,
      k: nat, n: nat, s: S, p: P)
    requires Agrees(lens, w)
    ensures var t0: Tally<S, P, A, R> := Start(s, p);
      RowsReplay(lens, s, w.Rounds(k, n, t0).active) && Replays(lens, s, w.Rounds(k, n, t0).finished)
  {
    hide PushAll, World.LayerEvents, World.Prune;
    if n > 0 {
      RoundsReplay(lens, w, k, n - 1, s, p);
      var t0: Tally<S, P, A, R> := Start(s, p);
      var before := w.Rounds(k, n - 1, t0);
      LayerReplays(lens, w, s, before.active);
      PushReplays(lens, s, Open(before), w.LayerEvents(before.active));
      PruneReplays(lens, w, k, s, PushAll(Open(before), w.LayerEvents(before.active)));
    }
  }

  /** Every candidate of a rollout can be replayed from its prefix, so no ablation fails on it. */
  lemma CandidatesReplay<S(!new), P(!new), A(!new), R, K>(lens: Lens<S, A>, w: World<S, P, A, R, K>, k: nat,
      horizon: nat, s: S, p: P)
    requires Agrees(lens, w)
    ensures Replays(lens, s, w.Run(k, horizon, s, p).finished)
  {
    hide RecordAll, World.HorizonEvents, World.Rounds, World.Prune;
    RoundsReplay(lens, w, k, horizon, s, p);
    var t0: Tally<S, P, A, R> := Start(s, p);
    var t := w.Rounds(k, horizon, t0);
    LayerReplays(lens, w, s, t.active);
    PushReplays(lens, s, Open(t), w.HorizonEvents(t.active));
    PruneReplays(lens, w, k, s, RecordAll(Open(t), w.HorizonEvents(t.active)));
  }

  // -------------------------------------------------- mass only moves to unknown

  lemma NothingKeptAtAll<S, A, R>(lens: Lens<S, A>, v: Variant, s: S, none: seq<Final<A, R>>)
    requires none == []
    ensures Keep(lens, v, s, none, false) == [] && Keep(lens, v, s, none, true) == []
  {
  }

  lemma {:induction false} KeepSplits<S, A, R>(lens: Lens<S, A>, v: Variant, s: S, f: Final<A, R> -> real,
      cs: seq<Final<A, R>>)
    requires NonNegative(cs)
    ensures Sum(f, cs) == Sum(f, Keep(lens, v, s, cs, false)) + Sum(f, Keep(lens, v, s, cs, true))
    ensures NonNegative(Keep(lens, v, s, cs, false)) && NonNegative(Keep(lens, v, s, cs, true))
  {
    hide Unresolved, Keep, Group, MassOf;
    if cs == [] {
      NothingKeptAtAll(lens, v, s, cs);
    } else {
      var init, c := cs[..|cs| - 1], cs[|cs| - 1];
      assert cs == init + [c];
      KeepSplits(lens, v, s, f, init);
      SumAppend(f, init, [c]);
      KeepOne(lens, v, s, init, c, false);
      KeepOne(lens, v, s, init, c, true);
      SumAppend(f, Keep(lens, v, s, init, false), [c]);
      SumAppend(f, Keep(lens, v, s, init, true), [c]);
      GroupOne(Keep(lens, v, s, init, false), c);
      GroupOne(Keep(lens, v, s, init, true), c);
    }
  }

  /** The ablated record of tallies that account for at most 1: nothing is clamped or refused. */
  lemma AblatesExactly<R>(sink: R -> bool, table: seq<(R, real)>, unknown: real, other: real, exact: real)
    requires forall i :: 0 <= i < |table| ==> table[i].1 >= 0.0
    requires 0.0 <= unknown && 0.0 <= other && 1.0 - EPSILON <= TableSum(table) + unknown + other <= 1.0
    requires SinkSum(sink, table) <= exact <= SinkSum(sink, table) + unknown + other
    ensures var a := AblatedForecast(sink, table, unknown, other);
      && a.Ablated?
      && (var f := a.forecast;
          && f.outcomes == table && f.other == other && f.unknown == unknown
          && (f.risk.Some? <==> unknown + other <= 0.000000000001)
          && (f.risk.Some? ==> f.risk.value <= exact <= f.risk.value + 0.000000000001))
  {
    hide TableSum, SinkSum, Clamped;
    ClampedSums(sink, table);
  }

  /** When no context totals more than 1, every ablation of an answer is answered: the total stays
      what it was, `other` is untouched, what left the outcomes is exactly what unknown gained, the
      exact arrival probability is still bracketed, and a risk that remains is exact to 1e-12. */
  lemma AblationKeepsBracket<S(!new), P(!new), A(!new), R, K>(lens: Lens<S, A>, v: Variant, w: World<S, P, A, R, K>,
      u: Oracle<A>, s: S, p: P, horizon: nat, k: nat)
    requires Accepted(w) && Within(w, 1.0) && Bounded(u) && Agrees(lens, w)
    requires horizon in HORIZONS && 1 <= k <= MAX_BEAM
    ensures var r := Generate.Predict(w, s, p, horizon, k);
      && (Normalised(w) ==> r.Ok?)
      && (r.Ok? ==>
          && Replays(lens, s, r.value.candidates)
          && (var original := r.value.forecast;
              var a := Ablate(lens, v, w.sink, s, r.value);
              && a.Ablated?
              && (var f := a.forecast; var exact := w.Exact(u, horizon, s, p, []);
                  && f.other == original.other && f.unknown >= original.unknown
                  && TableSum(original.outcomes) - TableSum(f.outcomes) == f.unknown - original.unknown
                  && SinkSum(w.sink, f.outcomes) <= SinkSum(w.sink, original.outcomes)
                  && (Normalised(w) ==> TableSum(f.outcomes) + f.other + f.unknown == 1.0)
                  && SinkSum(w.sink, f.outcomes) <= exact <= SinkSum(w.sink, f.outcomes) + f.unknown + f.other
                  && (f.risk.Some? <==> f.unknown + f.other <= 0.000000000001)
                  && (f.risk.Some? ==> f.risk.value <= exact <= f.risk.value + 0.000000000001))))
  {
    hide World.Run, World.Exact, Group, Conclude, AblatedForecast, TableSum, SinkSum, Accepted, Within, Normalised,
      Bounded, Power, Keep, Replays, Sum, Agrees, NonNegative;
    var t := w.Run(k, horizon, s, p);
    RiskIsExact(w, u, s, p, horizon, k);
    CandidatesReplay(lens, w, k, horizon, s, p);
    var table := Group(t.finished);
    ConcludeKeeps(w.sink, table, t.finished, t.unknown, t.other, t.used);
    AnswerSums(lens, v, w, u, s, p, horizon, k);
    var exact := w.Exact(u, horizon, s, p, []);
    ConcludesExactly(w.sink, table, t.finished, t.unknown, t.other, t.used, exact);
    if Generate.Predict(w, s, p, horizon, k).Ok? {
      var kept, gone := Keep(lens, v, s, t.finished, false), Keep(lens, v, s, t.finished, true);
      AblatesExactly(w.sink, Group(kept), t.unknown + MassOf(gone), t.other, exact);
    }
  }

  /** How the tallies of a run split into what an ablation keeps and what it takes out. */
  lemma AnswerSums<S(!new), P(!new), A(!new), R, K>(lens: Lens<S, A>, v: Variant, w: World<S, P, A, R, K>,
      u: Oracle<A>, s: S, p: P, horizon: nat, k: nat)
    requires Within(w, 1.0) && Bounded(u)
    ensures var t := w.Run(k, horizon, s, p);
      var table, kept := Group(t.finished), Group(Keep(lens, v, s, t.finished, false));
      var gone := MassOf(Keep(lens, v, s, t.finished, true));
      var exact := w.Exact(u, horizon, s, p, []);
      && (forall i :: 0 <= i < |table| ==> table[i].1 >= 0.0) && (forall i :: 0 <= i < |kept| ==> kept[i].1 >= 0.0)
      && 0.0 <= t.unknown && 0.0 <= t.other && 0.0 <= gone && TableSum(table) + t.unknown + t.other <= 1.0
      && TableSum(table) == TableSum(kept) + gone
      && SinkSum(w.sink, kept) <= SinkSum(w.sink, table) <= SinkSum(w.sink, kept) + gone
      && SinkSum(w.sink, table) <= exact <= SinkSum(w.sink, table) + t.unknown + t.other
  {
    hide World.Run, World.Exact, Group, TableSum, SinkSum, Within, Bounded, Power, Keep, Sum, NonNegative;
    var t := w.Run(k, horizon, s, p);
    RunGrowth(w, 1.0, k, horizon, s, p);
    ArrivalBracketed(w, u, 1.0, k, horizon, s, p);
    PowerOne(horizon);
    GroupSums(w, t.finished);
    KeepSplits(lens, v, s, ByMass(), t.finished);
    KeepSplits(lens, v, s, ByHit(w), t.finished);
    GroupSums(w, Keep(lens, v, s, t.finished, false));
    MassNonNegative(Keep(lens, v, s, t.finished, true));
    HitsWithin(w, Keep(lens, v, s, t.finished, true));
  }

  lemma HitsWithin<S, P, A, R, K>(w: World<S, P, A, R, K>, s: seq<Final<A, R>>)
    requires NonNegative(s)
    ensures 0.0 <= Sum(ByHit(w), s) <= MassOf(s)
  {
    forall x | x in s ensures 0.0 <= ByHit(w)(x) <= 1.0 * x.mass {
      HitFair(w, 1.0, x);
    }
    SumBounds(ByHit(w), 1.0, s);
  }
}
