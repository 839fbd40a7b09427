/** What an ablation takes out: exactly the candidates whose attribution the variant removes, told by
    following a candidate's actions from its prefix. */
module Attribution {
  import opened Ranking
  import opened Rollout
  import opened Bracketing
  import opened Generate
  import opened Guarantees
  import opened Ablation
  import opened Candidates
  import opened Wrappers

  /** The variant removes what some action on the way is attributed by: its parent links, or the identity
      of an input that has a peer in the state it is taken in. */
  predicate Lacks<S, A>(lens: Lens<S, A>, v: Variant, s: S, actions: seq<A>) {
    && actions != []
    && (|| (v == WithoutParentRelations && lens.linked(actions[0]))
        || (v == WithoutObjectIdentity && lens.ambiguous(s, actions[0]))
        || (lens.step(s, actions[0]).Some? && Lacks(lens, v, lens.step(s, actions[0]).value, actions[1..])))
  }

  lemma {:induction false} ReplayFromFront<S, A>(lens: Lens<S, A>, s: S, actions: seq<A>)
    requires actions != []
    ensures var first := lens.step(s, actions[0]);
      Replay(lens, s, actions) == if first.None? then None else Replay(lens, first.value, actions[1..])
    decreases |actions|
  {
    var n := |actions| - 1;
    if n == 0 {
      assert actions[..0] == [] && actions[1..] == [];
    } else {
      ReplayFromFront(lens, s, actions[..n]);
      assert actions[1..][..n - 1] == actions[..n][1..];
    }
  }

  /** Looked at from the second action on, nothing changes but the state to start from. */
  lemma RemovedLater<S, A>(lens: Lens<S, A>, v: Variant, s: S, actions: seq<A>, i: nat)
    requires 0 < i < |actions| && lens.step(s, actions[0]).Some?
    ensures Removed(lens, v, s, actions, i)
        <==> Removed(lens, v, lens.step(s, actions[0]).value, actions[1..], i - 1)
  {
    hide Replay;
    ReplayFromFront(lens, s, actions[..i]);
    assert actions[..i][1..] == actions[1..][..i - 1];
  }

  lemma {:induction false} LacksIs<S, A>(lens: Lens<S, A>, v: Variant, s: S, actions: seq<A>)
    requires Replay(lens, s, actions).Some?
    ensures Lacks(lens, v, s, actions) <==> Unresolved(lens, v, s, actions)
    decreases |actions|
  {
    hide Replay, Removed;
    if actions != [] {
      ReplayFromFront(lens, s, actions);
      var next, rest := lens.step(s, actions[0]).value, actions[1..];
      LacksIs(lens, v, next, rest);
      RemovedFirst(lens, v, s, actions);
      forall i | 0 < i < |actions|
        ensures Removed(lens, v, s, actions, i) <==> Removed(lens, v, next, rest, i - 1) {
        RemovedLater(lens, v, s, actions, i);
      }
      if i :| 0 <= i < |rest| && Removed(lens, v, next, rest, i) {
        assert Removed(lens, v, s, actions, i + 1);
      }
    }
  }

  lemma RemovedFirst<S, A>(lens: Lens<S, A>, v: Variant, s: S, actions: seq<A>)
    requires actions != []
    ensures Removed(lens, v, s, actions, 0) <==>
      (v == WithoutParentRelations && lens.linked(actions[0]))
      || (v == WithoutObjectIdentity && lens.ambiguous(s, actions[0]))
  {
    assert actions[..0] == [];
  }

  /** The mass of a candidate whose attribution the variant removes. */
  ghost function Lacking<S, A, R>(lens: Lens<S, A>, v: Variant, s: S): Final<A, R> -> real {
    (x: Final<A, R>) => if Lacks(lens, v, s, x.actions) then x.mass else 0.0
  }

  /** The mass of a candidate that keeps its attribution and ends with the routes r. */
  ghost function Remaining<S, A, R>(lens: Lens<S, A>, v: Variant, s: S, r: R): Final<A, R> -> real {
    (x: Final<A, R>) => if !Lacks(lens, v, s, x.actions) && x.value.0 == r then x.mass else 0.0
  }

  /** The mass of a candidate that ends with the routes r. */
  ghost function With<A, R>(r: R): Final<A, R> -> real {
    (x: Final<A, R>) => if x.value.0 == r then x.mass else 0.0
  }

  lemma {:induction false} KeepSums<S, A, R>(lens: Lens<S, A>, v: Variant, s: S, cs: seq<Final<A, R>>, r: R)
    requires Replays(lens, s, cs)
    ensures MassOf(Keep(lens, v, s, cs, true)) == Sum(Lacking(lens, v, s), cs)
    ensures Sum(With(r), Keep(lens, v, s, cs, false)) == Sum(Remaining(lens, v, s, r), cs)
    decreases |cs|
  {
    hide Unresolved, Keep, MassOf, Lacks, Replay;
    if cs == [] {
      NothingKeptAtAll(lens, v, s, cs);
      assert MassOf<A, (R, bool)>([]) == 0.0 by { NoMass<A, R>(); }
    } else {
      var init, c := cs[..|cs| - 1], cs[|cs| - 1];
      assert cs == init + [c];
      KeepSums(lens, v, s, init, r);
      LacksIs(lens, v, s, c.actions);
      KeepOne(lens, v, s, init, c, true);
      KeepOne(lens, v, s, init, c, false);
      GroupOne(Keep(lens, v, s, init, true), c);
      SumAppend(With(r), Keep(lens, v, s, init, false), [c]);
      SumAppend(Lacking(lens, v, s), init, [c]);
      SumAppend(Remaining(lens, v, s, r), init, [c]);
      assert Keep(lens, v, s, init, false) + [] == Keep(lens, v, s, init, false);
    }
  }

  lemma NoMass<A, R>()
    ensures MassOf<A, (R, bool)>([]) == 0.0
  {
  }

  lemma {:induction false} SameSum<A, V>(f: Item<A, V> -> real, g: Item<A, V> -> real, xs: seq<Item<A, V>>)
    requires forall x | x in xs :: f(x) == g(x)
    ensures Sum(f, xs) == Sum(g, xs)
  {
    if xs != [] {
      SameSum(f, g, xs[1..]);
    }
  }

  /** What grouping gives the routes r is the mass of the candidates that end with them. */
  lemma NamedIs<S(!new), P, A(!new), R, K>(w: World<S, P, A, R, K>, cs: seq<Final<A, R>>, r: R)
    requires NonNegative(cs)
    ensures Named(Group(cs), r) == Sum(With(r), cs)
  {
    hide Group, Sum, SinkSum;
    var v := w.(sink := (x: R) => x == r);
    GroupSums(v, cs);
    assert forall x :: ByHit(v)(x) == x.mass * Hit(v, x.value.0);
    forall x | x in cs ensures ByHit(v)(x) == With<A, R>(r)(x) {
      assert Hit(v, x.value.0) == if x.value.0 == r then 1.0 else 0.0;
    }
    SameSum(ByHit(v), With(r), cs);
  }

  /** An ablation of an answer takes out exactly the candidates that lack their attribution: unknown grows
      by their mass, and each outcome keeps the mass of the other candidates that end with its routes. */
  lemma TakesOutWhatLacks<S(!new), P(!new), A(!new), R, K>(lens: Lens<S, A>, v: Variant, w: World<S, P, A, R, K>,
      s: S, p: P, horizon: nat, k: nat, r: R)
    requires Accepted(w) && Within(w, 1.0) && Agrees(lens, w)
    requires horizon in HORIZONS && 1 <= k <= MAX_BEAM && Generate.Predict(w, s, p, horizon, k).Ok?
    ensures var original := Generate.Predict(w, s, p, horizon, k).value;
      var a := Ablate(lens, v, w.sink, s, original);
      && a.Ablated?
      && a.forecast.unknown == original.forecast.unknown + Sum(Lacking(lens, v, s), original.candidates)
      && Named(a.forecast.outcomes, r) == Sum(Remaining(lens, v, s, r), original.candidates)
  {
    hide World.Run, World.Exact, Group, Conclude, AblatedForecast, TableSum, SinkSum, Accepted, Within,
      Power, Keep, Sum, Agrees, NonNegative, Named, Replay, Lacks;
    var u: Oracle<A> := (h, t) => 0.0;
    var t := w.Run(k, horizon, s, p);
    AblationKeepsBracket(lens, v, w, u, s, p, horizon, k);
    ConcludeKeeps(w.sink, Group(t.finished), t.finished, t.unknown, t.other, t.used);
    RunGrowth(w, 1.0, k, horizon, s, p);
    KeptTables(lens, v, w, u, s, p, horizon, k);
    KeepSums(lens, v, s, t.finished, r);
    KeepSplits(lens, v, s, ByMass(), t.finished);
    NamedIs(w, Keep(lens, v, s, t.finished, false), r);
  }

  /** Neither the answer nor its ablation clamps anything. */
  lemma KeptTables<S(!new), P(!new), A(!new), R, K>(lens: Lens<S, A>, v: Variant, w: World<S, P, A, R, K>,
      u: Oracle<A>, s: S, p: P, horizon: nat, k: nat)
    requires Accepted(w) && Within(w, 1.0) && Agrees(lens, w) && Bounded(u)
    requires horizon in HORIZONS && 1 <= k <= MAX_BEAM && Generate.Predict(w, s, p, horizon, k).Ok?
    ensures var original := Generate.Predict(w, s, p, horizon, k).value;
      var t := w.Run(k, horizon, s, p);
      var a := Ablate(lens, v, w.sink, s, original);
      && a.Ablated? && original.forecast.unknown == t.unknown
      && a.forecast.unknown == t.unknown + MassOf(Keep(lens, v, s, t.finished, true))
      && a.forecast.outcomes == Group(Keep(lens, v, s, t.finished, false))
  {
    hide World.Run, World.Exact, Group, Conclude, AblatedForecast, TableSum, SinkSum, Accepted, Within,
      Power, Keep, Sum, Agrees, NonNegative, MassOf;
    var t := w.Run(k, horizon, s, p);
    var table, exact := Group(t.finished), w.Exact(u, horizon, s, p, []);
    var kept, gone := Keep(lens, v, s, t.finished, false), Keep(lens, v, s, t.finished, true);
    RiskIsExact(w, u, s, p, horizon, k);
    ConcludeKeeps(w.sink, table, t.finished, t.unknown, t.other, t.used);
    AnswerSums(lens, v, w, u, s, p, horizon, k);
    ConcludesExactly(w.sink, table, t.finished, t.unknown, t.other, t.used, exact);
    AblatesExactly(w.sink, Group(kept), t.unknown + MassOf(gone), t.other, exact);
  }
}
