/** The beam is exact: emitted action sequences never repeat, so "the best k" has one meaning,
    and cutting the finished list after every layer loses none of the best k ever finished. */
module Beam {
  import opened Ranking
  import opened Rollout
  import opened Wrappers

  ghost predicate DistinctTokens<A>(choices: seq<(Token<A>, real)>) {
    forall i, j :: 0 <= i < j < |choices| ==> choices[i].0 != choices[j].0
  }

  /** No context offers the same token twice. */
  ghost predicate Deterministic<S(!new), P, A, R, K>(w: World<S, P, A, R, K>) {
    forall s :: DistinctTokens(w.Choices(s))
  }

  /** Two events that would put the same action sequence on the same list. */
  ghost predicate Clash<S, P, A, R>(x: Event<S, P, A, R>, y: Event<S, P, A, R>) {
    || (x.Grow? && y.Grow? && x.row.actions == y.row.actions)
    || (x.Finish? && y.Finish? && x.last.actions == y.last.actions)
  }

  ghost predicate ClashFree<S, P, A, R>(es: seq<Event<S, P, A, R>>) {
    forall i, j :: 0 <= i < j < |es| ==> !Clash(es[i], es[j])
  }

  /** Where an event of this row comes from. */
  ghost predicate FromRow<S, P, A, R>(row: Row<S, P, A>, choices: seq<(Token<A>, real)>, e: Event<S, P, A, R>) {
    && (e.Grow? ==> exists i ::
      0 <= i < |choices| && choices[i].0.Act? && e.row.actions == row.actions + [choices[i].0.action])
    && (e.Finish? ==> e.last.actions == row.actions && exists i :: 0 <= i < |choices| && choices[i].0.End?)
  }

  lemma {:induction false} RowEventsFrom<S, P, A, R, K>(w: World<S, P, A, R, K>, row: Row<S, P, A>,
      choices: seq<(Token<A>, real)>)
    requires DistinctTokens(choices)
    ensures forall e :: e in w.RowEvents(row, choices) ==> FromRow(row, choices, e)
    ensures ClashFree(w.RowEvents(row, choices))
  {
    if choices != [] {
      var n := |choices| - 1;
      var init, last := choices[..n], choices[n];
      RowEventsFrom(w, row, init);
      var before := w.RowEvents(row, init);
      forall e | e in before ensures FromRow(row, choices, e) {
        assert FromRow(row, init, e);
        if e.Grow? {
          var i :| 0 <= i < |init| && init[i].0.Act? && e.row.actions == row.actions + [init[i].0.action];
          assert choices[i] == init[i];
        } else if e.Finish? {
          var i :| 0 <= i < |init| && init[i].0.End?;
          assert choices[i] == init[i];
        }
      }
      var e := w.EventOf(row, last);
      assert FromRow(row, choices, e) by { assert choices[n] == last; }
      forall i | 0 <= i < |before| ensures !Clash(before[i], e) {
        NoClashInRow(w, row, init, last, before[i]);
      }
    }
  }

  lemma NoClashInRow<S, P, A, R, K>(w: World<S, P, A, R, K>, row: Row<S, P, A>, init: seq<(Token<A>, real)>,
      last: (Token<A>, real), e: Event<S, P, A, R>)
    requires FromRow(row, init, e)
    requires forall i :: 0 <= i < |init| ==> init[i].0 != last.0
    ensures !Clash(e, w.EventOf(row, last))
  {
    var f := w.EventOf(row, last);
    if e.Grow? && f.Grow? {
      var i :| 0 <= i < |init| && init[i].0.Act? && e.row.actions == row.actions + [init[i].0.action];
      ExtensionsDiffer(row.actions, init[i].0.action, last.0.action);
    }
  }

  lemma ExtensionsDiffer<A>(s: seq<A>, a: A, b: A)
    requires a != b
    ensures s + [a] != s + [b]
  {
    assert (s + [a])[|s|] == a && (s + [b])[|s|] == b;
  }

  /** Events of rows with different histories never clash. */
  ghost predicate FromRows<S, P, A, R>(active: seq<Row<S, P, A>>, e: Event<S, P, A, R>) {
    && (e.Grow? ==> |e.row.actions| > 0 && exists i ::
      0 <= i < |active| && e.row.actions[..|e.row.actions| - 1] == active[i].actions)
    && (e.Finish? ==> exists i :: 0 <= i < |active| && e.last.actions == active[i].actions)
  }

  lemma RowIsFromRows<S, P, A, R>(active: seq<Row<S, P, A>>, n: nat, choices: seq<(Token<A>, real)>,
      e: Event<S, P, A, R>)
    requires n < |active| && FromRow(active[n], choices, e)
    ensures FromRows(active, e)
    ensures e.Grow? ==> |e.row.actions| > 0 && e.row.actions[..|e.row.actions| - 1] == active[n].actions
    ensures e.Finish? ==> e.last.actions == active[n].actions
  {
    if e.Grow? {
      var i :| 0 <= i < |choices| && choices[i].0.Act? && e.row.actions == active[n].actions + [choices[i].0.action];
      assert e.row.actions[..|e.row.actions| - 1] == active[n].actions;
    }
  }

  lemma {:induction false} LayerClashFree<S(!new), P, A, R, K>(w: World<S, P, A, R, K>, active: seq<Row<S, P, A>>)
    requires Deterministic(w) && DistinctActions(active)
    ensures forall e :: e in w.LayerEvents(active) ==> FromRows(active, e)
    ensures ClashFree(w.LayerEvents(active))
  {
    hide World.RowEvents;
    if active != [] {
      var n := |active| - 1;
      var init, row := active[..n], active[n];
      LayerClashFree(w, init);
      var choices := w.Choices(row.value.0);
      RowEventsFrom(w, row, choices);
      var before, more := w.LayerEvents(init), w.RowEvents(row, choices);
      forall e | e in before ensures FromRows(active, e) { Wider(active, n, e); }
      forall e | e in more ensures FromRows(active, e) { RowIsFromRows(active, n, choices, e); }
      forall i, j | 0 <= i < |before| && 0 <= j < |more| ensures !Clash(before[i], more[j]) {
        RowIsFromRows(active, n, choices, more[j]);
        assert FromRows(init, before[i]);
      }
      assert w.LayerEvents(active) == before + more;
    }
  }

  lemma Wider<S, P, A, R>(active: seq<Row<S, P, A>>, n: nat, e: Event<S, P, A, R>)
    requires n <= |active| && FromRows(active[..n], e)
    ensures FromRows(active, e)
  {
    if e.Grow? {
      var i :| 0 <= i < n && e.row.actions[..|e.row.actions| - 1] == active[..n][i].actions;
      assert e.row.actions[..|e.row.actions| - 1] == active[i].actions;
    } else if e.Finish? {
      var i :| 0 <= i < n && e.last.actions == active[..n][i].actions;
      assert e.last.actions == active[i].actions;
    }
  }

  // --------------------------------------------------------- through the buffer

  /** The lists of c hold only events of es, each action sequence once. */
  ghost predicate CollectedFrom<S, P, A, R>(c: Buffer<S, P, A, R>, es: seq<Event<S, P, A, R>>) {
    && (forall x :: x in c.grown ==> Grow(x) in es)
    && (forall x :: x in c.finished ==> Finish(x) in es)
    && DistinctActions(c.grown) && DistinctActions(c.finished)
  }

  lemma RecordCollected<S, P, A, R>(c: Buffer<S, P, A, R>, es: seq<Event<S, P, A, R>>, e: Event<S, P, A, R>)
    requires CollectedFrom(c, es) && ClashFree(es + [e])
    ensures CollectedFrom(Record(c, e), es + [e])
  {
    var n := |es|;
    assert (es + [e])[n] == e;
    forall x | x in es ensures !Clash(x, e) {
      var i :| 0 <= i < n && es[i] == x;
      assert (es + [e])[i] == x;
    }
    match e
    case Lost(_, _, _) =>
    case Grow(r) =>
      forall i | 0 <= i < |c.grown| ensures c.grown[i].actions != r.actions {
        var f: Event<S, P, A, R> := Grow(c.grown[i]);
        assert f in es;
      }
    case Finish(r) =>
      forall i | 0 <= i < |c.finished| ensures c.finished[i].actions != r.actions {
        var f: Event<S, P, A, R> := Finish(c.finished[i]);
        assert f in es;
      }
  }

  lemma {:induction false} Collected<S, P, A, R>(b: Buffer<S, P, A, R>, es: seq<Event<S, P, A, R>>)
    requires b.grown == [] && b.finished == [] && ClashFree(es)
    ensures CollectedFrom(PushAll(b, es), es) && CollectedFrom(RecordAll(b, es), es)
  {
    hide Clash, Record;
    if es != [] {
      var init, e := es[..|es| - 1], es[|es| - 1];
      assert es == init + [e];
      Collected(b, init);
      var c := PushAll(b, init);
      RecordCollected(c.(used := c.used + 1), init, e);
      RecordCollected(RecordAll(b, init), init, e);
    }
  }

  /** The candidates of one layer alone. */
  function LayerFinished<S, P, A, R, K>(w: World<S, P, A, R, K>, t: Tally<S, P, A, R>): seq<Final<A, R>> {
    PushAll(Open(t).(finished := []), w.LayerEvents(t.active)).finished
  }

  function HorizonFinished<S, P, A, R, K>(w: World<S, P, A, R, K>, t: Tally<S, P, A, R>): seq<Final<A, R>> {
    RecordAll(Open(t).(finished := []), w.HorizonEvents(t.active)).finished
  }

  /** Every candidate finished in the first n layers, none dropped. */
  function EverFinished<S, P, A, R, K>(w: World<S, P, A, R, K>, k: nat, n: nat,
      t: Tally<S, P, A, R>): seq<Final<A, R>> {
    if n == 0 then t.finished
    else EverFinished(w, k, n - 1, t) + LayerFinished(w, w.Rounds(k, n - 1, t))
  }

  lemma {:induction false} FinishedAppends<S, P, A, R>(b: Buffer<S, P, A, R>, es: seq<Event<S, P, A, R>>)
    ensures PushAll(b, es)
      == PushAll(b.(finished := []), es).(finished := b.finished + PushAll(b.(finished := []), es).finished)
    ensures RecordAll(b, es)
      == RecordAll(b.(finished := []), es).(finished := b.finished + RecordAll(b.(finished := []), es).finished)
  {
    if es != [] {
      FinishedAppends(b, es[..|es| - 1]);
    }
  }

  lemma {:induction false} PruneThenAddAll<A(!new), V>(le: (A, A) -> bool, k: nat, s: seq<Item<A, V>>,
      more: seq<Item<A, V>>)
    requires TotalOrder(le)
    ensures Best(le, k, Best(le, k, s) + more) == Best(le, k, s + more)
  {
    if more == [] {
      BestOfBest(le, k, s);
      assert Best(le, k, s) + more == Best(le, k, s) && s + more == s;
    } else {
      var init, x := more[..|more| - 1], more[|more| - 1];
      PruneThenAddAll(le, k, s, init);
      BestCongruence(le, k, Best(le, k, s) + init, s + init, x);
      assert Best(le, k, s) + more == Best(le, k, s) + init + [x] && s + more == s + init + [x];
    }
  }

  /** Cutting the finished list after every layer gives the best k of every candidate ever finished. */
  lemma {:induction false} FinishedIsBestEver<S, P, A(!new), R, K>(w: World<S, P, A, R, K>, k: nat, n: nat,
      t: Tally<S, P, A, R>)
    requires TotalOrder(w.le) && |t.finished| == 0
    ensures w.Rounds(k, n, t).finished == Best(w.le, k, EverFinished(w, k, n, t))
    ensures w.Close(k, w.Rounds(k, n, t)).finished
         == Best(w.le, k, EverFinished(w, k, n, t) + HorizonFinished(w, w.Rounds(k, n, t)))
  {
    hide Best, PushAll, RecordAll, World.LayerEvents, World.HorizonEvents;
    if n == 0 {
      assert Best(w.le, k, t.finished) == t.finished by { EmptyBest(w.le, k, t.finished); }
    } else {
      FinishedIsBestEver(w, k, n - 1, t);
      var before := w.Rounds(k, n - 1, t);
      FinishedAppends(Open(before), w.LayerEvents(before.active));
      PruneThenAddAll(w.le, k, EverFinished(w, k, n - 1, t), LayerFinished(w, before));
    }
    var last := w.Rounds(k, n, t);
    FinishedAppends(Open(last), w.HorizonEvents(last.active));
    PruneThenAddAll(w.le, k, EverFinished(w, k, n, t), HorizonFinished(w, last));
  }

  lemma EmptyBest<A, V>(le: (A, A) -> bool, k: nat, s: seq<Item<A, V>>)
    requires s == []
    ensures Best(le, k, s) == s
  {
  }

  // -------------------------------------------------------- distinct candidates

  ghost predicate AllOfLength<A, V>(s: seq<Item<A, V>>, d: nat) {
    forall x :: x in s ==> |x.actions| == d
  }

  ghost predicate AllShorter<A, V>(s: seq<Item<A, V>>, d: nat) {
    forall x :: x in s ==> |x.actions| < d
  }

  lemma BestKeepsDistinct<A, V>(le: (A, A) -> bool, k: nat, s: seq<Item<A, V>>)
    requires DistinctActions(s)
    ensures DistinctActions(Best(le, k, s))
    ensures forall x :: x in Best(le, k, s) ==> x in s
  {
    SortPermutes(le, s);
    var t := Sort(le, s);
    forall x | x in Best(le, k, s) ensures x in s {
      assert x in t;
      assert x in multiset(t);
    }
    forall i, j | 0 <= i < j < |t| ensures t[i].actions != t[j].actions {
      DistinctPermuted(s, t, i, j);
    }
  }

  lemma LayerLengths<S(!new), P, A, R, K>(w: World<S, P, A, R, K>, k: nat, d: nat, t: Tally<S, P, A, R>)
    requires Deterministic(w) && DistinctActions(t.active) && AllOfLength(t.active, d)
    ensures DistinctActions(w.Round(k, t).active) && AllOfLength(w.Round(k, t).active, d + 1)
    ensures DistinctActions(LayerFinished(w, t)) && AllOfLength(LayerFinished(w, t), d)
  {
    hide PushAll, Best, World.LayerEvents;
    var es := w.LayerEvents(t.active);
    LayerClashFree(w, t.active);
    var b := Open(t).(finished := []);
    Collected(b, es);
    FinishedAppends(Open(t), es);
    BestKeepsDistinct(w.le, k, PushAll(b, es).grown);
    forall x | x in PushAll(b, es).grown ensures |x.actions| == d + 1 {
      var e: Event<S, P, A, R> := Grow(x);
      assert FromRows(t.active, e);
      var i :| 0 <= i < |t.active| && x.actions[..|x.actions| - 1] == t.active[i].actions;
    }
    forall x | x in LayerFinished(w, t) ensures |x.actions| == d {
      var e: Event<S, P, A, R> := Finish(x);
      assert FromRows(t.active, e);
    }
  }

  lemma {:induction false} EverFinishedDistinct<S(!new), P, A, R, K>(w: World<S, P, A, R, K>, k: nat, n: nat, s: S,
      p: P)
    requires Deterministic(w)
    ensures var t0: Tally<S, P, A, R> := Start(s, p); var t := w.Rounds(k, n, t0);
      && DistinctActions(t.active) && AllOfLength(t.active, n)
      && DistinctActions(EverFinished(w, k, n, t0)) && AllShorter(EverFinished(w, k, n, t0), n)
  {
    hide World.Round, LayerFinished;
    if n > 0 {
      EverFinishedDistinct(w, k, n - 1, s, p);
      var t0: Tally<S, P, A, R> := Start(s, p);
      LayerLengths(w, k, n - 1, w.Rounds(k, n - 1, t0));
    }
  }

  lemma {:induction false} HorizonDistinct<S, P, A, R, K>(w: World<S, P, A, R, K>, active: seq<Row<S, P, A>>, d: nat)
    requires DistinctActions(active) && AllOfLength(active, d)
    ensures ClashFree(w.HorizonEvents(active))
    ensures forall e :: e in w.HorizonEvents(active) ==> FromRows(active, e)
  {
    if active != [] {
      var n := |active| - 1;
      HorizonDistinct(w, active[..n], d);
      var before, e := w.HorizonEvents(active[..n]),
        w.Arrive(active[n].mass, active[n].value.1, active[n].actions, None);
      forall x | x in before ensures FromRows(active, x) && !Clash(x, e) {
        Wider(active, n, x);
        assert FromRows(active[..n], x);
      }
    }
  }

  /** Every candidate ever finished has its own action sequence, so of any two candidates exactly
      one sorts ahead of the other: those reported are strictly ahead of all those left out. */
  lemma CandidatesAreTheBest<S(!new), P, A(!new), R, K>(w: World<S, P, A, R, K>, k: nat, horizon: nat, s: S, p: P)
    requires TotalOrder(w.le) && Deterministic(w)
    ensures var t0: Tally<S, P, A, R> := Start(s, p);
      var ever := EverFinished(w, k, horizon, t0) + HorizonFinished(w, w.Rounds(k, horizon, t0));
      var kept := w.Run(k, horizon, s, p).finished;
      && DistinctActions(ever)
      && multiset(kept) + multiset(Dropped(w.le, k, ever)) == multiset(ever)
      && (|ever| > k ==> |kept| == k)
      && (forall x, y :: x in kept && y in Dropped(w.le, k, ever) ==>
            Ahead(w.le, x, y) && !Ahead(w.le, y, x) && Better(w.le, x, y))
  {
    hide World.Rounds, World.Round, World.Close, EverFinished, RecordAll, World.HorizonEvents;
    var t0: Tally<S, P, A, R> := Start(s, p);
    var t := w.Rounds(k, horizon, t0);
    EverFinishedDistinct(w, k, horizon, s, p);
    HorizonDistinct(w, t.active, horizon);
    Collected(Open(t).(finished := []), w.HorizonEvents(t.active));
    var former, last := EverFinished(w, k, horizon, t0), HorizonFinished(w, t);
    forall x | x in last ensures |x.actions| == horizon {
      var e: Event<S, P, A, R> := Finish(x);
      assert FromRows(t.active, e);
    }
    var ever := former + last;
    assert DistinctActions(ever);
    FinishedIsBestEver(w, k, horizon, t0);
    BestAndDropped(w.le, k, ever);
    forall x, y | x in w.Run(k, horizon, s, p).finished && y in Dropped(w.le, k, ever)
      ensures Ahead(w.le, x, y) && !Ahead(w.le, y, x) && Better(w.le, x, y) {
      BestIsBest(w.le, k, ever, x, y);
    }
  }

  /** The frontier after a layer is the strictly best k of all rows that layer generated. */
  lemma FrontierIsTheBest<S(!new), P, A(!new), R, K>(w: World<S, P, A, R, K>, k: nat, n: nat, s: S, p: P)
    requires TotalOrder(w.le) && Deterministic(w)
    ensures var t0: Tally<S, P, A, R> := Start(s, p); var t := w.Rounds(k, n, t0);
      var all := PushAll(Open(t), w.LayerEvents(t.active)).grown;
      var kept := w.Rounds(k, n + 1, t0).active;
      && DistinctActions(all)
      && multiset(kept) + multiset(Dropped(w.le, k, all)) == multiset(all)
      && (|all| > k ==> |kept| == k)
      && (forall x, y :: x in kept && y in Dropped(w.le, k, all) ==>
            Ahead(w.le, x, y) && !Ahead(w.le, y, x) && Better(w.le, x, y))
  {
    hide PushAll, World.LayerEvents;
    var t0: Tally<S, P, A, R> := Start(s, p);
    var t := w.Rounds(k, n, t0);
    EverFinishedDistinct(w, k, n, s, p);
    LayerClashFree(w, t.active);
    Collected(Open(t).(finished := []), w.LayerEvents(t.active));
    FinishedAppends(Open(t), w.LayerEvents(t.active));
    var all := PushAll(Open(t), w.LayerEvents(t.active)).grown;
    BestAndDropped(w.le, k, all);
    forall x, y | x in Best(w.le, k, all) && y in Dropped(w.le, k, all)
      ensures Ahead(w.le, x, y) && !Ahead(w.le, y, x) && Better(w.le, x, y) {
      BestIsBest(w.le, k, all, x, y);
    }
  }
}
