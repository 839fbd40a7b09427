/** What the candidates and outcomes of a forecast are: each candidate is one course through the
    model with exactly its probability, and each outcome stands for its own set of routes. */
module Candidates {
  import opened Ranking
  import opened Rollout
  import opened Bracketing
  import opened Generate
  import opened Guarantees
  import opened Wrappers
  import Beam
  import Remainder

  // ----------------------------------------------------------- candidates are courses

  /** The probability a context gives a token. */
  function Chance<A(==)>(choices: seq<(Token<A>, real)>, token: Token<A>): real {
    if choices == [] then 0.0
    else if choices[0].0 == token then choices[0].1
    else Chance(choices[1..], token)
  }

  lemma {:induction false} ChanceOf<A>(choices: seq<(Token<A>, real)>, j: nat)
    requires Beam.DistinctTokens(choices) && j < |choices|
    ensures Chance(choices, choices[j].0) == choices[j].1
  {
    if j > 0 {
      assert choices[0].0 != choices[j].0;
      ChanceOf(choices[1..], j - 1);
    }
  }

  /** Where some operations have led, and the product of their probabilities on the way. */
  datatype Place<S, P> = Place(state: S, paths: P, mass: real)

  /** Two things in a row happen with the product of their probabilities. */
  function Both(first: real, second: real): real { first * second }

  function Onward<S, P, A(==), R, K>(w: World<S, P, A, R, K>, at: Place<S, P>, a: A): Option<Place<S, P>> {
    match w.advance(at.state, at.paths, a)
    case None => None
    case Some((s, p)) => Some(Place(s, p, Both(at.mass, Chance(w.Choices(at.state), Act(a)))))
  }

  function Course<S, P, A(==), R, K>(w: World<S, P, A, R, K>, s: S, p: P, actions: seq<A>): Option<Place<S, P>> {
    if actions == [] then Some(Place(s, p, 1.0))
    else
      match Course(w, s, p, actions[..|actions| - 1])
      case None => None
      case Some(at) => Onward(w, at, actions[|actions| - 1])
  }

  lemma CourseOn<S, P, A, R, K>(w: World<S, P, A, R, K>, s: S, p: P, actions: seq<A>, a: A)
    requires Course(w, s, p, actions).Some?
    ensures Course(w, s, p, actions + [a]) == Onward(w, Course(w, s, p, actions).value, a)
  {
    hide Onward;
    assert (actions + [a])[..|actions|] == actions;
  }

  /** A row after n operations. */
  ghost predicate IsRow<S, P, A, R, K>(w: World<S, P, A, R, K>, s: S, p: P, n: nat, row: Row<S, P, A>) {
    |row.actions| == n && Course(w, s, p, row.actions) == Some(Place(row.value.0, row.value.1, row.mass))
  }

  /** A candidate: its actions are a course whose paths have its routes. It either ended there, before
      the horizon, or was read off at the horizon. */
  ghost predicate IsCandidate<S, P, A, R, K>(w: World<S, P, A, R, K>, s: S, p: P, horizon: nat, x: Final<A, R>) {
    && var course := Course(w, s, p, x.actions);
    && course.Some? && w.routes(course.value.paths) == Some(x.value.0)
    && if x.value.1 then
         |x.actions| < horizon && x.mass == Both(course.value.mass, Chance(w.Choices(course.value.state), End))
       else |x.actions| == horizon && x.mass == course.value.mass
  }

  ghost predicate IsEvent<S, P, A, R, K>(w: World<S, P, A, R, K>, s: S, p: P, n: nat, e: Event<S, P, A, R>) {
    && (e.Grow? ==> IsRow(w, s, p, n + 1, e.row))
    && (e.Finish? ==> e.last.value.1 && IsCandidate(w, s, p, n + 1, e.last))
  }

  lemma EventIs<S(!new), P, A, R, K>(w: World<S, P, A, R, K>, s: S, p: P, n: nat, row: Row<S, P, A>, j: nat)
    requires Beam.Deterministic(w) && IsRow(w, s, p, n, row) && j < |w.Choices(row.value.0)|
    ensures IsEvent(w, s, p, n, w.EventOf(row, w.Choices(row.value.0)[j]))
  {
    hide World.Choices, Chance, Course;
    var choice := w.Choices(row.value.0)[j];
    ChanceOf(w.Choices(row.value.0), j);
    assert w.EventOf(row, choice).Mass() == Both(row.mass, choice.1);
    if choice.0.Act? {
      CourseOn(w, s, p, row.actions, choice.0.action);
    }
  }

  lemma {:induction false} RowEventsAre<S(!new), P, A, R, K>(w: World<S, P, A, R, K>, s: S, p: P, n: nat,
      row: Row<S, P, A>, j: nat)
    requires Beam.Deterministic(w) && IsRow(w, s, p, n, row) && j <= |w.Choices(row.value.0)|
    ensures forall e :: e in w.RowEvents(row, w.Choices(row.value.0)[..j]) ==> IsEvent(w, s, p, n, e)
  {
    hide World.Choices, World.EventOf, IsEvent, IsRow, Beam.Deterministic;
    if j > 0 {
      RowEventsAre(w, s, p, n, row, j - 1);
      EventIs(w, s, p, n, row, j - 1);
      assert w.Choices(row.value.0)[..j][..j - 1] == w.Choices(row.value.0)[..j - 1];
    }
  }

  lemma {:induction false} LayerEventsAre<S(!new), P, A, R, K>(w: World<S, P, A, R, K>, s: S, p: P, n: nat,
      active: seq<Row<S, P, A>>)
    requires Beam.Deterministic(w) && forall x :: x in active ==> IsRow(w, s, p, n, x)
    ensures forall e :: e in w.LayerEvents(active) ==> IsEvent(w, s, p, n, e)
  {
    hide World.Choices, World.RowEvents, IsEvent, IsRow, Beam.Deterministic;
    if active != [] {
      var last := |active| - 1;
      LayerEventsAre(w, s, p, n, active[..last]);
      var choices := w.Choices(active[last].value.0);
      RowEventsAre(w, s, p, n, active[last], |choices|);
      assert choices[..|choices|] == choices;
    }
  }

  lemma {:induction false} PushedFrom<S, P, A, R>(b: Buffer<S, P, A, R>, es: seq<Event<S, P, A, R>>)
    ensures forall x :: x in PushAll(b, es).grown ==> x in b.grown || Grow(x) in es
    ensures forall x :: x in PushAll(b, es).finished ==> x in b.finished || Finish(x) in es
    ensures forall x :: x in RecordAll(b, es).finished ==> x in b.finished || Finish(x) in es
  {
    if es != [] {
      PushedFrom(b, es[..|es| - 1]);
      assert es == es[..|es| - 1] + [es[|es| - 1]];
    }
  }

  lemma BestFrom<A, V>(le: (A, A) -> bool, k: nat, s: seq<Item<A, V>>)
    ensures forall x :: x in Best(le, k, s) ==> x in s
  {
    hide Sort;
    BestAndDropped(le, k, s);
    forall x | x in Best(le, k, s) ensures x in s {
      assert x in multiset(Best(le, k, s));
      assert x in multiset(s);
    }
  }

  /** Everything a tally holds after n layers is what its actions make it. */
  ghost predicate Genuine<S, P, A, R, K>(w: World<S, P, A, R, K>, s: S, p: P, n: nat, t: Tally<S, P, A, R>) {
    && (forall x :: x in t.active ==> IsRow(w, s, p, n, x))
    && (forall x :: x in t.finished ==> x.value.1 && IsCandidate(w, s, p, n, x))
  }

  lemma RoundIsGenuine<S(!new), P, A, R, K>(w: World<S, P, A, R, K>, s: S, p: P, k: nat, n: nat,
      t: Tally<S, P, A, R>)
    requires Beam.Deterministic(w) && Genuine(w, s, p, n, t)
    ensures Genuine(w, s, p, n + 1, w.Round(k, t))
  {
    hide World.LayerEvents, PushAll, Best, Course, Beam.Deterministic;
    var es := w.LayerEvents(t.active);
    LayerEventsAre(w, s, p, n, t.active);
    PushedFrom(Open(t), es);
    var b := PushAll(Open(t), es);
    BestFrom(w.le, k, b.grown);
    BestFrom(w.le, k, b.finished);
  }

  lemma {:induction false} RoundsAreGenuine<S(!new), P, A, R, K>(w: World<S, P, A, R, K>, s: S, p: P, k: nat, n: nat)
    requires Beam.Deterministic(w)
    ensures Genuine(w, s, p, n, w.Rounds(k, n, Start(s, p)))
  {
    hide World.Round, Beam.Deterministic;
    if n > 0 {
      hide Genuine;
      RoundsAreGenuine(w, s, p, k, n - 1);
      RoundIsGenuine(w, s, p, k, n - 1, w.Rounds(k, n - 1, Start(s, p)));
    }
  }

  lemma {:induction false} HorizonIsGenuine<S, P, A, R, K>(w: World<S, P, A, R, K>, s: S, p: P, n: nat,
      active: seq<Row<S, P, A>>)
    requires forall x :: x in active ==> IsRow(w, s, p, n, x)
    ensures forall e :: e in w.HorizonEvents(active) && e.Finish? ==> IsCandidate(w, s, p, n, e.last)
  {
    hide Course, Chance;
    if active != [] {
      HorizonIsGenuine(w, s, p, n, active[..|active| - 1]);
      assert active[|active| - 1] in active;
    }
  }

  lemma RunIsGenuine<S(!new), P, A, R, K>(w: World<S, P, A, R, K>, s: S, p: P, horizon: nat, k: nat)
    requires Beam.Deterministic(w)
    ensures forall x :: x in w.Run(k, horizon, s, p).finished ==> IsCandidate(w, s, p, horizon, x)
  {
    hide World.Rounds, RecordAll, World.HorizonEvents, IsRow, Best, Beam.Deterministic, Course;
    RoundsAreGenuine(w, s, p, k, horizon);
    var t := w.Rounds(k, horizon, Start(s, p));
    HorizonIsGenuine(w, s, p, horizon, t.active);
    var es := w.HorizonEvents(t.active);
    PushedFrom(Open(t), es);
    BestFrom(w.le, k, RecordAll(Open(t), es).finished);
  }

  /** Every candidate of an answer is a course through the model: it carries exactly the product of the
      probabilities of its operations -- and of ending, if it ended -- and the routes of the paths
      those operations leave. */
  lemma CandidatesAreCourses<S(!new), P, A, R, K>(w: World<S, P, A, R, K>, s: S, p: P, horizon: nat, k: nat)
    requires Accepted(w)
    ensures var r := Predict(w, s, p, horizon, k);
      r.Ok? ==> forall x :: x in r.value.candidates ==> IsCandidate(w, s, p, horizon, x)
  {
    hide World.Run, Conclude, IsCandidate, Accepted, Group;
    AcceptedWithin(w);
    RunIsGenuine(w, s, p, horizon, k);
    var t := w.Run(k, horizon, s, p);
    ConcludeKeeps(w.sink, Group(t.finished), t.finished, t.unknown, t.other, t.used);
  }

  // ------------------------------------------------------ outcomes are their own

  /** The mass an outcome table gives some routes. */
  ghost function Named<R>(table: seq<(R, real)>, r: R): real {
    SinkSum((x: R) => x == r, table)
  }

  /** The probability of ending with the routes r within n operations, whatever the unresolved
      futures are worth. */
  ghost function ExactFor<S, P, A, R, K>(w: World<S, P, A, R, K>, u: Oracle<A>, n: nat, s: S, p: P, r: R): real {
    w.(sink := (x: R) => x == r).Exact(u, n, s, p, [])
  }

  /** Each reported outcome brackets the exact probability of ending with its own routes. */
  lemma OutcomesAreTheirOwn<S(!new), P, A(!new), R, K>(w: World<S, P, A, R, K>, u: Oracle<A>, s: S, p: P,
      horizon: nat, k: nat, r: R)
    requires Accepted(w) && Within(w, 1.0) && Bounded(u)
    requires horizon in HORIZONS && 1 <= k <= MAX_BEAM
    ensures var a := Predict(w, s, p, horizon, k);
      a.Ok? ==>
        var f := a.value.forecast; var exact := ExactFor(w, u, horizon, s, p, r);
        Named(f.outcomes, r) <= exact <= Named(f.outcomes, r) + f.unknown + f.other
  {
    hide World.Run, World.Exact, Group, Conclude, TableSum, SinkSum, Within, Bounded, Power, Sum, NonNegative;
    var v := w.(sink := (x: R) => x == r);
    SameWithin(w, v);
    Remainder.SameRun(w, v, k, horizon, s, p);
    var t := w.Run(k, horizon, s, p);
    RunGrowth(w, 1.0, k, horizon, s, p);
    PowerOne(horizon);
    ArrivalBracketed(v, u, 1.0, k, horizon, s, p);
    GroupSums(v, t.finished);
    GroupSums(w, t.finished);
    Conclusion(w.sink, Group(t.finished), t.finished, t.unknown, t.other, t.used);
  }

  lemma SameWithin<S(!new), P, A, R, K>(w: World<S, P, A, R, K>, v: World<S, P, A, R, K>)
    requires Within(w, 1.0) && v == w.(sink := v.sink)
    ensures Within(v, 1.0)
  {
    hide ProbabilitySum;
    assert forall s :: v.Choices(s) == w.Choices(s);
  }

  /** Tallies that account for at most 1 are reported as they are. */
  lemma Conclusion<A, R>(sink: R -> bool, table: seq<(R, real)>, finished: seq<Final<A, R>>, unknown: real,
      other: real, used: nat)
    requires forall i :: 0 <= i < |table| ==> table[i].1 >= 0.0
    requires 0.0 <= unknown && 0.0 <= other && TableSum(table) + unknown + other <= 1.0
    ensures var r := Conclude(sink, table, finished, unknown, other, used);
      r.Ok? ==>
        var f := r.value.forecast; f.outcomes == table && f.other == other && f.unknown == unknown
  {
    hide TableSum, SinkSum, Clamped;
    ClampedSums(sink, table);
  }
}
