/** The bounded rollout of an operation-sequence model, and the exact recursion it approximates. */
module Rollout {
  import opened Ranking
  import opened Wrappers

  /** A learned next operation, or one of the two terminal tokens. */
  datatype Token<A> = End | Unknown | Act(action: A)

  const MAX_EXPANSIONS: nat := 8192
  const MAX_BEAM: nat := 64
  const MAX_CHOICES: nat := 128

  type Row<S, P, A> = Item<A, (S, P)>
  type Final<A, R> = Item<A, (R, bool)>

  /** What following one token from one row yields. */
  datatype Event<S, P, A, R> =
    | Lost(mass: real, actions: seq<A>, token: Option<Token<A>>)
    | Finish(last: Final<A, R>)
    | Grow(row: Row<S, P, A>)
  {
    function Mass(): real {
      match this
      case Lost(m, _, _) => m
      case Finish(i) => i.mass
      case Grow(i) => i.mass
    }
  }

  /** Where the events of a layer are collected. */
  datatype Buffer<S, P, A, R> = Buffer(grown: seq<Row<S, P, A>>, finished: seq<Final<A, R>>, unknown: real,
      other: real, used: nat)

  function Record<S, P, A, R>(b: Buffer<S, P, A, R>, e: Event<S, P, A, R>): Buffer<S, P, A, R> {
    match e
    case Lost(m, _, _) => b.(unknown := b.unknown + m)
    case Finish(i) => b.(finished := b.finished + [i])
    case Grow(i) => b.(grown := b.grown + [i])
  }

  /** Recording under the expansion cap: past it the mass is only counted. */
  function Push<S, P, A, R>(b: Buffer<S, P, A, R>, e: Event<S, P, A, R>): Buffer<S, P, A, R> {
    if b.used >= MAX_EXPANSIONS then b.(other := b.other + e.Mass())
    else Record(b.(used := b.used + 1), e)
  }

  function PushAll<S, P, A, R>(b: Buffer<S, P, A, R>, es: seq<Event<S, P, A, R>>): Buffer<S, P, A, R> {
    if es == [] then b else Push(PushAll(b, es[..|es| - 1]), es[|es| - 1])
  }

  function RecordAll<S, P, A, R>(b: Buffer<S, P, A, R>, es: seq<Event<S, P, A, R>>): Buffer<S, P, A, R> {
    if es == [] then b else Record(RecordAll(b, es[..|es| - 1]), es[|es| - 1])
  }

  datatype Tally<S, P, A, R> = Tally(active: seq<Row<S, P, A>>, finished: seq<Final<A, R>>, unknown: real,
      other: real, used: nat)

  function Open<S, P, A, R>(t: Tally<S, P, A, R>): Buffer<S, P, A, R> {
    Buffer([], t.finished, t.unknown, t.other, t.used)
  }

  function Start<S, P, A, R>(s: S, p: P): Tally<S, P, A, R> {
    Tally([Item(1.0, [], (s, p))], [], 0.0, 0.0, 0)
  }

  /** What an unresolved future is really worth, for every history and token that leads to it. */
  type Oracle<!A> = (seq<A>, Option<Token<A>>) -> real

  ghost predicate Bounded<A(!new)>(u: Oracle<A>) {
    forall h, t :: 0.0 <= u(h, t) <= 1.0
  }

  /** Everything the rollout consults: the learned transitions and the operations on visible
      states that it treats as given. `advance` applies an action to a state and extends the
      predicted paths, `routes` reads the maximal paths; both may refuse. `le` is the order
      of actions. */
  datatype World<!S, !P, !A(==), !R, !K(==)> = World(
    context: S -> K,
    transitions: map<K, seq<(Token<A>, real)>>,
    advance: (S, P, A) -> Option<(S, P)>,
    routes: P -> Option<R>,
    sink: R -> bool,
    le: (A, A) -> bool)
  {
    /** An unseen context predicts only the unknown token. */
    function Choices(s: S): seq<(Token<A>, real)> {
      var key := context(s);
      if key in transitions then transitions[key] else [(Unknown, 1.0)]
    }

    /** Reading the routes of a row, because its sequence ended or the horizon was reached. */
    function Arrive(mass: real, paths: P, actions: seq<A>, token: Option<Token<A>>): Event<S, P, A, R> {
      match routes(paths)
      case None => Lost(mass, actions, token)
      case Some(r) => Finish(Item(mass, actions, (r, token.Some?)))
    }

    function EventOf(row: Row<S, P, A>, choice: (Token<A>, real)): Event<S, P, A, R> {
      var joint := row.mass * choice.1;
      match choice.0
      case Unknown => Lost(joint, row.actions, Some(Unknown))
      case End => Arrive(joint, row.value.1, row.actions, Some(End))
      case Act(a) =>
        match advance(row.value.0, row.value.1, a)
        case None => Lost(joint, row.actions, Some(Act(a)))
        case Some((s, p)) => Grow(Item(joint, row.actions + [a], (s, p)))
    }

    function RowEvents(row: Row<S, P, A>, choices: seq<(Token<A>, real)>): seq<Event<S, P, A, R>> {
      if choices == [] then []
      else
        var n := |choices| - 1;
        RowEvents(row, choices[..n]) + (if row.mass * choices[n].1 == 0.0 then [] else [EventOf(row, choices[n])])
    }

    /** Every event of a layer, in the order the loops meet them. */
    function LayerEvents(active: seq<Row<S, P, A>>): seq<Event<S, P, A, R>> {
      if active == [] then []
      else
        var n := |active| - 1;
        LayerEvents(active[..n]) + RowEvents(active[n], Choices(active[n].value.0))
    }

    /** At the horizon each row is read off as it stands. */
    function HorizonEvents(active: seq<Row<S, P, A>>): seq<Event<S, P, A, R>> {
      if active == [] then []
      else
        var n := |active| - 1;
        HorizonEvents(active[..n]) + [Arrive(active[n].mass, active[n].value.1, active[n].actions, None)]
    }

    /** Keep the best k of everything a layer produced; the rest of its mass is `other`. */
    function Prune(k: nat, b: Buffer<S, P, A, R>): Tally<S, P, A, R> {
      Tally(Best(le, k, b.grown), Best(le, k, b.finished), b.unknown,
            b.other + MassOf(Dropped(le, k, b.grown)) + MassOf(Dropped(le, k, b.finished)), b.used)
    }

    function Round(k: nat, t: Tally<S, P, A, R>): Tally<S, P, A, R> {
      Prune(k, PushAll(Open(t), LayerEvents(t.active)))
    }

    function Close(k: nat, t: Tally<S, P, A, R>): Tally<S, P, A, R> {
      Prune(k, RecordAll(Open(t), HorizonEvents(t.active)))
    }

    function Rounds(k: nat, n: nat, t: Tally<S, P, A, R>): Tally<S, P, A, R> {
      if n == 0 then t else Round(k, Rounds(k, n - 1, t))
    }

    function Run(k: nat, horizon: nat, s: S, p: P): Tally<S, P, A, R> {
      Close(k, Rounds(k, horizon, Start(s, p)))
    }

    function Reading(u: Oracle<A>, paths: P, actions: seq<A>, token: Option<Token<A>>): real {
      match routes(paths)
      case None => u(actions, token)
      case Some(r) => if sink(r) then 1.0 else 0.0
    }

    /** The probability of a sink arrival within n more operations: no beam, no cap. */
    function Exact(u: Oracle<A>, n: nat, s: S, p: P, actions: seq<A>): real
      decreases n, 0, 0
    {
      if n == 0 then Reading(u, p, actions, None)
      else ExactOver(u, n, s, p, actions, Choices(s))
    }

    function ExactOver(u: Oracle<A>, n: nat, s: S, p: P, actions: seq<A>, choices: seq<(Token<A>, real)>): real
      requires n > 0
      decreases n - 1, 2, |choices|
    {
      if choices == [] then 0.0
      else
        var last := |choices| - 1;
        ExactOver(u, n, s, p, actions, choices[..last]) + choices[last].1 * Branch(u, n, s, p, actions, choices[last].0)
    }

    function Branch(u: Oracle<A>, n: nat, s: S, p: P, actions: seq<A>, token: Token<A>): real
      requires n > 0
      decreases n - 1, 1, 0
    {
      match token
      case Unknown => u(actions, Some(Unknown))
      case End => Reading(u, p, actions, Some(End))
      case Act(a) =>
        match advance(s, p, a)
        case None => u(actions, Some(Act(a)))
        case Some((s', p')) => Exact(u, n - 1, s', p', actions + [a])
    }

    /** Whether reading the routes of some paths is refused, as a probability. */
    function Refused(paths: P): real {
      if routes(paths).None? then 1.0 else 0.0
    }

    /** The probability that the next n operations end unresolved: in an unknown token, an action that
        cannot be applied, or paths whose routes are refused. No beam, no cap. */
    function Unresolved(n: nat, s: S, p: P): real
      decreases n, 0, 0
    {
      if n == 0 then Refused(p) else UnresolvedOver(n, s, p, Choices(s))
    }

    function UnresolvedOver(n: nat, s: S, p: P, choices: seq<(Token<A>, real)>): real
      requires n > 0
      decreases n - 1, 2, |choices|
    {
      if choices == [] then 0.0
      else
        var last := |choices| - 1;
        UnresolvedOver(n, s, p, choices[..last]) + choices[last].1 * UnresolvedAfter(n, s, p, choices[last].0)
    }

    function UnresolvedAfter(n: nat, s: S, p: P, token: Token<A>): real
      requires n > 0
      decreases n - 1, 1, 0
    {
      match token
      case Unknown => 1.0
      case End => Refused(p)
      case Act(a) =>
        match advance(s, p, a)
        case None => 1.0
        case Some((s', p')) => Unresolved(n - 1, s', p')
    }
  }
}
