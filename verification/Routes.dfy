/** Predicted paths: how an operation extends them, and which of them a forecast reports. */
module Routes {
  import opened Rollout
  import opened Bracketing
  import opened Generate
  import opened Guarantees
  import opened Wrappers

  datatype Kind = Source | File | Bytes | Message | Sink
  datatype Relation = Copy | Base64 | Save | Send | ClosedCompute | JsonProjection
  datatype Edge = Edge(offset: nat, relation: Relation, kind: Kind)
  datatype Route<O> = Route(source: O, anchor: O, steps: seq<Edge>)
  datatype Link<O> = Link(left: O, right: O, relation: Relation)

  type Paths<O(==)> = map<O, set<Route<O>>>

  const MAX_PATHS: nat := 1024
  const MAX_ROUTES: nat := 16
  const MAX_STEPS: nat := 8

  /** The record's own checks: one to eight steps at growing offsets, a send exactly into a sink,
      and nothing after a sink. */
  predicate ValidRoute<O>(r: Route<O>) {
    && 1 <= |r.steps| <= MAX_STEPS
    && (forall i :: 0 <= i < |r.steps| ==>
          && (if i == 0 then 0 else r.steps[i - 1].offset) < r.steps[i].offset <= MAX_STEPS
          && r.steps[i].kind != Source
          && (r.steps[i].relation == Send <==> r.steps[i].kind == Sink)
          && (r.steps[i].kind == Sink ==> i == |r.steps| - 1))
  }

  predicate Continues<O(==)>(r: Route<O>, longer: Route<O>) {
    && r.source == longer.source && r.anchor == longer.anchor
    && |r.steps| < |longer.steps| && longer.steps[..|r.steps|] == r.steps
  }

  function Found<O(==)>(paths: Paths<O>): set<Route<O>> {
    set o, r | o in paths && r in paths[o] && r.steps != [] :: r
  }

  function Maximal<O(==)>(found: set<Route<O>>): set<Route<O>> {
    set r | r in found && !exists other :: other in found && Continues(r, other)
  }

  /** The reported routes: the maximal ones, refused when one is malformed or there are too many. */
  function Reported<O(==)>(paths: Paths<O>): Option<set<Route<O>>> {
    var found := Found(paths);
    if exists r :: r in found && !ValidRoute(r) then None
    else if |Maximal(found)| > MAX_ROUTES then None
    else Some(Maximal(found))
  }

  predicate EndsInSink<O>(r: Route<O>) {
    r.steps != [] && r.steps[|r.steps| - 1].kind == Sink
  }

  predicate Arrives<O(==)>(routes: set<Route<O>>) {
    exists r :: r in routes && EndsInSink(r)
  }

  /** Following continuations ends: each is longer and none exceeds eight steps. */
  lemma {:induction false} MaximalAbove<O>(found: set<Route<O>>, r: Route<O>) returns (top: Route<O>)
    requires forall x :: x in found ==> ValidRoute(x)
    requires r in found
    ensures top in Maximal(found) && (top == r || Continues(r, top))
    decreases MAX_STEPS - |r.steps|
  {
    if next :| next in found && Continues(r, next) {
      top := MaximalAbove(found, next);
      assert top != next ==> top.steps[..|r.steps|] == next.steps[..|r.steps|];
    } else {
      top := r;
    }
  }

  /** A valid route does not go on after a sink. */
  lemma SinkIsLast<O>(r: Route<O>, longer: Route<O>)
    requires ValidRoute(longer) && EndsInSink(r) && |r.steps| < |longer.steps|
    ensures longer.steps[..|r.steps|] != r.steps
  {
    assert longer.steps[..|r.steps|][|r.steps| - 1] == longer.steps[|r.steps| - 1];
  }

  /** Reporting only maximal routes loses no step and invents none: the reported routes are found
      paths, none continues another, every found path is one of them or the beginning of one, and
      they end in a sink exactly when some found path does. */
  lemma ReportedIsFaithful<O>(paths: Paths<O>)
    requires Reported(paths).Some?
    ensures var kept := Reported(paths).value; var found := Found(paths);
      && kept <= found && |kept| <= 16
      && (forall r :: r in found <==> r.steps != [] && exists o :: o in paths && r in paths[o])
      && (forall x, y :: x in kept && y in kept ==> !Continues(x, y))
      && (forall r :: r in found ==> exists top :: top in kept && (top == r || Continues(r, top)))
      && (Arrives(kept) <==> Arrives(found))
  {
    var kept, found := Reported(paths).value, Found(paths);
    forall r | r in found ensures exists top :: top in kept && (top == r || Continues(r, top)) {
      var top := MaximalAbove(found, r);
    }
    if r :| r in found && EndsInSink(r) {
      var top :| top in kept && (top == r || Continues(r, top));
      if |r.steps| < |top.steps| {
        SinkIsLast(r, top);
      }
      assert EndsInSink(top);
    }
  }

  // --------------------------------------------------------------------- extension

  function Get<O(==)>(paths: Paths<O>, o: O): set<Route<O>> {
    if o in paths then paths[o] else {}
  }

  function Longer<O>(r: Route<O>, e: Edge): Route<O> {
    r.(steps := r.steps + [e])
  }

  /** What one link adds: every path of its left end, one step longer. */
  function Through<O(==)>(paths: Paths<O>, l: Link<O>, kinds: map<O, Kind>, offset: nat): set<Route<O>>
    requires l.right in kinds
  {
    set r | r in Get(paths, l.left) :: Longer(r, Edge(offset, l.relation, kinds[l.right]))
  }

  /** What the links add at o: all that leads to it. */
  function Added<O(==)>(paths: Paths<O>, links: seq<Link<O>>, kinds: map<O, Kind>, offset: nat, o: O): set<Route<O>>
    requires forall l :: l in links ==> l.right in kinds
  {
    set l, r | l in links && l.right == o && r in Through(paths, l, kinds, offset) :: r
  }

  function Extended<O(==)>(paths: Paths<O>, links: seq<Link<O>>, kinds: map<O, Kind>, offset: nat): Paths<O>
    requires forall l :: l in links ==> l.right in kinds
  {
    map o | o in paths.Keys + (set l | l in links :: l.right) :: Get(paths, o) + Added(paths, links, kinds, offset, o)
  }

  /** All paths of all objects, counted per object. */
  function Entries<O(==)>(paths: Paths<O>): set<(O, Route<O>)> {
    set o, r | o in paths && r in paths[o] :: (o, r)
  }

  function ExtendedWithin<O(==)>(paths: Paths<O>, links: seq<Link<O>>, kinds: map<O, Kind>,
      offset: nat): Option<Paths<O>>
    requires forall l :: l in links ==> l.right in kinds
  {
    var e := Extended(paths, links, kinds, offset);
    if |Entries(e)| > MAX_PATHS then None else Some(e)
  }

  lemma ExtendedOne<O>(paths: Paths<O>, links: seq<Link<O>>, l: Link<O>, kinds: map<O, Kind>, offset: nat)
    requires l.right in kinds && forall x :: x in links ==> x.right in kinds
    ensures var e := Extended(paths, links, kinds, offset);
      Extended(paths, links + [l], kinds, offset) == e[l.right := Get(e, l.right) + Through(paths, l, kinds, offset)]
  {
    hide Added, Through;
    var all := links + [l];
    var e := Extended(paths, links, kinds, offset);
    assert (set x | x in all :: x.right) == (set x | x in links :: x.right) + {l.right};
    var r := e[l.right := Get(e, l.right) + Through(paths, l, kinds, offset)];
    forall o | o in r ensures Extended(paths, all, kinds, offset)[o] == r[o] {
      AddedOne(paths, links, l, kinds, offset, o);
      if o !in e {
        AddedNothing(paths, links, kinds, offset, o);
      }
    }
  }

  lemma AddedNothing<O>(paths: Paths<O>, links: seq<Link<O>>, kinds: map<O, Kind>, offset: nat, o: O)
    requires forall x :: x in links ==> x.right in kinds
    requires o !in (set x | x in links :: x.right)
    ensures Added(paths, links, kinds, offset, o) == {}
  {
    assert forall x :: x in links ==> x.right in (set y | y in links :: y.right);
  }

  lemma AddedOne<O>(paths: Paths<O>, links: seq<Link<O>>, l: Link<O>, kinds: map<O, Kind>, offset: nat, o: O)
    requires l.right in kinds && forall x :: x in links ==> x.right in kinds
    ensures Added(paths, links + [l], kinds, offset, o)
         == Added(paths, links, kinds, offset, o) + (if o == l.right then Through(paths, l, kinds, offset) else {})
  {
    hide Through;
    var all := links + [l];
    var rhs := Added(paths, links, kinds, offset, o) + (if o == l.right then Through(paths, l, kinds, offset) else {});
    forall p | p in rhs ensures p in Added(paths, all, kinds, offset, o) {
      if p in Added(paths, links, kinds, offset, o) {
        var x :| x in links && x.right == o && p in Through(paths, x, kinds, offset);
        assert x in all;
      } else {
        assert l in all;
      }
    }
  }

  lemma ExtendedByNone<O>(paths: Paths<O>, none: seq<Link<O>>, kinds: map<O, Kind>, offset: nat)
    requires none == []
    ensures Extended(paths, none, kinds, offset) == paths
  {
    assert (set l | l in none :: l.right) == {};
    forall o | o in paths ensures Extended(paths, none, kinds, offset)[o] == paths[o] {
      assert forall l :: l in none ==> l.right != o;
    }
  }

  /** The loop writes to a copy and always reads the paths as they were before the operation, so
      the order of links does not matter and no link feeds another. */
  method Extend<O(==)>(paths: Paths<O>, links: seq<Link<O>>, kinds: map<O, Kind>, offset: nat)
    returns (r: Option<Paths<O>>)
    requires forall l :: l in links ==> l.right in kinds
    ensures r == ExtendedWithin(paths, links, kinds, offset)
  {
    var copied := paths;
    ExtendedByNone(paths, links[..0], kinds, offset);
    for i := 0 to |links|
      invariant copied == Extended(paths, links[..i], kinds, offset)
    {
      var l := links[i];
      assert links[..i + 1] == links[..i] + [l];
      ExtendedOne(paths, links[..i], l, kinds, offset);
      copied := copied[l.right := Get(copied, l.right) + Through(paths, l, kinds, offset)];
    }
    assert links[..|links|] == links;
    r := if |Entries(copied)| > MAX_PATHS then None else Some(copied);
  }

  /** After an operation the paths of an object are those it had, and for every link to it each path its left
      end had before, one step longer: the step names the operation's offset, the link's relation and the
      kind of the object reached. */
  lemma ExtendedAre<O(!new)>(paths: Paths<O>, links: seq<Link<O>>, kinds: map<O, Kind>, offset: nat, o: O, r: Route<O>)
    requires forall l :: l in links ==> l.right in kinds
    ensures var e := Extended(paths, links, kinds, offset);
      o in e && r in e[o] <==>
        || (o in paths && r in paths[o])
        || (exists l | l in links && l.right == o && l.left in paths ::
              exists q | q in paths[l.left] ::
                r == Route(q.source, q.anchor, q.steps + [Edge(offset, l.relation, kinds[o])]))
  {
    var e := Extended(paths, links, kinds, offset);
    forall l, q | l in links && l.right == o && l.left in paths && q in paths[l.left]
      ensures r == Route(q.source, q.anchor, q.steps + [Edge(offset, l.relation, kinds[o])])
        ==> r in Through(paths, l, kinds, offset) {
    }
    if o in e && r in e[o] && !(o in paths && r in paths[o]) {
      var l :| l in links && l.right == o && r in Through(paths, l, kinds, offset);
      var q :| q in Get(paths, l.left) && r == Longer(q, Edge(offset, l.relation, kinds[l.right]));
    }
  }

  // ------------------------------------------------------------ the rollout's world

  /** A world whose rows carry paths, reported as their maximal routes, arrived when one ends in a sink. */
  ghost predicate ReadsPaths<S, A, K, O(!new)>(w: World<S, Paths<O>, A, set<Route<O>>, K>) {
    && (forall paths :: w.routes(paths) == Reported(paths))
    && (forall routes :: w.sink(routes) == Arrives(routes))
  }

  /** The rollout over object paths: `step` advances a visible state by an action and names the
      links it makes, `kinds` and `at` read a state's objects and its last sequence number. */
  ghost function PathWorld<S(!new), A(!new), K, O(!new)>(context: S -> K, transitions: map<K, seq<(Token<A>, real)>>,
      step: (S, A) -> Option<(S, seq<Link<O>>)>, kinds: S -> map<O, Kind>, at: S -> nat, cutoff: nat,
      le: (A, A) -> bool): (w: World<S, Paths<O>, A, set<Route<O>>, K>)
    requires forall s, a :: step(s, a).Some? ==>
      && (forall l :: l in step(s, a).value.1 ==> l.right in kinds(step(s, a).value.0))
      && at(step(s, a).value.0) >= cutoff
    ensures ReadsPaths(w)
  {
    World(context, transitions,
      (s: S, paths: Paths<O>, a: A) =>
        match step(s, a)
        case None => None
        case Some((s', links)) =>
          match ExtendedWithin(paths, links, kinds(s'), at(s') - cutoff)
          case None => None
          case Some(longer) => Some((s', longer)),
      (paths: Paths<O>) => Reported(paths),
      (routes: set<Route<O>>) => Arrives(routes),
      le)
  }

  /** The same world with every found path reported instead of the maximal ones. */
  ghost function FoundWorld<S, A, K, O>(w: World<S, Paths<O>, A, set<Route<O>>, K>):
      World<S, Paths<O>, A, set<Route<O>>, K> {
    w.(routes := (paths: Paths<O>) => if w.routes(paths).Some? then Some(Found(paths)) else None)
  }

  /** Reporting only the maximal paths does not change what a row's paths are worth. */
  ghost predicate ReadsAlike<S, A(!new), K, O(!new)>(w: World<S, Paths<O>, A, set<Route<O>>, K>, u: Oracle<A>) {
    forall paths, actions, token ::
      w.Reading(u, paths, actions, token) == FoundWorld(w).Reading(u, paths, actions, token)
  }

  lemma {:induction false} SameExact<S, A(!new), K, O(!new)>(w: World<S, Paths<O>, A, set<Route<O>>, K>, u: Oracle<A>,
      n: nat, s: S, p: Paths<O>, actions: seq<A>)
    requires ReadsAlike(w, u)
    ensures w.Exact(u, n, s, p, actions) == FoundWorld(w).Exact(u, n, s, p, actions)
    decreases n, 0, 0
  {
    if n > 0 {
      SameOver(w, u, n, s, p, actions, w.Choices(s));
    }
  }

  lemma {:induction false} SameOver<S, A(!new), K, O(!new)>(w: World<S, Paths<O>, A, set<Route<O>>, K>, u: Oracle<A>,
      n: nat, s: S, p: Paths<O>, actions: seq<A>, choices: seq<(Token<A>, real)>)
    requires ReadsAlike(w, u) && n > 0
    ensures w.ExactOver(u, n, s, p, actions, choices) == FoundWorld(w).ExactOver(u, n, s, p, actions, choices)
    decreases n - 1, 2, |choices|
  {
    if choices != [] {
      SameOver(w, u, n, s, p, actions, choices[..|choices| - 1]);
      SameBranch(w, u, n, s, p, actions, choices[|choices| - 1].0);
    }
  }

  lemma {:induction false} SameBranch<S, A(!new), K, O(!new)>(w: World<S, Paths<O>, A, set<Route<O>>, K>, u: Oracle<A>,
      n: nat, s: S, p: Paths<O>, actions: seq<A>, token: Token<A>)
    requires ReadsAlike(w, u) && n > 0
    ensures w.Branch(u, n, s, p, actions, token) == FoundWorld(w).Branch(u, n, s, p, actions, token)
    decreases n - 1, 1, 0
  {
    match token
    case Unknown =>
    case End => assert w.Reading(u, p, actions, Some(End)) == FoundWorld(w).Reading(u, p, actions, Some(End));
    case Act(a) =>
      match w.advance(s, p, a)
      case None =>
      case Some((s', p')) => SameExact(w, u, n - 1, s', p', actions + [a]);
  }

  lemma PathsReadAlike<S, A(!new), K, O(!new)>(w: World<S, Paths<O>, A, set<Route<O>>, K>, u: Oracle<A>)
    requires ReadsPaths(w)
    ensures ReadsAlike(w, u)
  {
    hide Reported, Found, Arrives;
    forall paths, actions, token
      ensures w.Reading(u, paths, actions, token) == FoundWorld(w).Reading(u, paths, actions, token)
    {
      assert w.routes(paths) == Reported(paths);
      if Reported(paths).Some? {
        ReportedIsFaithful(paths);
      }
    }
  }

  /** A reported risk is, to within 1e-12, the exact probability that some path found within the
      horizon reaches a sink, although only the maximal paths are kept and grouped. */
  lemma RiskCountsFoundPaths<S(!new), A(!new), K, O(!new)>(w: World<S, Paths<O>, A, set<Route<O>>, K>, u: Oracle<A>,
      s: S, p: Paths<O>, horizon: nat, k: nat)
    requires ReadsPaths(w) && Accepted(w) && Within(w, 1.0) && Bounded(u)
    requires horizon in HORIZONS && 1 <= k <= MAX_BEAM
    ensures var r := Predict(w, s, p, horizon, k);
      r.Ok? ==>
        var f := r.value.forecast; var exact := FoundWorld(w).Exact(u, horizon, s, p, []);
        && SinkSum(w.sink, f.outcomes) <= exact <= SinkSum(w.sink, f.outcomes) + f.unknown + f.other
        && (f.risk.Some? ==> f.risk.value <= exact < f.risk.value + 0.000000000001)
  {
    hide Predict, SinkSum, World.Exact, Accepted, Within, Bounded, ReadsPaths, ReadsAlike;
    PathsReadAlike(w, u);
    SameExact(w, u, horizon, s, p, []);
    RiskIsExact(w, u, s, p, horizon, k);
  }
}
