/** The bounded walk from one provenance revision to its ancestors. */
module Traversal {
  type Rev = nat
  datatype Edge = Edge(source: Rev, target: Rev)

  const MAX_EDGES: nat := 400
  const MAX_ROWS: nat := 401

  /** The tables as one workspace sees them: the revisions whose event is there too, and for each
      revision its linked parents that belong to the workspace. */
  datatype Tables = Tables(rows: set<Rev>, parents: Rev -> seq<Rev>)

  datatype Snapshot = Snapshot(nodes: seq<Rev>, edges: seq<Edge>, truncated: bool)

  /** A walk under way. */
  datatype State = State(pending: seq<Rev>, seen: set<Rev>, nodes: seq<Rev>, edges: seq<Edge>, truncated: bool)

  function Ids(nodes: seq<Rev>): set<Rev> { set n | n in nodes }

  function LinksOf(t: Tables, r: Rev): seq<Edge> {
    seq(|t.parents(r)|, i requires 0 <= i < |t.parents(r)| => Edge(t.parents(r)[i], r))
  }

  /** Every link of every node, in the order of the nodes. */
  function AllLinks(t: Tables, nodes: seq<Rev>): seq<Edge> {
    if nodes == [] then [] else AllLinks(t, nodes[..|nodes| - 1]) + LinksOf(t, nodes[|nodes| - 1])
  }

  function Kept(edges: seq<Edge>, ids: set<Rev>): seq<Edge> {
    if edges == [] then []
    else
      var e := edges[|edges| - 1];
      Kept(edges[..|edges| - 1], ids) + if e.source in ids && e.target in ids then [e] else []
  }

  /** A path from start towards ancestors through revisions that have a row. */
  ghost predicate Path(t: Tables, start: Rev, p: seq<Rev>) {
    && p != [] && p[0] == start
    && forall k | 0 <= k < |p| - 1 :: p[k] in t.rows && p[k + 1] in t.parents(p[k])
  }

  ghost predicate Reachable(t: Tables, start: Rev, r: Rev) {
    exists p: seq<Rev> :: Path(t, start, p) && p[|p| - 1] == r
  }

  lemma ReachesStart(t: Tables, start: Rev)
    ensures Reachable(t, start, start)
  {
    assert Path(t, start, [start]);
  }

  lemma ReachesParent(t: Tables, start: Rev, r: Rev, parent: Rev)
    requires Reachable(t, start, r) && r in t.rows && parent in t.parents(r)
    ensures Reachable(t, start, parent)
  {
    var p: seq<Rev> :| Path(t, start, p) && p[|p| - 1] == r;
    var q := p + [parent];
    forall k | 0 <= k < |q| - 1 ensures q[k] in t.rows && q[k + 1] in t.parents(q[k]) {
      assert q[k] == p[k];
    }
    assert Path(t, start, q);
  }

  /** A set that holds start and the parents of its members holds everything reachable. */
  lemma {:induction false} ClosedHoldsPath(t: Tables, start: Rev, p: seq<Rev>, closed: set<Rev>)
    requires Path(t, start, p) && start in closed
    requires forall r, parent | r in closed && parent in t.parents(r) :: parent in closed
    ensures p[|p| - 1] in closed
    decreases |p|
  {
    if |p| > 1 {
      ClosedHoldsPath(t, start, p[..|p| - 1], closed);
      assert p[|p| - 1] in t.parents(p[|p| - 2]);
    }
  }

  lemma ClosedHoldsAll(t: Tables, start: Rev, closed: set<Rev>)
    requires start in closed
    requires forall r, parent | r in closed && parent in t.parents(r) :: parent in closed
    ensures forall r: Rev :: Reachable(t, start, r) ==> r in closed
  {
    forall r: Rev | Reachable(t, start, r) ensures r in closed {
      var p: seq<Rev> :| Path(t, start, p) && p[|p| - 1] == r;
      ClosedHoldsPath(t, start, p, closed);
    }
  }

  lemma {:induction false} KeptIsWithin(edges: seq<Edge>, ids: set<Rev>)
    ensures forall e :: e in Kept(edges, ids) ==> e in edges && e.source in ids && e.target in ids
    ensures |Kept(edges, ids)| <= |edges|
    decreases |edges|
  {
    if edges != [] {
      KeptIsWithin(edges[..|edges| - 1], ids);
    }
  }

  lemma {:induction false} KeepsAll(edges: seq<Edge>, ids: set<Rev>)
    requires forall i | 0 <= i < |edges| :: edges[i].source in ids && edges[i].target in ids
    ensures Kept(edges, ids) == edges
    decreases |edges|
  {
    if edges != [] {
      KeepsAll(edges[..|edges| - 1], ids);
    }
  }

  lemma {:induction false} AllLinksAre(t: Tables, nodes: seq<Rev>)
    ensures forall e :: e in AllLinks(t, nodes) <==> e.target in nodes && e.source in t.parents(e.target)
    decreases |nodes|
  {
    if nodes != [] {
      var last := |nodes| - 1;
      AllLinksAre(t, nodes[..last]);
      assert nodes == nodes[..last] + [nodes[last]];
      forall e ensures e in LinksOf(t, nodes[last]) <==> e.target == nodes[last] && e.source in t.parents(nodes[last]) {
        if e.target == nodes[last] && e.source in t.parents(nodes[last]) {
          var i :| 0 <= i < |t.parents(nodes[last])| && t.parents(nodes[last])[i] == e.source;
          assert LinksOf(t, nodes[last])[i] == e;
        }
      }
    }
  }

  predicate Distinct(xs: seq<Rev>) {
    forall i, j | 0 <= i < j < |xs| :: xs[i] != xs[j]
  }

  /** A list of distinct members of another list has no more of them, nor more links. */
  lemma {:induction false} FewerLinks(t: Tables, some: seq<Rev>, all: seq<Rev>)
    requires Distinct(some) && forall r | r in some :: r in all
    ensures |some| <= |all| && |AllLinks(t, some)| <= |AllLinks(t, all)|
    decreases |some|
  {
    if some != [] {
      var last := |some| - 1;
      assert some[last] in some;
      var at :| 0 <= at < |all| && all[at] == some[last];
      var others := all[..at] + all[at + 1..];
      forall r | r in some[..last] ensures r in others {
        assert r in some;
        var i :| 0 <= i < |all| && all[i] == r;
        var k :| 0 <= k < last && some[k] == r;
        assert i != at;
        assert others[if i < at then i else i - 1] == r;
      }
      FewerLinks(t, some[..last], others);
      LinksWithout(t, all, at);
    }
  }

  lemma {:induction false} LinksWithout(t: Tables, all: seq<Rev>, at: nat)
    requires at < |all|
    ensures |AllLinks(t, all)| == |AllLinks(t, all[..at] + all[at + 1..])| + |t.parents(all[at])|
    decreases |all|
  {
    var last := |all| - 1;
    if at == last {
      assert all[..at] + all[at + 1..] == all[..last];
    } else {
      var others := all[..at] + all[at + 1..];
      assert others[..last - 1] == all[..last][..at] + all[..last][at + 1..];
      assert others[last - 1] == all[last];
      LinksWithout(t, all[..last], at);
    }
  }

  lemma {:induction false} LinksAppend(t: Tables, nodes: seq<Rev>, r: Rev)
    ensures AllLinks(t, nodes + [r]) == AllLinks(t, nodes) + LinksOf(t, r)
  {
    assert (nodes + [r])[..|nodes|] == nodes;
  }

  // ------------------------------------------------------------------- the walk

  /** The links of a revision that the edge limit leaves room for. */
  function Taken(t: Tables, revision: Rev, before: seq<Edge>): (r: seq<Rev>)
    ensures r <= t.parents(revision)
    ensures |before| <= MAX_EDGES ==>
      (|r| < |t.parents(revision)| <==> |before| + |t.parents(revision)| > MAX_EDGES)
  {
    var parents := t.parents(revision);
    if |before| >= MAX_EDGES then []
    else if |parents| > MAX_EDGES - |before| then parents[..MAX_EDGES - |before|] else parents
  }

  /** The revisions of a list not seen yet, repetitions included. */
  function Unseen(revisions: seq<Rev>, seen: set<Rev>): seq<Rev> {
    if revisions == [] then []
    else
      var n := |revisions| - 1;
      Unseen(revisions[..n], seen) + if revisions[n] in seen then [] else [revisions[n]]
  }

  /** One turn of the walk: the revision at the front is dropped, found to have no row, or followed. */
  function Visit(t: Tables, s: State): State
    requires s.pending != []
  {
    var r := s.pending[0];
    if r in s.seen then s.(pending := s.pending[1..])
    else
      var seen := s.seen + {r};
      if r !in t.rows then s.(pending := s.pending[1..], seen := seen, truncated := true)
      else
        var taken := Taken(t, r, s.edges);
        State(s.pending[1..] + Unseen(taken, seen), seen, s.nodes + [r], s.edges + LinksOf(t, r)[..|taken|],
              s.truncated || |taken| < |t.parents(r)|)
  }

  function Walk(t: Tables, limit: nat, s: State): State
    decreases limit - |s.seen|, |s.pending|
  {
    if s.pending != [] && |s.seen| < limit then Walk(t, limit, Visit(t, s)) else s
  }

  const IDLE: State := State([], {}, [], [], false)

  function Snap(t: Tables, start: Rev, limit: nat): Snapshot {
    var s := Walk(t, limit, IDLE.(pending := [start]));
    Snapshot(s.nodes, Kept(s.edges, Ids(s.nodes)), s.truncated || s.pending != [])
  }

  /** The loop over the links of one revision: all of them, or as many as the edge limit allows. */
  method Follow(t: Tables, revision: Rev, seen: set<Rev>, before: seq<Edge>, queue: seq<Rev>)
    returns (edges: seq<Edge>, pending: seq<Rev>, cut: bool)
    requires |before| <= MAX_EDGES
    ensures |edges| <= MAX_EDGES && before <= edges && edges <= before + LinksOf(t, revision)
    ensures cut <==> |before| + |t.parents(revision)| > MAX_EDGES
    ensures !cut ==> edges == before + LinksOf(t, revision)
    ensures var taken := Taken(t, revision, before);
      edges == before + LinksOf(t, revision)[..|taken|] && pending == queue + Unseen(taken, seen)
  {
    edges, pending, cut := before, queue, false;
    var parents := t.parents(revision);
    var rows := if |parents| > MAX_ROWS then parents[..MAX_ROWS] else parents;
    assert parents[..0] == [];
    var j := 0;
    while j < |rows|
      invariant j <= |rows|
      invariant edges == before + LinksOf(t, revision)[..j] && |edges| <= MAX_EDGES
      invariant pending == queue + Unseen(parents[..j], seen)
    {
      if |edges| >= MAX_EDGES {
        assert Taken(t, revision, before) == parents[..j];
        cut := true;
        return;
      }
      edges := edges + [Edge(rows[j], revision)];
      assert LinksOf(t, revision)[..j + 1] == LinksOf(t, revision)[..j] + [Edge(rows[j], revision)];
      assert parents[..j + 1][..j] == parents[..j] && parents[..j + 1][j] == rows[j];
      if rows[j] !in seen {
        pending := pending + [rows[j]];
      }
      j := j + 1;
    }
    assert LinksOf(t, revision)[..j] == LinksOf(t, revision);
    assert Taken(t, revision, before) == parents == parents[..j];
  }

  // -------------------------------------------------------- what every walk keeps

  lemma {:induction false} UnseenAre(revisions: seq<Rev>, seen: set<Rev>)
    ensures forall r :: r in Unseen(revisions, seen) <==> r in revisions && r !in seen
  {
    if revisions != [] {
      var n := |revisions| - 1;
      UnseenAre(revisions[..n], seen);
      assert revisions == revisions[..n] + [revisions[n]];
    }
  }

  /** What a complete picture fits into: a list of distinct revisions that holds start and the
      parents of its members, all with a row, within the edge limit. */
  ghost predicate Enclosure(t: Tables, start: Rev, all: seq<Rev>) {
    && Distinct(all) && start in all && |AllLinks(t, all)| <= MAX_EDGES
    && (forall r | r in all :: r in t.rows)
    && (forall r, parent | r in all && parent in t.parents(r) :: parent in all)
  }

  /** The complete picture itself: everything in it is reachable. */
  ghost predicate Closure(t: Tables, start: Rev, all: seq<Rev>) {
    Enclosure(t, start, all) && forall r | r in all :: Reachable(t, start, r)
  }

  /** Why a walk was cut short: something reachable has no row, or its nodes have too many links. */
  ghost predicate Cause(t: Tables, start: Rev, nodes: seq<Rev>) {
    || (exists r: Rev :: Reachable(t, start, r) && r !in t.rows)
    || |AllLinks(t, nodes)| > MAX_EDGES
  }

  lemma EnclosureHoldsAll(t: Tables, start: Rev, all: seq<Rev>)
    requires Enclosure(t, start, all)
    ensures forall r: Rev :: Reachable(t, start, r) ==> r in all && r in t.rows
  {
    hide Reachable, AllLinks;
    ClosedHoldsAll(t, start, Ids(all));
  }

  lemma EnclosureHasNoCause(t: Tables, start: Rev, all: seq<Rev>, nodes: seq<Rev>)
    requires Enclosure(t, start, all) && Distinct(nodes) && forall n | n in nodes :: Reachable(t, start, n)
    ensures !Cause(t, start, nodes)
  {
    hide Reachable, AllLinks;
    EnclosureHoldsAll(t, start, all);
    FewerLinks(t, nodes, all);
  }

  /** What holds before every step of the walk. */
  ghost predicate Walked(t: Tables, start: Rev, s: State) {
    && |s.nodes| <= |s.seen| && Distinct(s.nodes) && |s.edges| <= MAX_EDGES
    && (forall n | n in s.nodes :: n in t.rows && n in s.seen)
    && (forall r | r in s.seen :: Reachable(t, start, r))
    && (forall r | r in s.pending :: Reachable(t, start, r))
    && (forall e | e in s.edges :: e.target in s.nodes && e.source in t.parents(e.target))
    && (s.truncated ==> Cause(t, start, s.nodes))
    && (!s.truncated ==> Faithful(t, start, s))
  }

  /** Nothing has been lost so far: whatever is not drawn yet is still waiting. */
  ghost predicate Faithful(t: Tables, start: Rev, s: State) {
    && s.seen == Ids(s.nodes) && |s.seen| == |s.nodes| && s.edges == AllLinks(t, s.nodes)
    && (start in s.seen || start in s.pending)
    && forall n, parent | n in s.nodes && parent in t.parents(n) :: parent in s.seen || parent in s.pending
  }

  lemma WalkStarts(t: Tables, start: Rev)
    ensures Walked(t, start, IDLE.(pending := [start]))
  {
    hide Reachable;
    ReachesStart(t, start);
  }

  /** A revision already seen is dropped from the queue. */
  lemma SeenAgain(t: Tables, start: Rev, s: State)
    requires Walked(t, start, s) && s.pending != [] && s.pending[0] in s.seen
    ensures Walked(t, start, Visit(t, s))
  {
    hide Reachable, AllLinks, Cause;
    assert s.pending == [s.pending[0]] + s.pending[1..];
  }

  lemma WithoutRow(t: Tables, start: Rev, s: State)
    requires Walked(t, start, s) && s.pending != [] && s.pending[0] !in s.seen && s.pending[0] !in t.rows
    ensures Walked(t, start, Visit(t, s))
  {
    hide Reachable, AllLinks;
    assert s.pending == [s.pending[0]] + s.pending[1..];
    assert Reachable(t, start, s.pending[0]);
  }

  /** What following the links of a new revision adds. */
  lemma Linked(t: Tables, start: Rev, s: State)
    requires Walked(t, start, s) && s.pending != [] && s.pending[0] !in s.seen && s.pending[0] in t.rows
    ensures var r, next := s.pending[0], Visit(t, s);
      && |next.edges| <= MAX_EDGES && next.nodes == s.nodes + [r] && next.seen == s.seen + {r}
      && AllLinks(t, next.nodes) == AllLinks(t, s.nodes) + LinksOf(t, r)
      && (forall x | x in next.pending :: x in s.pending || x in t.parents(r))
      && (forall x | x in s.pending :: x == r || x in next.pending)
      && (forall e | e in next.edges :: e in s.edges || (e.target == r && e.source in t.parents(r)))
      && (next.truncated <==> s.truncated || |s.edges| + |t.parents(r)| > MAX_EDGES)
      && (!next.truncated ==> next.edges == s.edges + LinksOf(t, r))
      && (!next.truncated ==> forall x | x in t.parents(r) :: x in next.seen || x in next.pending)
  {
    hide Reachable, AllLinks, Cause, Faithful;
    var r := s.pending[0];
    var taken := Taken(t, r, s.edges);
    assert s.pending == [r] + s.pending[1..];
    LinksAppend(t, s.nodes, r);
    UnseenAre(taken, s.seen + {r});
    assert |taken| == |t.parents(r)| ==> LinksOf(t, r)[..|taken|] == LinksOf(t, r);
  }

  /** A revision with a row is followed. */
  lemma Expanded(t: Tables, start: Rev, s: State)
    requires Walked(t, start, s) && s.pending != [] && s.pending[0] !in s.seen && s.pending[0] in t.rows
    ensures Walked(t, start, Visit(t, s))
  {
    hide AllLinks, Reachable, Visit, LinksOf, Faithful, Cause;
    var r, next := s.pending[0], Visit(t, s);
    Linked(t, start, s);
    forall x | x in next.pending ensures Reachable(t, start, x) {
      if x !in s.pending {
        ReachesParent(t, start, r, x);
      }
    }
    LinksCount(t, r);
    if next.truncated {
      CauseStays(t, start, s, r);
    } else {
      FaithfulStays(t, start, s);
    }
  }

  lemma CauseStays(t: Tables, start: Rev, s: State, r: Rev)
    requires Walked(t, start, s) && (s.truncated || |s.edges| + |t.parents(r)| > MAX_EDGES)
    ensures Cause(t, start, s.nodes + [r])
  {
    hide AllLinks, Reachable, LinksOf;
    LinksAppend(t, s.nodes, r);
    LinksCount(t, r);
  }

  lemma FaithfulStays(t: Tables, start: Rev, s: State)
    requires Walked(t, start, s) && s.pending != [] && s.pending[0] !in s.seen && s.pending[0] in t.rows
    requires !Visit(t, s).truncated
    ensures Faithful(t, start, Visit(t, s))
  {
    hide AllLinks, Reachable, LinksOf, Visit;
    Linked(t, start, s);
    IdsAppend(s.nodes, s.pending[0]);
  }

  lemma LinksCount(t: Tables, r: Rev)
    ensures |LinksOf(t, r)| == |t.parents(r)|
  {
  }

  lemma VisitKeeps(t: Tables, start: Rev, s: State)
    requires Walked(t, start, s) && s.pending != []
    ensures Walked(t, start, Visit(t, s))
  {
    hide Walked, Visit;
    if s.pending[0] in s.seen {
      SeenAgain(t, start, s);
    } else if s.pending[0] !in t.rows {
      WithoutRow(t, start, s);
    } else {
      Expanded(t, start, s);
    }
  }

  lemma {:induction false} WalkKeeps(t: Tables, start: Rev, limit: nat, s: State)
    requires Walked(t, start, s) && |s.seen| <= limit
    ensures var f := Walk(t, limit, s);
      Walked(t, start, f) && |f.seen| <= limit && (f.pending == [] || |f.seen| == limit)
    decreases limit - |s.seen|, |s.pending|
  {
    hide Walked;
    if s.pending != [] && |s.seen| < limit {
      VisitKeeps(t, start, s);
      WalkKeeps(t, start, limit, Visit(t, s));
    }
  }

  /** What is drawn, whether cut short or not. */
  lemma Drawn(t: Tables, start: Rev, s: State)
    requires Walked(t, start, s)
    ensures Distinct(s.nodes) && |s.nodes| <= |s.seen| && |Kept(s.edges, Ids(s.nodes))| <= MAX_EDGES
    ensures forall n | n in s.nodes :: n in t.rows && Reachable(t, start, n)
    ensures forall e | e in Kept(s.edges, Ids(s.nodes)) ::
      e.source in s.nodes && e.target in s.nodes && e.source in t.parents(e.target)
  {
    hide Reachable, AllLinks, Cause;
    KeptIsWithin(s.edges, Ids(s.nodes));
  }

  /** A walk that ends with nothing waiting and nothing lost has drawn the closure. */
  lemma Complete(t: Tables, start: Rev, s: State)
    requires Walked(t, start, s) && !s.truncated && s.pending == []
    ensures forall r: Rev :: r in s.nodes <==> Reachable(t, start, r)
    ensures Kept(s.edges, Ids(s.nodes)) == s.edges == AllLinks(t, s.nodes)
    ensures Closure(t, start, s.nodes)
  {
    hide Reachable, AllLinks;
    ClosedHoldsAll(t, start, Ids(s.nodes));
    forall i | 0 <= i < |s.edges| ensures s.edges[i].source in Ids(s.nodes) && s.edges[i].target in Ids(s.nodes) {
      assert s.edges[i] in s.edges;
    }
    KeepsAll(s.edges, Ids(s.nodes));
  }

  // ------------------------------------------------- what was waiting at the end

  /** Everything a complete walk queues, in order: start, then for each node its parents not seen by then. */
  function Queued(t: Tables, start: Rev, nodes: seq<Rev>): seq<Rev> {
    if nodes == [] then [start]
    else Queued(t, start, nodes[..|nodes| - 1]) + Unseen(t.parents(nodes[|nodes| - 1]), Ids(nodes))
  }

  /** The part of the queue already taken: it holds what was seen, and the newest node for the first time
      when it came last. */
  ghost predicate Tracks(t: Tables, start: Rev, s: State, done: seq<Rev>) {
    && Ids(done) == s.seen && Queued(t, start, s.nodes) == done + s.pending
  }

  ghost predicate JustDrawn(s: State, done: seq<Rev>) {
    && s.nodes != [] && done != [] && done[|done| - 1] == s.nodes[|s.nodes| - 1]
    && done[|done| - 1] !in done[..|done| - 1]
  }

  lemma IdsAppend(some: seq<Rev>, r: Rev)
    ensures Ids(some + [r]) == Ids(some) + {r}
  {
  }

  /** One turn takes one revision off the queue. */
  lemma VisitTracks(t: Tables, start: Rev, all: seq<Rev>, s: State, done: seq<Rev>)
    requires Enclosure(t, start, all) && Walked(t, start, s) && s.pending != [] && Tracks(t, start, s, done)
    ensures var next := Visit(t, s);
      && Tracks(t, start, next, done + [s.pending[0]])
      && (|next.seen| > |s.seen| ==> JustDrawn(next, done + [s.pending[0]]))
  {
    hide Enclosure, Walked, Queued, Taken, Unseen, LinksOf, JustDrawn;
    var r := s.pending[0];
    IdsAppend(done, r);
    assert s.pending == [r] + s.pending[1..];
    assert done + s.pending == (done + [r]) + s.pending[1..];
    if r in s.seen {
      assert s.seen + {r} == s.seen;
    } else {
      DrawnNext(t, start, all, s);
      DrawnTracks(t, start, s, done);
    }
  }

  /** Within an enclosure a new revision has a row and all its links are recorded. */
  lemma DrawnNext(t: Tables, start: Rev, all: seq<Rev>, s: State)
    requires Enclosure(t, start, all) && Walked(t, start, s) && s.pending != [] && s.pending[0] !in s.seen
    ensures s.seen == Ids(s.nodes) && s.pending[0] in t.rows
    ensures Taken(t, s.pending[0], s.edges) == t.parents(s.pending[0])
  {
    hide Reachable, AllLinks, Enclosure, Cause, Taken;
    var r, next := s.pending[0], Visit(t, s);
    NothingLost(t, start, all, s);
    assert Reachable(t, start, r);
    EnclosureHoldsAll(t, start, all);
    VisitKeeps(t, start, s);
    NothingLost(t, start, all, next);
  }

  lemma DrawnTracks(t: Tables, start: Rev, s: State, done: seq<Rev>)
    requires s.pending != [] && s.pending[0] !in s.seen && s.pending[0] in t.rows && s.seen == Ids(s.nodes)
    requires Tracks(t, start, s, done) && Taken(t, s.pending[0], s.edges) == t.parents(s.pending[0])
    ensures var next := Visit(t, s);
      Tracks(t, start, next, done + [s.pending[0]]) && JustDrawn(next, done + [s.pending[0]])
  {
    hide Queued, Taken, Unseen, LinksOf;
    var r, next := s.pending[0], Visit(t, s);
    IdsAppend(done, r);
    IdsAppend(s.nodes, r);
    QueuedAppend(t, start, s.nodes, r);
    var more := Unseen(t.parents(r), s.seen + {r});
    assert next.nodes == s.nodes + [r] && next.pending == s.pending[1..] + more;
    assert (done + s.pending) + more == (done + [r]) + (s.pending[1..] + more);
    assert r !in done by { assert r !in Ids(done); }
    assert (done + [r])[..|done|] == done;
  }

  lemma QueuedAppend(t: Tables, start: Rev, nodes: seq<Rev>, r: Rev)
    ensures Queued(t, start, nodes + [r]) == Queued(t, start, nodes) + Unseen(t.parents(r), Ids(nodes + [r]))
  {
    assert (nodes + [r])[..|nodes|] == nodes;
  }

  lemma {:induction false} WalkTracks(t: Tables, start: Rev, limit: nat, all: seq<Rev>, s: State, done: seq<Rev>)
    returns (last: seq<Rev>)
    requires Enclosure(t, start, all) && Walked(t, start, s) && Tracks(t, start, s, done) && |s.seen| <= limit
    requires |s.seen| < limit || JustDrawn(s, done)
    ensures var f := Walk(t, limit, s); Tracks(t, start, f, last) && (|f.seen| < limit || JustDrawn(f, last))
    decreases limit - |s.seen|, |s.pending|
  {
    hide Enclosure, Walked, Tracks, JustDrawn;
    last := done;
    if s.pending != [] && |s.seen| < limit {
      VisitTracks(t, start, all, s, done);
      VisitKeeps(t, start, s);
      last := WalkTracks(t, start, limit, all, Visit(t, s), done + [s.pending[0]]);
    }
  }

  // ------------------------------------------------- the condition on the links

  /** The link's source comes later in the list than its target. */
  predicate Later(nodes: seq<Rev>, e: Edge) {
    exists k :: 0 <= k < |nodes| && nodes[k] == e.target && e.source !in nodes[..k + 1]
  }

  /** Among the links of the nodes, in order, one whose source comes later than its target is recorded
      after one that names the last node. */
  ghost predicate Leftover(t: Tables, nodes: seq<Rev>) {
    var links := AllLinks(t, nodes);
    && nodes != []
    && (exists i, j :: 0 <= i < j < |links| && links[i].source == nodes[|nodes| - 1] && Later(nodes, links[j]))
  }

  /** The sources of the links that point to a later node. */
  function LaterSources(links: seq<Edge>, nodes: seq<Rev>): seq<Rev> {
    if links == [] then []
    else
      var n := |links| - 1;
      LaterSources(links[..n], nodes) + if Later(nodes, links[n]) then [links[n].source] else []
  }

  lemma {:induction false} SourcesAppend(some: seq<Edge>, more: seq<Edge>, nodes: seq<Rev>)
    ensures LaterSources(some + more, nodes) == LaterSources(some, nodes) + LaterSources(more, nodes)
    decreases |more|
  {
    if more == [] {
      assert some + more == some;
    } else {
      var n := |more| - 1;
      assert (some + more)[..|some + more| - 1] == some + more[..n];
      SourcesAppend(some, more[..n], nodes);
    }
  }

  lemma {:induction false} SourcesAlike(links: seq<Edge>, some: seq<Rev>, nodes: seq<Rev>)
    requires forall e :: e in links ==> (Later(some, e) <==> Later(nodes, e))
    ensures LaterSources(links, some) == LaterSources(links, nodes)
    decreases |links|
  {
    if links != [] {
      assert links[|links| - 1] in links;
      SourcesAlike(links[..|links| - 1], some, nodes);
    }
  }

  lemma {:induction false} SourcesUnseen(t: Tables, nodes: seq<Rev>, r: Rev, n: nat)
    requires Distinct(nodes) && nodes != [] && nodes[|nodes| - 1] == r && n <= |t.parents(r)|
    ensures LaterSources(LinksOf(t, r)[..n], nodes) == Unseen(t.parents(r)[..n], Ids(nodes))
    decreases n
  {
    if n > 0 {
      SourcesUnseen(t, nodes, r, n - 1);
      var links, parents := LinksOf(t, r), t.parents(r);
      assert links[..n][..n - 1] == links[..n - 1] && parents[..n][..n - 1] == parents[..n - 1];
      assert nodes[..|nodes| - 1 + 1] == nodes;
      assert Later(nodes, links[n - 1]) <==> parents[n - 1] !in Ids(nodes);
    }
  }

  lemma LaterStays(nodes: seq<Rev>, r: Rev, e: Edge)
    requires Distinct(nodes + [r]) && e.target in nodes
    ensures Later(nodes, e) <==> Later(nodes + [r], e)
  {
    var all := nodes + [r];
    forall k | 0 <= k < |nodes| ensures all[k] == nodes[k] && all[..k + 1] == nodes[..k + 1] {
    }
    var k :| 0 <= k < |nodes| && nodes[k] == e.target;
    assert all[k] == e.target;
    assert forall m :: 0 <= m < |all| && all[m] == e.target ==> m == k;
  }

  /** The queue of a complete walk is start and the sources of the links to later nodes. */
  lemma {:induction false} QueuedAre(t: Tables, start: Rev, nodes: seq<Rev>)
    requires Distinct(nodes)
    ensures Queued(t, start, nodes) == [start] + LaterSources(AllLinks(t, nodes), nodes)
    decreases |nodes|
  {
    hide Later, Unseen, LinksOf, Distinct;
    if nodes != [] {
      var init, r := nodes[..|nodes| - 1], nodes[|nodes| - 1];
      assert nodes == init + [r];
      DistinctInit(nodes);
      QueuedAre(t, start, init);
      AllLinksAre(t, init);
      forall e | e in AllLinks(t, init) ensures Later(init, e) <==> Later(nodes, e) {
        LaterStays(init, r, e);
      }
      SourcesAlike(AllLinks(t, init), init, nodes);
      SourcesAppend(AllLinks(t, init), LinksOf(t, r), nodes);
      SourcesUnseen(t, nodes, r, |t.parents(r)|);
      LinksCount(t, r);
      assert LinksOf(t, r)[..|t.parents(r)|] == LinksOf(t, r) && t.parents(r)[..|t.parents(r)|] == t.parents(r);
    }
  }

  lemma DistinctInit(nodes: seq<Rev>)
    requires Distinct(nodes) && nodes != []
    ensures Distinct(nodes[..|nodes| - 1])
  {
  }

  /** Two ways of splitting one list, the first at its end. */
  lemma SplitTwice(init: seq<Rev>, own: seq<Rev>, before: seq<Rev>, x: Rev, after: seq<Rev>)
    requires init + own == before + [x] + after && |own| <= 1
    ensures own != [] && after == [] ==> init == before && own == [x]
    ensures own == [] || after != [] ==>
      && |own| <= |after| && init == before + [x] + after[..|after| - |own|]
      && after[..|after| - |own|] + own == after
  {
    var whole := init + own;
    assert whole[..|init|] == init && whole[|init|..] == own;
    if own == [] || after != [] {
      var rest := after[..|after| - |own|];
      assert (before + [x] + after)[..|init|] == before + [x] + rest;
      assert (before + [x] + after)[|init|..] == after[|after| - |own|..];
    } else {
      assert (before + [x] + after)[..|init|] == before && (before + [x] + after)[|init|..] == [x];
    }
  }

  /** Where in the links the entry that splits the queue was recorded. */
  lemma {:induction false} Recorded(links: seq<Edge>, nodes: seq<Rev>, before: seq<Rev>, x: Rev, after: seq<Rev>)
    returns (i: nat)
    requires LaterSources(links, nodes) == before + [x] + after
    ensures i < |links| && Later(nodes, links[i]) && links[i].source == x
    ensures LaterSources(links[..i], nodes) == before && LaterSources(links[i + 1..], nodes) == after
    decreases |links|
  {
    hide Later, LaterSources;
    NoSources(nodes);
    var n := |links| - 1;
    assert links == links[..n] + [links[n]];
    SourcesAppend(links[..n], [links[n]], nodes);
    OneSource(links[n], nodes);
    var own := LaterSources([links[n]], nodes);
    SplitTwice(LaterSources(links[..n], nodes), own, before, x, after);
    if own != [] && after == [] {
      i := n;
      assert links[n + 1..] == [];
    } else {
      i := Recorded(links[..n], nodes, before, x, after[..|after| - |own|]);
      assert links[..n][i + 1..] + [links[n]] == links[i + 1..] && links[..n][..i] == links[..i];
      SourcesAppend(links[..n][i + 1..], [links[n]], nodes);
    }
  }

  lemma NoSources(nodes: seq<Rev>)
    ensures LaterSources([], nodes) == []
  {
  }

  lemma OneSource(e: Edge, nodes: seq<Rev>)
    ensures LaterSources([e], nodes) == if Later(nodes, e) then [e.source] else []
  {
    assert [e][..0] == [];
  }

  lemma {:induction false} SourcesHold(links: seq<Edge>, nodes: seq<Rev>)
    ensures forall j :: 0 <= j < |links| && Later(nodes, links[j]) ==> links[j].source in LaterSources(links, nodes)
    ensures LaterSources(links, nodes) != [] ==> exists j :: 0 <= j < |links| && Later(nodes, links[j])
    decreases |links|
  {
    hide Later;
    if links != [] {
      var n := |links| - 1;
      SourcesHold(links[..n], nodes);
      forall j | 0 <= j < |links| && Later(nodes, links[j]) ensures links[j].source in LaterSources(links, nodes) {
        assert j < n ==> links[..n][j] == links[j];
      }
      if LaterSources(links, nodes) != [] && !Later(nodes, links[n]) {
        var j :| 0 <= j < n && Later(nodes, links[..n][j]);
        assert links[j] == links[..n][j];
      }
    }
  }

  /** The last node's own links are recorded last. */
  lemma LastLinksLast(t: Tables, nodes: seq<Rev>, i: nat, j: nat)
    requires Distinct(nodes) && nodes != [] && i < j < |AllLinks(t, nodes)|
    requires AllLinks(t, nodes)[j].target != nodes[|nodes| - 1]
    ensures AllLinks(t, nodes)[i].target != nodes[|nodes| - 1]
  {
    var init := nodes[..|nodes| - 1];
    AllLinksAre(t, init);
    assert j < |AllLinks(t, init)|;
    assert AllLinks(t, nodes)[i] == AllLinks(t, init)[i];
    assert AllLinks(t, init)[i] in AllLinks(t, init);
  }

  /** With every link's source drawn, something still waits behind the last node's first appearance
      exactly when a link to a later node was recorded after the first that names it. */
  lemma WaitsBehind(t: Tables, start: Rev, nodes: seq<Rev>, done: seq<Rev>, pending: seq<Rev>)
    requires Distinct(nodes) && nodes != [] && forall e :: e in AllLinks(t, nodes) ==> e.source in nodes
    requires var last := nodes[|nodes| - 1];
      Queued(t, start, nodes) == done + [last] + pending && last !in done && (done == [] ==> nodes == [last])
    ensures pending != [] <==> Leftover(t, nodes)
  {
    hide AllLinks, Later, LaterSources, Queued, Distinct;
    var links, last := AllLinks(t, nodes), nodes[|nodes| - 1];
    var sources := LaterSources(links, nodes);
    QueuedAre(t, start, nodes);
    SourcesHold(links, nodes);
    if done == [] {
      forall j | 0 <= j < |links| ensures !Later(nodes, links[j]) {
        OnlyNode(nodes, links[j]);
      }
      assert ([last] + pending)[1..] == pending == ([start] + sources)[1..] == sources;
    } else {
      assert ([start] + sources)[1..] == sources && (done + [last] + pending)[1..] == done[1..] + [last] + pending;
      var at := Recorded(links, nodes, done[1..], last, pending);
      SourcesHold(links[at + 1..], nodes);
      SourcesHold(links[..at], nodes);
      if pending != [] {
        var m :| 0 <= m < |links[at + 1..]| && Later(nodes, links[at + 1..][m]);
        assert links[at + 1 + m] == links[at + 1..][m];
      } else {
        forall j | at < j < |links| ensures !Later(nodes, links[j]) {
          assert links[at + 1..][j - at - 1] == links[j];
        }
        FirstNaming(t, nodes, done[1..], at);
      }
    }
  }

  lemma OnlyNode(nodes: seq<Rev>, e: Edge)
    requires |nodes| == 1 && e.source in nodes
    ensures !Later(nodes, e)
  {
    assert nodes[..1] == nodes;
  }

  /** Nothing names the last node before the link that queued it. */
  lemma FirstNaming(t: Tables, nodes: seq<Rev>, before: seq<Rev>, at: nat)
    requires Distinct(nodes) && nodes != [] && forall e :: e in AllLinks(t, nodes) ==> e.source in nodes
    requires var links := AllLinks(t, nodes);
      && at < |links| && Later(nodes, links[at])
      && LaterSources(links[..at], nodes) == before && nodes[|nodes| - 1] !in before
    ensures forall i :: 0 <= i < at ==> AllLinks(t, nodes)[i].source != nodes[|nodes| - 1]
  {
    hide AllLinks, LaterSources;
    var links, last := AllLinks(t, nodes), nodes[|nodes| - 1];
    SourcesHold(links[..at], nodes);
    AllLinksAre(t, nodes);
    assert nodes[..|nodes| - 1 + 1] == nodes;
    assert links[at] in links && links[at].target != last;
    forall i | 0 <= i < at ensures links[i].source != last {
      assert links[..at][i] == links[i] && links[i] in links;
      LastLinksLast(t, nodes, i, at);
      var k :| 0 <= k < |nodes| && nodes[k] == links[i].target;
      assert last !in nodes[..k + 1];
    }
  }

  // -------------------------------------------------------- the flag, in full

  lemma {:induction false} SetFits(xs: set<Rev>, all: seq<Rev>)
    requires forall x | x in xs :: x in all
    ensures |xs| <= |all|
    decreases |all|
  {
    if all == [] {
      assert xs == {};
    } else {
      var last := |all| - 1;
      assert all == all[..last] + [all[last]];
      SetFits(xs - {all[last]}, all[..last]);
      assert xs <= (xs - {all[last]}) + {all[last]};
    }
  }

  lemma {:induction false} DistinctFits(some: seq<Rev>, all: seq<Rev>)
    requires Distinct(some) && forall r | r in some :: r in all
    ensures |some| <= |all|
    decreases |some|
  {
    FewerLinks(Tables({}, (r: Rev) => []), some, all);
  }

  lemma SubsetOfSameSize(xs: set<Rev>, ys: set<Rev>)
    requires xs <= ys && |xs| >= |ys|
    ensures xs == ys
  {
    assert |ys| == |xs| + |ys - xs| by { assert ys == xs + (ys - xs); }
  }

  /** A closure of exactly as many revisions as the limit has been drawn in full when the walk stops;
      what may still wait are revisions already drawn. */
  lemma FullAtLimit(t: Tables, start: Rev, all: seq<Rev>)
    requires Closure(t, start, all)
    ensures var f := Walk(t, |all|, IDLE.(pending := [start]));
      && !f.truncated && Ids(f.nodes) == Ids(all) && |f.nodes| == |all|
      && (f.pending != [] <==> Leftover(t, f.nodes))
      && (Snap(t, start, |all|).truncated <==> Leftover(t, Snap(t, start, |all|).nodes))
  {
    hide Reachable, AllLinks, Walk, Queued, Leftover, Enclosure, Walked, Tracks, Kept;
    var s := IDLE.(pending := [start]);
    var f := Walk(t, |all|, s);
    WalkStarts(t, start);
    WalkKeeps(t, start, |all|, s);
    ClosureSize(t, start, all);
    NothingDone(t, start);
    var done := WalkTracks(t, start, |all|, all, s, []);
    DrawnInFull(t, start, all, f);
    LastDrawn(t, start, f, done);
    AllLinksAre(t, f.nodes);
    forall e | e in AllLinks(t, f.nodes) ensures e.source in f.nodes {
      assert e.target in Ids(all);
      ClosureStep(t, start, all, e);
    }
    WaitsBehind(t, start, f.nodes, done[..|done| - 1], f.pending);
  }

  /** What the queue looks like when the last node has just been drawn. */
  lemma LastDrawn(t: Tables, start: Rev, s: State, done: seq<Rev>)
    requires Tracks(t, start, s, done) && JustDrawn(s, done) && s.seen == Ids(s.nodes) && Distinct(s.nodes)
    ensures var taken, last := done[..|done| - 1], s.nodes[|s.nodes| - 1];
      && Queued(t, start, s.nodes) == taken + [last] + s.pending && last !in taken
      && (taken == [] ==> s.nodes == [last])
  {
    hide Queued;
    assert done == done[..|done| - 1] + [done[|done| - 1]];
    if |done| == 1 {
      OneSeen(s.nodes, done);
    }
  }

  lemma NothingDone(t: Tables, start: Rev)
    ensures Tracks(t, start, IDLE.(pending := [start]), [])
  {
  }

  lemma OneSeen(nodes: seq<Rev>, done: seq<Rev>)
    requires Distinct(nodes) && Ids(nodes) == Ids(done) && |done| == 1
    ensures |nodes| == 1
  {
    assert done[0] in Ids(nodes);
    assert forall n :: n in nodes ==> n in Ids(done);
    DistinctFits(nodes, done);
  }

  lemma ClosureSize(t: Tables, start: Rev, all: seq<Rev>)
    requires Closure(t, start, all)
    ensures |all| > 0 && Distinct(all)
  {
  }

  lemma ClosureStep(t: Tables, start: Rev, all: seq<Rev>, e: Edge)
    requires Closure(t, start, all) && e.target in Ids(all) && e.source in t.parents(e.target)
    ensures e.source in Ids(all)
  {
  }

  /** Inside an enclosure nothing is ever lost. */
  lemma NothingLost(t: Tables, start: Rev, all: seq<Rev>, f: State)
    requires Enclosure(t, start, all) && Walked(t, start, f)
    ensures !f.truncated && Faithful(t, start, f) && forall n | n in f.nodes :: n in all
  {
    hide Reachable, AllLinks, Cause;
    EnclosureHoldsAll(t, start, all);
    EnclosureHasNoCause(t, start, all, f.nodes);
  }

  lemma DrawnInFull(t: Tables, start: Rev, all: seq<Rev>, f: State)
    requires Closure(t, start, all) && Walked(t, start, f)
    requires |f.seen| <= |all| && (f.pending == [] || |f.seen| == |all|)
    ensures !f.truncated && f.seen == Ids(f.nodes) == Ids(all) && |f.nodes| == |all| == |f.seen| && Distinct(f.nodes)
  {
    hide Reachable, AllLinks, Cause;
    NothingLost(t, start, all, f);
    SetFits(Ids(all), all);
    DistinctFits(f.nodes, all);
    if f.pending == [] {
      Complete(t, start, f);
      DistinctFits(all, f.nodes);
    }
    SubsetOfSameSize(Ids(f.nodes), Ids(all));
  }

  /** The picture is called complete exactly when some enclosure has fewer revisions than the limit,
      or as many and no revision already drawn is still queued behind the last node. */
  lemma TruncatedExactlyWhen(t: Tables, start: Rev, limit: nat)
    ensures var s := Snap(t, start, limit);
      !s.truncated <==>
        exists all: seq<Rev> :: Enclosure(t, start, all)
          && (|all| < limit || (|all| == limit && !Leftover(t, s.nodes)))
  {
    hide Reachable, AllLinks, Cause, Walk, Leftover, Enclosure, Kept, Walked;
    var init := IDLE.(pending := [start]);
    var f := Walk(t, limit, init);
    WalkStarts(t, start);
    WalkKeeps(t, start, limit, init);
    if !f.truncated && f.pending == [] {
      Complete(t, start, f);
      assert |f.nodes| <= limit by { Drawn(t, start, f); }
      if |f.nodes| == limit {
        FullAtLimit(t, start, f.nodes);
      }
      assert Enclosure(t, start, f.nodes);
    }
    if all: seq<Rev> :| Enclosure(t, start, all) && (|all| < limit || (|all| == limit && !Leftover(t, f.nodes))) {
      if |all| < limit {
        StopsEarly(t, start, all, limit, f);
      } else {
        NothingLost(t, start, all, f);
        if f.pending != [] {
          FilledUp(t, start, all, f);
          FullAtLimit(t, start, all);
        }
      }
    }
  }

  /** An enclosure drawn to its last revision is the closure. */
  lemma FilledUp(t: Tables, start: Rev, all: seq<Rev>, f: State)
    requires Enclosure(t, start, all) && Walked(t, start, f) && |f.seen| == |all|
    ensures Closure(t, start, all)
  {
    hide Reachable, AllLinks, Cause;
    NothingLost(t, start, all, f);
    SetFits(Ids(all), all);
    SubsetOfSameSize(Ids(f.nodes), Ids(all));
    forall r | r in all ensures Reachable(t, start, r) {
      assert r in Ids(all);
    }
  }

  lemma StopsEarly(t: Tables, start: Rev, all: seq<Rev>, limit: nat, f: State)
    requires Enclosure(t, start, all) && |all| < limit && Walked(t, start, f)
    requires f.pending == [] || |f.seen| == limit
    ensures !f.truncated && f.pending == []
  {
    hide Reachable, AllLinks, Cause;
    NothingLost(t, start, all, f);
    DistinctFits(f.nodes, all);
  }

  /** Three revisions, the last reached twice: with a limit of three the whole closure is drawn with
      all its links, and is called truncated. */
  function Diamond(): Tables {
    Tables({0, 1, 2}, (r: Rev) => if r == 0 then [1, 2] else if r == 1 then [2] else [])
  }

  lemma FalseAlarm()
    ensures Snap(Diamond(), 0, 3) == Snapshot([0, 1, 2], [Edge(1, 0), Edge(2, 0), Edge(2, 1)], true)
    ensures Closure(Diamond(), 0, [0, 1, 2])
    ensures AllLinks(Diamond(), [0, 1, 2]) == [Edge(1, 0), Edge(2, 0), Edge(2, 1)]
  {
    hide Walk, AllLinks, Closure, Kept;
    DiamondWalk();
    DiamondLinks();
    DiamondCloses();
    var edges := [Edge(1, 0), Edge(2, 0), Edge(2, 1)];
    KeepsAll(edges, Ids([0, 1, 2]));
  }

  lemma DiamondCloses()
    ensures Closure(Diamond(), 0, [0, 1, 2])
  {
    hide Reachable, AllLinks, Path;
    var t := Diamond();
    DiamondLinks();
    ReachesStart(t, 0);
    assert 1 in t.parents(0) && 2 in t.parents(0);
    ReachesParent(t, 0, 0, 1);
    ReachesParent(t, 0, 0, 2);
  }

  lemma DiamondLinks()
    ensures AllLinks(Diamond(), [0, 1, 2]) == [Edge(1, 0), Edge(2, 0), Edge(2, 1)]
  {
    var t := Diamond();
    LinksAppend(t, [], 0);
    LinksAppend(t, [0], 1);
    LinksAppend(t, [0, 1], 2);
    assert [] + [0] == [0] && [0] + [1] == [0, 1] && [0, 1] + [2] == [0, 1, 2];
  }

  lemma DiamondWalk()
    ensures Walk(Diamond(), 3, IDLE.(pending := [0]))
         == State([2], {0, 1, 2}, [0, 1, 2], [Edge(1, 0), Edge(2, 0), Edge(2, 1)], false)
  {
    hide Walk, Taken, Unseen, Visit;
    var t := Diamond();
    var first := State([1, 2], {0}, [0], [Edge(1, 0), Edge(2, 0)], false);
    var second := State([2, 2], {0, 1}, [0, 1], [Edge(1, 0), Edge(2, 0), Edge(2, 1)], false);
    var third := State([2], {0, 1, 2}, [0, 1, 2], [Edge(1, 0), Edge(2, 0), Edge(2, 1)], false);
    FirstVisit();
    SecondVisit();
    ThirdVisit();
    WalkStep(t, 3, IDLE.(pending := [0]));
    WalkStep(t, 3, first);
    WalkStep(t, 3, second);
    WalkStop(t, 3, third);
  }

  lemma WalkStep(t: Tables, limit: nat, s: State)
    requires s.pending != [] && |s.seen| < limit
    ensures Walk(t, limit, s) == Walk(t, limit, Visit(t, s))
  {
  }

  lemma WalkStop(t: Tables, limit: nat, s: State)
    requires s.pending == [] || |s.seen| >= limit
    ensures Walk(t, limit, s) == s
  {
  }

  lemma FirstVisit()
    ensures Visit(Diamond(), IDLE.(pending := [0])) == State([1, 2], {0}, [0], [Edge(1, 0), Edge(2, 0)], false)
  {
    var t := Diamond();
    assert t.parents(0) == [1, 2];
    assert [1, 2][..1] == [1] && [1][..0] == [];
    assert Unseen([1], {0}) == [1] && Unseen([1, 2], {0}) == [1, 2];
    assert LinksOf(t, 0) == [Edge(1, 0), Edge(2, 0)] && LinksOf(t, 0)[..2] == LinksOf(t, 0);
    assert [0][1..] + [1, 2] == [1, 2] && {} + {0} == {0} && [] + [0] == [0];
    assert Visit(t, IDLE.(pending := [0])).edges == [Edge(1, 0), Edge(2, 0)];
  }

  lemma SecondVisit()
    ensures Visit(Diamond(), State([1, 2], {0}, [0], [Edge(1, 0), Edge(2, 0)], false))
         == State([2, 2], {0, 1}, [0, 1], [Edge(1, 0), Edge(2, 0), Edge(2, 1)], false)
  {
    var t := Diamond();
    assert [2][..0] == [] && Unseen([2], {0, 1}) == [2] && [1, 2][1..] + [2] == [2, 2];
    assert LinksOf(t, 1) == [Edge(2, 1)] && LinksOf(t, 1)[..1] == LinksOf(t, 1);
    assert [Edge(1, 0), Edge(2, 0)] + [Edge(2, 1)] == [Edge(1, 0), Edge(2, 0), Edge(2, 1)];
    assert {0} + {1} == {0, 1} && [0] + [1] == [0, 1];
  }

  lemma ThirdVisit()
    ensures Visit(Diamond(), State([2, 2], {0, 1}, [0, 1], [Edge(1, 0), Edge(2, 0), Edge(2, 1)], false))
         == State([2], {0, 1, 2}, [0, 1, 2], [Edge(1, 0), Edge(2, 0), Edge(2, 1)], false)
  {
  }

  // ---------------------------------------------------------------- the method

  method GraphSnapshot(t: Tables, start: Rev, limit: nat) returns (s: Snapshot)
    ensures s == Snap(t, start, limit)
    ensures Distinct(s.nodes) && |s.nodes| <= limit && |s.edges| <= MAX_EDGES
    ensures forall n | n in s.nodes :: n in t.rows && Reachable(t, start, n)
    ensures forall e | e in s.edges :: e.source in s.nodes && e.target in s.nodes && e.source in t.parents(e.target)
    ensures !s.truncated ==> forall r: Rev :: r in s.nodes <==> Reachable(t, start, r)
    ensures !s.truncated ==> s.edges == AllLinks(t, s.nodes)
    ensures !s.truncated <==>
      exists all: seq<Rev> :: Enclosure(t, start, all)
        && (|all| < limit || (|all| == limit && !Leftover(t, s.nodes)))
  {
    hide Reachable, AllLinks, Enclosure, Leftover, LinksOf, Distinct, Kept, Walked, Taken, Unseen;
    var pending := [start];
    var seen: set<Rev>, nodes: seq<Rev>, edges: seq<Edge> := {}, [], [];
    var truncated := false;
    while pending != [] && |seen| < limit
      invariant |seen| <= limit && |edges| <= MAX_EDGES
      invariant Walk(t, limit, State(pending, seen, nodes, edges, truncated))
             == Walk(t, limit, IDLE.(pending := [start]))
      decreases limit - |seen|, |pending|
    {
      var revision := pending[0];
      if revision in seen {
        pending := pending[1..];
        continue;
      }
      if revision !in t.rows {
        seen, pending, truncated := seen + {revision}, pending[1..], true;
        continue;
      }
      var more, queue, cut := Follow(t, revision, seen + {revision}, edges, pending[1..]);
      seen, nodes, edges, pending, truncated := seen + {revision}, nodes + [revision], more, queue, truncated || cut;
    }
    var ids := Ids(nodes);
    s := Snapshot(nodes, Kept(edges, ids), truncated || pending != []);
    Facts(t, start, limit);
    TruncatedExactlyWhen(t, start, limit);
  }

  lemma Facts(t: Tables, start: Rev, limit: nat)
    ensures var s := Snap(t, start, limit);
      && Distinct(s.nodes) && |s.nodes| <= limit && |s.edges| <= MAX_EDGES
      && (forall n | n in s.nodes :: n in t.rows && Reachable(t, start, n))
      && (forall e | e in s.edges :: e.source in s.nodes && e.target in s.nodes && e.source in t.parents(e.target))
      && (!s.truncated ==> forall r: Rev :: r in s.nodes <==> Reachable(t, start, r))
      && (!s.truncated ==> s.edges == AllLinks(t, s.nodes))
  {
    hide Reachable, AllLinks, Walk, Walked, Kept, Distinct;
    var init := IDLE.(pending := [start]);
    var f := Walk(t, limit, init);
    WalkStarts(t, start);
    WalkKeeps(t, start, limit, init);
    Drawn(t, start, f);
    if !f.truncated && f.pending == [] {
      Complete(t, start, f);
    }
  }
}
