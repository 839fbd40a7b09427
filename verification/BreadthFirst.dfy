/** The picture of the bounded walk told without the walk: the order in which revisions queue up, how many of
    them are taken, and what of them is drawn. */
module BreadthFirst {
  import opened Traversal

  /** The revisions of a list that have a row, each where it first appears. */
  function Firsts(rows: set<Rev>, taken: seq<Rev>): seq<Rev> {
    if taken == [] then []
    else
      var n := |taken| - 1;
      Firsts(rows, taken[..n]) + if taken[n] in rows && taken[n] !in taken[..n] then [taken[n]] else []
  }

  /** As many links as the edge limit allows. */
  function Capped(links: seq<Edge>): seq<Edge> {
    if |links| > MAX_EDGES then links[..MAX_EDGES] else links
  }

  /** The links that a list of nodes leaves on record. */
  function Recorded(t: Tables, nodes: seq<Rev>): seq<Edge> { Capped(AllLinks(t, nodes)) }

  /** The revisions in the order they are queued: start, then the source of each recorded link unless it is
      queued by the time the link's target first is. */
  ghost predicate Lines(start: Rev, links: seq<Edge>, queue: seq<Rev>) {
    queue == [start] + LaterSources(links, queue)
  }

  /** The first n of the queue are taken: all of them, or as many as bring the distinct ones to the limit. */
  ghost predicate Stops(limit: nat, queue: seq<Rev>, n: nat) {
    && n <= |queue| && |Ids(queue[..n])| <= limit
    && (n < |queue| ==> |Ids(queue[..n])| == limit)
    && (|Ids(queue[..n])| == limit && n > 0 ==> queue[n - 1] !in queue[..n - 1])
  }

  /** The picture drawn from the first n of a queue. */
  ghost predicate Pictures(t: Tables, s: Snapshot, queue: seq<Rev>, n: nat)
    requires n <= |queue|
  {
    && s.nodes == Firsts(t.rows, queue[..n])
    && s.edges == Kept(Recorded(t, s.nodes), Ids(s.nodes))
    && (s.truncated <==>
        n < |queue| || |AllLinks(t, s.nodes)| > MAX_EDGES || exists r | r in queue[..n] :: r !in t.rows)
  }

  ghost predicate BreadthFirst(t: Tables, start: Rev, limit: nat, s: Snapshot, queue: seq<Rev>, n: nat) {
    && Stops(limit, queue, n) && Pictures(t, s, queue, n) && Lines(start, Recorded(t, s.nodes), queue)
  }

  // ------------------------------------------------------------ along the walk

  /** Where a walk stands, told by the revisions it has taken. */
  ghost predicate Stands(t: Tables, start: Rev, s: State, taken: seq<Rev>) {
    && Ids(taken) == s.seen && s.nodes == Firsts(t.rows, taken) && s.edges == Recorded(t, s.nodes)
    && Lines(start, s.edges, taken + s.pending)
    && (s.truncated <==> |AllLinks(t, s.nodes)| > MAX_EDGES || exists r | r in taken :: r !in t.rows)
  }

  /** The last one taken was new when the limit was reached. */
  ghost predicate JustFull(limit: nat, s: State, taken: seq<Rev>) {
    |s.seen| == limit && taken != [] ==> taken[|taken| - 1] !in taken[..|taken| - 1]
  }

  lemma {:induction false} FirstsAreTaken(rows: set<Rev>, taken: seq<Rev>)
    ensures forall r :: r in Firsts(rows, taken) <==> r in taken && r in rows
    decreases |taken|
  {
    if taken != [] {
      var n := |taken| - 1;
      FirstsAreTaken(rows, taken[..n]);
      assert taken == taken[..n] + [taken[n]];
    }
  }

  lemma FirstsAppend(rows: set<Rev>, taken: seq<Rev>, r: Rev)
    ensures Firsts(rows, taken + [r]) == Firsts(rows, taken) + if r in rows && r !in taken then [r] else []
  {
    assert (taken + [r])[..|taken|] == taken;
  }

  /** A revision already seen, or one without a row, leaves nodes, links and queue as they are. */
  lemma Dropped(t: Tables, start: Rev, s: State, taken: seq<Rev>)
    requires Stands(t, start, s, taken) && s.pending != []
    requires s.pending[0] in s.seen || s.pending[0] !in t.rows
    ensures Stands(t, start, Visit(t, s), taken + [s.pending[0]])
  {
    hide Firsts, Recorded, AllLinks, LaterSources, LinksOf;
    var r := s.pending[0];
    IdsAppend(taken, r);
    FirstsAppend(t.rows, taken, r);
    assert r in s.seen ==> r in taken && s.seen + {r} == s.seen;
    assert taken + s.pending == (taken + [r]) + s.pending[1..];
  }

  /** The links of one more node go on record as far as there is room. */
  lemma RecordedNext(t: Tables, nodes: seq<Rev>, r: Rev)
    ensures var before, parents := Recorded(t, nodes), t.parents(r);
      && Recorded(t, nodes + [r]) == before + LinksOf(t, r)[..|Taken(t, r, before)|]
      && (|AllLinks(t, nodes + [r])| > MAX_EDGES <==>
          |AllLinks(t, nodes)| > MAX_EDGES || |Taken(t, r, before)| < |parents|)
  {
    hide AllLinks;
    LinksAppend(t, nodes, r);
  }

  /** A link whose target is queued already points to a later revision or not, whatever is queued next. */
  lemma LaterSettled(queue: seq<Rev>, more: seq<Rev>, e: Edge)
    requires e.target in queue
    ensures Later(queue, e) <==> Later(queue + more, e)
  {
    var all := queue + more;
    forall k | 0 <= k < |queue| ensures all[k] == queue[k] && all[..k + 1] == queue[..k + 1] {
    }
    if Later(all, e) {
      var k :| 0 <= k < |all| && all[k] == e.target && e.source !in all[..k + 1];
      var i :| 0 <= i < |queue| && queue[i] == e.target;
      if k >= |queue| {
        assert all[..i + 1] <= all[..k + 1];
        assert queue[i] == e.target && e.source !in queue[..i + 1];
      }
    }
  }

  /** The parents a newly taken revision queues are the sources of its links to later ones. */
  lemma {:induction false} OwnSources(t: Tables, before: seq<Rev>, r: Rev, after: seq<Rev>, n: nat)
    requires r !in before && n <= |t.parents(r)| == |LinksOf(t, r)|
    ensures LaterSources(LinksOf(t, r)[..n], before + [r] + after) == Unseen(t.parents(r)[..n], Ids(before + [r]))
    decreases n
  {
    if n > 0 {
      OwnSources(t, before, r, after, n - 1);
      var links, parents, queue := LinksOf(t, r), t.parents(r), before + [r] + after;
      assert links[..n][..n - 1] == links[..n - 1] && parents[..n][..n - 1] == parents[..n - 1];
      OwnLater(before, r, after, links[n - 1]);
    }
  }

  lemma OwnLater(before: seq<Rev>, r: Rev, after: seq<Rev>, e: Edge)
    requires r !in before && e.target == r
    ensures Later(before + [r] + after, e) <==> e.source !in before + [r]
  {
    var queue := before + [r] + after;
    assert queue[..|before| + 1] == before + [r] && queue[|before|] == r;
    if Later(queue, e) {
      var k :| 0 <= k < |queue| && queue[k] == r && e.source !in queue[..k + 1];
      assert forall i | 0 <= i < |before| :: queue[i] == before[i];
      assert k >= |before|;
      assert queue[..|before| + 1] <= queue[..k + 1];
    }
  }

  /** The queue stays in line when a new revision with a row is followed. */
  lemma LinesGrow(t: Tables, start: Rev, links: seq<Edge>, before: seq<Rev>, r: Rev, rest: seq<Rev>, n: nat)
    requires Lines(start, links, before + [r] + rest) && r !in before && n <= |t.parents(r)| == |LinksOf(t, r)|
    requires forall e | e in links :: e.target in before
    ensures var more := Unseen(t.parents(r)[..n], Ids(before + [r]));
      Lines(start, links + LinksOf(t, r)[..n], before + [r] + (rest + more))
  {
    hide LaterSources, Later, LinksOf;
    var more := Unseen(t.parents(r)[..n], Ids(before + [r]));
    var queue := before + [r] + rest;
    assert before + [r] + (rest + more) == queue + more;
    forall e | e in links ensures Later(queue, e) <==> Later(queue + more, e) {
      assert queue[..|before|] == before;
      LaterSettled(queue, more, e);
    }
    SourcesAlike(links, queue, queue + more);
    OwnSources(t, before, r, rest + more, n);
    SourcesAppend(links, LinksOf(t, r)[..n], queue + more);
    assert [start] + (LaterSources(links, queue) + more) == queue + more;
  }

  lemma Followed(t: Tables, start: Rev, s: State, taken: seq<Rev>)
    requires Stands(t, start, s, taken) && s.pending != []
    requires s.pending[0] !in s.seen && s.pending[0] in t.rows
    ensures Stands(t, start, Visit(t, s), taken + [s.pending[0]])
  {
    hide Firsts, Recorded, AllLinks, LaterSources, LinksOf, Unseen, Taken, Lines;
    var r, rest, next := s.pending[0], s.pending[1..], Visit(t, s);
    assert r !in taken by { assert r !in Ids(taken); }
    IdsAppend(taken, r);
    FirstsAppend(t.rows, taken, r);
    RecordedNext(t, s.nodes, r);
    LinksCount(t, r);
    var own := Taken(t, r, s.edges);
    forall e | e in s.edges ensures e.target in taken {
      RecordedTarget(t, taken, e);
    }
    assert taken + s.pending == taken + [r] + rest;
    LinesGrow(t, start, s.edges, taken, r, rest, |own|);
    assert t.parents(r)[..|own|] == own;
    assert next.nodes == s.nodes + [r] && next.pending == rest + Unseen(own, s.seen + {r});
  }

  lemma RecordedTarget(t: Tables, taken: seq<Rev>, e: Edge)
    requires e in Recorded(t, Firsts(t.rows, taken))
    ensures e.target in taken
  {
    hide AllLinks, Firsts;
    AllLinksAre(t, Firsts(t.rows, taken));
    FirstsAreTaken(t.rows, taken);
  }

  lemma VisitStands(t: Tables, start: Rev, limit: nat, s: State, taken: seq<Rev>)
    requires Stands(t, start, s, taken) && s.pending != [] && |s.seen| < limit
    ensures Stands(t, start, Visit(t, s), taken + [s.pending[0]])
    ensures |Visit(t, s).seen| <= limit && JustFull(limit, Visit(t, s), taken + [s.pending[0]])
  {
    hide Stands, Visit, Taken, Unseen, LinksOf;
    var r := s.pending[0];
    if r in s.seen || r !in t.rows {
      Dropped(t, start, s, taken);
    } else {
      Followed(t, start, s, taken);
    }
    assert (taken + [r])[..|taken|] == taken;
    SeenNext(t, start, s, taken);
  }

  lemma SeenNext(t: Tables, start: Rev, s: State, taken: seq<Rev>)
    requires Stands(t, start, s, taken) && s.pending != []
    ensures Visit(t, s).seen == s.seen + {s.pending[0]}
    ensures s.pending[0] in taken <==> s.pending[0] in s.seen
  {
    hide Firsts, Recorded, Lines, AllLinks, LinksOf, Taken, Unseen;
    assert s.pending[0] in taken <==> s.pending[0] in Ids(taken);
  }

  lemma VisitShrinks(t: Tables, s: State)
    requires s.pending != []
    ensures |Visit(t, s).seen| > |s.seen| || (Visit(t, s).seen == s.seen && |Visit(t, s).pending| < |s.pending|)
  {
    hide Taken, Unseen, LinksOf;
  }

  lemma {:induction false} WalkStands(t: Tables, start: Rev, limit: nat, s: State, taken: seq<Rev>)
    returns (last: seq<Rev>)
    requires Stands(t, start, s, taken) && JustFull(limit, s, taken) && |s.seen| <= limit
    ensures var f := Walk(t, limit, s);
      Stands(t, start, f, last) && JustFull(limit, f, last) && |f.seen| <= limit
        && (f.pending == [] || |f.seen| == limit)
    decreases limit - |s.seen|, |s.pending|
  {
    hide Stands, JustFull, Visit;
    last := taken;
    if s.pending != [] && |s.seen| < limit {
      VisitStands(t, start, limit, s, taken);
      VisitShrinks(t, s);
      last := WalkStands(t, start, limit, Visit(t, s), taken + [s.pending[0]]);
    }
  }

  /** The picture is the breadth-first one: of the queue it takes what the limit allows, draws the revisions
      with a row where they first appear, and keeps the links among them that the edge limit left on record. */
  lemma SnapIsBreadthFirst(t: Tables, start: Rev, limit: nat)
    ensures exists queue, n :: BreadthFirst(t, start, limit, Snap(t, start, limit), queue, n)
  {
    hide Walk, Firsts, AllLinks, LaterSources, Kept;
    var s := IDLE.(pending := [start]);
    var f := Walk(t, limit, s);
    StandsFirst(t, start);
    var taken := WalkStands(t, start, limit, s, []);
    var queue := taken + f.pending;
    assert queue[..|taken|] == taken;
    assert BreadthFirst(t, start, limit, Snap(t, start, limit), queue, |taken|);
  }

  lemma StandsFirst(t: Tables, start: Rev)
    ensures Stands(t, start, IDLE.(pending := [start]), [])
  {
    assert [] + [start] == [start];
  }
}
