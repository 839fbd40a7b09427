/** The drawing of the provenance graph: nodes get a depth by relaxing edges in place, then a lane
    among the nodes of their depth, then a box. */
module Layering {
  type Id = nat
  datatype Edge = Edge(source: Id, target: Id)
  type Depths = map<Id, nat>

  /** An absent depth reads as zero. */
  function Get(d: Depths, x: Id): nat { if x in d then d[x] else 0 }

  function Start(nodes: seq<Id>): Depths { map x | x in nodes :: 0 }

  /** Push the target below the source unless that reaches the cap. */
  function Relax(d: Depths, e: Edge, cap: nat): Depths {
    var below := Get(d, e.source) + 1;
    if below > Get(d, e.target) && below < cap then d[e.target := below] else d
  }

  function Pass(d: Depths, edges: seq<Edge>, cap: nat): Depths {
    if edges == [] then d else Relax(Pass(d, edges[..|edges| - 1], cap), edges[|edges| - 1], cap)
  }

  function Passes(d: Depths, edges: seq<Edge>, cap: nat, rounds: nat): Depths {
    if rounds == 0 then d else Pass(Passes(d, edges, cap, rounds - 1), edges, cap)
  }

  /** As many passes as there are nodes. */
  function Layers(nodes: seq<Id>, edges: seq<Edge>): Depths {
    Passes(Start(nodes), edges, |nodes|, |nodes|)
  }

  lemma {:induction false} Settled(d: Depths, edges: seq<Edge>, cap: nat, rounds: nat)
    requires Pass(d, edges, cap) == d
    ensures Passes(d, edges, cap, rounds) == d
  {
    if rounds > 0 {
      Settled(d, edges, cap, rounds - 1);
    }
  }

  lemma {:induction false} PassesCompose(d: Depths, edges: seq<Edge>, cap: nat, a: nat, b: nat)
    ensures Passes(Passes(d, edges, cap, a), edges, cap, b) == Passes(d, edges, cap, a + b)
  {
    if b > 0 {
      PassesCompose(d, edges, cap, a, b - 1);
    }
  }

  lemma {:induction false} PassGrows(d: Depths, edges: seq<Edge>, cap: nat)
    ensures forall x: Id :: Get(Pass(d, edges, cap), x) >= Get(d, x)
    ensures d.Keys <= Pass(d, edges, cap).Keys
    decreases |edges|
  {
    if edges != [] {
      PassGrows(d, edges[..|edges| - 1], cap);
    }
  }

  /** The loops of the drawing: relax in place until a pass changes nothing. Stopping early is the
      same as making every pass. */
  method AssignDepths(nodes: seq<Id>, edges: seq<Edge>) returns (depths: Depths)
    ensures depths == Layers(nodes, edges)
  {
    depths := Start(nodes);
    var i := 0;
    while i < |nodes|
      invariant i <= |nodes|
      invariant depths == Passes(Start(nodes), edges, |nodes|, i)
    {
      var changed := false;
      ghost var before := depths;
      var j := 0;
      while j < |edges|
        invariant j <= |edges|
        invariant depths == Pass(before, edges[..j], |nodes|)
        invariant !changed ==> depths == before
      {
        var e := edges[j];
        var d := Get(depths, e.source) + 1;
        assert edges[..j + 1][..j] == edges[..j];
        if d > Get(depths, e.target) && d < |nodes| {
          depths := depths[e.target := d];
          changed := true;
        }
        j := j + 1;
      }
      assert edges[..j] == edges;
      i := i + 1;
      if !changed {
        Settled(depths, edges, |nodes|, |nodes| - i);
        PassesCompose(Start(nodes), edges, |nodes|, i, |nodes| - i);
        return;
      }
    }
  }

  // Chains of edges, and what depths have to do with them.

  ghost predicate Chain(edges: seq<Edge>, p: seq<Id>) {
    p != [] && forall k | 0 <= k < |p| - 1 :: Edge(p[k], p[k + 1]) in edges
  }

  ghost predicate Acyclic(edges: seq<Edge>) {
    forall p: seq<Id> :: Chain(edges, p) && |p| >= 2 ==> p[0] != p[|p| - 1]
  }

  ghost predicate Within(edges: seq<Edge>, nodes: seq<Id>) {
    forall e | e in edges :: e.source in nodes && e.target in nodes
  }

  /** x is the last node of a chain with n edges. */
  ghost predicate Reaches(edges: seq<Edge>, x: Id, n: nat) {
    exists p: seq<Id> :: Chain(edges, p) && |p| == n + 1 && p[n] == x
  }

  /** Every depth is the length of some chain. */
  ghost predicate Supported(edges: seq<Edge>, d: Depths) {
    forall x: Id :: Reaches(edges, x, Get(d, x))
  }

  lemma ReachesOn(edges: seq<Edge>, e: Edge, n: nat)
    requires e in edges && Reaches(edges, e.source, n)
    ensures Reaches(edges, e.target, n + 1)
  {
    var p: seq<Id> :| Chain(edges, p) && |p| == n + 1 && p[n] == e.source;
    var q := p + [e.target];
    assert e == Edge(q[n], q[n + 1]);
    assert Chain(edges, q) && |q| == n + 2 && q[n + 1] == e.target;
  }

  lemma StartSupported(nodes: seq<Id>, edges: seq<Edge>)
    ensures Supported(edges, Start(nodes))
  {
    forall x: Id ensures Reaches(edges, x, Get(Start(nodes), x)) {
      assert Chain(edges, [x]);
    }
  }

  lemma RelaxSupported(d: Depths, e: Edge, edges: seq<Edge>, cap: nat)
    requires e in edges && Supported(edges, d)
    ensures Supported(edges, Relax(d, e, cap))
  {
    assert Reaches(edges, e.source, Get(d, e.source));
    ReachesOn(edges, e, Get(d, e.source));
    var d' := Relax(d, e, cap);
    forall x: Id ensures Reaches(edges, x, Get(d', x)) {
      assert Reaches(edges, x, Get(d, x));
    }
  }

  lemma {:induction false} PassSupported(d: Depths, some: seq<Edge>, edges: seq<Edge>, cap: nat)
    requires Supported(edges, d) && forall e | e in some :: e in edges
    ensures Supported(edges, Pass(d, some, cap))
    decreases |some|
  {
    if some != [] {
      var last := |some| - 1;
      PassSupported(d, some[..last], edges, cap);
      RelaxSupported(Pass(d, some[..last], cap), some[last], edges, cap);
    }
  }

  lemma {:induction false} PassesSupported(nodes: seq<Id>, edges: seq<Edge>, rounds: nat)
    ensures Supported(edges, Passes(Start(nodes), edges, |nodes|, rounds))
  {
    if rounds == 0 {
      StartSupported(nodes, edges);
    } else {
      PassesSupported(nodes, edges, rounds - 1);
      PassSupported(Passes(Start(nodes), edges, |nodes|, rounds - 1), edges, edges, |nodes|);
    }
  }

  /** The pigeonhole: without a cycle no chain has more nodes than there are. */
  lemma ChainsAreShort(nodes: seq<Id>, edges: seq<Edge>, p: seq<Id>)
    requires Acyclic(edges) && Within(edges, nodes) && Chain(edges, p) && |p| >= 2
    ensures |p| <= |nodes|
  {
    forall i, j | 0 <= i < j < |p| ensures p[i] != p[j] {
      var q := p[i..j + 1];
      assert forall k | 0 <= k < |q| - 1 :: Edge(q[k], q[k + 1]) == Edge(p[i + k], p[i + k + 1]);
      assert Chain(edges, q) && |q| >= 2;
    }
    forall k | 0 <= k < |p| ensures p[k] in nodes {
      if k < |p| - 1 {
        assert Edge(p[k], p[k + 1]) in edges;
      } else {
        assert Edge(p[k - 1], p[k]) in edges;
      }
    }
    DistinctFit(p, nodes);
  }

  lemma {:induction false} DistinctFit(p: seq<Id>, nodes: seq<Id>)
    requires forall i, j | 0 <= i < j < |p| :: p[i] != p[j]
    requires forall k | 0 <= k < |p| :: p[k] in nodes
    ensures |p| <= |nodes|
    decreases |p|
  {
    if p != [] {
      var last := |p| - 1;
      var at :| 0 <= at < |nodes| && nodes[at] == p[last];
      var others := nodes[..at] + nodes[at + 1..];
      forall k | 0 <= k < last ensures p[k] in others {
        var i :| 0 <= i < |nodes| && nodes[i] == p[k];
        assert i != at;
        assert others[if i < at then i else i - 1] == p[k];
      }
      DistinctFit(p[..last], others);
    }
  }

  /** Without a cycle the cap never stops an edge. */
  lemma CapNeverBlocks(nodes: seq<Id>, edges: seq<Edge>, d: Depths, e: Edge)
    requires Acyclic(edges) && Within(edges, nodes) && Supported(edges, d) && e in edges
    ensures Get(d, e.source) + 1 < |nodes|
  {
    assert Reaches(edges, e.source, Get(d, e.source));
    ReachesOn(edges, e, Get(d, e.source));
    var n := Get(d, e.source) + 1;
    var p: seq<Id> :| Chain(edges, p) && |p| == n + 1 && p[n] == e.target;
    ChainsAreShort(nodes, edges, p);
  }

  /** A pass puts every target below where its source was when the pass began. */
  lemma {:induction false} PassPushes(nodes: seq<Id>, edges: seq<Edge>, d: Depths, some: seq<Edge>, e: Edge)
    requires Acyclic(edges) && Within(edges, nodes) && Supported(edges, d)
    requires (forall x | x in some :: x in edges) && e in some
    ensures Get(Pass(d, some, |nodes|), e.target) >= Get(d, e.source) + 1
    decreases |some|
  {
    hide Acyclic, Within, Supported;
    var last := |some| - 1;
    var before := Pass(d, some[..last], |nodes|);
    PassSupported(d, some[..last], edges, |nodes|);
    PassGrows(d, some[..last], |nodes|);
    if some[last] == e {
      CapNeverBlocks(nodes, edges, before, e);
    } else {
      PassPushes(nodes, edges, d, some[..last], e);
    }
  }

  /** After r passes every chain of at most r edges has pushed its last node far enough down. */
  lemma {:induction false} ChainPushes(nodes: seq<Id>, edges: seq<Edge>, rounds: nat, p: seq<Id>)
    requires Acyclic(edges) && Within(edges, nodes) && Chain(edges, p) && |p| <= rounds + 1
    ensures Get(Passes(Start(nodes), edges, |nodes|, rounds), p[|p| - 1]) >= |p| - 1
    decreases rounds
  {
    if |p| > 1 {
      var before := Passes(Start(nodes), edges, |nodes|, rounds - 1);
      var q := p[..|p| - 1];
      assert forall k | 0 <= k < |q| - 1 :: Edge(q[k], q[k + 1]) == Edge(p[k], p[k + 1]);
      ChainPushes(nodes, edges, rounds - 1, q);
      PassesSupported(nodes, edges, rounds - 1);
      var k := |p| - 2;
      assert Edge(p[k], p[k + 1]) in edges;
      PassPushes(nodes, edges, before, edges, Edge(p[k], p[k + 1]));
    }
  }

  /** In an acyclic graph the depth of a node is the length of the longest chain that ends in it. */
  lemma DepthIsLongestChain(nodes: seq<Id>, edges: seq<Edge>, x: Id)
    requires Acyclic(edges) && Within(edges, nodes) && x in nodes
    ensures Reaches(edges, x, Get(Layers(nodes, edges), x))
    ensures forall n: nat :: Reaches(edges, x, n) ==> n <= Get(Layers(nodes, edges), x)
    ensures Get(Layers(nodes, edges), x) < |nodes|
  {
    var d := Layers(nodes, edges);
    PassesSupported(nodes, edges, |nodes|);
    assert Reaches(edges, x, Get(d, x));
    forall n: nat | Reaches(edges, x, n) ensures n <= Get(d, x) && n < |nodes| {
      var p: seq<Id> :| Chain(edges, p) && |p| == n + 1 && p[n] == x;
      if n > 0 {
        ChainsAreShort(nodes, edges, p);
      }
      ChainPushes(nodes, edges, |nodes|, p);
    }
  }

  /** Every arrow points strictly down exactly when the graph has no cycle. */
  lemma ArrowsPointDown(nodes: seq<Id>, edges: seq<Edge>)
    requires Within(edges, nodes)
    ensures Acyclic(edges) <==>
      forall e | e in edges :: Get(Layers(nodes, edges), e.source) < Get(Layers(nodes, edges), e.target)
  {
    var d := Layers(nodes, edges);
    if Acyclic(edges) {
      forall e | e in edges ensures Get(d, e.source) < Get(d, e.target) {
        DepthIsLongestChain(nodes, edges, e.source);
        DepthIsLongestChain(nodes, edges, e.target);
        ReachesOn(edges, e, Get(d, e.source));
      }
    }
    if forall e | e in edges :: Get(d, e.source) < Get(d, e.target) {
      forall p: seq<Id> | Chain(edges, p) && |p| >= 2 ensures p[0] != p[|p| - 1] {
        Descends(edges, d, p);
      }
    }
  }

  lemma {:induction false} Descends(edges: seq<Edge>, d: Depths, p: seq<Id>)
    requires Chain(edges, p) && forall e | e in edges :: Get(d, e.source) < Get(d, e.target)
    ensures Get(d, p[|p| - 1]) >= Get(d, p[0]) + |p| - 1
    decreases |p|
  {
    if |p| > 1 {
      var k := |p| - 2;
      assert Edge(p[k], p[k + 1]) in edges;
      assert forall i | 0 <= i < |p| - 2 :: Edge(p[..|p| - 1][i], p[..|p| - 1][i + 1]) == Edge(p[i], p[i + 1]);
      Descends(edges, d, p[..|p| - 1]);
    }
  }

  /** Whatever the edges, cycles included, depths stay below the number of nodes and each is the
      length of a chain that is really there. */
  lemma {:induction false} DepthsAreBounded(nodes: seq<Id>, edges: seq<Edge>, rounds: nat)
    requires nodes != [] && Within(edges, nodes)
    ensures var d := Passes(Start(nodes), edges, |nodes|, rounds);
      d.Keys == (set x | x in nodes) && (forall x | x in d :: d[x] < |nodes|) && Supported(edges, d)
  {
    PassesSupported(nodes, edges, rounds);
    if rounds > 0 {
      DepthsAreBounded(nodes, edges, rounds - 1);
      PassIsBounded(Passes(Start(nodes), edges, |nodes|, rounds - 1), edges, nodes);
    }
  }

  lemma {:induction false} PassIsBounded(d: Depths, edges: seq<Edge>, nodes: seq<Id>)
    requires Within(edges, nodes) && d.Keys == (set x | x in nodes) && forall x | x in d :: d[x] < |nodes|
    ensures var d' := Pass(d, edges, |nodes|); d'.Keys == d.Keys && forall x | x in d' :: d'[x] < |nodes|
    decreases |edges|
  {
    if edges != [] {
      PassIsBounded(d, edges[..|edges| - 1], nodes);
      assert edges[|edges| - 1] in edges;
    }
  }

  // Boxes.

  datatype Point = Point(x: nat, y: nat)

  const LANE: nat := 300
  const ROW: nat := 125
  const MARGIN: nat := 20
  const BOX_WIDTH: nat := 280
  const BOX_HEIGHT: nat := 85

  /** How many of the nodes lie at the depth. */
  function Count(nodes: seq<Id>, depths: Depths, d: nat): nat {
    if nodes == [] then 0
    else Count(nodes[..|nodes| - 1], depths, d) + if Get(depths, nodes[|nodes| - 1]) == d then 1 else 0
  }

  /** Each node in the next free lane of its depth. */
  function Positions(nodes: seq<Id>, depths: Depths): map<Id, Point> {
    if nodes == [] then map[]
    else
      var others, n := nodes[..|nodes| - 1], nodes[|nodes| - 1];
      var d := Get(depths, n);
      Positions(others, depths)[n := Point(MARGIN + Count(others, depths, d) * LANE, MARGIN + d * ROW)]
  }

  /** Boxes at two points share no interior point. */
  predicate Apart(a: Point, b: Point) {
    || a.x + BOX_WIDTH <= b.x || b.x + BOX_WIDTH <= a.x
    || a.y + BOX_HEIGHT <= b.y || b.y + BOX_HEIGHT <= a.y
  }

  method Place(nodes: seq<Id>, depths: Depths) returns (positions: map<Id, Point>, lanes: map<nat, nat>)
    ensures positions == Positions(nodes, depths)
    ensures forall d: nat :: Get(lanes, d) == Count(nodes, depths, d)
  {
    positions, lanes := map[], map[];
    var i := 0;
    while i < |nodes|
      invariant i <= |nodes|
      invariant positions == Positions(nodes[..i], depths)
      invariant forall d: nat :: Get(lanes, d) == Count(nodes[..i], depths, d)
    {
      var d := Get(depths, nodes[i]);
      var lane := Get(lanes, d);
      assert nodes[..i + 1][..i] == nodes[..i];
      lanes := lanes[d := lane + 1];
      positions := positions[nodes[i] := Point(MARGIN + lane * LANE, MARGIN + d * ROW)];
      i := i + 1;
    }
    assert nodes[..i] == nodes;
  }

  /** A canvas as wide as its fullest depth and as high as its deepest one; the depths of the lanes
      are those of the nodes. */
  method Canvas(nodes: seq<Id>, depths: Depths, lanes: map<nat, nat>) returns (width: nat, height: nat)
    ensures width >= 320 && height >= 180
    ensures forall k | 0 <= k < |nodes| :: width >= Get(lanes, Get(depths, nodes[k])) * 300 + 20
    ensures forall k | 0 <= k < |nodes| :: height >= (Get(depths, nodes[k]) + 1) * 125 + 20
    ensures width == 320 || exists k :: 0 <= k < |nodes| && width == Get(lanes, Get(depths, nodes[k])) * 300 + 20
    ensures height == 180 || exists k :: 0 <= k < |nodes| && height == (Get(depths, nodes[k]) + 1) * 125 + 20
  {
    width, height := 320, 180;
    var i := 0;
    while i < |nodes|
      invariant i <= |nodes| && width >= 320 && height >= 180
      invariant forall k | 0 <= k < i :: width >= Get(lanes, Get(depths, nodes[k])) * 300 + 20
      invariant forall k | 0 <= k < i :: height >= (Get(depths, nodes[k]) + 1) * 125 + 20
      invariant width == 320 || exists k :: 0 <= k < i && width == Get(lanes, Get(depths, nodes[k])) * 300 + 20
      invariant height == 180 || exists k :: 0 <= k < i && height == (Get(depths, nodes[k]) + 1) * 125 + 20
    {
      var d := Get(depths, nodes[i]);
      var w, h := Get(lanes, d) * 300 + 20, (d + 1) * 125 + 20;
      if w > width { width := w; }
      if h > height { height := h; }
      i := i + 1;
    }
  }

  /** A placed box lies in a lane its depth has opened. */
  lemma {:induction false} LaneIsOpen(nodes: seq<Id>, depths: Depths, a: Id) returns (lane: nat)
    requires a in Positions(nodes, depths)
    ensures a in nodes && lane < Count(nodes, depths, Get(depths, a))
    ensures Positions(nodes, depths)[a] == Point(MARGIN + lane * LANE, MARGIN + Get(depths, a) * ROW)
    decreases |nodes|
  {
    var others, n := nodes[..|nodes| - 1], nodes[|nodes| - 1];
    if a == n {
      lane := Count(others, depths, Get(depths, a));
    } else {
      lane := LaneIsOpen(others, depths, a);
      assert a in others;
    }
  }

  lemma LaneIsApart(a: nat, b: nat, y: nat)
    requires a < b
    ensures Apart(Point(MARGIN + a * LANE, y), Point(MARGIN + b * LANE, y))
  {
  }

  /** No two boxes overlap. */
  lemma {:induction false} BoxesAreApart(nodes: seq<Id>, depths: Depths, a: Id, b: Id)
    requires a in Positions(nodes, depths) && b in Positions(nodes, depths) && a != b
    ensures Apart(Positions(nodes, depths)[a], Positions(nodes, depths)[b])
    decreases |nodes|
  {
    var others, n := nodes[..|nodes| - 1], nodes[|nodes| - 1];
    if a == n || b == n {
      var before := if a == n then b else a;
      var lane := LaneIsOpen(others, depths, before);
      var d := Get(depths, n);
      if Get(depths, before) == d {
        LaneIsApart(lane, Count(others, depths, d), MARGIN + d * ROW);
      }
    } else {
      BoxesAreApart(others, depths, a, b);
    }
  }

  /** Every box fits a canvas sized as Canvas sizes it. */
  lemma BoxesFit(nodes: seq<Id>, depths: Depths, a: Id, width: nat, height: nat)
    requires a in Positions(nodes, depths)
    requires width >= Count(nodes, depths, Get(depths, a)) * 300 + 20 && height >= (Get(depths, a) + 1) * 125 + 20
    ensures Positions(nodes, depths)[a].x + BOX_WIDTH <= width
    ensures Positions(nodes, depths)[a].y + BOX_HEIGHT <= height
  {
    var lane := LaneIsOpen(nodes, depths, a);
  }

  lemma {:induction false} EveryNodeIsPlaced(nodes: seq<Id>, depths: Depths)
    ensures Positions(nodes, depths).Keys == set x | x in nodes
    decreases |nodes|
  {
    if nodes != [] {
      EveryNodeIsPlaced(nodes[..|nodes| - 1], depths);
      assert nodes == nodes[..|nodes| - 1] + [nodes[|nodes| - 1]];
    }
  }

  /** The whole drawing: every node has a box, no two boxes overlap, all lie on the canvas. */
  method Draw(nodes: seq<Id>, edges: seq<Edge>) returns (positions: map<Id, Point>, width: nat, height: nat)
    ensures positions.Keys == set x | x in nodes
    ensures forall a, b | a in positions && b in positions && a != b :: Apart(positions[a], positions[b])
    ensures forall a | a in positions :: positions[a].x + BOX_WIDTH <= width && positions[a].y + BOX_HEIGHT <= height
    ensures forall a | a in positions :: positions[a].y == MARGIN + Get(Layers(nodes, edges), a) * ROW
  {
    var depths := AssignDepths(nodes, edges);
    var lanes: map<nat, nat>;
    positions, lanes := Place(nodes, depths);
    width, height := Canvas(nodes, depths, lanes);
    EveryNodeIsPlaced(nodes, depths);
    forall a, b | a in positions && b in positions && a != b ensures Apart(positions[a], positions[b]) {
      BoxesAreApart(nodes, depths, a, b);
    }
    forall a | a in positions
      ensures positions[a].x + BOX_WIDTH <= width && positions[a].y + BOX_HEIGHT <= height
      ensures positions[a].y == MARGIN + Get(depths, a) * ROW
    {
      var lane := LaneIsOpen(nodes, depths, a);
      var k :| 0 <= k < |nodes| && nodes[k] == a;
      assert width >= Get(lanes, Get(depths, nodes[k])) * 300 + 20;
      BoxesFit(nodes, depths, a, width, height);
    }
  }
}
