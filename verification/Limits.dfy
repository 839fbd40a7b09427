/** The size limits both program checkers put on a parsed program. */
module Limits {
  const MAX_NODES: nat := 2048
  const MAX_DEPTH: nat := 32

  /** The shape of a parsed program: only the number of nodes and their depth matter to the limits. */
  datatype Node = Node(children: seq<Node>)

  function Size(n: Node): nat { 1 + SizeAll(n.children) }

  function SizeAll(ns: seq<Node>): nat {
    if ns == [] then 0 else Size(ns[0]) + SizeAll(ns[1..])
  }

  /** Whether every node of the tree lies at depth at most `room` below its root. */
  predicate Fits(n: Node, room: int) {
    room >= 0 && FitsAll(n.children, room - 1)
  }

  predicate FitsAll(ns: seq<Node>, room: int) {
    ns != [] ==> Fits(ns[0], room) && FitsAll(ns[1..], room)
  }

  function Waiting(pending: seq<(Node, nat)>): nat {
    if pending == [] then 0 else Size(pending[0].0) + Waiting(pending[1..])
  }

  predicate AllFit(pending: seq<(Node, nat)>, depth: nat) {
    forall k | 0 <= k < |pending| :: Fits(pending[k].0, depth - pending[k].1)
  }

  function Below(ns: seq<Node>, depth: nat): seq<(Node, nat)> {
    seq(|ns|, i requires 0 <= i < |ns| => (ns[i], depth))
  }

  lemma {:induction false} WaitingSplit(a: seq<(Node, nat)>, b: seq<(Node, nat)>)
    ensures Waiting(a + b) == Waiting(a) + Waiting(b)
    decreases |a|
  {
    if a == [] {
      assert a + b == b;
    } else {
      assert (a + b)[1..] == a[1..] + b;
      WaitingSplit(a[1..], b);
    }
  }

  lemma {:induction false} WaitingBelow(ns: seq<Node>, depth: nat)
    ensures Waiting(Below(ns, depth)) == SizeAll(ns)
    decreases |ns|
  {
    if ns != [] {
      assert Below(ns, depth)[1..] == Below(ns[1..], depth);
      WaitingBelow(ns[1..], depth);
    }
  }

  lemma {:induction false} FitsEach(ns: seq<Node>, room: int)
    ensures FitsAll(ns, room) <==> forall k | 0 <= k < |ns| :: Fits(ns[k], room)
    decreases |ns|
  {
    if ns != [] {
      FitsEach(ns[1..], room);
      assert forall k | 1 <= k < |ns| :: ns[k] == ns[1..][k - 1];
    }
  }

  /** The worklist of the limits: whatever the order of the walk, it passes exactly the trees with
      few enough nodes, none of them too deep. */
  method WithinLimits(tree: Node, maxNodes: nat, maxDepth: nat) returns (ok: bool)
    ensures ok <==> Size(tree) <= maxNodes && Fits(tree, maxDepth)
  {
    var pending: seq<(Node, nat)> := [(tree, 0)];
    var count := 0;
    assert Waiting(pending) == Size(tree) by { assert pending[1..] == []; }
    while pending != []
      invariant count + Waiting(pending) == Size(tree) && count <= maxNodes
      invariant AllFit(pending, maxDepth) <==> Fits(tree, maxDepth)
      decreases Waiting(pending)
    {
      var last := |pending| - 1;
      var (node, depth) := pending[last];
      ghost var whole := pending;
      WaitingSplit(pending[..last], pending[last..]);
      assert pending == pending[..last] + pending[last..] && pending[last..][1..] == [];
      pending := pending[..last];
      count := count + 1;
      if count > maxNodes || depth > maxDepth {
        assert !Fits(whole[last].0, maxDepth - whole[last].1) || Size(tree) > maxNodes;
        return false;
      }
      WaitingSplit(pending, Below(node.children, depth + 1));
      WaitingBelow(node.children, depth + 1);
      FitsEach(node.children, maxDepth - depth - 1);
      var next := pending + Below(node.children, depth + 1);
      assert AllFit(next, maxDepth) <==> AllFit(whole, maxDepth) by {
        PushFits(pending, node, depth, maxDepth);
        assert whole == pending + [(node, depth)];
      }
      pending := next;
    }
    return true;
  }

  lemma PushFits(pending: seq<(Node, nat)>, node: Node, depth: nat, maxDepth: nat)
    requires depth <= maxDepth
    ensures AllFit(pending + Below(node.children, depth + 1), maxDepth) <==> AllFit(pending + [(node, depth)], maxDepth)
  {
    FitsEach(node.children, maxDepth - depth - 1);
    var a, b := pending + Below(node.children, depth + 1), pending + [(node, depth)];
    assert forall k | 0 <= k < |pending| :: a[k] == pending[k] && b[k] == pending[k];
    assert b[|pending|] == (node, depth);
    assert forall k | 0 <= k < |node.children| :: a[|pending| + k] == (node.children[k], depth + 1);
    if AllFit(a, maxDepth) {
      forall k | 0 <= k < |node.children| ensures Fits(node.children[k], maxDepth - depth - 1) {
        assert Fits(a[|pending| + k].0, maxDepth - a[|pending| + k].1);
      }
      forall k | 0 <= k < |b| ensures Fits(b[k].0, maxDepth - b[k].1) {
        if k < |pending| { assert Fits(a[k].0, maxDepth - a[k].1); }
      }
    }
    if AllFit(b, maxDepth) {
      assert Fits(b[|pending|].0, maxDepth - b[|pending|].1);
      forall k | 0 <= k < |a| ensures Fits(a[k].0, maxDepth - a[k].1) {
        if k < |pending| { assert Fits(b[k].0, maxDepth - b[k].1); }
      }
    }
  }
}
