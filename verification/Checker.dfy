/** The checker of the closed computation language: a program over the single input `source`. */
module Checker {
  import opened Syntax
  import opened Scoping
  import opened Limits
  import opened Wrappers
  import Exactness

  const BUILTINS: set<string> := {"dict", "range", "all", "any", "sum"}
  const FORBIDDEN_BINDINGS: set<string> := BUILTINS + {"source", "Path", "json", "sys"}

  predicate Arity(attr: string, n: nat) {
    || (attr == "get" && 1 <= n <= 2)
    || (attr == "append" && n == 1)
    || (attr == "values" && n == 0)
  }

  predicate Bindable(x: string) {
    x !in FORBIDDEN_BINDINGS && !("_" <= x)
  }

  predicate Accepts(e: Expr, bound: set<string>) {
    match e
    case Name(x) => x in bound
    case Const(c) => !c.Exotic?
    case List(es) => AcceptsAll(es, bound)
    case Tuple(es) => AcceptsAll(es, bound)
    case Dict(es) => AcceptsAll(es, bound)
    case Subscript(b, i) => Accepts(b, bound) && Accepts(i, bound)
    case BinOp(op, l, r) => !op.OtherOperator? && Accepts(l, bound) && Accepts(r, bound)
    case UnaryOp(op, x) => !op.Invert? && Accepts(x, bound)
    case BoolOp(_, es) => AcceptsAll(es, bound)
    case Compare(a, ops, es) => In !in ops && NotIn !in ops && Accepts(a, bound) && AcceptsAll(es, bound)
    case IfExp(c, a, b) => Accepts(c, bound) && Accepts(a, bound) && Accepts(b, bound)
    case CallName(g, es, plain) => plain && g in BUILTINS && |es| == 1 && AcceptsAll(es, bound)
    case CallMethod(r, attr, es, plain) => plain && Arity(attr, |es|) && Accepts(r, bound) && AcceptsAll(es, bound)
    case GenExp(elt, gs) => AcceptsClauses(gs, bound) && Accepts(elt, bound + Locals(gs))
    case Slice(_) => false
    case Other => false
  }

  predicate AcceptsAll(es: seq<Expr>, bound: set<string>) {
    es != [] ==> Accepts(es[0], bound) && AcceptsAll(es[1..], bound)
  }

  predicate AcceptsClauses(gs: seq<Generator>, bound: set<string>) {
    gs != [] ==>
      && !gs[0].isAsync
      && Accepts(gs[0].iter, bound)
      && AcceptsTarget(gs[0].target, bound)
      && AcceptsAll(gs[0].ifs, bound + Bound(gs[0].target))
      && AcceptsClauses(gs[1..], bound + Bound(gs[0].target))
  }

  predicate AcceptsTarget(t: Expr, bound: set<string>) {
    match t
    case Name(x) => Bindable(x)
    case List(ts) => AcceptsTargets(ts, bound)
    case Tuple(ts) => AcceptsTargets(ts, bound)
    case Subscript(b, i) => Accepts(b, bound) && Accepts(i, bound)
    case _ => false
  }

  predicate AcceptsTargets(ts: seq<Expr>, bound: set<string>) {
    ts != [] ==> AcceptsTarget(ts[0], bound) && AcceptsTargets(ts[1..], bound)
  }

  /** The targets of one assignment statement; each sees what the ones before it bind. */
  predicate AcceptsEach(ts: seq<Expr>, bound: set<string>) {
    ts != [] ==> AcceptsTarget(ts[0], bound) && AcceptsEach(ts[1..], bound + Bound(ts[0]))
  }

  predicate AcceptsBlock(ss: seq<Stmt>, bound: set<string>, inLoop: bool) {
    ss != [] ==> AcceptsStmt(ss[0], bound, inLoop) && AcceptsBlock(ss[1..], AfterOne(ss[0], bound), inLoop)
  }

  predicate AcceptsStmt(s: Stmt, bound: set<string>, inLoop: bool) {
    match s
    case Assign(ts, e) => Accepts(e, bound) && AcceptsEach(ts, bound)
    case AugAssign(t, op, e) => !op.OtherOperator? && Accepts(t, bound) && Accepts(e, bound) && AcceptsTarget(t, bound)
    case For(t, e, body, orelse) =>
      orelse == [] && Accepts(e, bound) && AcceptsTarget(t, bound) && AcceptsBlock(body, bound + Bound(t), true)
    case If(c, a, b) => Accepts(c, bound) && AcceptsBlock(a, bound, inLoop) && AcceptsBlock(b, bound, inLoop)
    case Evaluate(e) => Accepts(e, bound)
    case Assert(c, message) => !message && Accepts(c, bound)
    case Break => inLoop
    case Continue => inLoop
    case _ => false
  }

  /** Targets of one assignment, growing the set of bound names as it goes. */
  method Targets(ts: seq<Expr>, start: set<string>) returns (r: Option<set<string>>)
    ensures r == if AcceptsEach(ts, start) then Some(start + BoundAll(ts)) else None
  {
    var bound := start;
    var i := 0;
    while i < |ts|
      invariant i <= |ts|
      invariant AcceptsEach(ts, start) == AcceptsEach(ts[i..], bound)
      invariant start + BoundAll(ts) == bound + BoundAll(ts[i..])
    {
      assert ts[i..][1..] == ts[i + 1..];
      if !AcceptsTarget(ts[i], bound) {
        return None;
      }
      bound := bound + Bound(ts[i]);
      i := i + 1;
    }
    assert ts[i..] == [] && bound + BoundAll([]) == bound;
    return Some(bound);
  }

  /** One pass over a block, growing the set of definitely bound names. A loop may run zero times,
      so what its body binds is not kept; of a conditional, what both branches bind is. */
  method Statements(nodes: seq<Stmt>, start: set<string>, inLoop: bool) returns (r: Option<set<string>>)
    ensures r == if AcceptsBlock(nodes, start, inLoop) then Some(After(nodes, start)) else None
    decreases nodes
  {
    var bound := start;
    var i := 0;
    while i < |nodes|
      invariant i <= |nodes|
      invariant AcceptsBlock(nodes, start, inLoop) == AcceptsBlock(nodes[i..], bound, inLoop)
      invariant After(nodes, start) == After(nodes[i..], bound)
    {
      assert nodes[i..][1..] == nodes[i + 1..];
      var node := nodes[i];
      match node {
        case Assign(ts, e) =>
          if !Accepts(e, bound) { return None; }
          var after := Targets(ts, bound);
          if after.None? { return None; }
          bound := after.value;
        case AugAssign(t, op, e) =>
          if op.OtherOperator? || !Accepts(t, bound) || !Accepts(e, bound) || !AcceptsTarget(t, bound) { return None; }
          bound := bound + Bound(t);
        case For(t, e, body, orelse) =>
          if orelse != [] || !Accepts(e, bound) || !AcceptsTarget(t, bound) { return None; }
          var inside := Statements(body, bound + Bound(t), true);
          if inside.None? { return None; }
        case If(c, a, b) =>
          if !Accepts(c, bound) { return None; }
          var left := Statements(a, bound, inLoop);
          if left.None? { return None; }
          var right := Statements(b, bound, inLoop);
          if right.None? { return None; }
          bound := bound + left.value * right.value;
        case Evaluate(e) =>
          if !Accepts(e, bound) { return None; }
        case Assert(c, message) =>
          if message || !Accepts(c, bound) { return None; }
        case Break =>
          if !inLoop { return None; }
        case Continue =>
          if !inLoop { return None; }
        case _ => return None;
      }
      i := i + 1;
    }
    return Some(bound);
  }

  predicate Valid(body: seq<Stmt>) {
    AcceptsBlock(body, {"source"}, false) && "result" in After(body, {"source"})
  }

  /** Accepted when the tree is within the limits, every statement is, and `result` is definite. */
  method ValidateProgram(tree: Node, body: seq<Stmt>) returns (ok: bool)
    ensures ok <==> Size(tree) <= MAX_NODES && Fits(tree, MAX_DEPTH) && Valid(body)
  {
    ok := WithinLimits(tree, MAX_NODES, MAX_DEPTH);
    if ok {
      var bound := Statements(body, {"source"}, false);
      ok := bound.Some? && "result" in bound.value;
    }
  }

  // Acceptance entails the name discipline of Scoping, and no forbidden name is bound.

  lemma AcceptedIsClosed(e: Expr, bound: set<string>)
    requires Accepts(e, bound)
    ensures Closed(e, bound, BUILTINS)
    decreases e
  {
    match e
    case List(es) => AllAreClosed(es, bound);
    case Tuple(es) => AllAreClosed(es, bound);
    case Dict(es) => AllAreClosed(es, bound);
    case BoolOp(_, es) => AllAreClosed(es, bound);
    case Compare(a, _, es) => AllAreClosed(es, bound);
    case CallName(_, es, _) => AllAreClosed(es, bound);
    case CallMethod(_, _, es, _) => AllAreClosed(es, bound);
    case GenExp(elt, gs) => ClausesAreClosed(gs, bound);
    case _ =>
  }

  lemma AllAreClosed(es: seq<Expr>, bound: set<string>)
    requires AcceptsAll(es, bound)
    ensures ClosedAll(es, bound, BUILTINS)
    decreases es
  {
    if es != [] {
      AcceptedIsClosed(es[0], bound);
      AllAreClosed(es[1..], bound);
    }
  }

  lemma ClausesAreClosed(gs: seq<Generator>, bound: set<string>)
    requires AcceptsClauses(gs, bound)
    ensures ClosedClauses(gs, bound, BUILTINS, false)
    decreases gs
  {
    if gs != [] {
      AcceptedIsClosed(gs[0].iter, bound);
      TargetIsClosed(gs[0].target, bound);
      AllAreClosed(gs[0].ifs, bound + Bound(gs[0].target));
      ClausesAreClosed(gs[1..], bound + Bound(gs[0].target));
    }
  }

  lemma TargetIsClosed(t: Expr, bound: set<string>)
    requires AcceptsTarget(t, bound)
    ensures ClosedTarget(t, bound, BUILTINS) && Bound(t) !! FORBIDDEN_BINDINGS
    decreases t
  {
    match t
    case List(ts) => TargetsAreClosed(ts, bound);
    case Tuple(ts) => TargetsAreClosed(ts, bound);
    case Subscript(b, i) => AcceptedIsClosed(b, bound); AcceptedIsClosed(i, bound);
    case _ =>
  }

  lemma TargetsAreClosed(ts: seq<Expr>, bound: set<string>)
    requires AcceptsTargets(ts, bound)
    ensures ClosedTargets(ts, bound, BUILTINS) && BoundAll(ts) !! FORBIDDEN_BINDINGS
    decreases ts
  {
    if ts != [] {
      TargetIsClosed(ts[0], bound);
      TargetsAreClosed(ts[1..], bound);
    }
  }

  lemma EachIsClosed(ts: seq<Expr>, bound: set<string>)
    requires AcceptsEach(ts, bound)
    ensures ClosedEach(ts, bound, BUILTINS) && BoundAll(ts) !! FORBIDDEN_BINDINGS
    decreases ts
  {
    if ts != [] {
      TargetIsClosed(ts[0], bound);
      EachIsClosed(ts[1..], bound + Bound(ts[0]));
    }
  }

  lemma {:induction false} BlockIsClosed(ss: seq<Stmt>, bound: set<string>, inLoop: bool)
    requires AcceptsBlock(ss, bound, inLoop)
    ensures ClosedBlock(ss, bound, BUILTINS) && Stored(ss) !! FORBIDDEN_BINDINGS && Exactness.Plain(ss)
    decreases ss
  {
    if ss != [] {
      StmtIsClosed(ss[0], bound, inLoop);
      BlockIsClosed(ss[1..], AfterOne(ss[0], bound), inLoop);
    }
  }

  lemma {:induction false} StmtIsClosed(s: Stmt, bound: set<string>, inLoop: bool)
    requires AcceptsStmt(s, bound, inLoop)
    ensures ClosedStmt(s, bound, BUILTINS) && StoredOne(s) !! FORBIDDEN_BINDINGS && Exactness.PlainOne(s)
    decreases s
  {
    match s
    case Assign(ts, e) => AcceptedIsClosed(e, bound); EachIsClosed(ts, bound);
    case AugAssign(t, _, e) => AcceptedIsClosed(t, bound); AcceptedIsClosed(e, bound); TargetIsClosed(t, bound);
    case For(t, e, body, _) => AcceptedIsClosed(e, bound); TargetIsClosed(t, bound);
      BlockIsClosed(body, bound + Bound(t), true);
    case If(c, a, b) => AcceptedIsClosed(c, bound); BlockIsClosed(a, bound, inLoop); BlockIsClosed(b, bound, inLoop);
    case Evaluate(e) => AcceptedIsClosed(e, bound);
    case Assert(c, _) => AcceptedIsClosed(c, bound);
    case _ =>
  }
}
