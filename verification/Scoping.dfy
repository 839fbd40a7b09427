/** What a checker has to know about names: which reads are covered by earlier bindings, which
    names are definitely bound after a statement, which names a program can bind, and which reads
    inside generator expressions are hidden by a target of the same expression. */
module Scoping {
  import opened Syntax

  /** Every name read is in `bound`, or is called as one of `builtins`; no target rebinds a builtin. */
  predicate Closed(e: Expr, bound: set<string>, builtins: set<string>) {
    match e
    case Name(x) => x in bound
    case Const(_) => true
    case List(es) => ClosedAll(es, bound, builtins)
    case Tuple(es) => ClosedAll(es, bound, builtins)
    case Dict(es) => ClosedAll(es, bound, builtins)
    case Slice(es) => ClosedAll(es, bound, builtins)
    case Subscript(b, i) => Closed(b, bound, builtins) && Closed(i, bound, builtins)
    case BinOp(_, l, r) => Closed(l, bound, builtins) && Closed(r, bound, builtins)
    case UnaryOp(_, x) => Closed(x, bound, builtins)
    case BoolOp(_, es) => ClosedAll(es, bound, builtins)
    case Compare(a, _, es) => Closed(a, bound, builtins) && ClosedAll(es, bound, builtins)
    case IfExp(c, a, b) => Closed(c, bound, builtins) && Closed(a, bound, builtins) && Closed(b, bound, builtins)
    case CallName(g, es, _) => g in builtins && ClosedAll(es, bound, builtins)
    case CallMethod(r, _, es, _) => Closed(r, bound, builtins) && ClosedAll(es, bound, builtins)
    case GenExp(elt, gs) => ClosedClauses(gs, bound, builtins, false) && Closed(elt, bound + Locals(gs), builtins)
    case Other => false
  }

  predicate ClosedAll(es: seq<Expr>, bound: set<string>, builtins: set<string>) {
    es != [] ==> Closed(es[0], bound, builtins) && ClosedAll(es[1..], bound, builtins)
  }

  /** `entered`: the first iterable has been evaluated already. */
  predicate ClosedClauses(gs: seq<Generator>, bound: set<string>, builtins: set<string>, entered: bool) {
    gs != [] ==>
      && (entered || Closed(gs[0].iter, bound, builtins))
      && ClosedTarget(gs[0].target, bound, builtins)
      && ClosedAll(gs[0].ifs, bound + Bound(gs[0].target), builtins)
      && ClosedClauses(gs[1..], bound + Bound(gs[0].target), builtins, false)
  }

  predicate ClosedTarget(t: Expr, bound: set<string>, builtins: set<string>) {
    match t
    case Name(x) => x !in builtins
    case List(ts) => ClosedTargets(ts, bound, builtins)
    case Tuple(ts) => ClosedTargets(ts, bound, builtins)
    case Subscript(b, i) => Closed(b, bound, builtins) && Closed(i, bound, builtins)
    case _ => false
  }

  /** The targets of one unpacking: none sees the names its neighbours bind. */
  predicate ClosedTargets(ts: seq<Expr>, bound: set<string>, builtins: set<string>) {
    ts != [] ==> ClosedTarget(ts[0], bound, builtins) && ClosedTargets(ts[1..], bound, builtins)
  }

  /** The targets of one assignment statement: each sees what the ones before it bind. */
  predicate ClosedEach(ts: seq<Expr>, bound: set<string>, builtins: set<string>) {
    ts != [] ==> ClosedTarget(ts[0], bound, builtins) && ClosedEach(ts[1..], bound + Bound(ts[0]), builtins)
  }

  /** The names bound whenever the statements finish normally. */
  function After(ss: seq<Stmt>, bound: set<string>): set<string> {
    if ss == [] then bound else After(ss[1..], AfterOne(ss[0], bound))
  }

  function AfterOne(s: Stmt, bound: set<string>): set<string> {
    match s
    case Assign(ts, _) => bound + BoundAll(ts)
    case AugAssign(t, _, _) => bound + Bound(t)
    case If(_, a, b) => bound + After(a, bound) * After(b, bound)
    case _ => bound
  }

  predicate ClosedBlock(ss: seq<Stmt>, bound: set<string>, builtins: set<string>) {
    ss != [] ==> ClosedStmt(ss[0], bound, builtins) && ClosedBlock(ss[1..], AfterOne(ss[0], bound), builtins)
  }

  predicate ClosedStmt(s: Stmt, bound: set<string>, builtins: set<string>) {
    match s
    case Assign(ts, e) => Closed(e, bound, builtins) && ClosedEach(ts, bound, builtins)
    case AugAssign(t, _, e) => Closed(t, bound, builtins) && Closed(e, bound, builtins)
      && ClosedTarget(t, bound, builtins)
    case For(t, e, body, orelse) =>
      && Closed(e, bound, builtins) && ClosedTarget(t, bound, builtins)
      && ClosedBlock(body, bound + Bound(t), builtins) && ClosedBlock(orelse, bound, builtins)
    case While(c, body, orelse) =>
      Closed(c, bound, builtins) && ClosedBlock(body, bound, builtins) && ClosedBlock(orelse, bound, builtins)
    case If(c, a, b) => Closed(c, bound, builtins) && ClosedBlock(a, bound, builtins) && ClosedBlock(b, bound, builtins)
    case Evaluate(e) => Closed(e, bound, builtins)
    case Assert(c, _) => Closed(c, bound, builtins)
    case Return(e) => Closed(e, bound, builtins)
    case Break => true
    case Continue => true
    case OtherStmt => false
  }

  /** Every name some target of the statements binds, generator expressions aside. */
  function Stored(ss: seq<Stmt>): set<string> {
    if ss == [] then {} else StoredOne(ss[0]) + Stored(ss[1..])
  }

  function StoredOne(s: Stmt): set<string> {
    match s
    case Assign(ts, _) => BoundAll(ts)
    case AugAssign(t, _, _) => Bound(t)
    case For(t, _, body, orelse) => Bound(t) + Stored(body) + Stored(orelse)
    case While(_, body, orelse) => Stored(body) + Stored(orelse)
    case If(_, a, b) => Stored(a) + Stored(b)
    case _ => {}
  }

  /** Whether some run can get past the statements: nothing after a break, continue or return runs. */
  predicate Falls(ss: seq<Stmt>) {
    ss != [] ==> FallsOne(ss[0]) && Falls(ss[1..])
  }

  predicate FallsOne(s: Stmt) {
    match s
    case Break => false
    case Continue => false
    case Return(_) => false
    case If(_, a, b) => Falls(a) || Falls(b)
    case _ => true
  }

  /** No name of `hidden` is read. In a generator expression the targets of all clauses are hidden
      after the first iterable has been evaluated, each until its own clause binds it. */
  predicate Visible(e: Expr, hidden: set<string>) {
    match e
    case Name(x) => x !in hidden
    case Const(_) => true
    case List(es) => VisibleAll(es, hidden)
    case Tuple(es) => VisibleAll(es, hidden)
    case Dict(es) => VisibleAll(es, hidden)
    case Slice(es) => VisibleAll(es, hidden)
    case Subscript(b, i) => Visible(b, hidden) && Visible(i, hidden)
    case BinOp(_, l, r) => Visible(l, hidden) && Visible(r, hidden)
    case UnaryOp(_, x) => Visible(x, hidden)
    case BoolOp(_, es) => VisibleAll(es, hidden)
    case Compare(a, _, es) => Visible(a, hidden) && VisibleAll(es, hidden)
    case IfExp(c, a, b) => Visible(c, hidden) && Visible(a, hidden) && Visible(b, hidden)
    case CallName(_, es, _) => VisibleAll(es, hidden)
    case CallMethod(r, _, es, _) => Visible(r, hidden) && VisibleAll(es, hidden)
    case GenExp(elt, gs) =>
      && (gs != [] ==> Visible(gs[0].iter, hidden))
      && VisibleClauses(gs, hidden + Locals(gs), true)
      && Visible(elt, hidden - Locals(gs))
    case Other => true
  }

  predicate VisibleAll(es: seq<Expr>, hidden: set<string>) {
    es != [] ==> Visible(es[0], hidden) && VisibleAll(es[1..], hidden)
  }

  predicate VisibleClauses(gs: seq<Generator>, hidden: set<string>, entered: bool) {
    gs != [] ==>
      && (entered || Visible(gs[0].iter, hidden))
      && VisibleTarget(gs[0].target, hidden)
      && VisibleAll(gs[0].ifs, hidden - Bound(gs[0].target))
      && VisibleClauses(gs[1..], hidden - Bound(gs[0].target), false)
  }

  predicate VisibleTarget(t: Expr, hidden: set<string>) {
    match t
    case List(ts) => VisibleTargets(ts, hidden)
    case Tuple(ts) => VisibleTargets(ts, hidden)
    case Subscript(b, i) => Visible(b, hidden) && Visible(i, hidden)
    case _ => true
  }

  predicate VisibleTargets(ts: seq<Expr>, hidden: set<string>) {
    ts != [] ==> VisibleTarget(ts[0], hidden) && VisibleTargets(ts[1..], hidden - Bound(ts[0]))
  }

  /** The same for the statements some run can reach; outside generator expressions nothing is hidden. */
  predicate VisibleBlock(ss: seq<Stmt>) {
    ss != [] ==> VisibleStmt(ss[0]) && (FallsOne(ss[0]) ==> VisibleBlock(ss[1..]))
  }

  predicate VisibleStmt(s: Stmt) {
    match s
    case Assign(ts, e) => Visible(e, {}) && VisibleTargets(ts, {})
    case AugAssign(t, _, e) => Visible(t, {}) && Visible(e, {})
    case For(t, e, body, orelse) => Visible(e, {}) && VisibleTarget(t, {}) && VisibleBlock(body) && VisibleBlock(orelse)
    case While(c, body, orelse) => Visible(c, {}) && VisibleBlock(body) && VisibleBlock(orelse)
    case If(c, a, b) => Visible(c, {}) && VisibleBlock(a) && VisibleBlock(b)
    case Evaluate(e) => Visible(e, {})
    case Assert(c, _) => Visible(c, {})
    case Return(e) => Visible(e, {})
    case _ => true
  }

  /** What Python's grammar guarantees. */
  predicate WellFormed(e: Expr) {
    match e
    case Name(_) => true
    case Const(_) => true
    case List(es) => WellFormedAll(es)
    case Tuple(es) => WellFormedAll(es)
    case Dict(es) => WellFormedAll(es)
    case Slice(es) => WellFormedAll(es)
    case Subscript(b, i) => WellFormed(b) && WellFormed(i)
    case BinOp(_, l, r) => WellFormed(l) && WellFormed(r)
    case UnaryOp(_, x) => WellFormed(x)
    case BoolOp(_, es) => es != [] && WellFormedAll(es)
    case Compare(a, ops, es) => |ops| == |es| && es != [] && WellFormed(a) && WellFormedAll(es)
    case IfExp(c, a, b) => WellFormed(c) && WellFormed(a) && WellFormed(b)
    case CallName(_, es, _) => WellFormedAll(es)
    case CallMethod(r, _, es, _) => WellFormed(r) && WellFormedAll(es)
    case GenExp(elt, gs) => gs != [] && WellFormed(elt) && WellFormedClauses(gs)
    case Other => true
  }

  predicate WellFormedAll(es: seq<Expr>) {
    es != [] ==> WellFormed(es[0]) && WellFormedAll(es[1..])
  }

  predicate WellFormedClauses(gs: seq<Generator>) {
    gs != [] ==>
      && WellFormed(gs[0].target) && WellFormed(gs[0].iter) && WellFormedAll(gs[0].ifs)
      && WellFormedClauses(gs[1..])
  }

  predicate WellFormedBlock(ss: seq<Stmt>) {
    ss != [] ==> WellFormedStmt(ss[0]) && WellFormedBlock(ss[1..])
  }

  predicate WellFormedStmt(s: Stmt) {
    match s
    case Assign(ts, e) => WellFormedAll(ts) && WellFormed(e)
    case AugAssign(t, _, e) => (t.Name? || t.Subscript?) && WellFormed(t) && WellFormed(e)
    case For(t, e, body, orelse) => WellFormed(t) && WellFormed(e) && WellFormedBlock(body) && WellFormedBlock(orelse)
    case While(c, body, orelse) => WellFormed(c) && WellFormedBlock(body) && WellFormedBlock(orelse)
    case If(c, a, b) => WellFormed(c) && WellFormedBlock(a) && WellFormedBlock(b)
    case Evaluate(e) => WellFormed(e)
    case Assert(c, _) => WellFormed(c)
    case Return(e) => WellFormed(e)
    case _ => true
  }
}