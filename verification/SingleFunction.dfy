/** The flow-insensitive checker of single reference functions: every name read must be an argument
    or be stored somewhere in the function, whatever the order. */
module SingleFunction {
  import opened Syntax
  import opened Machine
  import opened Scoping
  import opened Limits
  import opened Wrappers
  import Soundness

  const BUILTINS: set<string> := {"enumerate", "range", "len", "reversed"}

  predicate BuiltinArity(g: string, n: nat) {
    || (g == "enumerate" && 1 <= n <= 2)
    || (g == "range" && 1 <= n <= 3)
    || (g in {"len", "reversed"} && n == 1)
  }

  predicate MethodArity(attr: string, n: nat) {
    || (attr in {"count", "append", "remove", "join"} && n == 1)
    || (attr == "split" && n == 0)
  }

  /** `plain`: no decorator, annotation, default, or argument other than positional ones. */
  datatype Function = Function(name: string, args: seq<string>, body: seq<Stmt>, plain: bool)
  {
    function Bound(): set<string> { (set x | x in args) + Stored(body) }
  }

  predicate Admits(e: Expr, bound: set<string>) {
    match e
    case Name(x) => x in bound
    case Const(c) => !c.Exotic?
    case List(es) => AdmitsAll(es, bound)
    case Tuple(es) => AdmitsAll(es, bound)
    case Slice(es) => AdmitsAll(es, bound)
    case Subscript(b, i) => Admits(b, bound) && Admits(i, bound)
    case BinOp(op, l, r) => !op.OtherOperator? && Admits(l, bound) && Admits(r, bound)
    case Compare(a, ops, es) => (forall op | op in ops :: op in {Gt, Lt, NotEq}) && Admits(a, bound)
      && AdmitsAll(es, bound)
    case CallName(g, es, plain) => plain && BuiltinArity(g, |es|) && AdmitsAll(es, bound)
    case CallMethod(r, attr, es, plain) => plain && MethodArity(attr, |es|) && Admits(r, bound) && AdmitsAll(es, bound)
    case _ => false
  }

  predicate AdmitsAll(es: seq<Expr>, bound: set<string>) {
    es != [] ==> Admits(es[0], bound) && AdmitsAll(es[1..], bound)
  }

  predicate AdmitsTarget(t: Expr, bound: set<string>) {
    match t
    case Name(_) => true
    case List(ts) => AdmitsTargets(ts, bound)
    case Tuple(ts) => AdmitsTargets(ts, bound)
    case Subscript(b, i) => Admits(b, bound) && Admits(i, bound)
    case _ => false
  }

  predicate AdmitsTargets(ts: seq<Expr>, bound: set<string>) {
    ts != [] ==> AdmitsTarget(ts[0], bound) && AdmitsTargets(ts[1..], bound)
  }

  predicate AdmitsBlock(ss: seq<Stmt>, bound: set<string>) {
    ss != [] ==> AdmitsStmt(ss[0], bound) && AdmitsBlock(ss[1..], bound)
  }

  predicate AdmitsStmt(s: Stmt, bound: set<string>) {
    match s
    case Assign(ts, e) => Admits(e, bound) && AdmitsTargets(ts, bound)
    case AugAssign(t, op, e) => !op.OtherOperator? && (t.Name? || t.Subscript?) && AdmitsTarget(t, bound)
      && Admits(e, bound)
    case For(t, e, body, orelse) =>
      Admits(e, bound) && AdmitsTarget(t, bound) && AdmitsBlock(body, bound) && AdmitsBlock(orelse, bound)
    case While(c, body, orelse) => Admits(c, bound) && AdmitsBlock(body, bound) && AdmitsBlock(orelse, bound)
    case If(c, a, b) => Admits(c, bound) && AdmitsBlock(a, bound) && AdmitsBlock(b, bound)
    case Evaluate(e) => Admits(e, bound)
    case Return(e) => Admits(e, bound)
    case _ => false
  }

  /** The builtins the report lists: those some call names. */
  function Used(e: Expr): set<string> {
    match e
    case List(es) => UsedAll(es)
    case Tuple(es) => UsedAll(es)
    case Slice(es) => UsedAll(es)
    case Subscript(b, i) => Used(b) + Used(i)
    case BinOp(_, l, r) => Used(l) + Used(r)
    case Compare(a, _, es) => Used(a) + UsedAll(es)
    case CallName(g, es, _) => {g} + UsedAll(es)
    case CallMethod(r, _, es, _) => Used(r) + UsedAll(es)
    case _ => {}
  }

  function UsedAll(es: seq<Expr>): set<string> {
    if es == [] then {} else Used(es[0]) + UsedAll(es[1..])
  }

  function UsedBlock(ss: seq<Stmt>): set<string> {
    if ss == [] then {} else UsedStmt(ss[0]) + UsedBlock(ss[1..])
  }

  function UsedStmt(s: Stmt): set<string> {
    match s
    case Assign(ts, e) => Used(e) + UsedAll(ts)
    case AugAssign(t, _, e) => Used(t) + Used(e)
    case For(t, e, body, orelse) => Used(t) + Used(e) + UsedBlock(body) + UsedBlock(orelse)
    case While(c, body, orelse) => Used(c) + UsedBlock(body) + UsedBlock(orelse)
    case If(c, a, b) => Used(c) + UsedBlock(a) + UsedBlock(b)
    case Evaluate(e) => Used(e)
    case Return(e) => Used(e)
    case _ => {}
  }

  predicate Distinct(xs: seq<string>) {
    forall i, j | 0 <= i < j < |xs| :: xs[i] != xs[j]
  }

  predicate Admissible(f: Function) {
    && f.plain && f.name !in BUILTINS
    && f.args != [] && Distinct(f.args)
    && (forall x | x in f.Bound() :: x !in BUILTINS && !("_" <= x))
    && AdmitsBlock(f.body, f.Bound())
  }

  /** The report: the builtins used, or a refusal. */
  method Inspect(tree: Node, f: Function) returns (r: Option<set<string>>)
    ensures r.Some? <==> Size(tree) <= MAX_NODES && Fits(tree, MAX_DEPTH) && Admissible(f)
    ensures r.Some? ==> r.value == UsedBlock(f.body)
  {
    if f.name in BUILTINS || !f.plain {
      return None;
    }
    var fits := WithinLimits(tree, MAX_NODES, MAX_DEPTH);
    if !fits {
      return None;
    }
    var seen: set<string> := {};
    var i := 0;
    while i < |f.args|
      invariant i <= |f.args|
      invariant seen == set x | x in f.args[..i]
      invariant Distinct(f.args[..i])
    {
      if f.args[i] in seen {
        return None;
      }
      seen := seen + {f.args[i]};
      i := i + 1;
    }
    assert f.args[..i] == f.args;
    var bound := f.Bound();
    if f.args == [] || (exists x | x in bound :: x in BUILTINS || "_" <= x) || !AdmitsBlock(f.body, bound) {
      return None;
    }
    return Some(UsedBlock(f.body));
  }

  // Admitted code meets the name discipline of Scoping with every stored name counted as bound.

  lemma AdmittedIsClosed(e: Expr, bound: set<string>, used: set<string>)
    requires Admits(e, bound) && Used(e) * BUILTINS <= used
    ensures Closed(e, bound, used)
    decreases e
  {
    match e
    case List(es) => AllAreClosed(es, bound, used);
    case Tuple(es) => AllAreClosed(es, bound, used);
    case Slice(es) => AllAreClosed(es, bound, used);
    case Compare(a, _, es) => AllAreClosed(es, bound, used);
    case CallName(_, es, _) => AllAreClosed(es, bound, used);
    case CallMethod(_, _, es, _) => AllAreClosed(es, bound, used);
    case _ =>
  }

  lemma AllAreClosed(es: seq<Expr>, bound: set<string>, used: set<string>)
    requires AdmitsAll(es, bound) && UsedAll(es) * BUILTINS <= used
    ensures ClosedAll(es, bound, used)
    decreases es
  {
    if es != [] {
      AdmittedIsClosed(es[0], bound, used);
      AllAreClosed(es[1..], bound, used);
    }
  }

  lemma TargetIsClosed(t: Expr, bound: set<string>, used: set<string>)
    requires AdmitsTarget(t, bound) && Used(t) * BUILTINS <= used && Syntax.Bound(t) <= bound && bound !! used
    ensures ClosedTarget(t, bound, used)
    decreases t
  {
    match t
    case List(ts) => TargetsAreClosed(ts, bound, used);
    case Tuple(ts) => TargetsAreClosed(ts, bound, used);
    case Subscript(b, i) => AdmittedIsClosed(b, bound, used); AdmittedIsClosed(i, bound, used);
    case _ =>
  }

  lemma TargetsAreClosed(ts: seq<Expr>, bound: set<string>, used: set<string>)
    requires AdmitsTargets(ts, bound) && UsedAll(ts) * BUILTINS <= used && BoundAll(ts) <= bound && bound !! used
    ensures ClosedTargets(ts, bound, used) && ClosedEach(ts, bound, used)
    decreases ts
  {
    if ts != [] {
      TargetIsClosed(ts[0], bound, used);
      TargetsAreClosed(ts[1..], bound, used);
      assert bound + Syntax.Bound(ts[0]) == bound;
    }
  }

  lemma {:induction false} NothingNew(ss: seq<Stmt>, bound: set<string>)
    requires Stored(ss) <= bound
    ensures After(ss, bound) == bound
    decreases ss
  {
    if ss != [] {
      NothingNewOne(ss[0], bound);
      NothingNew(ss[1..], bound);
    }
  }

  lemma {:induction false} NothingNewOne(s: Stmt, bound: set<string>)
    requires StoredOne(s) <= bound
    ensures AfterOne(s, bound) == bound
    decreases s
  {
    if s.If? {
      NothingNew(s.body, bound);
    }
  }

  lemma {:induction false} BlockIsClosed(ss: seq<Stmt>, bound: set<string>, used: set<string>)
    requires AdmitsBlock(ss, bound) && UsedBlock(ss) * BUILTINS <= used && Stored(ss) <= bound && bound !! used
    ensures ClosedBlock(ss, bound, used)
    decreases ss
  {
    if ss != [] {
      StmtIsClosed(ss[0], bound, used);
      NothingNewOne(ss[0], bound);
      BlockIsClosed(ss[1..], bound, used);
    }
  }

  lemma {:induction false} StmtIsClosed(s: Stmt, bound: set<string>, used: set<string>)
    requires AdmitsStmt(s, bound) && UsedStmt(s) * BUILTINS <= used && StoredOne(s) <= bound && bound !! used
    ensures ClosedStmt(s, bound, used)
    decreases s
  {
    match s
    case Assign(ts, e) => AdmittedIsClosed(e, bound, used); TargetsAreClosed(ts, bound, used);
    case AugAssign(t, _, e) =>
      AdmittedIsClosed(e, bound, used);
      TargetIsClosed(t, bound, used);
      assert Closed(t, bound, used);
    case For(t, e, body, orelse) =>
      AdmittedIsClosed(e, bound, used);
      TargetIsClosed(t, bound, used);
      assert bound + Syntax.Bound(t) == bound;
      BlockIsClosed(body, bound, used);
      BlockIsClosed(orelse, bound, used);
    case While(c, body, orelse) =>
      AdmittedIsClosed(c, bound, used);
      BlockIsClosed(body, bound, used);
      BlockIsClosed(orelse, bound, used);
    case If(c, a, b) =>
      AdmittedIsClosed(c, bound, used);
      BlockIsClosed(a, bound, used);
      BlockIsClosed(b, bound, used);
    case Evaluate(e) => AdmittedIsClosed(e, bound, used);
    case Return(e) => AdmittedIsClosed(e, bound, used);
  }

  /** A call: the arguments are bound, every other stored name is local and unbound. */
  function Invoke<V, H>(m: Machine<V, H>, f: Function, arguments: map<string, V>, h: H,
      fuel: nat): Res<(Signal<V>, Frame<V>), H> {
    m.Exec(f.body, Frame(f.Bound(), arguments), h, fuel)
  }

  /** A call of an admitted function depends on its arguments and on the builtins the report lists,
      and on nothing else in the ambient environment -- including whether and how it fails. */
  lemma ArgumentsAreTheOnlyInputs<V, H>(m: Machine<V, H>, other: map<string, V>, f: Function,
      arguments: map<string, V>, h: H, fuel: nat)
    requires Admissible(f)
    requires forall x: string :: x in UsedBlock(f.body) * BUILTINS ==>
      x in m.ambient && x in other && m.ambient[x] == other[x]
    ensures Invoke(m, f, arguments, h, fuel) == Invoke(m.(ambient := other), f, arguments, h, fuel)
  {
    var bound, used := f.Bound(), UsedBlock(f.body) * BUILTINS;
    assert bound !! used;
    BlockIsClosed(f.body, bound, used);
    var frame := Frame(bound, arguments);
    var u := Soundness.Setup(m, other, used);
    assert u.Agrees() && u.Covers(bound, bound - arguments.Keys, frame);
    Soundness.ExecSound(u, f.body, bound, bound - arguments.Keys, frame, h, fuel);
  }
}
