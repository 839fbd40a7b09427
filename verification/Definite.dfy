/** What the checker accepts, said without its bookkeeping: the permitted syntax, in which every path
    through a program has bound a name before it reads it. */
module Definite {
  import opened Syntax
  import opened Scoping
  import opened Checker

  // ------------------------------------------------------------- names of expressions

  /** The names an expression reads that it does not bind itself. */
  function Free(e: Expr): set<string> {
    match e
    case Name(x) => {x}
    case Const(_) => {}
    case List(es) => FreeAll(es)
    case Tuple(es) => FreeAll(es)
    case Dict(es) => FreeAll(es)
    case Slice(es) => FreeAll(es)
    case Subscript(b, i) => Free(b) + Free(i)
    case BinOp(_, l, r) => Free(l) + Free(r)
    case UnaryOp(_, x) => Free(x)
    case BoolOp(_, es) => FreeAll(es)
    case Compare(a, _, es) => Free(a) + FreeAll(es)
    case IfExp(c, a, b) => Free(c) + Free(a) + Free(b)
    case CallName(_, es, _) => FreeAll(es)
    case CallMethod(r, _, es, _) => Free(r) + FreeAll(es)
    case GenExp(elt, gs) => FreeClauses(gs) + (Free(elt) - Locals(gs))
    case Other => {}
  }

  function FreeAll(es: seq<Expr>): set<string> {
    if es == [] then {} else Free(es[0]) + FreeAll(es[1..])
  }

  /** A clause sees the targets of the clauses before it, its conditions its own target too. */
  function FreeClauses(gs: seq<Generator>): set<string> {
    if gs == [] then {}
    else
      Free(gs[0].iter) + FreeTarget(gs[0].target) + (FreeAll(gs[0].ifs) + FreeClauses(gs[1..]) - Bound(gs[0].target))
  }

  /** The names a target reads: those of the subscripts in it. */
  function FreeTarget(t: Expr): set<string> {
    match t
    case List(ts) => FreeTargets(ts)
    case Tuple(ts) => FreeTargets(ts)
    case Subscript(b, i) => Free(b) + Free(i)
    case _ => {}
  }

  function FreeTargets(ts: seq<Expr>): set<string> {
    if ts == [] then {} else FreeTarget(ts[0]) + FreeTargets(ts[1..])
  }

  // ----------------------------------------------------------- the permitted syntax

  predicate Permits(e: Expr) {
    match e
    case Name(_) => true
    case Const(c) => !c.Exotic?
    case List(es) => PermitsAll(es)
    case Tuple(es) => PermitsAll(es)
    case Dict(es) => PermitsAll(es)
    case Subscript(b, i) => Permits(b) && Permits(i)
    case BinOp(op, l, r) => (op.Add? || op.Sub?) && Permits(l) && Permits(r)
    case UnaryOp(op, x) => (op.Not? || op.UAdd? || op.USub?) && Permits(x)
    case BoolOp(_, es) => PermitsAll(es)
    case Compare(a, ops, es) => (forall op | op in ops :: !op.In? && !op.NotIn?) && Permits(a) && PermitsAll(es)
    case IfExp(c, a, b) => Permits(c) && Permits(a) && Permits(b)
    case CallName(g, es, plain) => plain && g in {"dict", "range", "all", "any", "sum"} && |es| == 1 && PermitsAll(es)
    case CallMethod(r, attr, es, plain) =>
      && plain && Permits(r) && PermitsAll(es)
      && ((attr == "get" && |es| in {1, 2}) || (attr == "append" && |es| == 1) || (attr == "values" && es == []))
    case GenExp(elt, gs) => PermitsClauses(gs) && Permits(elt)
    case Slice(_) => false
    case Other => false
  }

  predicate PermitsAll(es: seq<Expr>) {
    es != [] ==> Permits(es[0]) && PermitsAll(es[1..])
  }

  predicate PermitsClauses(gs: seq<Generator>) {
    gs != [] ==>
      && !gs[0].isAsync && Permits(gs[0].iter) && PermitsTarget(gs[0].target) && PermitsAll(gs[0].ifs)
      && PermitsClauses(gs[1..])
  }

  predicate PermitsTarget(t: Expr) {
    match t
    case Name(x) => x !in {"dict", "range", "all", "any", "sum", "source", "Path", "json", "sys"} && !("_" <= x)
    case List(ts) => PermitsTargets(ts)
    case Tuple(ts) => PermitsTargets(ts)
    case Subscript(b, i) => Permits(b) && Permits(i)
    case _ => false
  }

  predicate PermitsTargets(ts: seq<Expr>) {
    ts != [] ==> PermitsTarget(ts[0]) && PermitsTargets(ts[1..])
  }

  predicate PermitsBlock(ss: seq<Stmt>, inLoop: bool) {
    ss != [] ==> PermitsStmt(ss[0], inLoop) && PermitsBlock(ss[1..], inLoop)
  }

  predicate PermitsStmt(s: Stmt, inLoop: bool) {
    match s
    case Assign(ts, e) => Permits(e) && PermitsTargets(ts)
    case AugAssign(t, op, e) => (op.Add? || op.Sub?) && Permits(t) && Permits(e) && PermitsTarget(t)
    case For(t, e, body, orelse) => orelse == [] && Permits(e) && PermitsTarget(t) && PermitsBlock(body, true)
    case If(c, a, b) => Permits(c) && PermitsBlock(a, inLoop) && PermitsBlock(b, inLoop)
    case Evaluate(e) => Permits(e)
    case Assert(c, message) => !message && Permits(c)
    case Break => inLoop
    case Continue => inLoop
    case _ => false
  }

  // ------------------------------------------------------------ paths of a program

  /** One thing a path does: it evaluates an expression, or assigns to a target. */
  datatype Move = Use(e: Expr) | Aim(t: Expr)

  function ReadBy(m: Move): set<string> {
    match m
    case Use(e) => Free(e)
    case Aim(t) => FreeTarget(t)
  }

  function BoundBy(m: Move): set<string> {
    match m
    case Use(_) => {}
    case Aim(t) => Bound(t)
  }

  function Aims(ts: seq<Expr>): seq<Move> {
    if ts == [] then [] else [Aim(ts[0])] + Aims(ts[1..])
  }

  /** The paths that pass a block: one branch of every conditional; loops are passed over, as they may
      run no time, and so are break and continue. */
  ghost function Through(ss: seq<Stmt>): set<seq<Move>> {
    if ss == [] then {[]} else set p, q | p in ThroughOne(ss[0]) && q in Through(ss[1..]) :: p + q
  }

  ghost function ThroughOne(s: Stmt): set<seq<Move>> {
    match s
    case Assign(ts, e) => {[Use(e)] + Aims(ts)}
    case AugAssign(t, _, e) => {[Use(t), Use(e), Aim(t)]}
    case For(_, e, _, _) => {[Use(e)]}
    case If(c, a, b) => set p | p in Through(a) + Through(b) :: [Use(c)] + p
    case Evaluate(e) => {[Use(e)]}
    case Assert(c, _) => {[Use(c)]}
    case _ => {[]}
  }

  /** The paths that pass a block or stop anywhere in it, also inside loops. */
  ghost function Into(ss: seq<Stmt>): set<seq<Move>> {
    if ss == [] then {[]}
    else IntoOne(ss[0]) + set p, q | p in ThroughOne(ss[0]) && q in Into(ss[1..]) :: p + q
  }

  ghost function IntoOne(s: Stmt): set<seq<Move>> {
    match s
    case For(t, e, body, _) => {[Use(e)]} + set p | p in Into(body) :: [Use(e), Aim(t)] + p
    case If(c, a, b) => set p | p in Into(a) + Into(b) :: [Use(c)] + p
    case _ => ThroughOne(s)
  }

  predicate Binds(p: seq<Move>, x: string) {
    exists i | 0 <= i < |p| :: x in BoundBy(p[i])
  }

  /** Every name is bound from the start, or by an earlier move of the path, when it is read. */
  ghost predicate Covered(p: seq<Move>, bound: set<string>) {
    forall i: int, x: string | 0 <= i < |p| && x in ReadBy(p[i]) :: x in bound || Binds(p[..i], x)
  }

  // ---------------------------------------------------------------- expressions

  lemma {:induction false} AcceptsIs(e: Expr, bound: set<string>)
    ensures Accepts(e, bound) <==> Permits(e) && Free(e) <= bound
    decreases e
  {
    hide AcceptsAll, PermitsAll, FreeAll, AcceptsClauses, PermitsClauses, FreeClauses;
    match e
    case List(es) => AllIs(es, bound);
    case Tuple(es) => AllIs(es, bound);
    case Dict(es) => AllIs(es, bound);
    case Subscript(b, i) => AcceptsIs(b, bound); AcceptsIs(i, bound);
    case BinOp(_, l, r) => AcceptsIs(l, bound); AcceptsIs(r, bound);
    case UnaryOp(_, x) => AcceptsIs(x, bound);
    case BoolOp(_, es) => AllIs(es, bound);
    case Compare(a, _, es) => AcceptsIs(a, bound); AllIs(es, bound);
    case IfExp(c, a, b) => AcceptsIs(c, bound); AcceptsIs(a, bound); AcceptsIs(b, bound);
    case CallName(_, es, _) => AllIs(es, bound);
    case CallMethod(r, _, es, _) => AcceptsIs(r, bound); AllIs(es, bound);
    case GenExp(elt, gs) =>
      ClausesIs(gs, bound);
      AcceptsIs(elt, bound + Locals(gs));
    case _ =>
  }

  lemma AllIs(es: seq<Expr>, bound: set<string>)
    ensures AcceptsAll(es, bound) <==> PermitsAll(es) && FreeAll(es) <= bound
    decreases es
  {
    if es != [] {
      AcceptsIs(es[0], bound);
      AllIs(es[1..], bound);
    }
  }

  lemma ClausesIs(gs: seq<Generator>, bound: set<string>)
    ensures AcceptsClauses(gs, bound) <==> PermitsClauses(gs) && FreeClauses(gs) <= bound
    decreases gs
  {
    if gs != [] {
      AcceptsIs(gs[0].iter, bound);
      TargetIs(gs[0].target, bound);
      AllIs(gs[0].ifs, bound + Bound(gs[0].target));
      ClausesIs(gs[1..], bound + Bound(gs[0].target));
    }
  }

  lemma TargetIs(t: Expr, bound: set<string>)
    ensures AcceptsTarget(t, bound) <==> PermitsTarget(t) && FreeTarget(t) <= bound
    decreases t
  {
    match t
    case List(ts) => TargetsIs(ts, bound);
    case Tuple(ts) => TargetsIs(ts, bound);
    case Subscript(b, i) =>
      AcceptsIs(b, bound);
      AcceptsIs(i, bound);
    case _ =>
  }

  lemma TargetsIs(ts: seq<Expr>, bound: set<string>)
    ensures AcceptsTargets(ts, bound) <==> PermitsTargets(ts) && FreeTargets(ts) <= bound
    decreases ts
  {
    if ts != [] {
      TargetIs(ts[0], bound);
      TargetsIs(ts[1..], bound);
    }
  }

  // ------------------------------------------------------------------ definiteness

  /** Every path that passes the block binds x. */
  ghost predicate Always(ss: seq<Stmt>, x: string) {
    forall p | p in Through(ss) :: Binds(p, x)
  }

  ghost predicate AlwaysOne(s: Stmt, x: string) {
    forall p | p in ThroughOne(s) :: Binds(p, x)
  }

  lemma BindsAppend(p: seq<Move>, q: seq<Move>, x: string)
    ensures Binds(p + q, x) <==> Binds(p, x) || Binds(q, x)
  {
    if Binds(p, x) {
      var i :| 0 <= i < |p| && x in BoundBy(p[i]);
      assert (p + q)[i] == p[i];
    }
    if Binds(q, x) {
      var i :| 0 <= i < |q| && x in BoundBy(q[i]);
      assert (p + q)[|p| + i] == q[i];
    }
  }

  lemma BindsOne(m: Move, x: string)
    ensures Binds([m], x) <==> x in BoundBy(m)
  {
    assert [m][0] == m;
  }

  /** Passing a statement and then the rest always binds x when one of the two does. */
  lemma AlwaysSplits(ss: seq<Stmt>, x: string)
    requires ss != []
    ensures Always(ss, x) <==> AlwaysOne(ss[0], x) || Always(ss[1..], x)
  {
    if AlwaysOne(ss[0], x) || Always(ss[1..], x) {
      forall r | r in Through(ss) ensures Binds(r, x) {
        var p, q :| p in ThroughOne(ss[0]) && q in Through(ss[1..]) && r == p + q;
        BindsAppend(p, q, x);
      }
    } else {
      var p :| p in ThroughOne(ss[0]) && !Binds(p, x);
      var q :| q in Through(ss[1..]) && !Binds(q, x);
      BindsAppend(p, q, x);
      assert p + q in Through(ss);
    }
  }

  lemma {:induction false} AimsBind(ts: seq<Expr>, x: string)
    ensures Binds(Aims(ts), x) <==> x in BoundAll(ts)
  {
    if ts != [] {
      AimsBind(ts[1..], x);
      BindsAppend([Aim(ts[0])], Aims(ts[1..]), x);
      BindsOne(Aim(ts[0]), x);
    }
  }

  /** A name is definite after a block exactly when it was before or every path through binds it. */
  lemma {:induction false} DefiniteIs(ss: seq<Stmt>, bound: set<string>, x: string)
    ensures x in After(ss, bound) <==> x in bound || Always(ss, x)
    decreases ss
  {
    if ss == [] {
      assert [] in Through(ss);
      assert !Binds([], x);
    } else {
      DefiniteOneIs(ss[0], bound, x);
      DefiniteIs(ss[1..], AfterOne(ss[0], bound), x);
      AlwaysSplits(ss, x);
    }
  }

  lemma {:induction false} DefiniteOneIs(s: Stmt, bound: set<string>, x: string)
    ensures x in AfterOne(s, bound) <==> x in bound || AlwaysOne(s, x)
    decreases s
  {
    match s
    case Assign(ts, e) =>
      AimsBind(ts, x);
      BindsAppend([Use(e)], Aims(ts), x);
      BindsOne(Use(e), x);
      assert AlwaysOne(s, x) <==> Binds([Use(e)] + Aims(ts), x);
    case AugAssign(t, _, e) =>
      var p := [Use(t), Use(e), Aim(t)];
      assert p[2] == Aim(t);
      assert AlwaysOne(s, x) <==> Binds(p, x);
    case If(c, a, b) =>
      DefiniteIs(a, bound, x);
      DefiniteIs(b, bound, x);
      BranchesBind(c, a, b, x);
    case For(_, e, _, _) => NothingBound(s, [Use(e)], x);
    case Evaluate(e) => NothingBound(s, [Use(e)], x);
    case Assert(c, _) => NothingBound(s, [Use(c)], x);
    case _ => NothingBound(s, [], x);
  }

  lemma NothingBound(s: Stmt, p: seq<Move>, x: string)
    requires ThroughOne(s) == {p} && forall m | m in p :: m.Use?
    ensures !AlwaysOne(s, x)
  {
    assert !Binds(p, x);
    assert p in ThroughOne(s);
  }

  lemma BranchesBind(c: Expr, a: seq<Stmt>, b: seq<Stmt>, x: string)
    ensures AlwaysOne(If(c, a, b), x) <==> Always(a, x) && Always(b, x)
  {
    var s := If(c, a, b);
    forall p: seq<Move> ensures Binds([Use(c)] + p, x) <==> Binds(p, x) {
      BindsAppend([Use(c)], p, x);
      BindsOne(Use(c), x);
    }
    if AlwaysOne(s, x) {
      forall p | p in Through(a) + Through(b) ensures Binds(p, x) {
        assert [Use(c)] + p in ThroughOne(s);
      }
    }
  }

  // -------------------------------------------------------------------- acceptance

  /** The names a path reads before it has bound them. */
  function Needed(p: seq<Move>): set<string> {
    if p == [] then {} else ReadBy(p[0]) + (Needed(p[1..]) - BoundBy(p[0]))
  }

  /** The names a path binds. */
  function Gained(p: seq<Move>): set<string> {
    if p == [] then {} else BoundBy(p[0]) + Gained(p[1..])
  }

  lemma {:induction false} GainedIs(p: seq<Move>, x: string)
    ensures x in Gained(p) <==> Binds(p, x)
  {
    if p != [] {
      GainedIs(p[1..], x);
      BindsAppend([p[0]], p[1..], x);
      BindsOne(p[0], x);
      assert p == [p[0]] + p[1..];
    }
  }

  lemma {:induction false} NeededAppend(p: seq<Move>, q: seq<Move>)
    ensures Needed(p + q) == Needed(p) + (Needed(q) - Gained(p))
  {
    if p == [] {
      assert p + q == q;
    } else {
      NeededAppend(p[1..], q);
      assert (p + q)[1..] == p[1..] + q;
    }
  }

  lemma {:induction false} CoveredIs(p: seq<Move>, bound: set<string>)
    ensures Covered(p, bound) <==> Needed(p) <= bound
    decreases |p|
  {
    if p != [] {
      var init, last := p[..|p| - 1], p[|p| - 1];
      CoveredIs(init, bound);
      NeededAppend(init, [last]);
      assert p == init + [last];
      assert Needed([last]) == ReadBy(last) + (Needed([]) - BoundBy(last)) by { assert [last][1..] == []; }
      forall x ensures x in Gained(init) <==> Binds(init, x) { GainedIs(init, x); }
      CoveredStep(p, bound);
    }
  }

  lemma CoveredStep(p: seq<Move>, bound: set<string>)
    requires p != []
    ensures var init := p[..|p| - 1];
      Covered(p, bound) <==>
        Covered(init, bound) && forall x | x in ReadBy(p[|p| - 1]) :: x in bound || Binds(init, x)
  {
    var init := p[..|p| - 1];
    assert forall i | 0 <= i < |init| :: init[i] == p[i] && init[..i] == p[..i];
  }

  ghost predicate AllNeed(ps: set<seq<Move>>, bound: set<string>) {
    forall p | p in ps :: Needed(p) <= bound
  }

  lemma NeededOne(m: Move)
    ensures Needed([m]) == ReadBy(m) && Gained([m]) == BoundBy(m)
  {
    assert [m][1..] == [];
  }

  lemma {:induction false} EachIs(ts: seq<Expr>, bound: set<string>)
    ensures AcceptsEach(ts, bound) <==> PermitsTargets(ts) && Needed(Aims(ts)) <= bound
  {
    if ts != [] {
      TargetIs(ts[0], bound);
      EachIs(ts[1..], bound + Bound(ts[0]));
      assert Aims(ts)[1..] == Aims(ts[1..]);
    }
  }

  /** Some path passes every block, and it is among those that go into it. */
  lemma {:induction false} PassingGoesInto(ss: seq<Stmt>)
    ensures Through(ss) <= Into(ss) && Through(ss) != {}
    decreases ss
  {
    if ss == [] {
      assert [] in Through(ss);
    } else {
      PassingGoesIntoOne(ss[0]);
      PassingGoesInto(ss[1..]);
      var p :| p in ThroughOne(ss[0]);
      var q :| q in Through(ss[1..]);
      assert p + q in Through(ss);
    }
  }

  lemma {:induction false} PassingGoesIntoOne(s: Stmt)
    ensures ThroughOne(s) <= IntoOne(s) && ThroughOne(s) != {}
    decreases s
  {
    match s
    case If(c, a, b) =>
      PassingGoesInto(a);
      PassingGoesInto(b);
      var p :| p in Through(a);
      assert [Use(c)] + p in ThroughOne(s);
    case Assign(ts, e) => assert [Use(e)] + Aims(ts) in ThroughOne(s);
    case AugAssign(t, _, e) => assert [Use(t), Use(e), Aim(t)] in ThroughOne(s);
    case For(_, e, _, _) => assert [Use(e)] in ThroughOne(s);
    case Evaluate(e) => assert [Use(e)] in ThroughOne(s);
    case Assert(c, _) => assert [Use(c)] in ThroughOne(s);
    case _ => assert [] in ThroughOne(s);
  }

  /** Putting moves in front of every path of a nonempty set. */
  lemma Prefixed(first: seq<Move>, ps: set<seq<Move>>, bound: set<string>)
    requires ps != {}
    ensures AllNeed(set p | p in ps :: first + p, bound) <==>
            Needed(first) <= bound && AllNeed(ps, bound + Gained(first))
  {
    var all := set p | p in ps :: first + p;
    forall p | p in ps
      ensures Needed(first + p) <= bound <==> Needed(first) <= bound && Needed(p) <= bound + Gained(first) {
      NeededAppend(first, p);
    }
    if AllNeed(all, bound) {
      var p :| p in ps;
      assert first + p in all;
      forall p | p in ps ensures Needed(p) <= bound + Gained(first) {
        assert first + p in all;
      }
    }
  }

  lemma {:induction false} StmtIs(s: Stmt, bound: set<string>, inLoop: bool)
    ensures AcceptsStmt(s, bound, inLoop) <==> PermitsStmt(s, inLoop) && AllNeed(IntoOne(s), bound)
    decreases s
  {
    hide Accepts, Permits, Free, AcceptsTarget, PermitsTarget, FreeTarget;
    match s
    case Assign(ts, e) =>
      AcceptsIs(e, bound);
      EachIs(ts, bound);
      NeededAppend([Use(e)], Aims(ts));
      NeededOne(Use(e));
      assert IntoOne(s) == {[Use(e)] + Aims(ts)};
    case AugAssign(t, _, e) =>
      AcceptsIs(t, bound);
      AcceptsIs(e, bound);
      TargetIs(t, bound);
      ThreeMoves(Use(t), Use(e), Aim(t));
      assert IntoOne(s) == {[Use(t), Use(e), Aim(t)]};
    case For(t, e, body, _) => LoopIs(s, bound, inLoop);
    case If(c, a, b) => IfIs(s, bound, inLoop);
    case Evaluate(e) =>
      AcceptsIs(e, bound);
      NeededOne(Use(e));
      assert IntoOne(s) == {[Use(e)]};
    case Assert(c, _) =>
      AcceptsIs(c, bound);
      NeededOne(Use(c));
      assert IntoOne(s) == {[Use(c)]};
    case _ => assert IntoOne(s) == {[]};
  }

  lemma ThreeMoves(a: Move, b: Move, c: Move)
    requires a.Use? && b.Use?
    ensures Needed([a, b, c]) == ReadBy(a) + ReadBy(b) + ReadBy(c)
  {
    assert [a, b, c][1..] == [b, c] && [b, c][1..] == [c];
    NeededOne(c);
  }

  lemma {:induction false} LoopIs(s: Stmt, bound: set<string>, inLoop: bool)
    requires s.For?
    ensures AcceptsStmt(s, bound, inLoop) <==> PermitsStmt(s, inLoop) && AllNeed(IntoOne(s), bound)
    decreases s, 0
  {
    hide Accepts, Permits, Free, AcceptsTarget, PermitsTarget, FreeTarget, Into;
    var (t, e, body) := (s.target, s.iter, s.body);
    AcceptsIs(e, bound);
    TargetIs(t, bound);
    BlockIs(body, bound + Bound(t), true);
    PassingGoesInto(body);
    var first := [Use(e), Aim(t)];
    assert first[1..] == [Aim(t)];
    NeededOne(Aim(t));
    NeededOne(Use(e));
    Prefixed(first, Into(body), bound);
    var within := set p | p in Into(body) :: first + p;
    assert IntoOne(s) == {[Use(e)]} + within;
    assert AllNeed(IntoOne(s), bound) <==> Needed([Use(e)]) <= bound && AllNeed(within, bound);
  }

  lemma {:induction false} IfIs(s: Stmt, bound: set<string>, inLoop: bool)
    requires s.If?
    ensures AcceptsStmt(s, bound, inLoop) <==> PermitsStmt(s, inLoop) && AllNeed(IntoOne(s), bound)
    decreases s, 0
  {
    hide Accepts, Permits, Free, Into;
    var (c, a, b) := (s.test, s.body, s.orelse);
    AcceptsIs(c, bound);
    BlockIs(a, bound, inLoop);
    BlockIs(b, bound, inLoop);
    PassingGoesInto(a);
    NeededOne(Use(c));
    Prefixed([Use(c)], Into(a) + Into(b), bound);
    assert AllNeed(Into(a) + Into(b), bound) <==> AllNeed(Into(a), bound) && AllNeed(Into(b), bound);
    assert bound + {} == bound;
  }

  lemma {:induction false} BlockIs(ss: seq<Stmt>, bound: set<string>, inLoop: bool)
    ensures AcceptsBlock(ss, bound, inLoop) <==> PermitsBlock(ss, inLoop) && AllNeed(Into(ss), bound)
    decreases ss
  {
    hide AcceptsStmt, PermitsStmt, IntoOne, ThroughOne;
    if ss == [] {
      assert Needed([]) == {};
    } else {
      StmtIs(ss[0], bound, inLoop);
      BlockIs(ss[1..], AfterOne(ss[0], bound), inLoop);
      RestIs(ss, bound);
    }
  }

  /** The rest of a block needs only what is definite after its first statement, exactly when on every
      path its needs are met by what that path has bound. */
  lemma RestIs(ss: seq<Stmt>, bound: set<string>)
    requires ss != []
    ensures AllNeed(Into(ss), bound) <==>
            AllNeed(IntoOne(ss[0]), bound) && AllNeed(Into(ss[1..]), AfterOne(ss[0], bound))
  {
    hide ThroughOne, IntoOne, AfterOne;
    var rest, after := Into(ss[1..]), AfterOne(ss[0], bound);
    PassingGoesIntoOne(ss[0]);
    if AllNeed(IntoOne(ss[0]), bound) && AllNeed(rest, after) {
      forall p, q | p in ThroughOne(ss[0]) && q in rest ensures Needed(p + q) <= bound {
        NeededAppend(p, q);
        forall x | x in Needed(q) ensures x in bound || x in Gained(p) {
          assert x in after;
          DefiniteOneIs(ss[0], bound, x);
          GainedIs(p, x);
        }
      }
    }
    if AllNeed(Into(ss), bound) {
      forall q, x | q in rest && x in Needed(q) ensures x in after {
        DefiniteOneIs(ss[0], bound, x);
        if x !in bound {
          forall p | p in ThroughOne(ss[0]) ensures Binds(p, x) {
            assert p + q in Into(ss);
            NeededAppend(p, q);
            GainedIs(p, x);
          }
        }
      }
    }
  }

  // ------------------------------------------------------------------ main claims

  /** A block is accepted exactly when it is of the permitted syntax and, on every path through it or
      into it, each name is bound before it is read. */
  lemma AcceptedExactlyWhen(ss: seq<Stmt>, bound: set<string>, inLoop: bool)
    ensures AcceptsBlock(ss, bound, inLoop) <==>
            PermitsBlock(ss, inLoop) && forall p | p in Into(ss) :: Covered(p, bound)
  {
    hide AcceptsBlock, PermitsBlock, Into, Covered, Needed;
    BlockIs(ss, bound, inLoop);
    forall p | p in Into(ss) ensures Covered(p, bound) <==> Needed(p) <= bound {
      CoveredIs(p, bound);
    }
  }

  /** A program is accepted exactly when, besides, every path through it binds `result`. */
  lemma ValidExactlyWhen(body: seq<Stmt>)
    ensures Valid(body) <==>
      && PermitsBlock(body, false)
      && (forall p | p in Into(body) :: Covered(p, {"source"}))
      && (forall p | p in Through(body) :: Binds(p, "result"))
  {
    hide AcceptsBlock, PermitsBlock, Into, Covered, Through, Binds;
    AcceptedExactlyWhen(body, {"source"}, false);
    DefiniteIs(body, {"source"}, "result");
  }
}
