/** Closed code behaves the same whatever the ambient environment holds beyond the builtins, and
    closed code whose reads are all visible never reads an unbound name. Both are proved in one
    induction over the run: Run is the pair of machines compared and what is assumed of them. */
module Soundness {
  import opened Syntax
  import opened Machine
  import opened Scoping
  import opened Growth
  import opened Wrappers

  /** A machine, a second ambient environment and the builtins both provide. */
  datatype Setup<!V, !H> = Setup(m: Machine<V, H>, other: map<string, V>, builtins: set<string>)
  {
    /** The same machine in the other ambient environment. */
    ghost function Twin(): Machine<V, H> { m.(ambient := other) }

    ghost predicate Agrees() {
      forall x: string :: x in builtins ==> x in m.ambient && x in other && m.ambient[x] == other[x]
    }

    /** Every name the checker takes for bound is bound, or local to an enclosing generator
        expression and not bound yet; then it is in `hidden`. Builtins are never local. */
    ghost predicate Covers(bound: set<string>, hidden: set<string>, f: Frame<V>) {
      && bound <= f.env.Keys + hidden
      && hidden <= f.scope
      && builtins !! f.scope
    }
  }

  lemma LookupSound<V, H>(u: Setup<V, H>, x: string, bound: set<string>, hidden: set<string>, f: Frame<V>, h: H)
    requires u.Agrees() && u.Covers(bound, hidden, f) && (x in bound || x in u.builtins)
    ensures u.m.Lookup(x, f, h) == u.Twin().Lookup(x, f, h)
    ensures x in u.builtins || x !in hidden ==> u.m.Lookup(x, f, h).Val?
    ensures u.m.Lookup(x, f, h).Val? ==> u.m.Lookup(x, f, h).heap == h
  {
  }

  lemma {:induction false} EvalSound<V, H>(u: Setup<V, H>, e: Expr, bound: set<string>, hidden: set<string>,
      f: Frame<V>, h: H, fuel: nat)
    requires u.Agrees() && u.Covers(bound, hidden, f) && Closed(e, bound, u.builtins)
    ensures u.m.Eval(e, f, h, fuel) == u.Twin().Eval(e, f, h, fuel)
    ensures Visible(e, hidden) ==> !u.m.Eval(e, f, h, fuel).Unbound?
    decreases fuel, 0, 0
  {
    hide Setup.Agrees, Setup.Covers, Machine.Lookup;
    hide ClosedAll, VisibleAll, ClosedClauses, VisibleClauses, Machine.EvalAll, Machine.EvalBool, Machine.EvalIf,
      Machine.EvalComparison, Machine.EvalGenerator;
    if fuel > 0 {
      match e
      case Name(x) => LookupSound(u, x, bound, hidden, f, h);
      case Const(_) =>
      case List(_) => ListSound(u, e, bound, hidden, f, h, fuel);
      case Tuple(_) => ListSound(u, e, bound, hidden, f, h, fuel);
      case Dict(_) => ListSound(u, e, bound, hidden, f, h, fuel);
      case Slice(_) => ListSound(u, e, bound, hidden, f, h, fuel);
      case Subscript(b, i) => PairSound(u, b, i, bound, hidden, f, h, fuel - 1);
      case BinOp(op, l, r) => PairSound(u, l, r, bound, hidden, f, h, fuel - 1);
      case UnaryOp(op, x) => EvalSound(u, x, bound, hidden, f, h, fuel - 1);
      case BoolOp(conj, es) => EvalBoolSound(u, conj, es, bound, hidden, f, h, fuel - 1);
      case Compare(a, ops, es) =>
        CompareSound(u, a, ops, es, bound, hidden, f, h, fuel - 1);
      case IfExp(c, a, b) => IfSound(u, c, a, b, bound, hidden, f, h, fuel - 1);
      case CallName(_, _, _) => ListSound(u, e, bound, hidden, f, h, fuel);
      case CallMethod(_, _, _, _) => ListSound(u, e, bound, hidden, f, h, fuel);
      case GenExp(elt, gs) => GeneratorSound(u, elt, gs, bound, hidden, f, h, fuel - 1);
    }
  }

  lemma {:induction false} ListSound<V, H>(u: Setup<V, H>, e: Expr, bound: set<string>, hidden: set<string>,
      f: Frame<V>, h: H, fuel: nat)
    requires e.List? || e.Tuple? || e.Dict? || e.Slice? || e.CallName? || e.CallMethod?
    requires u.Agrees() && u.Covers(bound, hidden, f) && Closed(e, bound, u.builtins) && fuel > 0
    ensures u.m.Eval(e, f, h, fuel) == u.Twin().Eval(e, f, h, fuel)
    ensures Visible(e, hidden) ==> !u.m.Eval(e, f, h, fuel).Unbound?
    decreases fuel - 1, 4, 0
  {
    hide Setup.Agrees, Setup.Covers, Machine.Lookup, ClosedAll, VisibleAll, Machine.EvalAll;
    match e
    case List(es) => EvalAllSound(u, es, bound, hidden, f, h, fuel - 1);
    case Tuple(es) => EvalAllSound(u, es, bound, hidden, f, h, fuel - 1);
    case Dict(es) => EvalAllSound(u, es, bound, hidden, f, h, fuel - 1);
    case Slice(es) => EvalAllSound(u, es, bound, hidden, f, h, fuel - 1);
    case CallName(g, es, _) =>
      LookupSound(u, g, bound, hidden, f, h);
      EvalAllSound(u, es, bound, hidden, f, h, fuel - 1);
    case CallMethod(r, _, es, _) =>
      ReceiverFirst(r, es, bound, hidden, u.builtins);
      EvalAllSound(u, [r] + es, bound, hidden, f, h, fuel - 1);
  }

  lemma ReceiverFirst(r: Expr, es: seq<Expr>, bound: set<string>, hidden: set<string>, builtins: set<string>)
    ensures ClosedAll([r] + es, bound, builtins) == (Closed(r, bound, builtins) && ClosedAll(es, bound, builtins))
    ensures VisibleAll([r] + es, hidden) == (Visible(r, hidden) && VisibleAll(es, hidden))
  {
    assert ([r] + es)[1..] == es;
  }

  lemma {:induction false} PairSound<V, H>(u: Setup<V, H>, a: Expr, b: Expr, bound: set<string>, hidden: set<string>,
      f: Frame<V>, h: H, fuel: nat)
    requires u.Agrees() && u.Covers(bound, hidden, f) && Closed(a, bound, u.builtins) && Closed(b, bound, u.builtins)
    ensures u.m.EvalAll([a, b], f, h, fuel) == u.Twin().EvalAll([a, b], f, h, fuel)
    ensures Visible(a, hidden) && Visible(b, hidden) ==> !u.m.EvalAll([a, b], f, h, fuel).Unbound?
    decreases fuel, 1, 3
  {
    hide Setup.Agrees, Setup.Covers;
    assert [a, b][1..] == [b] && [b][1..] == [];
    assert ClosedAll([b], bound, u.builtins);
    assert VisibleAll([b], hidden) == Visible(b, hidden);
    EvalAllSound(u, [a, b], bound, hidden, f, h, fuel);
  }

  lemma {:induction false} CompareSound<V, H>(u: Setup<V, H>, a: Expr, ops: seq<Comparison>, es: seq<Expr>,
      bound: set<string>, hidden: set<string>, f: Frame<V>, h: H, fuel: nat)
    requires u.Agrees() && u.Covers(bound, hidden, f) && Closed(a, bound, u.builtins)
      && ClosedAll(es, bound, u.builtins)
    ensures u.m.EvalComparison(a, ops, es, f, h, fuel) == u.Twin().EvalComparison(a, ops, es, f, h, fuel)
    ensures Visible(a, hidden) && VisibleAll(es, hidden) ==> !u.m.EvalComparison(a, ops, es, f, h, fuel).Unbound?
    decreases fuel, 4, 0
  {
    hide Setup.Agrees, Setup.Covers;
    hide Closed, Visible, ClosedAll, VisibleAll, Machine.Eval, Machine.EvalCompare;
    EvalSound(u, a, bound, hidden, f, h, fuel);
    var r := u.m.Eval(a, f, h, fuel);
    if r.Val? {
      EvalCompareSound(u, r.value, ops, es, bound, hidden, f, r.heap, fuel);
    }
  }

  lemma {:induction false} IfSound<V, H>(u: Setup<V, H>, c: Expr, a: Expr, b: Expr, bound: set<string>,
      hidden: set<string>, f: Frame<V>, h: H, fuel: nat)
    requires u.Agrees() && u.Covers(bound, hidden, f)
    requires Closed(c, bound, u.builtins) && Closed(a, bound, u.builtins) && Closed(b, bound, u.builtins)
    ensures u.m.EvalIf(c, a, b, f, h, fuel) == u.Twin().EvalIf(c, a, b, f, h, fuel)
    ensures (Visible(c, hidden) && (Visible(a, hidden) && Visible(b, hidden))) ==>
      !u.m.EvalIf(c, a, b, f, h, fuel).Unbound?
    decreases fuel, 4, 0
  {
    hide Setup.Agrees, Setup.Covers;
    hide Closed, Visible, Machine.Eval;
    EvalSound(u, c, bound, hidden, f, h, fuel);
    var r, w := u.m.Eval(c, f, h, fuel), u.Twin();
    if r.Val? {
      var yes := Ran(u.m.truth(r.value, r.heap));
      assert yes == Ran(w.truth(r.value, r.heap));
      if yes.Val? {
        var branch := if yes.value then a else b;
        EvalSound(u, branch, bound, hidden, f, yes.heap, fuel);
        assert u.m.EvalIf(c, a, b, f, h, fuel) == u.m.Eval(branch, f, yes.heap, fuel);
        assert w.EvalIf(c, a, b, f, h, fuel) == w.Eval(branch, f, yes.heap, fuel);
      }
    }
  }

  lemma {:induction false} GeneratorSound<V, H>(u: Setup<V, H>, elt: Expr, gs: seq<Generator>, bound: set<string>,
      hidden: set<string>, f: Frame<V>, h: H, fuel: nat)
    requires u.Agrees() && u.Covers(bound, hidden, f)
    requires ClosedClauses(gs, bound, u.builtins, false) && Closed(elt, bound + Locals(gs), u.builtins)
    ensures u.m.EvalGenerator(elt, gs, f, h, fuel) == u.Twin().EvalGenerator(elt, gs, f, h, fuel)
    ensures (gs != [] ==> Visible(gs[0].iter, hidden)) && VisibleClauses(gs, hidden + Locals(gs), true)
      && Visible(elt, hidden - Locals(gs))
      ==> !u.m.EvalGenerator(elt, gs, f, h, fuel).Unbound?
    decreases fuel, 4, 0
  {
    hide Closed, Visible, VisibleClauses, Machine.Eval, Machine.Generate;
    if gs != [] {
      EvalSound(u, gs[0].iter, bound, hidden, f, h, fuel);
      var r := u.m.Eval(gs[0].iter, f, h, fuel);
      if r.Val? {
        var it := Ran(u.m.iter(r.value, r.heap));
        if it.Val? {
          var inside := Frame(f.scope + Locals(gs), f.env - Locals(gs));
          LocalsAreNotBuiltins(gs, bound, u.builtins, false);
          assert inside.env.Keys == f.env.Keys - Locals(gs);
          assert (hidden + Locals(gs)) - Locals(gs) == hidden - Locals(gs);
          GenerateSound(u, elt, gs, it.value, bound, hidden + Locals(gs), inside, it.heap, fuel);
        }
      }
    }
  }

  lemma {:induction false} EvalAllSound<V, H>(u: Setup<V, H>, es: seq<Expr>, bound: set<string>, hidden: set<string>,
      f: Frame<V>, h: H, fuel: nat)
    requires u.Agrees() && u.Covers(bound, hidden, f) && ClosedAll(es, bound, u.builtins)
    ensures u.m.EvalAll(es, f, h, fuel) == u.Twin().EvalAll(es, f, h, fuel)
    ensures VisibleAll(es, hidden) ==> !u.m.EvalAll(es, f, h, fuel).Unbound?
    decreases fuel, 1, |es|
  {
    hide Setup.Agrees, Setup.Covers;
    if es != [] {
      EvalSound(u, es[0], bound, hidden, f, h, fuel);
      var r := u.m.Eval(es[0], f, h, fuel);
      if r.Val? {
        EvalAllSound(u, es[1..], bound, hidden, f, r.heap, fuel);
      }
    }
  }

  lemma {:induction false} EvalBoolSound<V, H>(u: Setup<V, H>, conj: bool, es: seq<Expr>, bound: set<string>,
      hidden: set<string>, f: Frame<V>, h: H, fuel: nat)
    requires u.Agrees() && u.Covers(bound, hidden, f) && ClosedAll(es, bound, u.builtins)
    ensures u.m.EvalBool(conj, es, f, h, fuel) == u.Twin().EvalBool(conj, es, f, h, fuel)
    ensures VisibleAll(es, hidden) ==> !u.m.EvalBool(conj, es, f, h, fuel).Unbound?
    decreases fuel, 1, |es|
  {
    hide Setup.Agrees, Setup.Covers;
    if es != [] {
      EvalSound(u, es[0], bound, hidden, f, h, fuel);
      var r := u.m.Eval(es[0], f, h, fuel);
      if r.Val? {
        var yes := Ran(u.m.truth(r.value, r.heap));
        if yes.Val? {
          EvalBoolSound(u, conj, es[1..], bound, hidden, f, yes.heap, fuel);
        }
      }
    }
  }

  lemma {:induction false} EvalCompareSound<V, H>(u: Setup<V, H>, v: V, ops: seq<Comparison>, es: seq<Expr>,
      bound: set<string>, hidden: set<string>, f: Frame<V>, h: H, fuel: nat)
    requires u.Agrees() && u.Covers(bound, hidden, f) && ClosedAll(es, bound, u.builtins)
    ensures u.m.EvalCompare(v, ops, es, f, h, fuel) == u.Twin().EvalCompare(v, ops, es, f, h, fuel)
    ensures VisibleAll(es, hidden) ==> !u.m.EvalCompare(v, ops, es, f, h, fuel).Unbound?
    decreases fuel, 1, |es|
  {
    hide Setup.Agrees, Setup.Covers;
    if es != [] && ops != [] {
      EvalSound(u, es[0], bound, hidden, f, h, fuel);
      var r := u.m.Eval(es[0], f, h, fuel);
      if r.Val? {
        var c := Ran(u.m.prim(CompareBy(ops[0]), [v, r.value], r.heap));
        if c.Val? {
          var yes := Ran(u.m.truth(c.value, c.heap));
          if yes.Val? {
            EvalCompareSound(u, r.value, ops[1..], es[1..], bound, hidden, f, yes.heap, fuel);
          }
        }
      }
    }
  }

  lemma {:induction false} ConditionsSound<V, H>(u: Setup<V, H>, es: seq<Expr>, bound: set<string>,
      hidden: set<string>, f: Frame<V>, h: H, fuel: nat)
    requires u.Agrees() && u.Covers(bound, hidden, f) && ClosedAll(es, bound, u.builtins)
    ensures u.m.Conditions(es, f, h, fuel) == u.Twin().Conditions(es, f, h, fuel)
    ensures VisibleAll(es, hidden) ==> !u.m.Conditions(es, f, h, fuel).Unbound?
    decreases fuel, 1, |es|
  {
    hide Setup.Agrees, Setup.Covers;
    if es != [] {
      EvalSound(u, es[0], bound, hidden, f, h, fuel);
      var r := u.m.Eval(es[0], f, h, fuel);
      if r.Val? {
        var yes := Ran(u.m.truth(r.value, r.heap));
        if yes.Val? {
          ConditionsSound(u, es[1..], bound, hidden, f, yes.heap, fuel);
        }
      }
    }
  }

  lemma {:induction false} GenerateSound<V, H>(u: Setup<V, H>, elt: Expr, gs: seq<Generator>, it: V,
      bound: set<string>, hidden: set<string>, f: Frame<V>, h: H, fuel: nat)
    requires gs != [] && u.Agrees() && u.Covers(bound, hidden, f)
    requires ClosedClauses(gs, bound, u.builtins, true) && Closed(elt, bound + Locals(gs), u.builtins)
    ensures u.m.Generate(elt, gs, it, f, h, fuel) == u.Twin().Generate(elt, gs, it, f, h, fuel)
    ensures VisibleClauses(gs, hidden, true) && Visible(elt, hidden - Locals(gs)) ==>
      !u.m.Generate(elt, gs, it, f, h, fuel).Unbound?
    decreases fuel, 2, |gs|
  {
    hide Closed, ClosedTarget, Visible, VisibleTarget, ClosedAll, VisibleAll, Machine.Eval, Machine.Bind, Machine.Item;
    if fuel > 0 {
      var item := Ran(u.m.next(it, h));
      if item.Val? && item.value.Some? {
        var t := gs[0].target;
        BindSound(u, t, item.value.value, bound, hidden, f, item.heap, fuel - 1);
        BindGrows(u.m, t, item.value.value, f, item.heap, fuel - 1);
        var b := u.m.Bind(t, item.value.value, f, item.heap, fuel - 1);
        if b.Val? {
          ItemSound(u, elt, gs, it, bound, hidden, b.value, b.heap, fuel - 1);
        }
      }
    }
  }

  lemma {:induction false} ItemSound<V, H>(u: Setup<V, H>, elt: Expr, gs: seq<Generator>, it: V, bound: set<string>,
      hidden: set<string>, f: Frame<V>, h: H, fuel: nat)
    requires gs != [] && u.Agrees() && u.Covers(bound, hidden, f) && Bound(gs[0].target) <= f.env.Keys
    requires ClosedClauses(gs, bound, u.builtins, true) && Closed(elt, bound + Locals(gs), u.builtins)
    ensures u.m.Item(elt, gs, it, f, h, fuel) == u.Twin().Item(elt, gs, it, f, h, fuel)
    ensures VisibleClauses(gs, hidden, true) && Visible(elt, hidden - Locals(gs)) ==>
      !u.m.Item(elt, gs, it, f, h, fuel).Unbound?
    decreases fuel, 4, |gs|
  {
    hide Closed, ClosedTarget, Visible, VisibleTarget, ClosedAll, VisibleAll, Machine.Eval, Machine.Bind,
      Machine.Conditions, Machine.Inner;
    var bound', hidden' := bound + Bound(gs[0].target), hidden - Bound(gs[0].target);
    ConditionsSound(u, gs[0].ifs, bound', hidden', f, h, fuel);
    var yes := u.m.Conditions(gs[0].ifs, f, h, fuel);
    if yes.Val? {
      if yes.value {
        assert bound' + Locals(gs[1..]) == bound + Locals(gs);
        assert hidden' - Locals(gs[1..]) == hidden - Locals(gs);
        InnerSound(u, elt, gs[1..], bound', hidden', f, yes.heap, fuel);
        InnerGrows(u.m, elt, gs[1..], f, yes.heap, fuel);
        var r := u.m.Inner(elt, gs[1..], f, yes.heap, fuel);
        if r.Val? {
          GenerateSound(u, elt, gs, it, bound, hidden, r.value.1, r.heap, fuel);
        }
      } else {
        GenerateSound(u, elt, gs, it, bound, hidden, f, yes.heap, fuel);
      }
    }
  }

  lemma {:induction false} InnerSound<V, H>(u: Setup<V, H>, elt: Expr, gs: seq<Generator>, bound: set<string>,
      hidden: set<string>, f: Frame<V>, h: H, fuel: nat)
    requires u.Agrees() && u.Covers(bound, hidden, f)
    requires ClosedClauses(gs, bound, u.builtins, false) && Closed(elt, bound + Locals(gs), u.builtins)
    ensures u.m.Inner(elt, gs, f, h, fuel) == u.Twin().Inner(elt, gs, f, h, fuel)
    ensures VisibleClauses(gs, hidden, false) && Visible(elt, hidden - Locals(gs)) ==>
      !u.m.Inner(elt, gs, f, h, fuel).Unbound?
    decreases fuel, 3, |gs|
  {
    hide Closed, Visible, Machine.Eval, Machine.Generate;
    if gs == [] {
      assert bound + Locals(gs) == bound && hidden - Locals(gs) == hidden;
      EvalSound(u, elt, bound, hidden, f, h, fuel);
    } else {
      EvalSound(u, gs[0].iter, bound, hidden, f, h, fuel);
      var r := u.m.Eval(gs[0].iter, f, h, fuel);
      if r.Val? {
        var it := Ran(u.m.iter(r.value, r.heap));
        if it.Val? {
          GenerateSound(u, elt, gs, it.value, bound, hidden, f, it.heap, fuel);
        }
      }
    }
  }

  lemma {:induction false} BindSound<V, H>(u: Setup<V, H>, t: Expr, v: V, bound: set<string>, hidden: set<string>,
      f: Frame<V>, h: H, fuel: nat)
    requires u.Agrees() && u.Covers(bound, hidden, f) && ClosedTarget(t, bound, u.builtins)
    ensures u.m.Bind(t, v, f, h, fuel) == u.Twin().Bind(t, v, f, h, fuel)
    ensures VisibleTarget(t, hidden) ==> !u.m.Bind(t, v, f, h, fuel).Unbound?
    decreases fuel, 1, 0
  {
    hide Setup.Agrees, Setup.Covers;
    if fuel > 0 {
      match t
      case Subscript(b, i) => PairSound(u, b, i, bound, hidden, f, h, fuel - 1);
      case List(ts) =>
        var r := Ran(u.m.unpack(v, |ts|, h));
        if r.Val? && |r.value| == |ts| {
          BindAllSound(u, ts, r.value, bound, hidden, f, r.heap, fuel - 1);
        }
      case Tuple(ts) =>
        var r := Ran(u.m.unpack(v, |ts|, h));
        if r.Val? && |r.value| == |ts| {
          BindAllSound(u, ts, r.value, bound, hidden, f, r.heap, fuel - 1);
        }
      case _ =>
    }
  }

  lemma {:induction false} BindAllSound<V, H>(u: Setup<V, H>, ts: seq<Expr>, vs: seq<V>, bound: set<string>,
      hidden: set<string>, f: Frame<V>, h: H, fuel: nat)
    requires |ts| == |vs| && u.Agrees() && u.Covers(bound, hidden, f) && ClosedTargets(ts, bound, u.builtins)
    ensures u.m.BindAll(ts, vs, f, h, fuel) == u.Twin().BindAll(ts, vs, f, h, fuel)
    ensures VisibleTargets(ts, hidden) ==> !u.m.BindAll(ts, vs, f, h, fuel).Unbound?
    decreases fuel, 2, |ts|
  {
    if ts != [] {
      BindSound(u, ts[0], vs[0], bound, hidden, f, h, fuel);
      BindGrows(u.m, ts[0], vs[0], f, h, fuel);
      var r := u.m.Bind(ts[0], vs[0], f, h, fuel);
      if r.Val? {
        BindAllSound(u, ts[1..], vs[1..], bound, hidden - Bound(ts[0]), r.value, r.heap, fuel);
      }
    }
  }

  lemma {:induction false} BindEachSound<V, H>(u: Setup<V, H>, ts: seq<Expr>, v: V, bound: set<string>,
      hidden: set<string>, f: Frame<V>, h: H, fuel: nat)
    requires u.Agrees() && u.Covers(bound, hidden, f) && ClosedEach(ts, bound, u.builtins)
    ensures u.m.BindEach(ts, v, f, h, fuel) == u.Twin().BindEach(ts, v, f, h, fuel)
    ensures VisibleTargets(ts, hidden) ==> !u.m.BindEach(ts, v, f, h, fuel).Unbound?
    decreases fuel, 2, |ts|
  {
    if ts != [] {
      BindSound(u, ts[0], v, bound, hidden, f, h, fuel);
      BindGrows(u.m, ts[0], v, f, h, fuel);
      var r := u.m.Bind(ts[0], v, f, h, fuel);
      if r.Val? {
        BindEachSound(u, ts[1..], v, bound + Bound(ts[0]), hidden - Bound(ts[0]), r.value, r.heap, fuel);
      }
    }
  }

  lemma {:induction false} ExecSound<V, H>(u: Setup<V, H>, ss: seq<Stmt>, bound: set<string>, hidden: set<string>,
      f: Frame<V>, h: H, fuel: nat)
    requires u.Agrees() && u.Covers(bound, hidden, f) && ClosedBlock(ss, bound, u.builtins)
    ensures u.m.Exec(ss, f, h, fuel) == u.Twin().Exec(ss, f, h, fuel)
    ensures hidden == {} && VisibleBlock(ss) ==> !u.m.Exec(ss, f, h, fuel).Unbound?
    decreases fuel, 5, |ss|
  {
    hide Machine.ExecOne, ClosedStmt, VisibleStmt, FallsOne, AfterOne;
    if ss != [] {
      ExecOneSound(u, ss[0], bound, hidden, f, h, fuel);
      ExecOneGrows(u.m, ss[0], f, h, fuel, bound, hidden);
      var r := u.m.ExecOne(ss[0], f, h, fuel);
      if r.Val? && r.value.0.Normal? {
        ExecSound(u, ss[1..], AfterOne(ss[0], bound), hidden, r.value.1, r.heap, fuel);
      }
    }
  }

  lemma {:induction false} ExecOneSound<V, H>(u: Setup<V, H>, s: Stmt, bound: set<string>, hidden: set<string>,
      f: Frame<V>, h: H, fuel: nat)
    requires u.Agrees() && u.Covers(bound, hidden, f) && ClosedStmt(s, bound, u.builtins)
    ensures u.m.ExecOne(s, f, h, fuel) == u.Twin().ExecOne(s, f, h, fuel)
    ensures hidden == {} && VisibleStmt(s) ==> !u.m.ExecOne(s, f, h, fuel).Unbound?
    decreases fuel, 4, 0
  {
    hide Setup.Agrees, Setup.Covers;
    hide Closed, Visible, Machine.Eval, Machine.EvalAll, Machine.BindEach, Machine.Loop, Machine.Exec, ClosedBlock,
      VisibleBlock;
    if fuel > 0 {
      match s
      case Assign(ts, e) =>
        EvalSound(u, e, bound, hidden, f, h, fuel - 1);
        var r := u.m.Eval(e, f, h, fuel - 1);
        if r.Val? {
          BindEachSound(u, ts, r.value, bound, hidden, f, r.heap, fuel - 1);
        }
      case AugAssign(t, op, e) => AugAssignSound(u, s, bound, hidden, f, h, fuel);
      case For(t, e, body, orelse) =>
        EvalSound(u, e, bound, hidden, f, h, fuel - 1);
        var r := u.m.Eval(e, f, h, fuel - 1);
        if r.Val? {
          var it := Ran(u.m.iter(r.value, r.heap));
          if it.Val? {
            LoopSound(u, t, it.value, body, orelse, bound, hidden, f, it.heap, fuel - 1);
          }
        }
      case While(c, body, orelse) => WhileSound(u, s, bound, hidden, f, h, fuel);
      case If(c, a, b) =>
        EvalSound(u, c, bound, hidden, f, h, fuel - 1);
        var r := u.m.Eval(c, f, h, fuel - 1);
        if r.Val? {
          var yes := Ran(u.m.truth(r.value, r.heap));
          if yes.Val? {
            ExecSound(u, if yes.value then a else b, bound, hidden, f, yes.heap, fuel - 1);
          }
        }
      case Evaluate(e) => EvalSound(u, e, bound, hidden, f, h, fuel - 1);
      case Assert(c, _) => EvalSound(u, c, bound, hidden, f, h, fuel - 1);
      case Return(e) => EvalSound(u, e, bound, hidden, f, h, fuel - 1);
      case _ =>
    }
  }

  lemma {:induction false} AugAssignSound<V, H>(u: Setup<V, H>, s: Stmt, bound: set<string>, hidden: set<string>,
      f: Frame<V>, h: H, fuel: nat)
    requires s.AugAssign? && fuel > 0 && u.Agrees() && u.Covers(bound, hidden, f) && ClosedStmt(s, bound, u.builtins)
    ensures u.m.ExecOne(s, f, h, fuel) == u.Twin().ExecOne(s, f, h, fuel)
    ensures hidden == {} && VisibleStmt(s) ==> !u.m.ExecOne(s, f, h, fuel).Unbound?
    decreases fuel - 1, 4, 0
  {
    hide Setup.Agrees, Setup.Covers;
    hide ClosedTarget, Machine.Eval, Machine.EvalAll;
    match s.target
    case Name(x) =>
      LookupSound(u, x, bound, hidden, f, h);
      EvalSound(u, s.value, bound, hidden, f, h, fuel - 1);
    case Subscript(b, i) =>
      PairSound(u, b, i, bound, hidden, f, h, fuel - 1);
      var place := u.m.EvalAll([b, i], f, h, fuel - 1);
      if place.Val? {
        var shadowed := Ran(u.m.prim(GetItem, place.value, place.heap));
        if shadowed.Val? {
          EvalSound(u, s.value, bound, hidden, f, shadowed.heap, fuel - 1);
        }
      }
    case _ =>
  }

  lemma {:induction false} WhileSound<V, H>(u: Setup<V, H>, s: Stmt, bound: set<string>, hidden: set<string>,
      f: Frame<V>, h: H, fuel: nat)
    requires s.While? && fuel > 0 && u.Agrees() && u.Covers(bound, hidden, f) && ClosedStmt(s, bound, u.builtins)
    ensures u.m.ExecOne(s, f, h, fuel) == u.Twin().ExecOne(s, f, h, fuel)
    ensures hidden == {} && VisibleStmt(s) ==> !u.m.ExecOne(s, f, h, fuel).Unbound?
    decreases fuel - 1, 6, 0
  {
    hide Closed, Visible, Machine.Eval, Machine.Exec, ClosedBlock, VisibleBlock;
    EvalSound(u, s.test, bound, hidden, f, h, fuel - 1);
    var r := u.m.Eval(s.test, f, h, fuel - 1);
    if r.Val? {
      var yes := Ran(u.m.truth(r.value, r.heap));
      if yes.Val? {
        var block := if yes.value then s.body else s.orelse;
        ExecSound(u, block, bound, hidden, f, yes.heap, fuel - 1);
        ExecGrows(u.m, block, f, yes.heap, fuel - 1, bound, hidden);
        var ran := u.m.Exec(block, f, yes.heap, fuel - 1);
        if yes.value && ran.Val? && !ran.value.0.Broke? && !ran.value.0.Returned? {
          ExecOneSound(u, s, bound, hidden, ran.value.1, ran.heap, fuel - 1);
        }
      }
    }
  }

  lemma {:induction false} LoopSound<V, H>(u: Setup<V, H>, t: Expr, it: V, body: seq<Stmt>, orelse: seq<Stmt>,
      bound: set<string>, hidden: set<string>, f: Frame<V>, h: H, fuel: nat)
    requires u.Agrees() && u.Covers(bound, hidden, f) && ClosedTarget(t, bound, u.builtins)
    requires ClosedBlock(body, bound + Bound(t), u.builtins) && ClosedBlock(orelse, bound, u.builtins)
    ensures u.m.Loop(t, it, body, orelse, f, h, fuel) == u.Twin().Loop(t, it, body, orelse, f, h, fuel)
    ensures hidden == {} && VisibleTarget(t, {}) && VisibleBlock(body) && VisibleBlock(orelse)
      ==> !u.m.Loop(t, it, body, orelse, f, h, fuel).Unbound?
    decreases fuel, 6, 0
  {
    hide Machine.Bind, Machine.Exec, Machine.Turn, ClosedBlock, VisibleBlock, ClosedTarget, VisibleTarget;
    if fuel > 0 {
      var item := Ran(u.m.next(it, h));
      if item.Val? && item.value.None? {
        ExecSound(u, orelse, bound, hidden, f, item.heap, fuel - 1);
      } else if item.Val? {
        BindSound(u, t, item.value.value, bound, hidden, f, item.heap, fuel - 1);
        BindGrows(u.m, t, item.value.value, f, item.heap, fuel - 1);
        var b := u.m.Bind(t, item.value.value, f, item.heap, fuel - 1);
        if b.Val? {
          TurnSound(u, t, it, body, orelse, bound, hidden, b.value, b.heap, fuel - 1);
        }
      }
    }
  }

  lemma {:induction false} TurnSound<V, H>(u: Setup<V, H>, t: Expr, it: V, body: seq<Stmt>, orelse: seq<Stmt>,
      bound: set<string>, hidden: set<string>, f: Frame<V>, h: H, fuel: nat)
    requires u.Agrees() && u.Covers(bound, hidden, f) && ClosedTarget(t, bound, u.builtins) && Bound(t) <= f.env.Keys
    requires ClosedBlock(body, bound + Bound(t), u.builtins) && ClosedBlock(orelse, bound, u.builtins)
    ensures u.m.Turn(t, it, body, orelse, f, h, fuel) == u.Twin().Turn(t, it, body, orelse, f, h, fuel)
    ensures hidden == {} && VisibleTarget(t, {}) && VisibleBlock(body) && VisibleBlock(orelse)
      ==> !u.m.Turn(t, it, body, orelse, f, h, fuel).Unbound?
    decreases fuel, 7, 0
  {
    hide Machine.Exec, Machine.Loop, ClosedBlock, VisibleBlock, ClosedTarget, VisibleTarget;
    ExecSound(u, body, bound + Bound(t), hidden, f, h, fuel);
    ExecGrows(u.m, body, f, h, fuel, bound + Bound(t), hidden);
    var r := u.m.Exec(body, f, h, fuel);
    if r.Val? && !r.value.0.Broke? && !r.value.0.Returned? {
      LoopSound(u, t, it, body, orelse, bound, hidden, r.value.1, r.heap, fuel);
    }
  }
}
