/** What running code does to its frame, whatever the values are: bindings are only ever added or
    overwritten, only names the code stores are touched, and a block that finishes normally has
    bound everything `Scoping.After` says. */
module Growth {
  import opened Syntax
  import opened Machine
  import opened Scoping
  import opened Wrappers

  /** From f to g only names of `stored` have changed or appeared. */
  ghost predicate Grows<V>(f: Frame<V>, g: Frame<V>, stored: set<string>) {
    && g.scope == f.scope
    && f.env.Keys <= g.env.Keys <= f.env.Keys + stored
    && (forall x: string :: x in f.env && x !in stored ==> g.env[x] == f.env[x])
  }

  lemma LocalsAreNotBuiltins(gs: seq<Generator>, bound: set<string>, builtins: set<string>, entered: bool)
    requires ClosedClauses(gs, bound, builtins, entered)
    ensures Locals(gs) !! builtins
  {
    if gs != [] {
      TargetIsNotBuiltin(gs[0].target, bound, builtins);
      LocalsAreNotBuiltins(gs[1..], bound + Bound(gs[0].target), builtins, false);
    }
  }

  lemma TargetIsNotBuiltin(t: Expr, bound: set<string>, builtins: set<string>)
    requires ClosedTarget(t, bound, builtins)
    ensures Bound(t) !! builtins
  {
    match t
    case List(ts) => TargetsAreNotBuiltins(ts, bound, builtins);
    case Tuple(ts) => TargetsAreNotBuiltins(ts, bound, builtins);
    case _ =>
  }

  lemma TargetsAreNotBuiltins(ts: seq<Expr>, bound: set<string>, builtins: set<string>)
    requires ClosedTargets(ts, bound, builtins)
    ensures BoundAll(ts) !! builtins
  {
    if ts != [] {
      TargetIsNotBuiltin(ts[0], bound, builtins);
      TargetsAreNotBuiltins(ts[1..], bound, builtins);
    }
  }

  lemma {:induction false} BindGrows<V, H>(m: Machine<V, H>, t: Expr, v: V, f: Frame<V>, h: H, fuel: nat)
    ensures var r := m.Bind(t, v, f, h, fuel);
      r.Val? ==> Grows(f, r.value, Bound(t)) && r.value.env.Keys == f.env.Keys + Bound(t)
    decreases fuel, 1, 0
  {
    if fuel > 0 && (t.List? || t.Tuple?) {
      var r := Ran(m.unpack(v, |t.elts|, h));
      if r.Val? && |r.value| == |t.elts| {
        BindAllGrows(m, t.elts, r.value, f, r.heap, fuel - 1);
      }
    }
  }

  lemma {:induction false} BindAllGrows<V, H>(m: Machine<V, H>, ts: seq<Expr>, vs: seq<V>, f: Frame<V>, h: H, fuel: nat)
    requires |ts| == |vs|
    ensures var r := m.BindAll(ts, vs, f, h, fuel);
      r.Val? ==> Grows(f, r.value, BoundAll(ts)) && r.value.env.Keys == f.env.Keys + BoundAll(ts)
    decreases fuel, 2, |ts|
  {
    if ts != [] {
      BindGrows(m, ts[0], vs[0], f, h, fuel);
      var r := m.Bind(ts[0], vs[0], f, h, fuel);
      if r.Val? {
        BindAllGrows(m, ts[1..], vs[1..], r.value, r.heap, fuel);
      }
    }
  }

  lemma {:induction false} BindEachGrows<V, H>(m: Machine<V, H>, ts: seq<Expr>, v: V, f: Frame<V>, h: H, fuel: nat)
    ensures var r := m.BindEach(ts, v, f, h, fuel);
      r.Val? ==> Grows(f, r.value, BoundAll(ts)) && r.value.env.Keys == f.env.Keys + BoundAll(ts)
    decreases fuel, 2, |ts|
  {
    if ts != [] {
      BindGrows(m, ts[0], v, f, h, fuel);
      var r := m.Bind(ts[0], v, f, h, fuel);
      if r.Val? {
        BindEachGrows(m, ts[1..], v, r.value, r.heap, fuel);
      }
    }
  }

  lemma {:induction false} GenerateGrows<V, H>(m: Machine<V, H>, elt: Expr, gs: seq<Generator>, it: V, f: Frame<V>,
      h: H, fuel: nat)
    requires gs != []
    ensures var r := m.Generate(elt, gs, it, f, h, fuel); r.Val? ==> Grows(f, r.value.1, Locals(gs))
    decreases fuel, 2, |gs|
  {
    if m.Generate(elt, gs, it, f, h, fuel).Val? {
      var (item, h0) := Ran(m.next(it, h)).Extract();
      if item.Some? {
        BindGrows(m, gs[0].target, item.value, f, h0, fuel - 1);
        var (f1, h1) := m.Bind(gs[0].target, item.value, f, h0, fuel - 1).Extract();
        ItemGrows(m, elt, gs, it, f1, h1, fuel - 1);
      }
    }
  }

  lemma {:induction false} ItemGrows<V, H>(m: Machine<V, H>, elt: Expr, gs: seq<Generator>, it: V, f: Frame<V>, h: H,
      fuel: nat)
    requires gs != []
    ensures var r := m.Item(elt, gs, it, f, h, fuel); r.Val? ==> Grows(f, r.value.1, Locals(gs))
    decreases fuel, 4, |gs|
  {
    if m.Item(elt, gs, it, f, h, fuel).Val? {
      var (yes, h1) := m.Conditions(gs[0].ifs, f, h, fuel).Extract();
      if yes {
        InnerGrows(m, elt, gs[1..], f, h1, fuel);
        var ((vs, f2), h2) := m.Inner(elt, gs[1..], f, h1, fuel).Extract();
        GenerateGrows(m, elt, gs, it, f2, h2, fuel);
      } else {
        GenerateGrows(m, elt, gs, it, f, h1, fuel);
      }
    }
  }

  lemma {:induction false} InnerGrows<V, H>(m: Machine<V, H>, elt: Expr, gs: seq<Generator>, f: Frame<V>, h: H,
      fuel: nat)
    ensures var r := m.Inner(elt, gs, f, h, fuel); r.Val? ==> Grows(f, r.value.1, Locals(gs))
    decreases fuel, 3, |gs|
  {
    if gs != [] && m.Inner(elt, gs, f, h, fuel).Val? {
      var (v, h0) := m.Eval(gs[0].iter, f, h, fuel).Extract();
      var (it, h1) := Ran(m.iter(v, h0)).Extract();
      GenerateGrows(m, elt, gs, it, f, h1, fuel);
    }
  }

  lemma {:induction false} AfterGrows(ss: seq<Stmt>, bound: set<string>)
    ensures bound <= After(ss, bound)
  {
    if ss != [] {
      AfterGrows(ss[1..], AfterOne(ss[0], bound));
    }
  }

  /** A block that finishes normally could fall through, and has bound everything it must. */
  lemma {:induction false} ExecGrows<V, H>(m: Machine<V, H>, ss: seq<Stmt>, f: Frame<V>, h: H, fuel: nat,
      bound: set<string>, hidden: set<string>)
    requires bound <= f.env.Keys + hidden
    ensures var r := m.Exec(ss, f, h, fuel);
      && (r.Val? ==> Grows(f, r.value.1, Stored(ss)))
      && (r.Val? && r.value.0.Normal? ==> Falls(ss) && After(ss, bound) <= r.value.1.env.Keys + hidden)
    decreases fuel, 5, |ss|
  {
    if ss != [] && m.Exec(ss, f, h, fuel).Val? {
      ExecOneGrows(m, ss[0], f, h, fuel, bound, hidden);
      var ((signal, f1), h1) := m.ExecOne(ss[0], f, h, fuel).Extract();
      if signal.Normal? {
        ExecGrows(m, ss[1..], f1, h1, fuel, AfterOne(ss[0], bound), hidden);
      }
    }
  }

  lemma {:induction false} ExecOneGrows<V, H>(m: Machine<V, H>, s: Stmt, f: Frame<V>, h: H, fuel: nat,
      bound: set<string>, hidden: set<string>)
    requires bound <= f.env.Keys + hidden
    ensures var r := m.ExecOne(s, f, h, fuel);
      && (r.Val? ==> Grows(f, r.value.1, StoredOne(s)))
      && (r.Val? && r.value.0.Normal? ==> FallsOne(s) && AfterOne(s, bound) <= r.value.1.env.Keys + hidden)
    decreases fuel, 4, 0
  {
    hide Machine.Eval, Machine.EvalAll, Machine.Bind, Machine.BindEach, Machine.Exec, Machine.Loop;
    if m.ExecOne(s, f, h, fuel).Val? {
      match s
      case Assign(ts, e) =>
        var (v, h0) := m.Eval(e, f, h, fuel - 1).Extract();
        BindEachGrows(m, ts, v, f, h0, fuel - 1);
      case For(t, e, body, orelse) =>
        var (v, h0) := m.Eval(e, f, h, fuel - 1).Extract();
        var (it, h1) := Ran(m.iter(v, h0)).Extract();
        LoopGrows(m, t, it, body, orelse, f, h1, fuel - 1, bound, hidden);
      case While(c, body, orelse) =>
        var (v, h0) := m.Eval(c, f, h, fuel - 1).Extract();
        var (yes, h1) := Ran(m.truth(v, h0)).Extract();
        ExecGrows(m, if yes then body else orelse, f, h1, fuel - 1, bound, hidden);
        if yes {
          var ((signal, f1), h2) := m.Exec(body, f, h1, fuel - 1).Extract();
          if !signal.Broke? && !signal.Returned? {
            ExecOneGrows(m, s, f1, h2, fuel - 1, bound, hidden);
          }
        }
      case If(c, a, b) =>
        var (v, h0) := m.Eval(c, f, h, fuel - 1).Extract();
        var (yes, h1) := Ran(m.truth(v, h0)).Extract();
        ExecGrows(m, if yes then a else b, f, h1, fuel - 1, bound, hidden);
        AfterGrows(a, bound);
        AfterGrows(b, bound);
      case _ =>
    }
  }

  /** Growth composes, and growing within a part is growing within the whole. */
  lemma GrowsOn<V>(f: Frame<V>, g: Frame<V>, last: Frame<V>, some: set<string>, more: set<string>, all: set<string>,
      bound: set<string>, hidden: set<string>)
    requires Grows(f, g, some) && Grows(g, last, more) && some + more <= all && bound <= f.env.Keys + hidden
    ensures Grows(f, last, all) && bound <= g.env.Keys + hidden && bound <= last.env.Keys + hidden
  {
  }

  lemma GrowsNot<V>(f: Frame<V>)
    ensures Grows(f, f, {})
  {
  }

  lemma {:induction false} LoopGrows<V, H>(m: Machine<V, H>, t: Expr, it: V, body: seq<Stmt>, orelse: seq<Stmt>,
      f: Frame<V>, h: H, fuel: nat, bound: set<string>, hidden: set<string>)
    requires bound <= f.env.Keys + hidden
    ensures var r := m.Loop(t, it, body, orelse, f, h, fuel);
      r.Val? ==> Grows(f, r.value.1, Bound(t) + Stored(body) + Stored(orelse)) && bound <= r.value.1.env.Keys + hidden
    decreases fuel, 6, 0
  {
    hide Machine.Bind, Machine.Exec, Machine.Turn, Grows, Stored, After;
    if m.Loop(t, it, body, orelse, f, h, fuel).Val? {
      var all := Bound(t) + Stored(body) + Stored(orelse);
      var (item, h0) := Ran(m.next(it, h)).Extract();
      GrowsNot(f);
      if item.None? {
        ExecGrows(m, orelse, f, h0, fuel - 1, bound, hidden);
        var ((_, f1), _) := m.Exec(orelse, f, h0, fuel - 1).Extract();
        GrowsOn(f, f, f1, {}, Stored(orelse), all, bound, hidden);
      } else {
        BindGrows(m, t, item.value, f, h0, fuel - 1);
        var (f1, h1) := m.Bind(t, item.value, f, h0, fuel - 1).Extract();
        GrowsOn(f, f, f1, {}, Bound(t), all, bound, hidden);
        TurnGrows(m, t, it, body, orelse, f1, h1, fuel - 1, bound, hidden);
        var ((_, f2), _) := m.Turn(t, it, body, orelse, f1, h1, fuel - 1).Extract();
        GrowsOn(f, f1, f2, all, all, all, bound, hidden);
      }
    }
  }

  lemma {:induction false} TurnGrows<V, H>(m: Machine<V, H>, t: Expr, it: V, body: seq<Stmt>, orelse: seq<Stmt>,
      f: Frame<V>, h: H, fuel: nat, bound: set<string>, hidden: set<string>)
    requires bound <= f.env.Keys + hidden
    ensures var r := m.Turn(t, it, body, orelse, f, h, fuel);
      r.Val? ==> Grows(f, r.value.1, Bound(t) + Stored(body) + Stored(orelse)) && bound <= r.value.1.env.Keys + hidden
    decreases fuel, 7, 0
  {
    hide Machine.Exec, Machine.Loop, Grows, Stored, After;
    if m.Turn(t, it, body, orelse, f, h, fuel).Val? {
      var all := Bound(t) + Stored(body) + Stored(orelse);
      ExecGrows(m, body, f, h, fuel, bound, hidden);
      var ((signal, f1), h1) := m.Exec(body, f, h, fuel).Extract();
      GrowsNot(f);
      GrowsOn(f, f, f1, {}, Stored(body), all, bound, hidden);
      if !signal.Broke? && !signal.Returned? {
        LoopGrows(m, t, it, body, orelse, f1, h1, fuel, bound, hidden);
        var ((_, f2), _) := m.Loop(t, it, body, orelse, f1, h1, fuel).Extract();
        GrowsOn(f, f1, f2, all, all, all, bound, hidden);
      }
    }
  }
}
