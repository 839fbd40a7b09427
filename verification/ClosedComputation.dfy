/** What acceptance by the checker guarantees of every run, for every meaning of the primitive
    operations: Program starts in a frame that binds only `source`. */
module ClosedComputation {
  import opened Syntax
  import opened Machine
  import opened Scoping
  import opened Growth
  import opened Checker
  import opened Wrappers
  import Soundness
  import Exactness

  /** A run of the whole program. */
  function Program<V, H>(m: Machine<V, H>, body: seq<Stmt>, source: V, h: H, fuel: nat): Res<(Signal<V>, Frame<V>), H> {
    m.Exec(body, Frame({}, map["source" := source]), h, fuel)
  }

  /** The two environments provide the builtins, and the same ones. */
  ghost predicate SameBuiltins<V>(a: map<string, V>, b: map<string, V>) {
    forall x: string :: x in BUILTINS ==> x in a && x in b && a[x] == b[x]
  }

  /** Nothing in the ambient environment beyond the five builtins can influence a run, or even
      whether it fails. */
  lemma AmbientIndependence<V, H>(m: Machine<V, H>, other: map<string, V>, body: seq<Stmt>, source: V, h: H, fuel: nat)
    requires Valid(body) && SameBuiltins(m.ambient, other)
    ensures Program(m, body, source, h, fuel) == Program(m.(ambient := other), body, source, h, fuel)
  {
    BlockIsClosed(body, {"source"}, false);
    var u := Soundness.Setup(m, other, BUILTINS);
    var f := Frame({}, map["source" := source]);
    assert u.Agrees() && u.Covers({"source"}, {}, f);
    Soundness.ExecSound(u, body, {"source"}, {}, f, h, fuel);
  }

  /** With no hidden read, no run ever reads an unbound name. */
  lemma NeverUnbound<V, H>(m: Machine<V, H>, body: seq<Stmt>, source: V, h: H, fuel: nat)
    requires Valid(body) && SameBuiltins(m.ambient, m.ambient) && VisibleBlock(body)
    ensures !Program(m, body, source, h, fuel).Unbound?
  {
    BlockIsClosed(body, {"source"}, false);
    var u := Soundness.Setup(m, m.ambient, BUILTINS);
    var f := Frame({}, map["source" := source]);
    assert u.Agrees() && u.Covers({"source"}, {}, f);
    Soundness.ExecSound(u, body, {"source"}, {}, f, h, fuel);
  }

  /** A finished run has bound `result`, has not touched `source`, and has bound no builtin and
      none of the wrapper's own names. Only normal completion finishes a program. */
  lemma FinishedRun<V, H>(m: Machine<V, H>, body: seq<Stmt>, source: V, h: H, fuel: nat)
    requires Valid(body)
    ensures var r := Program(m, body, source, h, fuel);
      r.Val? ==>
        && r.value.0.Normal?
        && "result" in r.value.1.env
        && "source" in r.value.1.env && r.value.1.env["source"] == source
        && r.value.1.env.Keys * FORBIDDEN_BINDINGS == {"source"}
  {
    BlockIsClosed(body, {"source"}, false);
    var f := Frame({}, map["source" := source]);
    ExecGrows(m, body, f, h, fuel, {"source"}, {});
    ExecSignals(m, body, {"source"}, false, f, h, fuel);
  }

  /** Accepted blocks never return, and outside loops never break or continue. */
  lemma {:induction false} ExecSignals<V, H>(m: Machine<V, H>, ss: seq<Stmt>, bound: set<string>, inLoop: bool,
      f: Frame<V>, h: H, fuel: nat)
    requires AcceptsBlock(ss, bound, inLoop)
    ensures var r := m.Exec(ss, f, h, fuel); r.Val? ==> !r.value.0.Returned? && (!inLoop ==> r.value.0.Normal?)
    decreases fuel, 5, |ss|
  {
    if ss != [] {
      StmtSignals(m, ss[0], bound, inLoop, f, h, fuel);
      var r := m.ExecOne(ss[0], f, h, fuel);
      if r.Val? && r.value.0.Normal? {
        ExecSignals(m, ss[1..], AfterOne(ss[0], bound), inLoop, r.value.1, r.heap, fuel);
      }
    }
  }

  lemma {:induction false} StmtSignals<V, H>(m: Machine<V, H>, s: Stmt, bound: set<string>, inLoop: bool, f: Frame<V>,
      h: H, fuel: nat)
    requires AcceptsStmt(s, bound, inLoop)
    ensures var r := m.ExecOne(s, f, h, fuel); r.Val? ==> !r.value.0.Returned? && (!inLoop ==> r.value.0.Normal?)
    decreases fuel, 4, 0
  {
    if m.ExecOne(s, f, h, fuel).Val? {
      match s
      case For(t, e, body, orelse) =>
        var (v, h0) := m.Eval(e, f, h, fuel - 1).Extract();
        var (it, h1) := Ran(m.iter(v, h0)).Extract();
        LoopSignals(m, t, it, body, bound + Bound(t), f, h1, fuel - 1);
      case If(c, a, b) =>
        var (v, h0) := m.Eval(c, f, h, fuel - 1).Extract();
        var (yes, h1) := Ran(m.truth(v, h0)).Extract();
        ExecSignals(m, if yes then a else b, bound, inLoop, f, h1, fuel - 1);
      case _ =>
    }
  }

  lemma {:induction false} LoopSignals<V, H>(m: Machine<V, H>, t: Expr, it: V, body: seq<Stmt>, bound: set<string>,
      f: Frame<V>, h: H, fuel: nat)
    requires AcceptsBlock(body, bound, true)
    ensures var r := m.Loop(t, it, body, [], f, h, fuel); r.Val? ==> r.value.0.Normal?
    decreases fuel, 6, 0
  {
    if m.Loop(t, it, body, [], f, h, fuel).Val? {
      var (item, h0) := Ran(m.next(it, h)).Extract();
      if item.Some? {
        var (f1, h1) := m.Bind(t, item.value, f, h0, fuel - 1).Extract();
        assert m.Turn(t, it, body, [], f1, h1, fuel - 1).Val?;
        ExecSignals(m, body, bound, true, f1, h1, fuel - 1);
        var ((signal, f2), h2) := m.Exec(body, f1, h1, fuel - 1).Extract();
        if !signal.Broke? {
          LoopSignals(m, t, it, body, bound, f2, h2, fuel - 1);
        }
      }
    }
  }

  /** An environment with the builtins in it, for the machine of scripts. */
  function Builtins(): map<string, ()> { map x | x in BUILTINS :: () }

  /** The builtins that take the first element of their argument before they return. */
  const CONSUMERS: set<string> := {"dict", "all", "any", "sum"}

  /** Every generator expression is the sole argument of a call that consumes it at once, so that
      running it where it is made, as the machine does, is what the language does. */
  predicate Consumed(e: Expr) {
    match e
    case List(es) => ConsumedAll(es)
    case Tuple(es) => ConsumedAll(es)
    case Dict(es) => ConsumedAll(es)
    case Slice(es) => ConsumedAll(es)
    case Subscript(b, i) => Consumed(b) && Consumed(i)
    case BinOp(_, l, r) => Consumed(l) && Consumed(r)
    case UnaryOp(_, x) => Consumed(x)
    case BoolOp(_, es) => ConsumedAll(es)
    case Compare(a, _, es) => Consumed(a) && ConsumedAll(es)
    case IfExp(c, a, b) => Consumed(c) && Consumed(a) && Consumed(b)
    case CallName(g, es, _) =>
      if g in CONSUMERS && |es| == 1 && es[0].GenExp?
        then Consumed(es[0].elt) && ConsumedClauses(es[0].generators) else ConsumedAll(es)
    case CallMethod(r, _, es, _) => Consumed(r) && ConsumedAll(es)
    case GenExp(_, _) => false
    case _ => true
  }

  predicate ConsumedAll(es: seq<Expr>) {
    es != [] ==> Consumed(es[0]) && ConsumedAll(es[1..])
  }

  predicate ConsumedClauses(gs: seq<Generator>) {
    gs != [] ==>
      Consumed(gs[0].target) && Consumed(gs[0].iter) && ConsumedAll(gs[0].ifs) && ConsumedClauses(gs[1..])
  }

  predicate ConsumedBlock(ss: seq<Stmt>) {
    ss != [] ==> ConsumedStmt(ss[0]) && ConsumedBlock(ss[1..])
  }

  predicate ConsumedStmt(s: Stmt) {
    match s
    case Assign(ts, e) => ConsumedAll(ts) && Consumed(e)
    case AugAssign(t, _, e) => Consumed(t) && Consumed(e)
    case For(t, e, body, orelse) => Consumed(t) && Consumed(e) && ConsumedBlock(body) && ConsumedBlock(orelse)
    case While(c, body, orelse) => Consumed(c) && ConsumedBlock(body) && ConsumedBlock(orelse)
    case If(c, a, b) => Consumed(c) && ConsumedBlock(a) && ConsumedBlock(b)
    case Evaluate(e) => Consumed(e)
    case Assert(c, _) => Consumed(c)
    case Return(e) => Consumed(e)
    case _ => true
  }

  /** Visibility is exactly what acceptance does not check: an accepted program whose generator
      expressions are consumed where they are made is free of unbound reads in every scripted run if
      and only if it has no reachable hidden read. A generator expression that is only stored need not
      be run at all: see StoredGenerator. */
  lemma UnboundExactlyWhenHidden(body: seq<Stmt>)
    requires Valid(body) && WellFormedBlock(body) && ConsumedBlock(body)
    ensures VisibleBlock(body) <==>
      forall script: Exactness.Script, fuel: nat ::
        !Program(Exactness.Oracle(Builtins()), body, (), script, fuel).Unbound?
  {
    var m := Exactness.Oracle(Builtins());
    if VisibleBlock(body) {
      forall script: Exactness.Script, fuel: nat ensures !Program(m, body, (), script, fuel).Unbound? {
        NeverUnbound(m, body, (), script, fuel);
      }
    } else {
      BlockIsClosed(body, {"source"}, false);
      var p := Exactness.Place(Builtins(), BUILTINS, {"source"}, {}, Frame({}, map["source" := ()]));
      var fuel := Exactness.DepthBlock(body);
      Exactness.BlockGoes(p, body, Exactness.End, fuel);
      assert Program(m, body, (), Exactness.StartBlock(body, Exactness.End), fuel).Unbound?;
    }
  }

  const INNER: Generator := Generator(Name("y"), Name("y"), [], false)
  const OUTER: Generator := Generator(Name("x"), Name("source"), [], false)
  const ANY: Expr := CallName("any", [GenExp(Name("y"), [OUTER, INNER])], true)
  const COPY: Stmt := Assign([Name("y")], Name("source"))
  const RESULT: Stmt := Assign([Name("result")], ANY)

  /** y = source; result = any(y for x in source for y in y) */
  const SHADOWED: seq<Stmt> := [COPY, RESULT]

  lemma AnyIsAccepted()
    ensures Accepts(ANY, {"source", "y"}) && WellFormed(ANY)
  {
    var bound, inner := {"source", "y"}, {"source", "y", "x"};
    assert "y"[0] != '_' && "x"[0] != '_';
    assert [OUTER, INNER][1..] == [INNER] && [INNER][1..] == [] && ANY.args[1..] == [];
    assert forall b: set<string> :: AcceptsClauses([], b) && AcceptsAll([], b);
    assert WellFormedClauses([]) && WellFormedAll([]) && WellFormed(Name("y")) && WellFormed(Name("x"))
      && WellFormed(Name("source"));
    assert AcceptsTarget(INNER.target, inner) && AcceptsTarget(OUTER.target, bound);
    assert Bound(INNER.target) == {"y"} && Bound(OUTER.target) == {"x"};
    assert bound + {"x"} == inner && inner + {"y"} == inner;
    assert AcceptsClauses([INNER], inner) && WellFormedClauses([INNER]);
    assert AcceptsClauses([OUTER, INNER], bound) && WellFormedClauses([OUTER, INNER]);
    assert Accepts(ANY.args[0], bound) && WellFormed(ANY.args[0]);
  }

  lemma ShadowedIsAccepted()
    ensures Valid(SHADOWED) && WellFormedBlock(SHADOWED)
  {
    hide Accepts, WellFormed;
    var bound := {"source", "y"};
    AnyIsAccepted();
    assert Accepts(COPY.value, {"source"}) && WellFormed(COPY.value) && WellFormed(COPY.targets[0])
      && WellFormed(RESULT.targets[0]) by {
      NamesAreFine();
    }
    assert "y"[0] != '_' && "result"[0] != '_';
    assert COPY.targets[1..] == [] && RESULT.targets[1..] == [];
    assert Bound(COPY.targets[0]) == {"y"} && Bound(RESULT.targets[0]) == {"result"};
    assert AcceptsEach([], bound) && AcceptsEach([], {"source", "y", "result"}) && WellFormedAll([]);
    assert {"source"} + {"y"} == bound && bound + {"result"} == {"source", "y", "result"};
    assert AcceptsStmt(COPY, {"source"}, false) && AfterOne(COPY, {"source"}) == bound && WellFormedStmt(COPY);
    assert AcceptsStmt(RESULT, bound, false) && AfterOne(RESULT, bound) == {"source", "y", "result"}
      && WellFormedStmt(RESULT);
    assert SHADOWED[1..] == [RESULT] && [RESULT][1..] == [];
    assert AcceptsBlock([], {"source", "y", "result"}, false) && WellFormedBlock([]);
    assert AcceptsBlock([RESULT], bound, false) && After([RESULT], bound) == {"source", "y", "result"};
    assert SHADOWED[1..][1..] == [];
    assert WellFormedBlock(SHADOWED[1..]);
  }

  lemma NamesAreFine()
    ensures Accepts(Name("source"), {"source"})
    ensures WellFormed(Name("source")) && WellFormed(Name("y")) && WellFormed(Name("result"))
  {
  }

  lemma GeneratorIsHidden()
    ensures !Visible(ANY.args[0], {})
  {
    assert [OUTER, INNER][1..] == [INNER] && [INNER][1..] == [];
    assert Locals([INNER]) == {"y"} && Locals([OUTER, INNER]) == {"x", "y"};
    assert {} + Locals([OUTER, INNER]) == {"x", "y"} && {"x", "y"} - Bound(OUTER.target) == {"y"};
    assert !Visible(INNER.iter, {"y"});
    assert !VisibleClauses([INNER], {"y"}, false);
    assert !VisibleClauses([OUTER, INNER], {"x", "y"}, true);
    assert !Visible(ANY.args[0], {});
  }

  lemma ShadowedIsHidden()
    ensures !VisibleBlock(SHADOWED)
  {
    GeneratorIsHidden();
    assert !Visible(ANY, {});
    assert SHADOWED[1..] == [Assign([Name("result")], ANY)];
    assert !VisibleBlock(SHADOWED[1..]);
  }

  lemma ShadowedIsConsumed()
    ensures ConsumedBlock(SHADOWED)
  {
    assert [OUTER, INNER][1..] == [INNER] && [INNER][1..] == [] && ConsumedAll([]) && ConsumedClauses([]);
    assert Consumed(Name("x")) && Consumed(Name("y")) && Consumed(Name("source"));
    assert ConsumedClauses([INNER]);
    assert ConsumedClauses([OUTER, INNER][1..]);
    assert ConsumedClauses([OUTER, INNER]);
    assert Consumed(ANY);
    assert COPY.targets[1..] == [] && RESULT.targets[1..] == [];
    assert SHADOWED[1..] == [RESULT] && [RESULT][1..] == [] && ConsumedBlock([]);
    assert ConsumedBlock([RESULT]);
  }

  /** It is accepted, and still some run of it reads an unbound name: the second iterable reads y,
      which the second target has made local to the generator expression. */
  lemma ShadowedTarget()
    ensures Valid(SHADOWED) && ConsumedBlock(SHADOWED)
    ensures exists script: Exactness.Script, fuel: nat ::
      Program(Exactness.Oracle(Builtins()), SHADOWED, (), script, fuel).Unbound?
  {
    ShadowedIsAccepted();
    ShadowedIsHidden();
    ShadowedIsConsumed();
    UnboundExactlyWhenHidden(SHADOWED);
  }

  const ONE: Stmt := Assign([Name("result")], Const(Integer(1)))

  /** Making a generator expression evaluates its first iterable only; the rest runs when it is used. */
  function Keeping(made: Expr): seq<Stmt> {
    [COPY, Assign([Name("g")], made), ONE]
  }

  /** y = source; g = (y for x in source for y in y); result = 1 is accepted and has a hidden read, but
      g is never used. What is run of it, its first iterable, reads no hidden name: no machine meets an
      unbound one. So hidden reads are not exact for generator expressions that are merely stored. */
  lemma StoredGenerator<V, H>(m: Machine<V, H>, source: V, h: H, fuel: nat)
    requires SameBuiltins(m.ambient, m.ambient)
    ensures var stored := ANY.args[0];
      && Valid(Keeping(stored)) && !VisibleBlock(Keeping(stored)) && !ConsumedBlock(Keeping(stored))
      && !Program(m, Keeping(stored.generators[0].iter), source, h, fuel).Unbound?
  {
    hide Accepts, Visible, Consumed, Program;
    var stored := ANY.args[0];
    AnyIsAccepted();
    StoredIsHidden();
    NamesAreFine();
    KeepingIsAccepted(stored);
    KeepingIsAccepted(Name("source"));
    KeepingVisible(Name("source"));
    KeepingVisible(stored);
    KeepingConsumed(stored);
    NeverUnbound(m, Keeping(Name("source")), source, h, fuel);
  }

  lemma StoredIsHidden()
    ensures Accepts(ANY.args[0], {"source", "y"}) && Accepts(Name("source"), {"source", "y"})
    ensures !Visible(ANY.args[0], {}) && Visible(Name("source"), {}) && !Consumed(ANY.args[0])
  {
    AnyIsAccepted();
    assert ANY.args[1..] == [];
    GeneratorIsHidden();
  }

  lemma KeepingIsAccepted(made: Expr)
    requires Accepts(made, {"source", "y"})
    ensures Valid(Keeping(made))
  {
    hide Accepts;
    var bound, kept := {"source", "y"}, {"source", "y", "g"};
    var ss := Keeping(made);
    NamesAreFine();
    assert "y"[0] != '_' && "g"[0] != '_' && "result"[0] != '_';
    assert ss[0].targets[1..] == [] && ss[1].targets[1..] == [] && ss[2].targets[1..] == [];
    assert AcceptsEach([], bound) && AcceptsEach([], kept) && AcceptsEach([], kept + {"result"});
    assert {"source"} + {"y"} == bound && bound + {"g"} == kept;
    assert AcceptsStmt(ss[0], {"source"}, false) && AfterOne(ss[0], {"source"}) == bound;
    assert AcceptsStmt(ss[1], bound, false) && AfterOne(ss[1], bound) == kept;
    assert AcceptsStmt(ss[2], kept, false) && AfterOne(ss[2], kept) == kept + {"result"} by { OneIsFine(kept); }
    assert ss[1..] == [ss[1], ss[2]] && ss[1..][1..] == [ss[2]] && [ss[2]][1..] == [];
    assert AcceptsBlock([], kept + {"result"}, false);
    assert AcceptsBlock([ss[2]], kept, false) && After([ss[2]], kept) == kept + {"result"};
    assert AcceptsBlock(ss[1..], bound, false) && After(ss[1..], bound) == kept + {"result"};
  }

  lemma OneIsFine(bound: set<string>)
    ensures Accepts(Const(Integer(1)), bound)
  {
  }

  lemma KeepingVisible(made: Expr)
    ensures VisibleBlock(Keeping(made)) <==> Visible(made, {})
  {
    hide Visible;
    var ss := Keeping(made);
    SimpleVisible();
    assert ss[0].targets[1..] == [] && ss[1].targets[1..] == [] && ss[2].targets[1..] == [];
    assert VisibleTargets([], {}) && VisibleBlock([]);
    assert ss[1..] == [ss[1], ss[2]] && ss[1..][1..] == [ss[2]] && [ss[2]][1..] == [];
    assert VisibleStmt(ss[0]) && VisibleStmt(ss[2]) && (VisibleStmt(ss[1]) <==> Visible(made, {}));
    assert VisibleBlock([ss[2]]);
  }

  lemma SimpleVisible()
    ensures Visible(Name("source"), {}) && Visible(Const(Integer(1)), {})
  {
  }

  lemma KeepingConsumed(made: Expr)
    requires !Consumed(made)
    ensures !ConsumedBlock(Keeping(made))
  {
    hide Consumed;
    var ss := Keeping(made);
    assert !ConsumedStmt(ss[1]) && ss[1..][0] == ss[1];
    assert !ConsumedBlock(ss[1..]);
  }
}
