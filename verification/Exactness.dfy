/** The visibility condition is exact when generator expressions run where they are made. On a machine
    whose every branch and every iterator step is decided by a script, closed code runs past all its
    visible reads under one script and into an unbound name under another whenever some reachable read
    is hidden. The hidden read is met before the generator expression yields anything. */
module Exactness {
  import opened Syntax
  import opened Machine
  import opened Scoping
  import opened Growth
  import opened Wrappers

  /** The answers still to be given; an exhausted script says no. */
  datatype Script = End | Then(answer: bool, rest: Script)

  /** One value, and no operation raises; truth and next read the script. */
  function Oracle(ambient: map<string, ()>): Machine<(), Script> {
    Machine(
      (p: Prim, vs: seq<()>, h: Script) => Some(((), h)),
      (v: (), h: Script) => if h.End? then Some((false, h)) else Some((h.answer, h.rest)),
      (v: (), h: Script) => Some(((), h)),
      (v: (), h: Script) => if h.End? then Some((None, h)) else Some((if h.answer then Some(()) else None, h.rest)),
      (v: (), n: nat, h: Script) => Some((seq(n, _ => ()), h)),
      ambient)
  }

  /** The fragment without while, return and else clauses of loops. */
  predicate Plain(ss: seq<Stmt>) {
    ss != [] ==> PlainOne(ss[0]) && Plain(ss[1..])
  }

  predicate PlainOne(s: Stmt) {
    match s
    case For(_, _, body, orelse) => orelse == [] && Plain(body)
    case If(_, a, b) => Plain(a) && Plain(b)
    case While(_, _, _) => false
    case Return(_) => false
    case OtherStmt => false
    case _ => true
  }

  /** Enough fuel for a run that takes every iterator at most one step. */
  function Depth(e: Expr): nat {
    match e
    case Name(_) => 1
    case Const(_) => 1
    case List(es) => 1 + DepthAll(es)
    case Tuple(es) => 1 + DepthAll(es)
    case Dict(es) => 1 + DepthAll(es)
    case Slice(es) => 1 + DepthAll(es)
    case Subscript(b, i) => 1 + Depth(b) + Depth(i)
    case BinOp(_, l, r) => 1 + Depth(l) + Depth(r)
    case UnaryOp(_, x) => 1 + Depth(x)
    case BoolOp(_, es) => 1 + DepthAll(es)
    case Compare(a, _, es) => 1 + Depth(a) + DepthAll(es)
    case IfExp(c, a, b) => 1 + Depth(c) + Depth(a) + Depth(b)
    case CallName(_, es, _) => 1 + DepthAll(es)
    case CallMethod(r, _, es, _) => 1 + Depth(r) + DepthAll(es)
    case GenExp(elt, gs) => 1 + Depth(elt) + DepthClauses(gs)
    case Other => 1
  }

  function DepthAll(es: seq<Expr>): nat {
    if es == [] then 0 else Depth(es[0]) + DepthAll(es[1..])
  }

  function DepthClauses(gs: seq<Generator>): nat {
    if gs == [] then 0
    else 1 + Depth(gs[0].target) + Depth(gs[0].iter) + DepthAll(gs[0].ifs) + DepthClauses(gs[1..])
  }

  function DepthBlock(ss: seq<Stmt>): nat {
    if ss == [] then 0 else DepthOne(ss[0]) + DepthBlock(ss[1..])
  }

  function DepthOne(s: Stmt): nat {
    match s
    case Assign(ts, e) => 1 + DepthAll(ts) + Depth(e)
    case AugAssign(t, _, e) => 1 + Depth(t) + Depth(e)
    case For(t, e, body, orelse) => 3 + Depth(t) + Depth(e) + DepthBlock(body)
    case If(c, a, b) => 1 + Depth(c) + DepthBlock(a) + DepthBlock(b)
    case Evaluate(e) => 1 + Depth(e)
    case Assert(c, _) => 1 + Depth(c)
    case _ => 1
  }

  /** The script that runs e into its first hidden read, or past it leaving `rest` when there is none. */
  function Start(e: Expr, hidden: set<string>, rest: Script): Script {
    match e
    case Name(_) => rest
    case Const(_) => rest
    case List(es) => StartAll(es, hidden, rest)
    case Tuple(es) => StartAll(es, hidden, rest)
    case Dict(es) => StartAll(es, hidden, rest)
    case Slice(es) => StartAll(es, hidden, rest)
    case Subscript(b, i) => Start(b, hidden, Start(i, hidden, rest))
    case BinOp(_, l, r) => Start(l, hidden, Start(r, hidden, rest))
    case UnaryOp(_, x) => Start(x, hidden, rest)
    case BoolOp(conj, es) => StartChain(conj, es, hidden, rest)
    case Compare(a, _, es) => Start(a, hidden, StartChain(true, es, hidden, rest))
    case IfExp(c, a, b) =>
      Start(c, hidden, if Visible(a, hidden) then Then(false, Start(b, hidden, rest))
        else Then(true, Start(a, hidden, rest)))
    case CallName(_, es, _) => StartAll(es, hidden, rest)
    case CallMethod(r, _, es, _) => Start(r, hidden, StartAll(es, hidden, rest))
    case GenExp(elt, gs) =>
      if gs == [] then rest
      else
        Start(gs[0].iter, hidden,
          if VisibleClauses(gs, hidden + Locals(gs), true) && Visible(elt, hidden - Locals(gs)) then Then(false, rest)
          else StartClauses(gs, hidden + Locals(gs), true, Start(elt, hidden - Locals(gs), End)))
    case Other => rest
  }

  function StartAll(es: seq<Expr>, hidden: set<string>, rest: Script): Script {
    if es == [] then rest else Start(es[0], hidden, StartAll(es[1..], hidden, rest))
  }

  /** Operands of a chain that goes on as long as the answer is `go`; the last is not tested. */
  function StartChain(go: bool, es: seq<Expr>, hidden: set<string>, rest: Script): Script
    decreases es
  {
    if es == [] then rest
    else Start(es[0], hidden, if |es| == 1 then rest else Then(go, StartChain(go, es[1..], hidden, rest)))
  }

  function StartConditions(es: seq<Expr>, hidden: set<string>, rest: Script): Script {
    if es == [] then rest else Start(es[0], hidden, Then(true, StartConditions(es[1..], hidden, rest)))
  }

  /** Into the first item of every clause. */
  function StartClauses(gs: seq<Generator>, hidden: set<string>, entered: bool, rest: Script): Script {
    if gs == [] then rest
    else
      var hidden' := hidden - Bound(gs[0].target);
      var item := Then(true, StartTarget(gs[0].target, hidden,
        StartConditions(gs[0].ifs, hidden', StartClauses(gs[1..], hidden', false, rest))));
      if entered then item else Start(gs[0].iter, hidden, item)
  }

  function StartTarget(t: Expr, hidden: set<string>, rest: Script): Script {
    match t
    case List(ts) => StartTargets(ts, hidden, rest)
    case Tuple(ts) => StartTargets(ts, hidden, rest)
    case Subscript(b, i) => Start(b, hidden, Start(i, hidden, rest))
    case _ => rest
  }

  function StartTargets(ts: seq<Expr>, hidden: set<string>, rest: Script): Script {
    if ts == [] then rest else StartTarget(ts[0], hidden, StartTargets(ts[1..], hidden - Bound(ts[0]), rest))
  }

  function StartBlock(ss: seq<Stmt>, rest: Script): Script {
    if ss == [] then rest else StartOne(ss[0], StartBlock(ss[1..], rest))
  }

  function StartOne(s: Stmt, rest: Script): Script {
    match s
    case Assign(ts, e) => Start(e, {}, StartTargets(ts, {}, rest))
    case AugAssign(t, _, e) => StartTarget(t, {}, Start(e, {}, rest))
    case For(t, e, body, _) =>
      Start(e, {}, if VisibleTarget(t, {}) && VisibleBlock(body) then Then(false, rest)
                   else Then(true, StartTarget(t, {}, StartBlock(body, End))))
    case If(c, a, b) =>
      Start(c, {}, if EnterFirst(a, b) then Then(true, StartBlock(a, rest)) else Then(false, StartBlock(b, rest)))
    case Evaluate(e) => Start(e, {}, rest)
    case Assert(c, _) => Start(c, {}, Then(true, rest))
    case _ => rest
  }

  /** The branch with a hidden read if there is one, else one that falls through if there is one. */
  predicate EnterFirst(a: seq<Stmt>, b: seq<Stmt>) {
    !VisibleBlock(a) || (VisibleBlock(b) && Falls(a))
  }

  /** Success leaving `rest` when ok, an unbound name otherwise. */
  ghost predicate Goes<T>(r: Res<T, Script>, ok: bool, rest: Script) {
    if ok then r.Val? && r.heap == rest else r.Unbound?
  }

  /** Where evaluation stands: `hidden` holds names that are local and not bound yet. */
  datatype Place = Place(ambient: map<string, ()>, builtins: set<string>, bound: set<string>, hidden: set<string>,
      f: Frame<()>)
  {
    ghost predicate Valid() {
      && bound <= f.env.Keys + hidden
      && hidden <= f.scope
      && hidden !! f.env.Keys
      && builtins !! f.scope
      && builtins <= ambient.Keys
    }

    function M(): Machine<(), Script> { Oracle(ambient) }

    /** After the names have been bound, in the frame that binding left. */
    function With(names: set<string>, g: Frame<()>): Place {
      this.(bound := bound + names, hidden := hidden - names, f := g)
    }
  }

  lemma {:induction false} EvalGoes(p: Place, e: Expr, rest: Script, fuel: nat)
    requires p.Valid() && Closed(e, p.bound, p.builtins) && WellFormed(e) && fuel >= Depth(e)
    ensures Goes(p.M().Eval(e, p.f, Start(e, p.hidden, rest), fuel), Visible(e, p.hidden), rest)
    decreases fuel, 0, 0
  {
    hide Place.Valid;
    hide Closed, WellFormed, Visible, Start, Machine.Eval;
    match e
    case Name(_) => LeafGoes(p, e, rest, fuel);
    case Const(_) => LeafGoes(p, e, rest, fuel);
    case List(_) => ListGoes(p, e, rest, fuel);
    case Tuple(_) => ListGoes(p, e, rest, fuel);
    case Dict(_) => ListGoes(p, e, rest, fuel);
    case Slice(_) => ListGoes(p, e, rest, fuel);
    case Subscript(_, _) => PairKindGoes(p, e, rest, fuel);
    case BinOp(_, _, _) => PairKindGoes(p, e, rest, fuel);
    case UnaryOp(_, _) => UnaryGoes(p, e, rest, fuel);
    case BoolOp(_, _) => BoolKindGoes(p, e, rest, fuel);
    case Compare(_, _, _) => BoolKindGoes(p, e, rest, fuel);
    case IfExp(_, _, _) => IfKindGoes(p, e, rest, fuel);
    case CallName(_, _, _) => ListGoes(p, e, rest, fuel);
    case CallMethod(_, _, _, _) => MethodGoes(p, e, rest, fuel);
    case GenExp(_, _) => GeneratorKindGoes(p, e, rest, fuel);
    case Other => LeafGoes(p, e, rest, fuel);
  }

  lemma {:induction false} ListGoes(p: Place, e: Expr, rest: Script, fuel: nat)
    requires e.List? || e.Tuple? || e.Dict? || e.Slice? || e.CallName?
    requires p.Valid() && Closed(e, p.bound, p.builtins) && WellFormed(e) && fuel >= Depth(e)
    ensures Goes(p.M().Eval(e, p.f, Start(e, p.hidden, rest), fuel), Visible(e, p.hidden), rest)
    decreases fuel - 1, 4, 0
  {
    hide Place.Valid, ClosedAll, VisibleAll, StartAll, StartChain, Machine.EvalAll, Machine.EvalBool, Machine.Lookup;
    match e
    case List(es) => AllGo(p, es, rest, fuel - 1);
    case Tuple(es) => AllGo(p, es, rest, fuel - 1);
    case Dict(es) => AllGo(p, es, rest, fuel - 1);
    case Slice(es) => AllGo(p, es, rest, fuel - 1);
    case CallName(g, es, _) =>
      BuiltinFound(p, g, Start(e, p.hidden, rest));
      AllGo(p, es, rest, fuel - 1);
  }

  lemma BuiltinFound(p: Place, g: string, h: Script)
    requires p.Valid() && g in p.builtins
    ensures p.M().Lookup(g, p.f, h).Val? && p.M().Lookup(g, p.f, h).heap == h
  {
  }

  lemma {:induction false} PairKindGoes(p: Place, e: Expr, rest: Script, fuel: nat)
    requires e.Subscript? || e.BinOp?
    requires p.Valid() && Closed(e, p.bound, p.builtins) && WellFormed(e) && fuel >= Depth(e)
    ensures Goes(p.M().Eval(e, p.f, Start(e, p.hidden, rest), fuel), Visible(e, p.hidden), rest)
    decreases fuel - 1, 5, 0
  {
    hide Place.Valid;
    hide ClosedAll, VisibleAll, WellFormedAll, ClosedClauses, VisibleClauses, StartAll, StartChain, StartClauses;
    hide Machine.EvalAll, Machine.EvalBool, Machine.EvalIf, Machine.EvalComparison, Machine.EvalGenerator;
    match e
    case Subscript(b, i) => PairGoes(p, b, i, rest, fuel - 1);
    case BinOp(_, l, r) => PairGoes(p, l, r, rest, fuel - 1);
  }

  lemma {:induction false} UnaryGoes(p: Place, e: Expr, rest: Script, fuel: nat)
    requires e.UnaryOp?
    requires p.Valid() && Closed(e, p.bound, p.builtins) && WellFormed(e) && fuel >= Depth(e)
    ensures Goes(p.M().Eval(e, p.f, Start(e, p.hidden, rest), fuel), Visible(e, p.hidden), rest)
    decreases fuel - 1, 5, 0
  {
    hide Place.Valid;
    hide ClosedAll, VisibleAll, WellFormedAll, ClosedClauses, VisibleClauses, StartAll, StartChain, StartClauses;
    hide Machine.EvalAll, Machine.EvalBool, Machine.EvalIf, Machine.EvalComparison, Machine.EvalGenerator;
    EvalGoes(p, e.operand, rest, fuel - 1);
  }

  lemma {:induction false} BoolKindGoes(p: Place, e: Expr, rest: Script, fuel: nat)
    requires e.BoolOp? || e.Compare?
    requires p.Valid() && Closed(e, p.bound, p.builtins) && WellFormed(e) && fuel >= Depth(e)
    ensures Goes(p.M().Eval(e, p.f, Start(e, p.hidden, rest), fuel), Visible(e, p.hidden), rest)
    decreases fuel - 1, 5, 0
  {
    hide Place.Valid;
    hide ClosedAll, VisibleAll, WellFormedAll, ClosedClauses, VisibleClauses, StartAll, StartChain, StartClauses;
    hide Machine.EvalAll, Machine.EvalBool, Machine.EvalIf, Machine.EvalComparison, Machine.EvalGenerator;
    match e
    case BoolOp(conj, es) => BoolGoes(p, conj, es, rest, fuel - 1);
    case Compare(a, ops, es) => CompareGoes(p, a, ops, es, rest, fuel - 1);
  }

  lemma {:induction false} IfKindGoes(p: Place, e: Expr, rest: Script, fuel: nat)
    requires e.IfExp?
    requires p.Valid() && Closed(e, p.bound, p.builtins) && WellFormed(e) && fuel >= Depth(e)
    ensures Goes(p.M().Eval(e, p.f, Start(e, p.hidden, rest), fuel), Visible(e, p.hidden), rest)
    decreases fuel - 1, 5, 0
  {
    hide Place.Valid;
    hide ClosedAll, VisibleAll, WellFormedAll, ClosedClauses, VisibleClauses, StartAll, StartChain, StartClauses;
    hide Machine.EvalAll, Machine.EvalBool, Machine.EvalIf, Machine.EvalComparison, Machine.EvalGenerator;
    IfGoesOn(p, e.test, e.body, e.orelse, rest, fuel - 1);
  }

  lemma {:induction false} GeneratorKindGoes(p: Place, e: Expr, rest: Script, fuel: nat)
    requires e.GenExp?
    requires p.Valid() && Closed(e, p.bound, p.builtins) && WellFormed(e) && fuel >= Depth(e)
    ensures Goes(p.M().Eval(e, p.f, Start(e, p.hidden, rest), fuel), Visible(e, p.hidden), rest)
    decreases fuel - 1, 5, 0
  {
    hide Place.Valid;
    hide ClosedAll, VisibleAll, WellFormedAll, ClosedClauses, VisibleClauses, StartAll, StartChain, StartClauses;
    hide Machine.EvalAll, Machine.EvalBool, Machine.EvalIf, Machine.EvalComparison, Machine.EvalGenerator;
    GeneratorGoes(p, e.elt, e.generators, rest, fuel - 1);
  }

  lemma {:induction false} LeafGoes(p: Place, e: Expr, rest: Script, fuel: nat)
    requires e.Name? || e.Const? || e.Other?
    requires p.Valid() && Closed(e, p.bound, p.builtins) && fuel > 0
    ensures Goes(p.M().Eval(e, p.f, Start(e, p.hidden, rest), fuel), Visible(e, p.hidden), rest)
  {
  }

  lemma {:induction false} AllGo(p: Place, es: seq<Expr>, rest: Script, fuel: nat)
    requires p.Valid() && ClosedAll(es, p.bound, p.builtins) && WellFormedAll(es) && fuel >= DepthAll(es)
    ensures Goes(p.M().EvalAll(es, p.f, StartAll(es, p.hidden, rest), fuel), VisibleAll(es, p.hidden), rest)
    decreases fuel, 1, |es|
  {
    hide Place.Valid;
    if es != [] {
      EvalGoes(p, es[0], StartAll(es[1..], p.hidden, rest), fuel);
      AllGo(p, es[1..], rest, fuel);
    }
  }

  lemma {:induction false} PairGoes(p: Place, a: Expr, b: Expr, rest: Script, fuel: nat)
    requires p.Valid() && Closed(a, p.bound, p.builtins) && Closed(b, p.bound, p.builtins) && WellFormed(a)
      && WellFormed(b)
    requires fuel >= Depth(a) + Depth(b)
    ensures Goes(p.M().EvalAll([a, b], p.f, Start(a, p.hidden, Start(b, p.hidden, rest)), fuel),
                 Visible(a, p.hidden) && Visible(b, p.hidden), rest)
    decreases fuel, 1, 3
  {
    hide Place.Valid;
    hide Machine.Eval, Visible, Closed, Start;
    EvalGoes(p, a, Start(b, p.hidden, rest), fuel);
    EvalGoes(p, b, rest, fuel);
    assert [a, b][1..] == [b] && [b][1..] == [];
    assert Goes(p.M().EvalAll([b], p.f, Start(b, p.hidden, rest), fuel), Visible(b, p.hidden), rest);
  }

  lemma {:induction false} MethodGoes(p: Place, e: Expr, rest: Script, fuel: nat)
    requires e.CallMethod? && p.Valid() && Closed(e, p.bound, p.builtins) && WellFormed(e) && fuel >= Depth(e)
    ensures Goes(p.M().Eval(e, p.f, Start(e, p.hidden, rest), fuel), Visible(e, p.hidden), rest)
    decreases fuel - 1, 4, 0
  {
    hide Place.Valid;
    var all := [e.receiver] + e.args;
    assert all[1..] == e.args;
    EvalGoes(p, e.receiver, StartAll(e.args, p.hidden, rest), fuel - 1);
    AllGo(p, e.args, rest, fuel - 1);
  }

  lemma {:induction false} CompareGoes(p: Place, a: Expr, ops: seq<Comparison>, es: seq<Expr>, rest: Script, fuel: nat)
    requires p.Valid() && Closed(a, p.bound, p.builtins) && ClosedAll(es, p.bound, p.builtins) && WellFormed(a)
      && WellFormedAll(es)
    requires es != [] && |ops| == |es| && fuel >= Depth(a) + DepthAll(es)
    ensures Goes(p.M().EvalComparison(a, ops, es, p.f, Start(a, p.hidden, StartChain(true, es, p.hidden, rest)), fuel),
                 Visible(a, p.hidden) && VisibleAll(es, p.hidden), rest)
    decreases fuel, 4, 0
  {
    hide Place.Valid;
    hide Closed, WellFormed, Visible, Start, Depth, ClosedAll, WellFormedAll, VisibleAll, StartChain, DepthAll,
      Machine.Eval, Machine.EvalCompare;
    EvalGoes(p, a, StartChain(true, es, p.hidden, rest), fuel);
    ChainGoes(p, ops, es, rest, fuel);
    var r := p.M().Eval(a, p.f, Start(a, p.hidden, StartChain(true, es, p.hidden, rest)), fuel);
    assert r.Val? ==> r.value == ();
  }

  lemma {:induction false} IfGoesOn(p: Place, c: Expr, a: Expr, b: Expr, rest: Script, fuel: nat)
    requires p.Valid() && Closed(c, p.bound, p.builtins) && Closed(a, p.bound, p.builtins)
      && Closed(b, p.bound, p.builtins)
    requires WellFormed(c) && WellFormed(a) && WellFormed(b) && fuel >= Depth(c) + Depth(a) + Depth(b)
    ensures var h := Start(c, p.hidden, if Visible(a, p.hidden) then Then(false, Start(b, p.hidden, rest))
      else Then(true, Start(a, p.hidden, rest)));
      Goes(p.M().EvalIf(c, a, b, p.f, h, fuel), Visible(c, p.hidden) && Visible(a, p.hidden)
        && Visible(b, p.hidden), rest)
    decreases fuel, 4, 0
  {
    hide Place.Valid;
    hide Closed, WellFormed, Visible, Start, Depth, Machine.Eval;
    if Visible(a, p.hidden) {
      EvalGoes(p, c, Then(false, Start(b, p.hidden, rest)), fuel);
      EvalGoes(p, b, rest, fuel);
    } else {
      EvalGoes(p, c, Then(true, Start(a, p.hidden, rest)), fuel);
      EvalGoes(p, a, rest, fuel);
    }
  }

  lemma {:induction false} GeneratorGoes(p: Place, elt: Expr, gs: seq<Generator>, rest: Script, fuel: nat)
    requires gs != [] && p.Valid() && ClosedClauses(gs, p.bound, p.builtins, false)
      && Closed(elt, p.bound + Locals(gs), p.builtins)
    requires WellFormedClauses(gs) && WellFormed(elt) && fuel >= Depth(elt) + DepthClauses(gs)
    ensures var ok := VisibleClauses(gs, p.hidden + Locals(gs), true) && Visible(elt, p.hidden - Locals(gs));
      var next := if ok then Then(false, rest)
                  else StartClauses(gs, p.hidden + Locals(gs), true, Start(elt, p.hidden - Locals(gs), End));
      Goes(p.M().EvalGenerator(elt, gs, p.f, Start(gs[0].iter, p.hidden, next), fuel), Visible(gs[0].iter, p.hidden)
        && ok, rest)
    decreases fuel, 4, 0
  {
    FirstClause(gs, p.bound, p.builtins);
    if VisibleClauses(gs, p.hidden + Locals(gs), true) && Visible(elt, p.hidden - Locals(gs)) {
      GeneratorPasses(p, elt, gs, rest, fuel);
    } else {
      GeneratorReaches(p, elt, gs, fuel);
    }
  }

  /** With nothing hidden inside, an iterator that is empty at once ends the expression. */
  lemma {:induction false} GeneratorPasses(p: Place, elt: Expr, gs: seq<Generator>, rest: Script, fuel: nat)
    requires gs != [] && p.Valid() && Closed(gs[0].iter, p.bound, p.builtins) && WellFormed(gs[0].iter)
      && fuel >= Depth(gs[0].iter)
    ensures Goes(p.M().EvalGenerator(elt, gs, p.f, Start(gs[0].iter, p.hidden, Then(false, rest)), fuel),
      Visible(gs[0].iter, p.hidden), rest)
    decreases fuel, 3, |gs|
  {
    hide Place.Valid, Closed, WellFormed, Visible, Start, Machine.Eval, Machine.Generate;
    EvalGoes(p, gs[0].iter, Then(false, rest), fuel);
    DepthIsPositive(gs[0].iter);
    NothingToGenerate(p, elt, gs, rest, Frame(p.f.scope + Locals(gs), p.f.env - Locals(gs)), fuel);
  }

  lemma DepthIsPositive(e: Expr)
    ensures Depth(e) > 0
  {
  }

  lemma {:induction false} GeneratorReaches(p: Place, elt: Expr, gs: seq<Generator>, fuel: nat)
    requires gs != [] && p.Valid() && ClosedClauses(gs, p.bound, p.builtins, true)
      && Closed(elt, p.bound + Locals(gs), p.builtins)
    requires Closed(gs[0].iter, p.bound, p.builtins) && WellFormed(gs[0].iter) && fuel >= Depth(gs[0].iter)
    requires WellFormedClauses(gs) && WellFormed(elt) && fuel >= Depth(elt) + DepthClauses(gs)
      && Locals(gs) !! p.builtins
    requires !(VisibleClauses(gs, p.hidden + Locals(gs), true) && Visible(elt, p.hidden - Locals(gs)))
    ensures var next := StartClauses(gs, p.hidden + Locals(gs), true, Start(elt, p.hidden - Locals(gs), End));
      p.M().EvalGenerator(elt, gs, p.f, Start(gs[0].iter, p.hidden, next), fuel).Unbound?
    decreases fuel, 3, |gs|
  {
    hide Place.Valid, Closed, ClosedClauses, WellFormed, WellFormedClauses, Visible, VisibleClauses, Start,
      StartClauses, Depth, DepthClauses;
    hide Machine.Eval, Machine.Generate;
    var inside := Inside(p, Locals(gs));
    EvalGoes(p, gs[0].iter, StartClauses(gs, p.hidden + Locals(gs), true, Start(elt, p.hidden - Locals(gs), End)),
      fuel);
    InsideIsValid(p, Locals(gs));
    ClausesReach(inside, elt, gs, (), fuel);
  }

  /** The place a generator expression with these locals opens. */
  function Inside(p: Place, locals: set<string>): Place {
    p.(hidden := p.hidden + locals, f := Frame(p.f.scope + locals, p.f.env - locals))
  }

  lemma InsideIsValid(p: Place, locals: set<string>)
    requires p.Valid() && locals !! p.builtins
    ensures Inside(p, locals).Valid() && Inside(p, locals).hidden - locals == p.hidden - locals
  {
    assert Inside(p, locals).f.env.Keys == p.f.env.Keys - locals;
  }

  /** After a target has been bound. */
  lemma WithIsValid(p: Place, t: Expr, v: (), h: Script, fuel: nat)
    requires p.Valid()
    ensures var r := p.M().Bind(t, v, p.f, h, fuel); r.Val? ==> p.With(Bound(t), r.value).Valid()
  {
    hide Machine.Bind;
    BindGrows(p.M(), t, v, p.f, h, fuel);
  }

  lemma NothingToGenerate(p: Place, elt: Expr, gs: seq<Generator>, rest: Script, f: Frame<()>, fuel: nat)
    requires gs != [] && fuel > 0
    ensures p.M().Generate(elt, gs, (), f, Then(false, rest), fuel) == Val(([], f), rest)
  {
  }

  lemma FirstClause(gs: seq<Generator>, bound: set<string>, builtins: set<string>)
    requires gs != [] && ClosedClauses(gs, bound, builtins, false) && WellFormedClauses(gs)
    ensures Closed(gs[0].iter, bound, builtins) && WellFormed(gs[0].iter) && Depth(gs[0].iter) <= DepthClauses(gs)
      && DepthClauses(gs) > 0
    ensures ClosedClauses(gs, bound, builtins, true) && Locals(gs) !! builtins
  {
    LocalsAreNotBuiltins(gs, bound, builtins, false);
  }

  lemma {:induction false} BoolGoes(p: Place, conj: bool, es: seq<Expr>, rest: Script, fuel: nat)
    requires p.Valid() && ClosedAll(es, p.bound, p.builtins) && es != [] && WellFormedAll(es) && fuel >= DepthAll(es)
    ensures Goes(p.M().EvalBool(conj, es, p.f, StartChain(conj, es, p.hidden, rest), fuel), VisibleAll(es, p.hidden),
      rest)
    decreases fuel, 1, |es|
  {
    hide Place.Valid;
    if |es| == 1 {
      assert es[1..] == [] && VisibleAll([], p.hidden);
      EvalGoes(p, es[0], rest, fuel);
    } else {
      EvalGoes(p, es[0], Then(conj, StartChain(conj, es[1..], p.hidden, rest)), fuel);
      BoolGoes(p, conj, es[1..], rest, fuel);
    }
  }

  lemma {:induction false} ChainGoes(p: Place, ops: seq<Comparison>, es: seq<Expr>, rest: Script, fuel: nat)
    requires p.Valid() && ClosedAll(es, p.bound, p.builtins) && es != [] && WellFormedAll(es) && fuel >= DepthAll(es)
    requires |ops| == |es|
    ensures Goes(p.M().EvalCompare((), ops, es, p.f, StartChain(true, es, p.hidden, rest), fuel),
      VisibleAll(es, p.hidden), rest)
    decreases fuel, 1, |es|
  {
    hide Place.Valid;
    if |es| == 1 {
      assert es[1..] == [] && VisibleAll([], p.hidden);
      EvalGoes(p, es[0], rest, fuel);
    } else {
      EvalGoes(p, es[0], Then(true, StartChain(true, es[1..], p.hidden, rest)), fuel);
      ChainGoes(p, ops[1..], es[1..], rest, fuel);
    }
  }

  lemma {:induction false} ConditionsGo(p: Place, es: seq<Expr>, rest: Script, fuel: nat)
    requires p.Valid() && ClosedAll(es, p.bound, p.builtins) && WellFormedAll(es) && fuel >= DepthAll(es)
    ensures var r := p.M().Conditions(es, p.f, StartConditions(es, p.hidden, rest), fuel);
      Goes(r, VisibleAll(es, p.hidden), rest) && (r.Val? ==> r.value)
    decreases fuel, 1, |es|
  {
    hide Place.Valid;
    if es != [] {
      EvalGoes(p, es[0], Then(true, StartConditions(es[1..], p.hidden, rest)), fuel);
      ConditionsGo(p, es[1..], rest, fuel);
    }
  }

  lemma {:induction false} TargetGoes(p: Place, t: Expr, rest: Script, fuel: nat)
    requires p.Valid() && ClosedTarget(t, p.bound, p.builtins) && WellFormed(t) && fuel >= Depth(t)
    ensures Goes(p.M().Bind(t, (), p.f, StartTarget(t, p.hidden, rest), fuel), VisibleTarget(t, p.hidden), rest)
    decreases fuel, 1, 0
  {
    hide Place.Valid;
    hide Closed, ClosedTargets, Visible, VisibleTargets, WellFormedAll, Start, StartTargets, Machine.BindAll,
      Machine.EvalAll;
    match t
    case Name(_) =>
    case Subscript(b, i) => PairGoes(p, b, i, rest, fuel - 1);
    case List(ts) => TargetsGo(p, ts, seq(|ts|, _ => ()), rest, fuel - 1);
    case Tuple(ts) => TargetsGo(p, ts, seq(|ts|, _ => ()), rest, fuel - 1);
  }

  lemma {:induction false} TargetsGo(p: Place, ts: seq<Expr>, vs: seq<()>, rest: Script, fuel: nat)
    requires p.Valid() && ClosedTargets(ts, p.bound, p.builtins) && WellFormedAll(ts) && |vs| == |ts|
      && fuel >= DepthAll(ts)
    ensures Goes(p.M().BindAll(ts, vs, p.f, StartTargets(ts, p.hidden, rest), fuel), VisibleTargets(ts, p.hidden), rest)
    decreases fuel, 2, |ts|
  {
    if ts != [] {
      var next := StartTargets(ts[1..], p.hidden - Bound(ts[0]), rest);
      TargetGoes(p, ts[0], next, fuel);
      var h := StartTarget(ts[0], p.hidden, next);
      BindGrows(p.M(), ts[0], vs[0], p.f, h, fuel);
      var r := p.M().Bind(ts[0], vs[0], p.f, h, fuel);
      assert vs[0] == ();
      if r.Val? {
        TargetsGo(p.(hidden := p.hidden - Bound(ts[0]), f := r.value), ts[1..], vs[1..], rest, fuel);
      }
    }
  }

  /** When some clause or the element has a hidden read, the first item of every clause leads to it. */
  lemma {:induction false} ClausesReach(p: Place, elt: Expr, gs: seq<Generator>, it: (), fuel: nat)
    requires gs != [] && p.Valid() && WellFormedClauses(gs) && WellFormed(elt) && fuel >= DepthClauses(gs) + Depth(elt)
    requires ClosedClauses(gs, p.bound, p.builtins, true) && Closed(elt, p.bound + Locals(gs), p.builtins)
    requires !(VisibleClauses(gs, p.hidden, true) && Visible(elt, p.hidden - Locals(gs)))
    ensures p.M().Generate(elt, gs, it, p.f, StartClauses(gs, p.hidden, true, Start(elt, p.hidden - Locals(gs), End)),
      fuel).Unbound?
    decreases fuel, 2, |gs|
  {
    hide Machine.Bind, Machine.Item, Closed, ClosedAll, ClosedTarget, Visible, VisibleAll, VisibleTarget, WellFormed,
      WellFormedAll;
    hide Start, StartTarget, StartConditions, Depth, DepthAll, Place.Valid;
    var t := gs[0].target;
    var inner := Start(elt, p.hidden - Locals(gs), End);
    var hidden' := p.hidden - Bound(t);
    var rest := StartConditions(gs[0].ifs, hidden', StartClauses(gs[1..], hidden', false, inner));
    assert StartClauses(gs, p.hidden, true, inner) == Then(true, StartTarget(t, p.hidden, rest));
    TargetGoes(p, t, rest, fuel - 1);
    var h := StartTarget(t, p.hidden, rest);
    WithIsValid(p, t, (), h, fuel - 1);
    var r := p.M().Bind(t, (), p.f, h, fuel - 1);
    assert p.bound + Bound(t) + Locals(gs[1..]) == p.bound + Locals(gs);
    assert hidden' - Locals(gs[1..]) == p.hidden - Locals(gs);
    if r.Val? {
      ItemReaches(p.With(Bound(t), r.value), elt, gs, it, inner, fuel - 1);
    }
  }

  lemma {:induction false} ItemReaches(p: Place, elt: Expr, gs: seq<Generator>, it: (), inner: Script, fuel: nat)
    requires gs != [] && p.Valid() && WellFormedClauses(gs) && WellFormed(elt)
    requires fuel >= DepthAll(gs[0].ifs) + DepthClauses(gs[1..]) + Depth(elt)
    requires ClosedAll(gs[0].ifs, p.bound, p.builtins)
    requires ClosedClauses(gs[1..], p.bound, p.builtins, false) && Closed(elt, p.bound + Locals(gs[1..]), p.builtins)
    requires inner == Start(elt, p.hidden - Locals(gs[1..]), End)
    requires !(VisibleAll(gs[0].ifs, p.hidden) && VisibleClauses(gs[1..], p.hidden, false)
      && Visible(elt, p.hidden - Locals(gs[1..])))
    ensures p.M().Item(elt, gs, it, p.f,
      StartConditions(gs[0].ifs, p.hidden, StartClauses(gs[1..], p.hidden, false, inner)), fuel).Unbound?
    decreases fuel, 4, |gs|
  {
    var rest := StartClauses(gs[1..], p.hidden, false, inner);
    ConditionsGo(p, gs[0].ifs, rest, fuel);
    if VisibleAll(gs[0].ifs, p.hidden) {
      InnerReaches(p, elt, gs[1..], fuel);
    }
  }

  lemma {:induction false} InnerReaches(p: Place, elt: Expr, gs: seq<Generator>, fuel: nat)
    requires p.Valid() && WellFormedClauses(gs) && WellFormed(elt) && fuel >= DepthClauses(gs) + Depth(elt)
    requires ClosedClauses(gs, p.bound, p.builtins, false) && Closed(elt, p.bound + Locals(gs), p.builtins)
    requires !(VisibleClauses(gs, p.hidden, false) && Visible(elt, p.hidden - Locals(gs)))
    ensures p.M().Inner(elt, gs, p.f, StartClauses(gs, p.hidden, false, Start(elt, p.hidden - Locals(gs), End)),
      fuel).Unbound?
    decreases fuel, 3, |gs|
  {
    var inner := Start(elt, p.hidden - Locals(gs), End);
    if gs == [] {
      assert p.bound + Locals(gs) == p.bound && p.hidden - Locals(gs) == p.hidden;
      EvalGoes(p, elt, End, fuel);
    } else {
      EvalGoes(p, gs[0].iter, StartClauses(gs, p.hidden, true, inner), fuel);
      if Visible(gs[0].iter, p.hidden) {
        ClausesReach(p, elt, gs, (), fuel);
      }
    }
  }

  /** Running closed code outside generator expressions: into a hidden read if it has a reachable
      one, and otherwise, if the code can fall through, to its end. */
  lemma {:induction false} BlockGoes(p: Place, ss: seq<Stmt>, rest: Script, fuel: nat)
    requires p.Valid() && p.hidden == {} && fuel >= DepthBlock(ss)
    requires ClosedBlock(ss, p.bound, p.builtins) && WellFormedBlock(ss) && Plain(ss)
    ensures var r := p.M().Exec(ss, p.f, StartBlock(ss, rest), fuel);
      && (!VisibleBlock(ss) ==> r.Unbound?)
      && (VisibleBlock(ss) && Falls(ss) ==> r.Val? && r.value.0.Normal? && r.heap == rest)
    decreases fuel, 5, |ss|
  {
    hide ClosedStmt, WellFormedStmt, PlainOne, VisibleStmt, FallsOne, AfterOne, StartOne, DepthOne, Machine.ExecOne;
    if ss != [] {
      var h := StartOne(ss[0], StartBlock(ss[1..], rest));
      StmtGoes(p, ss[0], StartBlock(ss[1..], rest), fuel);
      ExecOneGrows(p.M(), ss[0], p.f, h, fuel, p.bound, {});
      var r := p.M().ExecOne(ss[0], p.f, h, fuel);
      if r.Val? && r.value.0.Normal? {
        BlockGoes(p.(bound := AfterOne(ss[0], p.bound), f := r.value.1), ss[1..], rest, fuel);
      }
    }
  }

  lemma {:induction false} StmtGoes(p: Place, s: Stmt, rest: Script, fuel: nat)
    requires p.Valid() && p.hidden == {} && fuel >= DepthOne(s)
    requires ClosedStmt(s, p.bound, p.builtins) && WellFormedStmt(s) && PlainOne(s)
    ensures var r := p.M().ExecOne(s, p.f, StartOne(s, rest), fuel);
      && (!VisibleStmt(s) ==> r.Unbound?)
      && (VisibleStmt(s) && FallsOne(s) ==> r.Val? && r.value.0.Normal? && r.heap == rest)
    decreases fuel, 4, 0
  {
    hide Place.Valid;
    hide Closed, WellFormed, Visible, Start, Machine.Eval, ClosedBlock, WellFormedBlock, Plain, VisibleBlock, Falls,
      StartBlock, DepthBlock;
    hide Machine.BindEach, Machine.Exec, Machine.Loop, ClosedEach, VisibleTargets, StartTargets, WellFormedAll;
    match s
    case Assign(_, _) => AssignGoes(p, s, rest, fuel);
    case AugAssign(_, _, _) => AugAssignGoes(p, s, rest, fuel);
    case For(_, _, _, _) => ForGoes(p, s, rest, fuel);
    case If(_, _, _) => IfGoes(p, s, rest, fuel);
    case Evaluate(e) => EvalGoes(p, e, rest, fuel - 1);
    case Assert(c, _) => EvalGoes(p, c, Then(true, rest), fuel - 1);
    case _ =>
  }

  lemma {:induction false} AssignGoes(p: Place, s: Stmt, rest: Script, fuel: nat)
    requires s.Assign? && p.Valid() && p.hidden == {} && fuel >= DepthOne(s)
    requires ClosedStmt(s, p.bound, p.builtins) && WellFormedStmt(s)
    ensures var r := p.M().ExecOne(s, p.f, StartOne(s, rest), fuel);
      if VisibleStmt(s) then r.Val? && r.value.0.Normal? && r.heap == rest else r.Unbound?
    decreases fuel - 1, 4, 0
  {
    hide Place.Valid;
    hide Closed, WellFormed, Visible, Start, Machine.Eval, Machine.BindEach, ClosedEach, VisibleTargets, StartTargets,
      WellFormedAll;
    var next := StartTargets(s.targets, {}, rest);
    EvalGoes(p, s.value, next, fuel - 1);
    EachGoes(p, s.targets, rest, fuel - 1);
    var r := p.M().Eval(s.value, p.f, Start(s.value, {}, next), fuel - 1);
    assert r.Val? ==> r.value == ();
  }

  lemma {:induction false} EachGoes(p: Place, ts: seq<Expr>, rest: Script, fuel: nat)
    requires p.Valid() && ClosedEach(ts, p.bound, p.builtins) && WellFormedAll(ts) && fuel >= DepthAll(ts)
    ensures Goes(p.M().BindEach(ts, (), p.f, StartTargets(ts, p.hidden, rest), fuel), VisibleTargets(ts, p.hidden),
      rest)
    decreases fuel, 2, |ts|
  {
    hide Machine.Bind, ClosedTarget, VisibleTarget, StartTarget, WellFormed, Depth;
    if ts != [] {
      var next := StartTargets(ts[1..], p.hidden - Bound(ts[0]), rest);
      var h := StartTarget(ts[0], p.hidden, next);
      TargetGoes(p, ts[0], next, fuel);
      BindGrows(p.M(), ts[0], (), p.f, h, fuel);
      var r := p.M().Bind(ts[0], (), p.f, h, fuel);
      if r.Val? {
        EachGoes(p.With(Bound(ts[0]), r.value), ts[1..], rest, fuel);
      }
    }
  }

  lemma AugTarget(t: Expr, bound: set<string>, builtins: set<string>)
    requires Closed(t, bound, builtins) && WellFormed(t) && (t.Name? || t.Subscript?)
    ensures t.Name? ==> t.id in bound && Visible(t, {})
    ensures t.Subscript? ==>
      && Closed(t.base, bound, builtins) && Closed(t.index, bound, builtins)
      && WellFormed(t.base) && WellFormed(t.index)
      && Visible(t, {}) == (Visible(t.base, {}) && Visible(t.index, {}))
  {
  }

  lemma {:induction false} AugAssignGoes(p: Place, s: Stmt, rest: Script, fuel: nat)
    requires s.AugAssign? && p.Valid() && p.hidden == {} && fuel >= DepthOne(s)
    requires ClosedStmt(s, p.bound, p.builtins) && WellFormedStmt(s)
    ensures var r := p.M().ExecOne(s, p.f, StartOne(s, rest), fuel);
      if VisibleStmt(s) then r.Val? && r.value.0.Normal? && r.heap == rest else r.Unbound?
    decreases fuel - 1, 4, 0
  {
    hide Visible, Closed, ClosedTarget, WellFormed, Start, Machine.Eval, Machine.EvalAll;
    AugTarget(s.target, p.bound, p.builtins);
    EvalGoes(p, s.value, rest, fuel - 1);
    if s.target.Subscript? {
      hide Place.Valid, Depth;
      AugDepth(s);
      PairGoes(p, s.target.base, s.target.index, Start(s.value, {}, rest), fuel - 1);
    }
  }

  lemma AugDepth(s: Stmt)
    requires s.AugAssign? && s.target.Subscript?
    ensures DepthOne(s) > Depth(s.target.base) + Depth(s.target.index)
  {
  }

  lemma {:induction false} IfGoes(p: Place, s: Stmt, rest: Script, fuel: nat)
    requires s.If? && p.Valid() && p.hidden == {} && fuel >= DepthOne(s)
    requires ClosedStmt(s, p.bound, p.builtins) && WellFormedStmt(s) && PlainOne(s)
    ensures var r := p.M().ExecOne(s, p.f, StartOne(s, rest), fuel);
      && (!VisibleStmt(s) ==> r.Unbound?)
      && (VisibleStmt(s) && FallsOne(s) ==> r.Val? && r.value.0.Normal? && r.heap == rest)
    decreases fuel - 1, 6, 0
  {
    hide Place.Valid;
    hide Closed, WellFormed, Visible, Start, Machine.Eval, ClosedBlock, WellFormedBlock, Plain, VisibleBlock, Falls,
      StartBlock, DepthBlock;
    hide Machine.Exec;
    var first := EnterFirst(s.body, s.orelse);
    var branch := if first then s.body else s.orelse;
    EvalGoes(p, s.test, Then(first, StartBlock(branch, rest)), fuel - 1);
    BlockGoes(p, branch, rest, fuel - 1);
  }

  lemma {:induction false} ForGoes(p: Place, s: Stmt, rest: Script, fuel: nat)
    requires s.For? && p.Valid() && p.hidden == {} && fuel >= DepthOne(s)
    requires ClosedStmt(s, p.bound, p.builtins) && WellFormedStmt(s) && PlainOne(s)
    ensures var r := p.M().ExecOne(s, p.f, StartOne(s, rest), fuel);
      if VisibleStmt(s) then r.Val? && r.value.0.Normal? && r.heap == rest else r.Unbound?
    decreases fuel - 1, 6, 0
  {
    hide Closed, WellFormed, Visible, Start, Machine.Eval, ClosedBlock, WellFormedBlock, Plain, StartBlock, DepthBlock;
    hide ClosedTarget, VisibleTarget, StartTarget, Machine.Bind, Machine.Turn;
    var t, body := s.target, s.body;
    if VisibleTarget(t, {}) && VisibleBlock(body) {
      EvalGoes(p, s.iter, Then(false, rest), fuel - 1);
      assert VisibleBlock(s.orelse);
      assert p.M().Exec([], p.f, rest, fuel - 2) == Val((Normal, p.f), rest);
      assert p.M().Loop(t, (), body, s.orelse, p.f, Then(false, rest), fuel - 1) == Val((Normal, p.f), rest);
    } else {
      var inner := StartBlock(body, End);
      EvalGoes(p, s.iter, Then(true, StartTarget(t, {}, inner)), fuel - 1);
      TargetGoes(p, t, inner, fuel - 2);
      BindGrows(p.M(), t, (), p.f, StartTarget(t, {}, inner), fuel - 2);
      var r := p.M().Bind(t, (), p.f, StartTarget(t, {}, inner), fuel - 2);
      if r.Val? {
        TurnReaches(p.With(Bound(t), r.value), s, fuel - 2);
      }
    }
  }

  lemma {:induction false} TurnReaches(p: Place, s: Stmt, fuel: nat)
    requires s.For? && p.Valid() && p.hidden == {} && fuel >= DepthBlock(s.body) && !VisibleBlock(s.body)
    requires ClosedBlock(s.body, p.bound, p.builtins) && WellFormedBlock(s.body) && Plain(s.body)
    ensures p.M().Turn(s.target, (), s.body, s.orelse, p.f, StartBlock(s.body, End), fuel).Unbound?
    decreases fuel, 6, 0
  {
    BlockGoes(p, s.body, End, fuel);
  }
}
