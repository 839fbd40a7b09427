/** A big-step semantics of the fragment. Values, the heap and every primitive operation are
    parameters; what is fixed is evaluation order, control flow and how names are resolved. A name
    is looked up among the bindings made so far, then -- unless the enclosing scope makes it local --
    in the ambient environment. As in Python, the targets of a generator expression are local to
    it: they hide outer bindings of the same name in every clause but the first iterable. */
module Machine {
  import opened Syntax
  import opened Wrappers

  /** The operations a program reaches only through the machine. */
  datatype Prim =
    | Literally(value: Literal) | MakeList | MakeTuple | MakeDict | MakeSlice | MakeGenerator
    | GetItem | SetItem | Binary(op: Operator) | InPlace(op: Operator) | UnaryPrim(unary: Unary)
    | CompareBy(how: Comparison) | Call | CallAttribute(attr: string) | Unsupported

  datatype Res<+T, +H> = Val(value: T, heap: H) | Unbound(name: string) | Raised | OutOfFuel
  {
    predicate IsFailure() { !Val? }

    function PropagateFailure<U>(): Res<U, H>
      requires !Val?
    {
      match this
      case Unbound(x) => Unbound(x)
      case Raised => Raised
      case OutOfFuel => OutOfFuel
    }

    function Extract(): (T, H)
      requires Val?
    {
      (value, heap)
    }
  }

  /** A primitive operation succeeds or raises; it never fails to resolve a name. */
  function Ran<T, H>(outcome: Option<(T, H)>): Res<T, H> {
    match outcome
    case None => Raised
    case Some((v, h)) => Val(v, h)
  }

  /** The bindings made so far and the names that are local whether bound or not. */
  datatype Frame<V> = Frame(scope: set<string>, env: map<string, V>)

  datatype Signal<V> = Normal | Broke | Continued | Returned(value: V)

  datatype Machine<!V, !H> = Machine(
    prim: (Prim, seq<V>, H) -> Option<(V, H)>,
    truth: (V, H) -> Option<(bool, H)>,
    iter: (V, H) -> Option<(V, H)>,
    next: (V, H) -> Option<(Option<V>, H)>,
    unpack: (V, nat, H) -> Option<(seq<V>, H)>,
    ambient: map<string, V>)
  {
    function Lookup(x: string, f: Frame<V>, h: H): Res<V, H> {
      if x in f.env then Val(f.env[x], h)
      else if x in f.scope then Unbound(x)
      else if x in ambient then Val(ambient[x], h)
      else Unbound(x)
    }

    function Eval(e: Expr, f: Frame<V>, h: H, fuel: nat): Res<V, H>
      decreases fuel, 0, 0
    {
      if fuel == 0 then OutOfFuel
      else
        match e
        case Name(x) => Lookup(x, f, h)
        case Const(c) => Ran(prim(Literally(c), [], h))
        case List(es) => var (vs, h) :- EvalAll(es, f, h, fuel - 1); Ran(prim(MakeList, vs, h))
        case Tuple(es) => var (vs, h) :- EvalAll(es, f, h, fuel - 1); Ran(prim(MakeTuple, vs, h))
        case Dict(es) => var (vs, h) :- EvalAll(es, f, h, fuel - 1); Ran(prim(MakeDict, vs, h))
        case Slice(es) => var (vs, h) :- EvalAll(es, f, h, fuel - 1); Ran(prim(MakeSlice, vs, h))
        case Subscript(b, i) => var (vs, h) :- EvalAll([b, i], f, h, fuel - 1); Ran(prim(GetItem, vs, h))
        case BinOp(op, l, r) => var (vs, h) :- EvalAll([l, r], f, h, fuel - 1); Ran(prim(Binary(op), vs, h))
        case UnaryOp(op, x) => var (v, h) :- Eval(x, f, h, fuel - 1); Ran(prim(UnaryPrim(op), [v], h))
        case BoolOp(conj, es) => EvalBool(conj, es, f, h, fuel - 1)
        case Compare(a, ops, es) => EvalComparison(a, ops, es, f, h, fuel - 1)
        case IfExp(c, a, b) => EvalIf(c, a, b, f, h, fuel - 1)
        case CallName(g, es, _) =>
          var (callee, h) :- Lookup(g, f, h);
          var (vs, h) :- EvalAll(es, f, h, fuel - 1);
          Ran(prim(Call, [callee] + vs, h))
        case CallMethod(r, attr, es, _) =>
          var (vs, h) :- EvalAll([r] + es, f, h, fuel - 1);
          Ran(prim(CallAttribute(attr), vs, h))
        case GenExp(elt, gs) => EvalGenerator(elt, gs, f, h, fuel - 1)
        case Other => Ran(prim(Unsupported, [], h))
    }

    function EvalIf(c: Expr, a: Expr, b: Expr, f: Frame<V>, h: H, fuel: nat): Res<V, H>
      decreases fuel, 4, 0
    {
      var (v, h) :- Eval(c, f, h, fuel);
      var (yes, h) :- Ran(truth(v, h));
      if yes then Eval(a, f, h, fuel) else Eval(b, f, h, fuel)
    }

    function EvalComparison(a: Expr, ops: seq<Comparison>, es: seq<Expr>, f: Frame<V>, h: H, fuel: nat): Res<V, H>
      decreases fuel, 4, 0
    {
      var (v, h) :- Eval(a, f, h, fuel);
      EvalCompare(v, ops, es, f, h, fuel)
    }

    /** The first iterable is evaluated outside, everything else in the expression's own frame. */
    function EvalGenerator(elt: Expr, gs: seq<Generator>, f: Frame<V>, h: H, fuel: nat): Res<V, H>
      decreases fuel, 4, 0
    {
      if gs == [] then Raised
      else
        var (v, h) :- Eval(gs[0].iter, f, h, fuel);
        var (it, h) :- Ran(iter(v, h));
        var ((vs, _), h) :- Generate(elt, gs, it, Frame(f.scope + Locals(gs), f.env - Locals(gs)), h, fuel);
        Ran(prim(MakeGenerator, vs, h))
    }

    function EvalAll(es: seq<Expr>, f: Frame<V>, h: H, fuel: nat): Res<seq<V>, H>
      decreases fuel, 1, |es|
    {
      if es == [] then Val([], h)
      else
        var (v, h) :- Eval(es[0], f, h, fuel);
        var (vs, h) :- EvalAll(es[1..], f, h, fuel);
        Val([v] + vs, h)
    }

    function EvalBool(conj: bool, es: seq<Expr>, f: Frame<V>, h: H, fuel: nat): Res<V, H>
      decreases fuel, 1, |es|
    {
      if es == [] then Raised
      else
        var (v, h) :- Eval(es[0], f, h, fuel);
        if |es| == 1 then Val(v, h)
        else
          var (yes, h) :- Ran(truth(v, h));
          if yes == conj then EvalBool(conj, es[1..], f, h, fuel) else Val(v, h)
    }

    /** A chain of comparisons stops at the first one that is not true. */
    function EvalCompare(v: V, ops: seq<Comparison>, es: seq<Expr>, f: Frame<V>, h: H, fuel: nat): Res<V, H>
      decreases fuel, 1, |es|
    {
      if es == [] || ops == [] then Raised
      else
        var (w, h) :- Eval(es[0], f, h, fuel);
        var (c, h) :- Ran(prim(CompareBy(ops[0]), [v, w], h));
        if |es| == 1 then Val(c, h)
        else
          var (yes, h) :- Ran(truth(c, h));
          if yes then EvalCompare(w, ops[1..], es[1..], f, h, fuel) else Val(c, h)
    }

    /** Whether every condition holds, tested in order. */
    function Conditions(es: seq<Expr>, f: Frame<V>, h: H, fuel: nat): Res<bool, H>
      decreases fuel, 1, |es|
    {
      if es == [] then Val(true, h)
      else
        var (v, h) :- Eval(es[0], f, h, fuel);
        var (yes, h) :- Ran(truth(v, h));
        if yes then Conditions(es[1..], f, h, fuel) else Val(false, h)
    }

    /** The first of the remaining clauses of a generator expression over the rest of an iterator,
        and the clauses inside it. The frame is the expression's own and is kept from one item to
        the next. */
    function Generate(elt: Expr, gs: seq<Generator>, it: V, f: Frame<V>, h: H, fuel: nat): Res<(seq<V>, Frame<V>), H>
      requires gs != []
      decreases fuel, 2, |gs|
    {
      if fuel == 0 then OutOfFuel
      else
        var (item, h) :- Ran(next(it, h));
        if item.None? then Val(([], f), h)
        else
          var (f, h) :- Bind(gs[0].target, item.value, f, h, fuel - 1);
          Item(elt, gs, it, f, h, fuel - 1)
    }

    /** The item just bound, then the rest of the iterator. */
    function Item(elt: Expr, gs: seq<Generator>, it: V, f: Frame<V>, h: H, fuel: nat): Res<(seq<V>, Frame<V>), H>
      requires gs != []
      decreases fuel, 4, |gs|
    {
      var (yes, h) :- Conditions(gs[0].ifs, f, h, fuel);
      if !yes then Generate(elt, gs, it, f, h, fuel)
      else
        var ((vs, f), h) :- Inner(elt, gs[1..], f, h, fuel);
        var ((ws, f), h) :- Generate(elt, gs, it, f, h, fuel);
        Val((vs + ws, f), h)
    }

    function Inner(elt: Expr, gs: seq<Generator>, f: Frame<V>, h: H, fuel: nat): Res<(seq<V>, Frame<V>), H>
      decreases fuel, 3, |gs|
    {
      if gs == [] then
        var (v, h) :- Eval(elt, f, h, fuel);
        Val(([v], f), h)
      else
        var (v, h) :- Eval(gs[0].iter, f, h, fuel);
        var (it, h) :- Ran(iter(v, h));
        Generate(elt, gs, it, f, h, fuel)
    }

    /** Assigning a value to a target. */
    function Bind(t: Expr, v: V, f: Frame<V>, h: H, fuel: nat): Res<Frame<V>, H>
      decreases fuel, 1, 0
    {
      if fuel == 0 then OutOfFuel
      else
        match t
        case Name(x) => Val(f.(env := f.env[x := v]), h)
        case List(ts) => var (vs, h) :- Ran(unpack(v, |ts|, h));
          if |vs| != |ts| then Raised else BindAll(ts, vs, f, h, fuel - 1)
        case Tuple(ts) => var (vs, h) :- Ran(unpack(v, |ts|, h));
          if |vs| != |ts| then Raised else BindAll(ts, vs, f, h, fuel - 1)
        case Subscript(b, i) =>
          var (vs, h) :- EvalAll([b, i], f, h, fuel - 1);
          var (_, h) :- Ran(prim(SetItem, vs + [v], h));
          Val(f, h)
        case _ => Raised
    }

    function BindAll(ts: seq<Expr>, vs: seq<V>, f: Frame<V>, h: H, fuel: nat): Res<Frame<V>, H>
      requires |ts| == |vs|
      decreases fuel, 2, |ts|
    {
      if ts == [] then Val(f, h)
      else
        var (f, h) :- Bind(ts[0], vs[0], f, h, fuel);
        BindAll(ts[1..], vs[1..], f, h, fuel)
    }

    /** The same value to several targets, left to right. */
    function BindEach(ts: seq<Expr>, v: V, f: Frame<V>, h: H, fuel: nat): Res<Frame<V>, H>
      decreases fuel, 2, |ts|
    {
      if ts == [] then Val(f, h)
      else
        var (f, h) :- Bind(ts[0], v, f, h, fuel);
        BindEach(ts[1..], v, f, h, fuel)
    }

    function Exec(ss: seq<Stmt>, f: Frame<V>, h: H, fuel: nat): Res<(Signal<V>, Frame<V>), H>
      decreases fuel, 5, |ss|
    {
      if ss == [] then Val((Normal, f), h)
      else
        var ((signal, f), h) :- ExecOne(ss[0], f, h, fuel);
        if signal.Normal? then Exec(ss[1..], f, h, fuel) else Val((signal, f), h)
    }

    function ExecOne(s: Stmt, f: Frame<V>, h: H, fuel: nat): Res<(Signal<V>, Frame<V>), H>
      decreases fuel, 4, 0
    {
      if fuel == 0 then OutOfFuel
      else
        match s
        case Assign(ts, e) =>
          var (v, h) :- Eval(e, f, h, fuel - 1);
          var (f, h) :- BindEach(ts, v, f, h, fuel - 1);
          Val((Normal, f), h)
        case AugAssign(t, op, e) =>
          (match t
           case Name(x) =>
             var (shadowed, h) :- Lookup(x, f, h);
             var (v, h) :- Eval(e, f, h, fuel - 1);
             var (w, h) :- Ran(prim(InPlace(op), [shadowed, v], h));
             Val((Normal, f.(env := f.env[x := w])), h)
           case Subscript(b, i) =>
             var (place, h) :- EvalAll([b, i], f, h, fuel - 1);
             var (shadowed, h) :- Ran(prim(GetItem, place, h));
             var (v, h) :- Eval(e, f, h, fuel - 1);
             var (w, h) :- Ran(prim(InPlace(op), [shadowed, v], h));
             var (_, h) :- Ran(prim(SetItem, place + [w], h));
             Val((Normal, f), h)
           case _ => Raised)
        case For(t, e, body, orelse) =>
          var (v, h) :- Eval(e, f, h, fuel - 1);
          var (it, h) :- Ran(iter(v, h));
          Loop(t, it, body, orelse, f, h, fuel - 1)
        case While(c, body, orelse) =>
          var (v, h) :- Eval(c, f, h, fuel - 1);
          var (yes, h) :- Ran(truth(v, h));
          if !yes then Exec(orelse, f, h, fuel - 1)
          else
            var ((signal, f), h) :- Exec(body, f, h, fuel - 1);
            if signal.Broke? then Val((Normal, f), h)
            else if signal.Returned? then Val((signal, f), h)
            else ExecOne(s, f, h, fuel - 1)
        case If(c, a, b) =>
          var (v, h) :- Eval(c, f, h, fuel - 1);
          var (yes, h) :- Ran(truth(v, h));
          if yes then Exec(a, f, h, fuel - 1) else Exec(b, f, h, fuel - 1)
        case Evaluate(e) => var (_, h) :- Eval(e, f, h, fuel - 1); Val((Normal, f), h)
        case Assert(c, _) =>
          var (v, h) :- Eval(c, f, h, fuel - 1);
          var (yes, h) :- Ran(truth(v, h));
          if yes then Val((Normal, f), h) else Raised
        case Return(e) => var (v, h) :- Eval(e, f, h, fuel - 1); Val((Returned(v), f), h)
        case Break => Val((Broke, f), h)
        case Continue => Val((Continued, f), h)
        case OtherStmt => var (_, h) :- Ran(prim(Unsupported, [], h)); Val((Normal, f), h)
    }

    function Loop(t: Expr, it: V, body: seq<Stmt>, orelse: seq<Stmt>, f: Frame<V>, h: H,
        fuel: nat): Res<(Signal<V>, Frame<V>), H>
      decreases fuel, 6, 0
    {
      if fuel == 0 then OutOfFuel
      else
        var (item, h) :- Ran(next(it, h));
        if item.None? then Exec(orelse, f, h, fuel - 1)
        else
          var (f, h) :- Bind(t, item.value, f, h, fuel - 1);
          Turn(t, it, body, orelse, f, h, fuel - 1)
    }

    /** The body for the item just bound, then the rest of the iterator. */
    function Turn(t: Expr, it: V, body: seq<Stmt>, orelse: seq<Stmt>, f: Frame<V>, h: H,
        fuel: nat): Res<(Signal<V>, Frame<V>), H>
      decreases fuel, 7, 0
    {
      var ((signal, f), h) :- Exec(body, f, h, fuel);
      if signal.Broke? then Val((Normal, f), h)
      else if signal.Returned? then Val((signal, f), h)
      else Loop(t, it, body, orelse, f, h, fuel)
    }
  }
}
