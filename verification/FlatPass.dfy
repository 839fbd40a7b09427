/** The single-function checker as one pass over the nodes of the syntax tree, in no particular order: each node
    has a rule of its own, and the report names the functions called anywhere. */
module FlatPass {
  import opened Syntax
  import opened Scoping
  import opened SingleFunction
  import opened Wrappers

  /** A node: an expression that is evaluated, one that is assigned to, or a statement. */
  datatype Part = Read(e: Expr) | Aim(t: Expr) | Line(s: Stmt)

  function Reads(e: Expr): set<Part> {
    {Read(e)} +
    match e
    case List(es) => ReadsAll(es)
    case Tuple(es) => ReadsAll(es)
    case Slice(es) => ReadsAll(es)
    case Subscript(b, i) => Reads(b) + Reads(i)
    case BinOp(_, l, r) => Reads(l) + Reads(r)
    case Compare(a, _, es) => Reads(a) + ReadsAll(es)
    case CallName(_, es, _) => ReadsAll(es)
    case CallMethod(r, _, es, _) => Reads(r) + ReadsAll(es)
    case _ => {}
  }

  function ReadsAll(es: seq<Expr>): set<Part> {
    if es == [] then {} else Reads(es[0]) + ReadsAll(es[1..])
  }

  /** A subscript that is assigned to has its base and its index evaluated. */
  function Aims(t: Expr): set<Part> {
    {Aim(t)} +
    match t
    case List(ts) => AimsAll(ts)
    case Tuple(ts) => AimsAll(ts)
    case Subscript(b, i) => Reads(b) + Reads(i)
    case _ => {}
  }

  function AimsAll(ts: seq<Expr>): set<Part> {
    if ts == [] then {} else Aims(ts[0]) + AimsAll(ts[1..])
  }

  function Parts(ss: seq<Stmt>): set<Part> {
    if ss == [] then {} else PartsOf(ss[0]) + Parts(ss[1..])
  }

  function PartsOf(s: Stmt): set<Part> {
    {Line(s)} +
    match s
    case Assign(ts, e) => Reads(e) + AimsAll(ts)
    case AugAssign(t, _, e) => Aims(t) + Reads(e)
    case For(t, e, body, orelse) => Reads(e) + Aims(t) + Parts(body) + Parts(orelse)
    case While(c, body, orelse) => Reads(c) + Parts(body) + Parts(orelse)
    case If(c, a, b) => Reads(c) + Parts(a) + Parts(b)
    case Evaluate(e) => Reads(e)
    case Return(e) => Reads(e)
    case _ => {}
  }

  /** The rule a node is checked by, looking at nothing below it. */
  predicate Passes(p: Part, bound: set<string>) {
    match p
    case Read(e) => PassesRead(e, bound)
    case Aim(t) => t.Name? || t.List? || t.Tuple? || t.Subscript?
    case Line(s) =>
      (match s
       case AugAssign(t, op, _) => op in {Add, Sub} && (t.Name? || t.Subscript?)
       case _ => s.Assign? || s.For? || s.While? || s.If? || s.Evaluate? || s.Return?)
  }

  predicate PassesRead(e: Expr, bound: set<string>) {
    match e
    case Name(x) => x in bound
    case Const(c) => c.Text? || c.Integer? || c.Boolean? || c.Nothing?
    case BinOp(op, _, _) => op in {Add, Sub}
    case Compare(_, ops, _) => forall op | op in ops :: op in {Gt, Lt, NotEq}
    case CallName(g, es, plain) => plain && BuiltinArity(g, |es|)
    case CallMethod(_, attr, es, plain) => plain && MethodArity(attr, |es|)
    case _ => e.List? || e.Tuple? || e.Subscript? || e.Slice?
  }

  predicate AllPass(ps: set<Part>, bound: set<string>) {
    forall p | p in ps :: Passes(p, bound)
  }

  /** The names called by some node. */
  function Called(ps: set<Part>): set<string> {
    set p | p in ps && p.Read? && p.e.CallName? :: p.e.func
  }

  /** The names some node assigns to. */
  function Aimed(ps: set<Part>): set<string> {
    set p | p in ps && p.Aim? && p.t.Name? :: p.t.id
  }

  lemma Both(a: set<Part>, b: set<Part>, bound: set<string>)
    ensures AllPass(a + b, bound) <==> AllPass(a, bound) && AllPass(b, bound)
    ensures Called(a + b) == Called(a) + Called(b) && Aimed(a + b) == Aimed(a) + Aimed(b)
  {
    assert forall p | p in a :: p in a + b;
    assert forall p | p in b :: p in a + b;
    forall g | g in Called(a) + Called(b) ensures g in Called(a + b) {
      var p :| (p in a || p in b) && p.Read? && p.e.CallName? && p.e.func == g;
      assert p in a + b;
    }
    forall x | x in Aimed(a) + Aimed(b) ensures x in Aimed(a + b) {
      var p :| (p in a || p in b) && p.Aim? && p.t.Name? && p.t.id == x;
      assert p in a + b;
    }
  }

  lemma Single(p: Part, bound: set<string>)
    ensures AllPass({p}, bound) <==> Passes(p, bound)
    ensures Called({p}) == if p.Read? && p.e.CallName? then {p.e.func} else {}
    ensures Aimed({p}) == if p.Aim? && p.t.Name? then {p.t.id} else {}
  {
    assert p in {p};
  }

  lemma Nobody(bound: set<string>)
    ensures AllPass({}, bound) && Called({}) == {} && Aimed({}) == {}
  {
  }

  /** A node and the parts below it. */
  lemma Node(p: Part, below: set<Part>, bound: set<string>)
    ensures AllPass({p} + below, bound) <==> Passes(p, bound) && AllPass(below, bound)
    ensures Called({p} + below) == (if p.Read? && p.e.CallName? then {p.e.func} else {}) + Called(below)
    ensures Aimed({p} + below) == (if p.Aim? && p.t.Name? then {p.t.id} else {}) + Aimed(below)
  {
    hide AllPass, Called, Aimed, Passes;
    Single(p, bound);
    Both({p}, below, bound);
  }

  lemma {:induction false} ReadsPass(e: Expr, bound: set<string>)
    ensures Admits(e, bound) <==> AllPass(Reads(e), bound)
    ensures Used(e) == Called(Reads(e)) && Aimed(Reads(e)) == {}
    decreases e
  {
    hide AllPass, Called, Aimed, ReadsAll, AdmitsAll, UsedAll, BuiltinArity, MethodArity;
    match e
    case List(es) => ReadsAllPass(es, bound); Node(Read(e), ReadsAll(es), bound);
    case Tuple(es) => ReadsAllPass(es, bound); Node(Read(e), ReadsAll(es), bound);
    case Slice(es) => ReadsAllPass(es, bound); Node(Read(e), ReadsAll(es), bound);
    case Subscript(b, i) =>
      ReadsPass(b, bound);
      ReadsPass(i, bound);
      Both(Reads(b), Reads(i), bound);
      Node(Read(e), Reads(b) + Reads(i), bound);
    case BinOp(_, l, r) =>
      ReadsPass(l, bound);
      ReadsPass(r, bound);
      Both(Reads(l), Reads(r), bound);
      Node(Read(e), Reads(l) + Reads(r), bound);
    case Compare(a, _, es) =>
      ReadsPass(a, bound);
      ReadsAllPass(es, bound);
      Both(Reads(a), ReadsAll(es), bound);
      Node(Read(e), Reads(a) + ReadsAll(es), bound);
    case CallName(_, es, _) => ReadsAllPass(es, bound); Node(Read(e), ReadsAll(es), bound);
    case CallMethod(r, _, es, _) =>
      ReadsPass(r, bound);
      ReadsAllPass(es, bound);
      Both(Reads(r), ReadsAll(es), bound);
      Node(Read(e), Reads(r) + ReadsAll(es), bound);
    case _ =>
      Nobody(bound);
      Node(Read(e), {}, bound);
  }

  lemma {:induction false} ReadsAllPass(es: seq<Expr>, bound: set<string>)
    ensures AdmitsAll(es, bound) <==> AllPass(ReadsAll(es), bound)
    ensures UsedAll(es) == Called(ReadsAll(es)) && Aimed(ReadsAll(es)) == {}
    decreases es
  {
    hide AllPass, Called, Aimed, Reads, Admits, Used;
    if es == [] {
      Nobody(bound);
    } else {
      ReadsPass(es[0], bound);
      ReadsAllPass(es[1..], bound);
      Both(Reads(es[0]), ReadsAll(es[1..]), bound);
    }
  }

  lemma {:induction false} AimsPass(t: Expr, bound: set<string>)
    ensures AdmitsTarget(t, bound) <==> AllPass(Aims(t), bound)
    ensures AdmitsTarget(t, bound) ==> Used(t) == Called(Aims(t))
    ensures Bound(t) == Aimed(Aims(t))
    decreases t
  {
    hide AllPass, Called, Aimed, Reads, AimsAll, Admits, AdmitsTargets, UsedAll;
    match t
    case List(ts) => AimsAllPass(ts, bound); Node(Aim(t), AimsAll(ts), bound);
    case Tuple(ts) => AimsAllPass(ts, bound); Node(Aim(t), AimsAll(ts), bound);
    case Subscript(b, i) =>
      ReadsPass(b, bound);
      ReadsPass(i, bound);
      Both(Reads(b), Reads(i), bound);
      Node(Aim(t), Reads(b) + Reads(i), bound);
    case _ =>
      Nobody(bound);
      Node(Aim(t), {}, bound);
  }

  lemma {:induction false} AimsAllPass(ts: seq<Expr>, bound: set<string>)
    ensures AdmitsTargets(ts, bound) <==> AllPass(AimsAll(ts), bound)
    ensures AdmitsTargets(ts, bound) ==> UsedAll(ts) == Called(AimsAll(ts))
    ensures BoundAll(ts) == Aimed(AimsAll(ts))
    decreases ts
  {
    hide AllPass, Called, Aimed, Aims, AdmitsTarget, Used;
    if ts == [] {
      Nobody(bound);
    } else {
      AimsPass(ts[0], bound);
      AimsAllPass(ts[1..], bound);
      Both(Aims(ts[0]), AimsAll(ts[1..]), bound);
    }
  }

  /** A block is admitted exactly when every node of it passes its own rule. What is reported is then what the
      nodes call, and what counts as bound is what the nodes assign to. */
  lemma {:induction false} BlockPasses(ss: seq<Stmt>, bound: set<string>)
    ensures AdmitsBlock(ss, bound) <==> AllPass(Parts(ss), bound)
    ensures AdmitsBlock(ss, bound) ==> UsedBlock(ss) == Called(Parts(ss))
    ensures Stored(ss) == Aimed(Parts(ss))
    decreases ss
  {
    hide AllPass, Called, Aimed, PartsOf, AdmitsStmt, UsedStmt;
    if ss == [] {
      Nobody(bound);
    } else {
      StmtPasses(ss[0], bound);
      BlockPasses(ss[1..], bound);
      Both(PartsOf(ss[0]), Parts(ss[1..]), bound);
    }
  }

  lemma {:induction false} StmtPasses(s: Stmt, bound: set<string>)
    ensures AdmitsStmt(s, bound) <==> AllPass(PartsOf(s), bound)
    ensures AdmitsStmt(s, bound) ==> UsedStmt(s) == Called(PartsOf(s))
    ensures StoredOne(s) == Aimed(PartsOf(s))
    decreases s
  {
    hide AllPass, Called, Aimed, Reads, Aims, AimsAll, Parts, Admits, AdmitsTarget, AdmitsTargets, AdmitsBlock, Used,
      UsedAll, UsedBlock;
    match s
    case Assign(ts, e) =>
      ReadsPass(e, bound);
      AimsAllPass(ts, bound);
      Both(Reads(e), AimsAll(ts), bound);
      Node(Line(s), Reads(e) + AimsAll(ts), bound);
    case AugAssign(t, _, e) =>
      AimsPass(t, bound);
      ReadsPass(e, bound);
      Both(Aims(t), Reads(e), bound);
      Node(Line(s), Aims(t) + Reads(e), bound);
    case For(t, e, body, orelse) =>
      ReadsPass(e, bound);
      AimsPass(t, bound);
      BlockPasses(body, bound);
      BlockPasses(orelse, bound);
      Both(Reads(e), Aims(t), bound);
      Both(Reads(e) + Aims(t), Parts(body), bound);
      Both(Reads(e) + Aims(t) + Parts(body), Parts(orelse), bound);
      Node(Line(s), Reads(e) + Aims(t) + Parts(body) + Parts(orelse), bound);
    case While(c, body, orelse) =>
      ReadsPass(c, bound);
      BlockPasses(body, bound);
      BlockPasses(orelse, bound);
      Both(Reads(c), Parts(body), bound);
      Both(Reads(c) + Parts(body), Parts(orelse), bound);
      Node(Line(s), Reads(c) + Parts(body) + Parts(orelse), bound);
    case If(c, a, b) =>
      ReadsPass(c, bound);
      BlockPasses(a, bound);
      BlockPasses(b, bound);
      Both(Reads(c), Parts(a), bound);
      Both(Reads(c) + Parts(a), Parts(b), bound);
      Node(Line(s), Reads(c) + Parts(a) + Parts(b), bound);
    case Evaluate(e) => ReadsPass(e, bound); Node(Line(s), Reads(e), bound);
    case Return(e) => ReadsPass(e, bound); Node(Line(s), Reads(e), bound);
    case _ =>
      Nobody(bound);
      Node(Line(s), {}, bound);
  }

  /** The checker's verdict and report, node by node: a plain function with distinct arguments, none of whose
      names is a builtin's or starts with an underscore, and every node of which passes. */
  lemma InspectedNodeByNode(f: Function)
    ensures var parts := Parts(f.body); var bound := (set x | x in f.args) + Aimed(parts);
      && (Admissible(f) <==>
            && f.plain && f.name !in BUILTINS && f.args != [] && Distinct(f.args)
            && (forall x | x in bound :: x !in BUILTINS && !("_" <= x)) && AllPass(parts, bound))
      && (Admissible(f) ==> UsedBlock(f.body) == Called(parts))
  {
    hide AllPass, Called, Aimed, Parts, AdmitsBlock;
    BlockPasses(f.body, f.Bound());
  }
}
