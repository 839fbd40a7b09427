/** Abstract syntax of the Python fragment the computation checkers look at. Calls whose callee is
    a bare name or an attribute have their own constructors; everything the checkers never accept
    is `Other`. */
module Syntax {
  datatype Literal = Text(text: string) | Integer(number: int) | Boolean(truth: bool) | Nothing | Exotic
  datatype Operator = Add | Sub | OtherOperator
  datatype Unary = Not | UAdd | USub | Invert
  datatype Comparison = Eq | NotEq | Lt | LtE | Gt | GtE | Is | IsNot | In | NotIn

  datatype Expr =
    | Name(id: string)
    | Const(value: Literal)
    | List(elts: seq<Expr>)
    | Tuple(elts: seq<Expr>)
    | Dict(entries: seq<Expr>)                      // key, value, key, value ...
    | Subscript(base: Expr, index: Expr)
    | Slice(bounds: seq<Expr>)
    | BinOp(op: Operator, left: Expr, right: Expr)
    | UnaryOp(unary: Unary, operand: Expr)
    | BoolOp(conjunction: bool, values: seq<Expr>)
    | Compare(first: Expr, ops: seq<Comparison>, others: seq<Expr>)
    | IfExp(test: Expr, body: Expr, orelse: Expr)
    | CallName(func: string, args: seq<Expr>, plain: bool)          // plain: no keywords, no starred argument
    | CallMethod(receiver: Expr, attr: string, args: seq<Expr>, plain: bool)
    | GenExp(elt: Expr, generators: seq<Generator>)
    | Other

  datatype Generator = Generator(target: Expr, iter: Expr, ifs: seq<Expr>, isAsync: bool)

  datatype Stmt =
    | Assign(targets: seq<Expr>, value: Expr)
    | AugAssign(target: Expr, op: Operator, value: Expr)
    | For(target: Expr, iter: Expr, body: seq<Stmt>, orelse: seq<Stmt>)
    | While(test: Expr, body: seq<Stmt>, orelse: seq<Stmt>)
    | If(test: Expr, body: seq<Stmt>, orelse: seq<Stmt>)
    | Evaluate(value: Expr)
    | Assert(test: Expr, message: bool)
    | Return(value: Expr)
    | Break
    | Continue
    | OtherStmt

  /** The names a target binds. */
  function Bound(t: Expr): set<string> {
    match t
    case Name(x) => {x}
    case List(es) => BoundAll(es)
    case Tuple(es) => BoundAll(es)
    case _ => {}
  }

  function BoundAll(ts: seq<Expr>): set<string> {
    if ts == [] then {} else Bound(ts[0]) + BoundAll(ts[1..])
  }

  /** The names the targets of a generator expression bind; all of them are its locals. */
  function Locals(gs: seq<Generator>): set<string> {
    if gs == [] then {} else Bound(gs[0].target) + Locals(gs[1..])
  }
}
