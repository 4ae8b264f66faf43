// The syntax tree of the language, one constructor per grammar alternative. Chains of
// single-child nodes are collapsed; a parenthesised expression keeps its own node.
module Ast {
  import opened Wrappers

  datatype UnOp = Pos | Neg | Not

  datatype BinOp = Or | And | Eq | Ne | Lt | Gt | Le | Ge | Add | Sub | Mul | Div | Mod

  datatype Expr =
    | Num(n: int)
    | Paren(inner: Expr)
    | Var(name: string)
    | Index(name: string, idx: Expr)
    | Call(f: string, args: seq<Expr>)
    | Unary(op: UnOp, arg: Expr)
    | Binary(bop: BinOp, l: Expr, r: Expr)

  // An initialiser: one expression, or a braced list (isArray), or the characters of a string literal.
  datatype Init = List(isArray: bool, es: seq<Expr>) | Text(codes: seq<int>)

  datatype Def = Def(name: string, size: Option<Expr>, init: Option<Init>)

  datatype Stmt =
    | Return(value: Option<Expr>)
    | Assign(name: string, idx: Option<Expr>, rhs: Expr)
    | Eval(e: Option<Expr>)
    | Block(items: seq<Item>)
    | If(cond: Expr, thn: Stmt, els: Option<Stmt>)
    | While(cond: Expr, body: Stmt)
    | Continue
    | Break

  datatype Item = Decl(isConst: bool, defs: seq<Def>) | Do(s: Stmt)

  datatype Param = Param(name: string, isArray: bool)

  datatype Func = Func(name: string, params: seq<Param>, body: seq<Item>)

  datatype Top = Globals(isConst: bool, defs: seq<Def>) | Function(f: Func)

  type Program = seq<Top>

  // The initialisers that a variable of `n` cells uses.
  function Prefix<T>(s: seq<T>, n: nat): (r: seq<T>)
    ensures r <= s && |r| == if |s| <= n then |s| else n
  {
    if |s| <= n then s else s[..n]
  }
}
