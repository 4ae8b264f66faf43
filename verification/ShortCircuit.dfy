// The language evaluates both operands of `||` and `&&` and selects afterwards. When that is
// the same as stopping at an operand that decides, and when it is not.
module ShortCircuit {
  import opened Wrappers
  import opened Int64
  import opened Source
  import Ast

  predicate Logical(op: Ast.BinOp) {
    op.Or? || op.And?
  }

  // The left operand alone settles the result.
  predicate Decides(op: Ast.BinOp, a: int) {
    if op.Or? then a != 0 else a == 0
  }

  predicate CallFree(e: Ast.Expr) {
    match e
    case Num(_) => true
    case Paren(i) => CallFree(i)
    case Var(_) => true
    case Index(_, i) => CallFree(i)
    case Call(_, _) => false
    case Unary(_, a) => CallFree(a)
    case Binary(_, l, r) => CallFree(l) && CallFree(r)
  }

  // The evaluator, except that a deciding left operand ends the evaluation of `||` and `&&`.
  function Lazy(fs: Funcs, k: nat, e: Ast.Expr, st: State): Result<Val>
    decreases e, 1
  {
    match e
    case Num(_) => EvalExpr(fs, k, e, st)
    case Paren(inner) => Lazy(fs, k, inner, st)
    case Var(_) => EvalExpr(fs, k, e, st)
    case Index(x, i) =>
      var (vi, st1) :- Lazy(fs, k, i, st);
      ReadElem(st1, x, vi)
    case Call(f, args) =>
      if f !in fs || |fs[f].params| != |args| then Fail(BadCall)
      else
        var (vs, st1) :- LazyArgs(fs, k, args, st);
        if k == 0 then OutOfFuel else Invoke(fs, k - 1, fs[f], vs, st1)
    case Unary(op, a) =>
      var (v, st1) :- Lazy(fs, k, a, st);
      CombineUnary(op, v, st1)
    case Binary(op, l, r) =>
      var (a, st1) :- Lazy(fs, k, l, st);
      if Logical(op) && !a.VInt? then Fail(Misuse)
      else if Logical(op) && Decides(op, a.i) then Ok(VInt(Truth(a.i != 0)), st1)
      else
        var (b, st2) :- Lazy(fs, k, r, st1);
        Combine(op, a, b, st2)
  }

  function LazyArgs(fs: Funcs, k: nat, es: seq<Ast.Expr>, st: State): (r: Result<seq<Val>>)
    ensures r.Ok? ==> |r.v| == |es|
    decreases es, 0
  {
    if es == [] then Ok([], st)
    else
      var (v, st1) :- Lazy(fs, k, es[0], st);
      var (vs, st2) :- LazyArgs(fs, k, es[1..], st1);
      Ok([v] + vs, st2)
  }

  // Without calls an expression changes nothing and needs no fuel.
  lemma {:induction false} CallFreePure(fs: Funcs, k: nat, e: Ast.Expr, st: State)
    requires CallFree(e)
    ensures !EvalExpr(fs, k, e, st).OutOfFuel?
    ensures EvalExpr(fs, k, e, st).Ok? ==> EvalExpr(fs, k, e, st).st == st
    decreases e
  {
    match e
    case Num(_) =>
    case Paren(i) => CallFreePure(fs, k, i, st);
    case Var(_) =>
    case Index(_, i) => CallFreePure(fs, k, i, st);
    case Unary(_, a) => CallFreePure(fs, k, a, st);
    case Binary(_, l, r) =>
      CallFreePure(fs, k, l, st);
      CallFreePure(fs, k, r, st);
  }

  // Evaluating r here has an integer value and no effect.
  predicate Idle(fs: Funcs, k: nat, r: Ast.Expr, st: State) {
    var o := EvalExpr(fs, k, r, st);
    o.Ok? && o.v.VInt? && o.st == st
  }

  // The second half of `||` and `&&` when a deciding left operand ends the evaluation.
  function LazyRest(fs: Funcs, k: nat, op: Ast.BinOp, a: int, r: Ast.Expr, st: State): Result<Val> {
    if Decides(op, a) then Ok(VInt(Truth(a != 0)), st) else EvalRest(fs, k, op, VInt(a), r, st)
  }

  // One operator, any right operand: the two readings agree exactly when the left operand leaves the
  // matter open or evaluating the right one has an integer value and no effect.
  lemma OneOperator(fs: Funcs, k: nat, op: Ast.BinOp, a: int, r: Ast.Expr, st: State)
    requires Logical(op)
    ensures EvalRest(fs, k, op, VInt(a), r, st) == LazyRest(fs, k, op, a, r, st)
       <==> (Decides(op, a) ==> Idle(fs, k, r, st))
  {
  }

  // Built from literals, numeric variables and operators that always have a result: a divisor is a
  // literal other than 0 and -1.
  predicate Total(e: Ast.Expr, st: State) {
    match e
    case Num(_) => true
    case Paren(i) => Total(i, st)
    case Var(x) => ReadVar(st, x).Ok? && ReadVar(st, x).v.VInt?
    case Index(_, _) => false
    case Call(_, _) => false
    case Unary(_, a) => Total(a, st)
    case Binary(op, l, r) => Total(l, st) && Total(r, st) && (op.Div? || op.Mod? ==> SafeDivisor(r))
  }

  predicate SafeDivisor(e: Ast.Expr) {
    e.Num? && Wrap(e.n) != 0 && Wrap(e.n) != -1
  }

  lemma {:induction false} TotalHasValue(fs: Funcs, k: nat, e: Ast.Expr, st: State)
    requires Total(e, st)
    ensures CallFree(e) && EvalExpr(fs, k, e, st).Ok? && EvalExpr(fs, k, e, st).v.VInt?
    decreases e
  {
    hide Apply, ApplyUnary, Wrap;
    match e
    case Num(_) =>
    case Paren(i) => TotalHasValue(fs, k, i, st);
    case Var(_) =>
    case Unary(_, a) => TotalHasValue(fs, k, a, st);
    case Binary(op, l, r) =>
      TotalHasValue(fs, k, l, st);
      CallFreePure(fs, k, l, st);
      TotalHasValue(fs, k, r, st);
      HasResult(op, EvalExpr(fs, k, l, st).v.i, EvalExpr(fs, k, r, st).v.i);
  }

  lemma HasResult(op: Ast.BinOp, a: int, b: int)
    requires op.Div? || op.Mod? ==> b != 0 && b != -1
    ensures Apply(op, a, b).Some?
  {
  }

  // Wherever the evaluation of e comes to a left operand that decides, the right one has an integer
  // value and no effect.
  predicate Safe(fs: Funcs, k: nat, e: Ast.Expr, st: State)
    decreases e, 1
  {
    match e
    case Num(_) => true
    case Paren(i) => Safe(fs, k, i, st)
    case Var(_) => true
    case Index(_, i) => Safe(fs, k, i, st)
    case Call(_, args) => AllSafe(fs, k, args, st)
    case Unary(_, a) => Safe(fs, k, a, st)
    case Binary(op, l, r) =>
      var left := EvalExpr(fs, k, l, st);
      Safe(fs, k, l, st) &&
      (left.Ok? ==>
        if Logical(op) && left.v.VInt? && Decides(op, left.v.i) then Idle(fs, k, r, left.st)
        else Safe(fs, k, r, left.st))
  }

  predicate AllSafe(fs: Funcs, k: nat, es: seq<Ast.Expr>, st: State)
    decreases es, 0
  {
    es != [] ==>
      && Safe(fs, k, es[0], st)
      && (EvalExpr(fs, k, es[0], st).Ok? ==> AllSafe(fs, k, es[1..], EvalExpr(fs, k, es[0], st).st))
  }

  // Then nothing tells the two readings apart.
  lemma {:induction false} LazyAgrees(fs: Funcs, k: nat, e: Ast.Expr, st: State)
    requires Safe(fs, k, e, st)
    ensures Lazy(fs, k, e, st) == EvalExpr(fs, k, e, st)
    decreases e, 1
  {
    hide Invoke, ReadElem, Combine, CombineUnary;
    match e
    case Num(_) =>
    case Paren(i) => LazyAgrees(fs, k, i, st);
    case Var(_) =>
    case Index(_, i) => LazyAgrees(fs, k, i, st);
    case Call(f, args) => LazyArgsAgree(fs, k, args, st);
    case Unary(_, a) => LazyAgrees(fs, k, a, st);
    case Binary(op, l, r) =>
      LazyAgrees(fs, k, l, st);
      var left := EvalExpr(fs, k, l, st);
      if left.Ok? {
        if Logical(op) && left.v.VInt? && Decides(op, left.v.i) {
          OneOperator(fs, k, op, left.v.i, r, left.st);
        } else {
          LazyAgrees(fs, k, r, left.st);
        }
      }
  }

  lemma {:induction false} LazyArgsAgree(fs: Funcs, k: nat, es: seq<Ast.Expr>, st: State)
    requires AllSafe(fs, k, es, st)
    ensures LazyArgs(fs, k, es, st) == EvalArgs(fs, k, es, st)
    decreases es, 0
  {
    if es == [] {
    } else {
      LazyAgrees(fs, k, es[0], st);
      if EvalExpr(fs, k, es[0], st).Ok? {
        LazyArgsAgree(fs, k, es[1..], EvalExpr(fs, k, es[0], st).st);
      }
    }
  }

  // A guard that needs no evaluation: no calls, and every right operand of `||` and `&&` is total.
  predicate Guarded(e: Ast.Expr, st: State) {
    match e
    case Num(_) => true
    case Paren(i) => Guarded(i, st)
    case Var(_) => true
    case Index(_, i) => Guarded(i, st)
    case Call(_, _) => false
    case Unary(_, a) => Guarded(a, st)
    case Binary(op, l, r) => Guarded(l, st) && Guarded(r, st) && (Logical(op) ==> Total(r, st))
  }

  lemma {:induction false} GuardedAgrees(fs: Funcs, k: nat, e: Ast.Expr, st: State)
    requires Guarded(e, st)
    ensures Lazy(fs, k, e, st) == EvalExpr(fs, k, e, st)
  {
    GuardedSafe(fs, k, e, st);
    LazyAgrees(fs, k, e, st);
  }

  lemma {:induction false} GuardedSafe(fs: Funcs, k: nat, e: Ast.Expr, st: State)
    requires Guarded(e, st)
    ensures CallFree(e) && Safe(fs, k, e, st)
    decreases e
  {
    match e
    case Num(_) =>
    case Paren(i) => GuardedSafe(fs, k, i, st);
    case Var(_) =>
    case Index(_, i) => GuardedSafe(fs, k, i, st);
    case Unary(_, a) => GuardedSafe(fs, k, a, st);
    case Binary(op, l, r) =>
      GuardedSafe(fs, k, l, st);
      GuardedSafe(fs, k, r, st);
      CallFreePure(fs, k, l, st);
      if Logical(op) {
        TotalHasValue(fs, k, r, st);
        CallFreePure(fs, k, r, st);
      }
  }

  // 1 || 1 / 0: stopping early gives 1, evaluating both operands divides by zero.
  lemma EagerTraps(fs: Funcs, k: nat, st: State)
    ensures var e := Ast.Binary(Ast.Or, Ast.Num(1), Ast.Binary(Ast.Div, Ast.Num(1), Ast.Num(0)));
      Lazy(fs, k, e, st) == Ok(VInt(1), st) && EvalExpr(fs, k, e, st) == Fail(Trap)
  {
    var q := Ast.Binary(Ast.Div, Ast.Num(1), Ast.Num(0));
    assert EvalRest(fs, k, Ast.Div, VInt(1), Ast.Num(0), st) == Fail(Trap);
    assert EvalExpr(fs, k, q, st) == Fail(Trap);
    var e := Ast.Binary(Ast.Or, Ast.Num(1), q);
    assert EvalExpr(fs, k, e.l, st) == Ok(VInt(1), st);
    assert EvalRest(fs, k, Ast.Or, VInt(1), q, st) == Fail(Trap);
  }
}
