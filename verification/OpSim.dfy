// Operators: the compare, cast and select sequences compute the source's 0/1 truth values and
// its 64-bit arithmetic.
module OpSim {
  import opened Wrappers
  import opened Int64
  import opened Source
  import opened Target
  import opened Lowering
  import opened Growth
  import opened Matching
  import opened Progress
  import opened VarSim
  import Ast

  // Two builder calls in a row.
  lemma SimTwo(site: Site, g: Gen, r1: Rhs, v1: TVal, r2: Rhs, v2: TVal, st: State, c: Config)
    returns (n: nat, d: Config)
    requires SiteOk(site) && Here(site, g, st, c) && Fits(site, Compute(Compute(g, r1).1, r2).1)
    requires RhsVal(c.cur, r1) == Some(v1)
    requires forall a: Act ::
               Keeps(c.cur, a, g.nextReg) && OpVal(a, Compute(g, r1).0) == v1 ==> RhsVal(a, r2) == Some(v2)
    ensures Moves(site.w.m, g.nextReg, c, n, d)
    ensures Here(site, Compute(Compute(g, r1).1, r2).1, st, d)
    ensures OpVal(d.cur, Compute(Compute(g, r1).1, r2).0) == v2
  {
    hide Reaches, Endures;
    var (o, g1) := Compute(g, r1);
    ComputeExtends(g, r1);
    ComputeExtends(g1, r2);
    FitsBack(site, g1, Compute(g1, r2).1);
    var n1, d1 := SimCompute(site, g, r1, v1, st, c);
    var n2, d2 := SimCompute(site, g1, r2, v2, st, d1);
    MovesTrans(site.w.m, g.nextReg, c, n1, d1, g1.nextReg, n2, d2);
    n, d := n1 + n2, d2;
  }

  lemma SimCompare(site: Site, g: Gen, cond: Cond, a: Operand, b: Operand, i: int, j: int, st: State, c: Config)
    returns (n: nat, d: Config)
    requires SiteOk(site) && Here(site, g, st, c) && Fits(site, CompareInt(g, cond, a, b).1)
    requires OpVal(c.cur, a) == TInt(i) && OpVal(c.cur, b) == TInt(j)
    ensures Moves(site.w.m, g.nextReg, c, n, d)
    ensures Here(site, CompareInt(g, cond, a, b).1, st, d)
    ensures OpVal(d.cur, CompareInt(g, cond, a, b).0) == TInt(Truth(Compare(cond, i, j)))
  {
    hide Reaches, Endures;
    var o := Compute(g, ICmp(cond, a, b)).0;
    n, d := SimTwo(site, g, ICmp(cond, a, b), TBool(Compare(cond, i, j)),
                   ZExt(o), TInt(Truth(Compare(cond, i, j))), st, c);
  }

  lemma SimUnary(site: Site, g: Gen, op: Ast.UnOp, o: Operand, v: Val, k: nat, st: State, c: Config)
    returns (n: nat, d: Config)
    requires SiteOk(site) && Here(site, g, st, c) && Fits(site, GenUnary(g, op, o).1)
    requires ValOk(Shapes(site, g.scopes), v, OpVal(c.cur, o))
    ensures var (o', h) := GenUnary(g, op, o);
            ExprDone(site, g, o', h, k, CombineUnary(op, v, st), c, n, d)
  {
    n, d := 0, c;
    MovesNone(site.w.m, g.nextReg, c);
    if v.VInt? {
      match op
      case Pos =>
      case Neg => n, d := SimCompute(site, g, Alu(ASub, CInt(0), o), TInt(Wrap(0 - v.i)), st, c);
      case Not => n, d := SimCompare(site, g, CEq, CInt(0), o, 0, v.i, st, c);
    }
  }

  // What the left operand has become by the time the right one is generated.
  ghost predicate LeftOk(sh: seq<Shape>, op: Ast.BinOp, v: Val, t: TVal) {
    if op.Or? || op.And? then v.VInt? && t == TBool(v.i != 0) else ValOk(sh, v, t)
  }

  lemma SimLeft(site: Site, g: Gen, op: Ast.BinOp, o: Operand, v: Val, st: State, c: Config)
    returns (n: nat, d: Config)
    requires SiteOk(site) && Here(site, g, st, c) && Fits(site, GenLeft(g, op, o).1)
    requires ValOk(Shapes(site, g.scopes), v, OpVal(c.cur, o))
    requires op.Or? || op.And? ==> v.VInt?
    ensures Moves(site.w.m, g.nextReg, c, n, d)
    ensures Here(site, GenLeft(g, op, o).1, st, d)
    ensures LeftOk(Shapes(site, g.scopes), op, v, OpVal(d.cur, GenLeft(g, op, o).0))
  {
    if op.Or? || op.And? {
      n, d := SimCompute(site, g, ICmp(CNe, CInt(0), o), TBool(v.i != 0), st, c);
    } else {
      n, d := 0, c;
      MovesNone(site.w.m, g.nextReg, c);
    }
  }

  // `||` and `&&`: boolean the right operand, select, widen.
  lemma SimLogic(site: Site, g: Gen, op: Ast.BinOp, a: Operand, b: Operand, i: int, j: int, st: State, c: Config)
    returns (n: nat, d: Config)
    requires SiteOk(site) && Here(site, g, st, c) && Fits(site, GenBinary(g, op, a, b).1)
    requires op.Or? || op.And?
    requires Ready(a, g.nextReg) && OpVal(c.cur, a) == TBool(i != 0) && OpVal(c.cur, b) == TInt(j)
    ensures Moves(site.w.m, g.nextReg, c, n, d)
    ensures Here(site, GenBinary(g, op, a, b).1, st, d)
    ensures OpVal(d.cur, GenBinary(g, op, a, b).0) == TInt(Apply(op, i, j).value)
  {
    hide InPlace, Match, Reaches, Endures, Moves, Folded, Compute, Step;
    var rb := ICmp(CNe, CInt(0), b);
    var (x, g1) := Compute(g, rb);
    var sel := if op.Or? then Select(a, CBool(true), x) else Select(a, x, CBool(false));
    var (s, g2) := Compute(g1, sel);
    var t := if op.Or? then i != 0 || j != 0 else i != 0 && j != 0;
    ComputeExtends(g, rb);
    ComputeExtends(g1, sel);
    ComputeExtends(g2, ZExt(s));
    FitsBack(site, g2, Compute(g2, ZExt(s)).1);
    var n1, d1 := SimTwo(site, g, rb, TBool(j != 0), sel, TBool(t), st, c);
    var n2, d2 := SimCompute(site, g2, ZExt(s), TInt(Truth(t)), st, d1);
    MovesTrans(site.w.m, g.nextReg, c, n1, d1, g2.nextReg, n2, d2);
    n, d := n1 + n2, d2;
  }

  // Arithmetic; a division without a result stops the machine.
  lemma SimArith(site: Site, g: Gen, op: Ast.BinOp, a: Operand, b: Operand, i: int, j: int, k: nat, st: State,
          c: Config)
    returns (n: nat, d: Config)
    requires SiteOk(site) && Here(site, g, st, c) && Fits(site, GenBinary(g, op, a, b).1)
    requires AluOf(op).Some? && OpVal(c.cur, a) == TInt(i) && OpVal(c.cur, b) == TInt(j)
    ensures var (o, h) := GenBinary(g, op, a, b);
            ExprDone(site, g, o, h, k, Combine(op, VInt(i), VInt(j), st), c, n, d)
  {
    hide Reaches, Endures, Match, InPlace, Compute, Fits, Moves, Folded, Stuck, Step;
    var rhs := Alu(AluOf(op).value, a, b);
    if Apply(op, i, j).Some? {
      n, d := SimCompute(site, g, rhs, TInt(Apply(op, i, j).value), st, c);
    } else {
      n, d := 0, c;
      StuckSet(site, g, rhs, st, c);
      WrongedHere(site.w.m, c);
    }
  }

  lemma SimBinary(site: Site, g: Gen, op: Ast.BinOp, a: Operand, b: Operand, x: Val, y: Val, k: nat, st: State,
          c: Config)
    returns (n: nat, d: Config)
    requires SiteOk(site) && Here(site, g, st, c) && Fits(site, GenBinary(g, op, a, b).1)
    requires Ready(a, g.nextReg) && LeftOk(Shapes(site, g.scopes), op, x, OpVal(c.cur, a))
    requires ValOk(Shapes(site, g.scopes), y, OpVal(c.cur, b))
    ensures var (o, h) := GenBinary(g, op, a, b);
            ExprDone(site, g, o, h, k, Combine(op, x, y, st), c, n, d)
  {
    hide Reaches, Endures, Match, InPlace, Compute, Fits, Moves, Folded, Stuck, Step;
    n, d := 0, c;
    if x.VInt? && y.VInt? {
      if op.Or? || op.And? {
        n, d := SimLogic(site, g, op, a, b, x.i, y.i, st, c);
      } else if AluOf(op).Some? {
        n, d := SimArith(site, g, op, a, b, x.i, y.i, k, st, c);
      } else {
        n, d := SimCompare(site, g, CondOf(op), a, b, x.i, y.i, st, c);
      }
    }
  }
}
