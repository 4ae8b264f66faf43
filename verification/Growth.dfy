// What every generation step keeps: emitted code is only ever appended to, a block other
// than the current one is never touched again, and the loop and scope stacks come back as
// they were.
module Growth {
  import opened Wrappers
  import opened Target
  import opened Lowering
  import Ast

  ghost predicate Extends(g: Gen, h: Gen) {
    match h
    case Gen(blocks, layout, cur, _, loops, nextReg, slots) =>
      && g.cur < |g.blocks| <= |blocks|
      && cur < |blocks|
      && (cur == g.cur || |g.blocks| <= cur)
      && (forall b | 0 <= b < |g.blocks| :: g.blocks[b] <= blocks[b])
      && (forall b | 0 <= b < |g.blocks| && b != g.cur :: blocks[b] == g.blocks[b])
      && g.layout <= layout
      && (forall i | |g.layout| <= i < |layout| :: |g.blocks| <= layout[i])
      && g.nextReg <= nextReg
      && g.slots <= slots
      && g.loops == loops
  }

  predicate IsTerminator(i: Instr) {
    i.Br? || i.CondBr? || i.Ret? || i.RetVoid?
  }

  ghost predicate Straight(a: Code, b: Code) {
    a <= b && forall i | |a| <= i < |b| :: !IsTerminator(b[i])
  }

  // Straight-line code in the current block only.
  ghost predicate ExtendsHere(g: Gen, h: Gen) {
    && Extends(g, h)
    && h.cur == g.cur
    && |h.blocks| == |g.blocks|
    && h.layout == g.layout
    && Straight(g.blocks[g.cur], h.blocks[g.cur])
  }

  // Expressions and stores: no declaration either.
  ghost predicate ExtendsPlain(g: Gen, h: Gen) {
    ExtendsHere(g, h) && h.scopes == g.scopes && h.slots == g.slots
  }

  lemma StraightTrans(a: Code, b: Code, c: Code)
    requires Straight(a, b) && Straight(b, c)
    ensures Straight(a, c)
  {
    forall i | |a| <= i < |c|
      ensures !IsTerminator(c[i])
    {
      assert i < |b| ==> b[i] == c[i];
    }
  }

  lemma ExtendsTrans(a: Gen, b: Gen, c: Gen)
    requires Extends(a, b) && Extends(b, c)
    ensures Extends(a, c)
    ensures ExtendsHere(a, b) && ExtendsHere(b, c) ==> ExtendsHere(a, c)
    ensures ExtendsPlain(a, b) && ExtendsPlain(b, c) ==> ExtendsPlain(a, c)
  {
    forall k | 0 <= k < |a.blocks|
      ensures a.blocks[k] <= c.blocks[k] && (k != a.cur ==> c.blocks[k] == a.blocks[k])
    {
      assert a.blocks[k] <= b.blocks[k] <= c.blocks[k];
    }
    if ExtendsHere(a, b) && ExtendsHere(b, c) {
      StraightTrans(a.blocks[a.cur], b.blocks[a.cur], c.blocks[a.cur]);
    }
    forall i | |a.layout| <= i < |c.layout|
      ensures |a.blocks| <= c.layout[i]
    {
      assert i < |b.layout| ==> b.layout[i] == c.layout[i];
    }
  }

  // The value of an expression is a constant or a register already written.
  predicate Ready(o: Operand, n: nat) {
    match o
    case CInt(_) => true
    case CBool(_) => true
    case Reg(r) => r < n
    case _ => false
  }

  lemma ComputeExtends(g: Gen, rhs: Rhs)
    requires g.cur < |g.blocks|
    ensures ExtendsPlain(g, Compute(g, rhs).1)
    ensures Ready(Compute(g, rhs).0, Compute(g, rhs).1.nextReg)
  {
  }

  lemma LoadExtends(g: Gen, p: Operand)
    requires g.cur < |g.blocks|
    ensures ExtendsPlain(g, EmitLoad(g, p).1)
    ensures Ready(EmitLoad(g, p).0, EmitLoad(g, p).1.nextReg)
  {
  }

  lemma EmitExtends(g: Gen, i: Instr)
    requires g.cur < |g.blocks|
    ensures Extends(g, Emit(g, i)) && Emit(g, i).scopes == g.scopes
    ensures !IsTerminator(i) ==> ExtendsPlain(g, Emit(g, i))
  {
  }

  lemma CompareIntExtends(g: Gen, c: Cond, a: Operand, b: Operand)
    requires g.cur < |g.blocks|
    ensures ExtendsPlain(g, CompareInt(g, c, a, b).1)
    ensures Ready(CompareInt(g, c, a, b).0, CompareInt(g, c, a, b).1.nextReg)
  {
    var (v, g1) := Compute(g, ICmp(c, a, b));
    ComputeExtends(g, ICmp(c, a, b));
    ComputeExtends(g1, ZExt(v));
    ExtendsTrans(g, g1, BooleanToInt(g1, v).1);
  }

  lemma ElemAddrExtends(g: Gen, info: VarInfo, i: Operand)
    requires g.cur < |g.blocks|
    ensures ExtendsPlain(g, ElemAddr(g, info, i).1)
    ensures Ready(ElemAddr(g, info, i).0, ElemAddr(g, info, i).1.nextReg)
  {
    if info.kind.KArray? {
      ComputeExtends(g, Gep(Slot(info.slot), i));
    } else {
      var (p, g1) := EmitLoad(g, Slot(info.slot));
      LoadExtends(g, Slot(info.slot));
      ComputeExtends(g1, Gep(p, i));
      ExtendsTrans(g, g1, Compute(g1, Gep(p, i)).1);
    }
  }

  lemma GetValueExtends(env: Env, g: Gen, x: string, idx: Option<Operand>)
    requires g.cur < |g.blocks|
    requires GetValue(env, g, x, idx).Some?
    ensures ExtendsPlain(g, GetValue(env, g, x, idx).value.1)
    ensures Ready(GetValue(env, g, x, idx).value.0, GetValue(env, g, x, idx).value.1.nextReg)
  {
    match Scopes.Find(g.scopes, x)
    case Some(l) =>
      var info := g.scopes[l][x];
      match idx {
       case None =>
         ComputeExtends(g, Gep(Slot(info.slot), CInt(0)));
         LoadExtends(g, Slot(info.slot));
       case Some(i) =>
         var (p, g1) := ElemAddr(g, info, i);
         ElemAddrExtends(g, info, i);
         LoadExtends(g1, p);
         ExtendsTrans(g, g1, EmitLoad(g1, p).1);
      }
    case None =>
      match idx
      case None => LoadExtends(g, Glob(x));
      case Some(i) =>
        var (p, g1) := Compute(g, Gep(Glob(x), i));
        ComputeExtends(g, Gep(Glob(x), i));
        LoadExtends(g1, p);
        ExtendsTrans(g, g1, EmitLoad(g1, p).1);
  }

  lemma SetValueExtends(env: Env, g: Gen, x: string, v: Operand, idx: Option<Operand>)
    requires g.cur < |g.blocks|
    requires SetValue(env, g, x, v, idx).Some?
    ensures ExtendsPlain(g, SetValue(env, g, x, v, idx).value)
  {
    match Scopes.Find(g.scopes, x)
    case Some(l) =>
      var info := g.scopes[l][x];
      match idx {
       case None => EmitExtends(g, Store(v, Slot(info.slot)));
       case Some(i) =>
         var (p, g1) := ElemAddr(g, info, i);
         ElemAddrExtends(g, info, i);
         EmitExtends(g1, Store(v, p));
         ExtendsTrans(g, g1, Emit(g1, Store(v, p)));
      }
    case None =>
      match idx
      case None =>
        var g1 := EmitLoad(g, Glob(x)).1;
        LoadExtends(g, Glob(x));
        EmitExtends(g1, Store(v, Glob(x)));
        ExtendsTrans(g, g1, Emit(g1, Store(v, Glob(x))));
      case Some(i) =>
        var (p, g1) := Compute(g, Gep(Glob(x), i));
        ComputeExtends(g, Gep(Glob(x), i));
        EmitExtends(g1, Store(v, p));
        ExtendsTrans(g, g1, Emit(g1, Store(v, p)));
  }

  lemma GenUnaryExtends(g: Gen, op: Ast.UnOp, v: Operand)
    requires g.cur < |g.blocks| && Ready(v, g.nextReg)
    ensures ExtendsPlain(g, GenUnary(g, op, v).1)
    ensures Ready(GenUnary(g, op, v).0, GenUnary(g, op, v).1.nextReg)
  {
    ComputeExtends(g, Alu(ASub, CInt(0), v));
    CompareIntExtends(g, CEq, CInt(0), v);
  }

  lemma GenLeftExtends(g: Gen, op: Ast.BinOp, v: Operand)
    requires g.cur < |g.blocks| && Ready(v, g.nextReg)
    ensures ExtendsPlain(g, GenLeft(g, op, v).1)
    ensures Ready(GenLeft(g, op, v).0, GenLeft(g, op, v).1.nextReg)
  {
    ComputeExtends(g, ICmp(CNe, CInt(0), v));
  }

  lemma GenBinaryExtends(g: Gen, op: Ast.BinOp, a: Operand, b: Operand)
    requires g.cur < |g.blocks|
    ensures ExtendsPlain(g, GenBinary(g, op, a, b).1)
    ensures Ready(GenBinary(g, op, a, b).0, GenBinary(g, op, a, b).1.nextReg)
  {
    if op.Or? || op.And? {
      var (c, g1) := IntToBoolean(g, b);
      var sel := if op.Or? then Select(a, CBool(true), c) else Select(a, c, CBool(false));
      var (s, g2) := Compute(g1, sel);
      ComputeExtends(g, ICmp(CNe, CInt(0), b));
      ComputeExtends(g1, sel);
      ComputeExtends(g2, ZExt(s));
      ExtendsTrans(g, g1, g2);
      ExtendsTrans(g, g2, BooleanToInt(g2, s).1);
    } else if AluOf(op).Some? {
      ComputeExtends(g, Alu(AluOf(op).value, a, b));
    } else {
      CompareIntExtends(g, CondOf(op), a, b);
    }
  }

  lemma {:induction false} GenExprExtends(env: Env, g: Gen, e: Ast.Expr)
    requires g.cur < |g.blocks|
    requires GenExpr(env, g, e).Some?
    ensures ExtendsPlain(g, GenExpr(env, g, e).value.1)
    ensures Ready(GenExpr(env, g, e).value.0, GenExpr(env, g, e).value.1.nextReg)
    decreases e, 1
  {
    match e
    case Num(n) =>
    case Paren(inner) => GenExprExtends(env, g, inner);
    case Var(x) => GetValueExtends(env, g, x, None);
    case Index(x, i) =>
      GenExprExtends(env, g, i);
      var (o, g1) := GenExpr(env, g, i).value;
      GetValueExtends(env, g1, x, Some(o));
      ExtendsTrans(g, g1, GetValue(env, g1, x, Some(o)).value.1);
    case Call(f, args) =>
      GenArgsExtends(env, g, args);
      var (os, g1) := GenArgs(env, g, args).value;
      ExtendsTrans(g, g1, EmitCall(g1, f, os).1);
    case Unary(op, a) =>
      GenExprExtends(env, g, a);
      var (o, g1) := GenExpr(env, g, a).value;
      GenUnaryExtends(g1, op, o);
      ExtendsTrans(g, g1, GenUnary(g1, op, o).1);
    case Binary(op, l, r) =>
      GenExprExtends(env, g, l);
      var (a, g1) := GenExpr(env, g, l).value;
      GenLeftExtends(g1, op, a);
      var (a', g2) := GenLeft(g1, op, a);
      GenExprExtends(env, g2, r);
      var (b, g3) := GenExpr(env, g2, r).value;
      GenBinaryExtends(g3, op, a', b);
      ExtendsTrans(g, g1, g2);
      ExtendsTrans(g, g2, g3);
      ExtendsTrans(g, g3, GenBinary(g3, op, a', b).1);
  }

  lemma {:induction false} GenArgsExtends(env: Env, g: Gen, es: seq<Ast.Expr>)
    requires g.cur < |g.blocks|
    requires GenArgs(env, g, es).Some?
    ensures ExtendsPlain(g, GenArgs(env, g, es).value.1)
    ensures forall o | o in GenArgs(env, g, es).value.0 :: Ready(o, GenArgs(env, g, es).value.1.nextReg)
    decreases es, 0
  {
    if es == [] {
    } else {
      GenExprExtends(env, g, es[0]);
      var (o, g1) := GenExpr(env, g, es[0]).value;
      GenArgsExtends(env, g1, es[1..]);
      ExtendsTrans(g, g1, GenArgs(env, g1, es[1..]).value.1);
    }
  }

  lemma GenInitExtends(env: Env, g: Gen, init: Option<Ast.Init>, n: nat)
    requires g.cur < |g.blocks|
    requires GenInit(env, g, init, n).Some?
    ensures ExtendsPlain(g, GenInit(env, g, init, n).value.1)
    ensures forall o | o in GenInit(env, g, init, n).value.0 :: Ready(o, GenInit(env, g, init, n).value.1.nextReg)
  {
    if init.Some? && init.value.List? {
      GenArgsExtends(env, g, Ast.Prefix(init.value.es, n));
    }
  }

  lemma {:induction false} StoreCellsExtends(g: Gen, slot: nat, vals: seq<Operand>, i: nat)
    requires g.cur < |g.blocks| && i <= |vals|
    ensures ExtendsPlain(g, StoreCells(g, slot, vals, i))
    decreases |vals| - i
  {
    if i == |vals| {
    } else {
      var rhs := Gep(Slot(slot), CInt(i));
      var (p, g1) := Compute(g, rhs);
      var g2 := Emit(g1, Store(vals[i], p));
      ComputeExtends(g, rhs);
      EmitExtends(g1, Store(vals[i], p));
      ExtendsTrans(g, g1, g2);
      StoreCellsExtends(g2, slot, vals, i + 1);
      ExtendsTrans(g, g2, StoreCells(g2, slot, vals, i + 1));
    }
  }

  // A declaration adds its name to the top layer and one slot to the table, and nothing else.
  ghost predicate Declares(g: Gen, h: Gen, x: string, info: VarInfo) {
    && ExtendsHere(g, h)
    && g.scopes != []
    && h.slots == g.slots + [info.kind]
    && info.slot == |g.slots|
    && x !in g.scopes[|g.scopes| - 1]
    && h.scopes == Bind(g, x, info).scopes
  }

  lemma DefineExtends(g: Gen, x: string, isConst: bool, kind: Kind, vals: seq<Operand>)
    requires g.cur < |g.blocks| && |vals| == Cells(kind)
    requires Define(g, x, isConst, kind, vals).Some?
    ensures Declares(g, Define(g, x, isConst, kind, vals).value, x, VarInfo(isConst, |g.slots|, kind))
  {
    var s := |g.slots|;
    var g1 := Alloca(g, kind);
    assert Extends(g, g1);
    if kind.KArray? {
      StoreCellsExtends(g1, s, vals, 0);
      ExtendsTrans(g, g1, StoreCells(g1, s, vals, 0));
    } else {
      EmitExtends(g1, Store(vals[0], Slot(s)));
      ExtendsTrans(g, g1, Emit(g1, Store(vals[0], Slot(s))));
    }
  }

  // The stack below the top layer, which nested code must leave alone.
  ghost predicate SameBelow(a: Layers, b: Layers) {
    |a| == |b| && |a| > 0 && a[..|a| - 1] == b[..|b| - 1]
  }

  lemma GenDefExtends(env: Env, g: Gen, isConst: bool, def: Ast.Def)
    requires g.cur < |g.blocks|
    requires GenDef(env, g, isConst, def).Some?
    ensures ExtendsHere(g, GenDef(env, g, isConst, def).value)
    ensures SameBelow(g.scopes, GenDef(env, g, isConst, def).value.scopes)
  {
    match def.size
    case None =>
      GenInitExtends(env, g, def.init, 1);
      var (vals, g1) := GenInit(env, g, def.init, 1).value;
      DefineExtends(g1, def.name, isConst, KScalar, vals);
      ExtendsTrans(g, g1, GenDef(env, g, isConst, def).value);
    case Some(e) =>
      GenExprExtends(env, g, e);
      var (n, g1) := GenExpr(env, g, e).value;
      GenInitExtends(env, g1, def.init, n.i);
      var (vals, g2) := GenInit(env, g1, def.init, n.i).value;
      DefineExtends(g2, def.name, isConst, KArray(n.i), vals);
      ExtendsTrans(g, g1, g2);
      ExtendsTrans(g, g2, GenDef(env, g, isConst, def).value);
  }

  lemma {:induction false} GenDefsExtends(env: Env, g: Gen, isConst: bool, defs: seq<Ast.Def>)
    requires g.cur < |g.blocks| && g.scopes != []
    requires GenDefs(env, g, isConst, defs).Some?
    ensures ExtendsHere(g, GenDefs(env, g, isConst, defs).value)
    ensures SameBelow(g.scopes, GenDefs(env, g, isConst, defs).value.scopes)
    decreases defs
  {
    if defs == [] {
    } else {
      GenDefExtends(env, g, isConst, defs[0]);
      var g1 := GenDef(env, g, isConst, defs[0]).value;
      GenDefsExtends(env, g1, isConst, defs[1..]);
      ExtendsTrans(g, g1, GenDefs(env, g1, isConst, defs[1..]).value);
    }
  }

  // ----- statements -----

  lemma SealExtends(g: Gen, b: nat)
    requires g.cur < |g.blocks|
    ensures Extends(g, Seal(g, b)) && Seal(g, b).scopes == g.scopes
  {
  }

  lemma BeginThenExtends(g: Gen, v: Operand)
    requires g.cur < |g.blocks|
    ensures Extends(g, BeginThen(g, v)) && BeginThen(g, v).scopes == g.scopes
  {
    var (b, g1) := IntToBoolean(g, v);
    ComputeExtends(g, ICmp(CNe, CInt(0), v));
  }

  // Once a branch is closed, generation moves on to a block created before the branch began.
  lemma ResumeExtends(g: Gen, h: Gen, j: Gen, c: nat, b: nat)
    requires Extends(g, h) && Extends(h, j)
    requires |g.blocks| <= b < |h.blocks|
    requires |g.blocks| <= h.cur
    ensures Extends(g, Insert(Seal(j, c), b))
    ensures Insert(Seal(j, c), b).scopes == j.scopes
  {
    SealExtends(j, c);
    ExtendsTrans(h, j, Seal(j, c));
    ExtendsTrans(g, h, Seal(j, c));
  }

  lemma BeginLoopExtends(g: Gen)
    requires g.cur < |g.blocks|
    ensures Extends(g.(loops := BeginLoop(g).loops), BeginLoop(g))
    ensures BeginLoop(g).scopes == g.scopes
  {
  }

  // `a`: before the loop; `g`: its condition begins; `h`: its condition has been generated.
  lemma BeginBodyExtends(a: Gen, g: Gen, h: Gen, v: Operand)
    requires Extends(a, g) && ExtendsPlain(g, h)
    requires |a.blocks| <= g.cur && g.cur + 2 < |g.blocks|
    ensures Extends(a, BeginBody(h, v, g.cur))
    ensures BeginBody(h, v, g.cur).scopes == g.scopes
  {
    var t := g.cur;
    var (b, h1) := IntToBoolean(h, v);
    ComputeExtends(h, ICmp(CNe, CInt(0), v));
    EmitExtends(h1, CondBr(b, t + 1, t + 2));
    ExtendsTrans(a, g, h);
    ExtendsTrans(a, h, h1);
    ExtendsTrans(a, h1, Emit(h1, CondBr(b, t + 1, t + 2)));
  }

  lemma {:induction false} GenBlockExtends(env: Env, g: Gen, items: seq<Ast.Item>)
    requires g.cur < |g.blocks|
    requires GenBlock(env, g, items).Some?
    ensures Extends(g, GenBlock(env, g, items).value)
    ensures GenBlock(env, g, items).value.scopes == g.scopes
    decreases items, 1
  {
    var g1 := PushScope(g);
    GenItemsExtends(env, g1, items);
    var g2 := GenItems(env, g1, items).value;
    assert Extends(g, g1);
    ExtendsTrans(g, g1, g2);
    assert g1.scopes[..|g1.scopes| - 1] == g.scopes;
  }

  lemma {:induction false} GenItemsExtends(env: Env, g: Gen, items: seq<Ast.Item>)
    requires g.cur < |g.blocks| && g.scopes != []
    requires GenItems(env, g, items).Some?
    ensures Extends(g, GenItems(env, g, items).value)
    ensures SameBelow(g.scopes, GenItems(env, g, items).value.scopes)
    decreases items, 0
  {
    if items == [] {
    } else {
      GenItemExtends(env, g, items[0]);
      var g1 := GenItem(env, g, items[0]).value;
      GenItemsExtends(env, g1, items[1..]);
      ExtendsTrans(g, g1, GenItems(env, g1, items[1..]).value);
    }
  }

  lemma {:induction false} GenItemExtends(env: Env, g: Gen, item: Ast.Item)
    requires g.cur < |g.blocks| && g.scopes != []
    requires GenItem(env, g, item).Some?
    ensures Extends(g, GenItem(env, g, item).value)
    ensures SameBelow(g.scopes, GenItem(env, g, item).value.scopes)
    decreases item, 0
  {
    match item
    case Decl(isConst, defs) => GenDefsExtends(env, g, isConst, defs);
    case Do(s) => GenStmtExtends(env, g, s);
  }

  lemma {:induction false} GenElseExtends(env: Env, g: Gen, els: Option<Ast.Stmt>)
    requires g.cur < |g.blocks|
    requires GenElse(env, g, els).Some?
    ensures Extends(g, GenElse(env, g, els).value)
    ensures GenElse(env, g, els).value.scopes == g.scopes
    decreases els, 0
  {
    if els.Some? {
      GenStmtExtends(env, g, els.value);
    }
  }

  // From the condition of an `if` to where its `else` branch begins; `h` ends the first branch.
  lemma ThenExtends(g: Gen, g1: Gen, v: Operand, h: Gen)
    requires ExtendsPlain(g, g1) && Extends(BeginThen(g1, v), h)
    ensures Extends(g, BeginElse(h, |g1.blocks|))
  {
    BeginThenExtends(g1, v);
    ExtendsTrans(g, g1, BeginThen(g1, v));
    ResumeExtends(g, BeginThen(g1, v), h, |g1.blocks| + 2, |g1.blocks| + 1);
  }

  // From where the condition of a loop begins to the end of the loop; `h` ends the body.
  lemma LoopExtends(g: Gen, g1: Gen, v: Operand, h: Gen)
    requires g.cur < |g.blocks|
    requires ExtendsPlain(BeginLoop(g), g1) && Extends(BeginBody(g1, v, |g.blocks|), h)
    ensures Extends(g, EndWhile(h, |g.blocks|))
  {
    var t := |g.blocks|;
    var g0 := g.(loops := BeginLoop(g).loops);
    BeginLoopExtends(g);
    BeginBodyExtends(g0, BeginLoop(g), g1, v);
    ResumeExtends(g0, BeginBody(g1, v, t), h, t, t + 2);
    EndLoopExtends(g, Insert(Seal(h, t), t + 2));
  }

  lemma {:induction false} GenIfExtends(env: Env, g: Gen, s: Ast.Stmt)
    requires g.cur < |g.blocks|
    requires s.If? && GenIf(env, g, s).Some?
    ensures Extends(g, GenIf(env, g, s).value)
    ensures GenIf(env, g, s).value.scopes == g.scopes
    decreases s, 0
  {
    hide Extends, BeginThen, Compute, Emit, Seal;
    GenExprExtends(env, g, s.cond);
    var (v, g1) := GenExpr(env, g, s.cond).value;
    var t := |g1.blocks|;
    BeginThenExtends(g1, v);
    GenStmtExtends(env, BeginThen(g1, v), s.thn);
    var g2 := GenStmt(env, BeginThen(g1, v), s.thn).value;
    ThenExtends(g, g1, v, g2);
    SealExtends(g2, t + 2);
    var g3 := BeginElse(g2, t);
    GenElseExtends(env, g3, s.els);
    var g4 := GenElse(env, g3, s.els).value;
    ResumeExtends(g, g3, g4, t + 2, t + 2);
  }

  lemma {:induction false} GenWhileExtends(env: Env, g: Gen, s: Ast.Stmt)
    requires g.cur < |g.blocks|
    requires s.While? && GenWhile(env, g, s).Some?
    ensures Extends(g, GenWhile(env, g, s).value)
    ensures GenWhile(env, g, s).value.scopes == g.scopes
    decreases s, 0
  {
    var t := |g.blocks|;
    GenExprExtends(env, BeginLoop(g), s.cond);
    var (v, g1) := GenExpr(env, BeginLoop(g), s.cond).value;
    GenStmtExtends(env, BeginBody(g1, v, t), s.body);
    LoopExtends(g, g1, v, GenStmt(env, BeginBody(g1, v, t), s.body).value);
  }

  lemma EndLoopExtends(g: Gen, h: Gen)
    requires g.cur < |g.blocks|
    requires Extends(g.(loops := BeginLoop(g).loops), h)
    ensures Extends(g, EndLoop(h))
  {
    var t := |g.blocks|;
    assert h.loops == g.loops + [(t, t + 2)];
  }

  // Every statement leaves the loop stack and the scope stack as it found them.
  lemma {:induction false} GenStmtExtends(env: Env, g: Gen, s: Ast.Stmt)
    requires g.cur < |g.blocks|
    requires GenStmt(env, g, s).Some?
    ensures Extends(g, GenStmt(env, g, s).value)
    ensures GenStmt(env, g, s).value.scopes == g.scopes
    decreases s, 1
  {
    match s
    case Return(None) => EmitExtends(g, RetVoid);
    case Return(Some(e)) =>
      GenExprExtends(env, g, e);
      var (o, g1) := GenExpr(env, g, e).value;
      EmitExtends(g1, Ret(o));
      ExtendsTrans(g, g1, Emit(g1, Ret(o)));
    case Assign(x, None, e) =>
      GenExprExtends(env, g, e);
      var (v, g1) := GenExpr(env, g, e).value;
      SetValueExtends(env, g1, x, v, None);
      ExtendsTrans(g, g1, SetValue(env, g1, x, v, None).value);
    case Assign(x, Some(i), e) =>
      GenExprExtends(env, g, e);
      var (v, g1) := GenExpr(env, g, e).value;
      GenExprExtends(env, g1, i);
      var (o, g2) := GenExpr(env, g1, i).value;
      SetValueExtends(env, g2, x, v, Some(o));
      ExtendsTrans(g, g1, g2);
      ExtendsTrans(g, g2, SetValue(env, g2, x, v, Some(o)).value);
    case Eval(None) =>
    case Eval(Some(e)) => GenExprExtends(env, g, e);
    case Block(items) => GenBlockExtends(env, g, items);
    case If(_, _, _) => GenIfExtends(env, g, s);
    case While(_, _) => GenWhileExtends(env, g, s);
    case Continue => EmitExtends(g, Br(g.loops[|g.loops| - 1].0));
    case Break => EmitExtends(g, Br(g.loops[|g.loops| - 1].1));
  }

  lemma {:induction false} GenParamsExtends(g: Gen, params: seq<Ast.Param>, n: nat)
    requires g.cur < |g.blocks| && n <= |params| && g.scopes != []
    requires GenParams(g, params, n).Some?
    ensures ExtendsHere(g, GenParams(g, params, n).value)
    ensures SameBelow(g.scopes, GenParams(g, params, n).value.scopes)
    decreases n
  {
    if n == 0 {
    } else {
      GenParamsExtends(g, params, n - 1);
      var g1 := GenParams(g, params, n - 1).value;
      DefineExtends(g1, params[n - 1].name, false, ParamKind(params[n - 1]), [Arg(n - 1)]);
      ExtendsTrans(g, g1, GenParams(g, params, n).value);
    }
  }
}
