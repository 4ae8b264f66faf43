// What code generation emits, as functions from one generator state to the next; None is an
// error report followed by exit. The class in CodeGen.dfy does the same by mutation.
module Lowering {
  import opened Wrappers
  import opened Int64
  import opened Scopes
  import opened Target
  import Ast

  datatype VarInfo = VarInfo(isConst: bool, slot: nat, kind: Kind)

  type Layers = seq<map<string, VarInfo>>

  // Blocks are numbered in order of creation; `layout` lists those inserted into the function
  // so far. `loops` holds each enclosing loop's condition and after blocks, innermost last.
  datatype Gen = Gen(
    blocks: seq<Code>, layout: seq<nat>, cur: nat,
    scopes: Layers, loops: seq<(nat, nat)>, nextReg: nat, slots: seq<Kind>)

  // What has been defined in the module so far: functions with their arity, global
  // scalars with their initial value.
  datatype Env = Env(funcs: map<string, nat>, globals: map<string, int>)

  // ----- emission -----

  function Emit(g: Gen, i: Instr): (r: Gen)
    requires g.cur < |g.blocks|
    ensures r.cur == g.cur && |r.blocks| == |g.blocks|
  {
    g.(blocks := g.blocks[g.cur := g.blocks[g.cur] + [i]])
  }

  // The current block's last instruction; an empty block has none.
  predicate EndsInBranch(g: Gen)
    requires g.cur < |g.blocks|
  {
    var code := g.blocks[g.cur];
    code != [] && (code[|code| - 1].Br? || code[|code| - 1].CondBr?)
  }

  predicate EndsInReturn(g: Gen)
    requires g.cur < |g.blocks|
  {
    var code := g.blocks[g.cur];
    code != [] && (code[|code| - 1].Ret? || code[|code| - 1].RetVoid?)
  }

  // Three fresh blocks, of which only the first is inserted yet.
  function ThreeBlocks(g: Gen): (r: Gen)
    ensures |r.blocks| == |g.blocks| + 3
  {
    g.(blocks := g.blocks + [[], [], []], layout := g.layout + [|g.blocks|])
  }

  function Insert(g: Gen, b: nat): Gen {
    g.(layout := g.layout + [b], cur := b)
  }

  // Closes the current block with a branch unless one already ends it.
  function Seal(g: Gen, b: nat): (r: Gen)
    requires g.cur < |g.blocks|
    ensures r.cur == g.cur && |r.blocks| == |g.blocks|
  {
    if EndsInBranch(g) then g else Emit(g, Br(b))
  }

  // ----- builder -----

  predicate IsConstant(o: Operand) {
    o.CInt? || o.CBool?
  }

  predicate ConstantRhs(rhs: Rhs) {
    match rhs
    case Alu(_, a, b) => IsConstant(a) && IsConstant(b)
    case ICmp(_, a, b) => IsConstant(a) && IsConstant(b)
    case ZExt(a) => IsConstant(a)
    case Select(c, a, b) => IsConstant(c) && IsConstant(a) && IsConstant(b)
    case Gep(_, _) => false
  }

  function Constant(v: TVal): Option<Operand> {
    match v
    case TInt(i) => Some(CInt(i))
    case TBool(b) => Some(CBool(b))
    case _ => None
  }

  const NO_ACT: Act := Act("", 0, [], map[], [])

  // The builder's constant folder.
  function Folded(rhs: Rhs): Option<Operand> {
    if !ConstantRhs(rhs) then None
    else
      var v :- RhsVal(NO_ACT, rhs);
      Constant(v)
  }

  function Compute(g: Gen, rhs: Rhs): (r: (Operand, Gen))
    requires g.cur < |g.blocks|
    ensures r.1.cur == g.cur && |r.1.blocks| == |g.blocks|
  {
    match Folded(rhs)
    case Some(o) => (o, g)
    case None => (Reg(g.nextReg), Emit(g.(nextReg := g.nextReg + 1), Set(g.nextReg, rhs)))
  }

  function EmitLoad(g: Gen, p: Operand): (r: (Operand, Gen))
    requires g.cur < |g.blocks|
    ensures r.1.cur == g.cur && |r.1.blocks| == |g.blocks|
  {
    (Reg(g.nextReg), Emit(g.(nextReg := g.nextReg + 1), Load(g.nextReg, p)))
  }

  function IntToBoolean(g: Gen, v: Operand): (r: (Operand, Gen))
    requires g.cur < |g.blocks|
    ensures r.1.cur == g.cur && |r.1.blocks| == |g.blocks|
  {
    Compute(g, ICmp(CNe, CInt(0), v))
  }

  function BooleanToInt(g: Gen, v: Operand): (r: (Operand, Gen))
    requires g.cur < |g.blocks|
    ensures r.1.cur == g.cur && |r.1.blocks| == |g.blocks|
  {
    Compute(g, ZExt(v))
  }

  function CompareInt(g: Gen, c: Cond, a: Operand, b: Operand): (r: (Operand, Gen))
    requires g.cur < |g.blocks|
    ensures r.1.cur == g.cur && |r.1.blocks| == |g.blocks|
  {
    var (v, g1) := Compute(g, ICmp(c, a, b));
    BooleanToInt(g1, v)
  }

  // ----- variables -----

  // Address of a cell of a variable: an array is its own slot, anything else holds a pointer.
  function ElemAddr(g: Gen, info: VarInfo, i: Operand): (r: (Operand, Gen))
    requires g.cur < |g.blocks|
    ensures r.1.cur == g.cur && |r.1.blocks| == |g.blocks|
  {
    if info.kind.KArray? then Compute(g, Gep(Slot(info.slot), i))
    else
      var (p, g1) := EmitLoad(g, Slot(info.slot));
      Compute(g1, Gep(p, i))
  }

  // Reading a variable or a cell of it; an array read as a whole is the address of its first cell.
  function GetLocal(g: Gen, info: VarInfo, idx: Option<Operand>): (r: (Operand, Gen))
    requires g.cur < |g.blocks|
    ensures r.1.cur == g.cur && |r.1.blocks| == |g.blocks|
  {
    match idx
    case None => if info.kind.KArray? then Compute(g, Gep(Slot(info.slot), CInt(0))) else EmitLoad(g, Slot(info.slot))
    case Some(i) =>
      var (p, g1) := ElemAddr(g, info, i);
      EmitLoad(g1, p)
  }

  // Outside every function a global read yields its initialiser and emits nothing.
  function GetGlobal(env: Env, g: Gen, x: string, idx: Option<Operand>): (r: Option<(Operand, Gen)>)
    requires g.cur < |g.blocks|
    ensures r.Some? ==> r.value.1.cur == g.cur && |r.value.1.blocks| == |g.blocks|
  {
    if x !in env.globals then None
    else if g.scopes == [] then (if idx.None? then Some((CInt(env.globals[x]), g)) else None)
    else
      match idx
      case None => Some(EmitLoad(g, Glob(x)))
      case Some(i) =>
        var (p, g1) := Compute(g, Gep(Glob(x), i));
        Some(EmitLoad(g1, p))
  }

  function GetValue(env: Env, g: Gen, x: string, idx: Option<Operand>): (r: Option<(Operand, Gen)>)
    requires g.cur < |g.blocks|
    ensures r.Some? ==> r.value.1.cur == g.cur && |r.value.1.blocks| == |g.blocks|
  {
    match Find(g.scopes, x)
    case None => GetGlobal(env, g, x, idx)
    case Some(l) => Some(GetLocal(g, g.scopes[l][x], idx))
  }

  function SetLocal(g: Gen, info: VarInfo, v: Operand, idx: Option<Operand>): (r: Gen)
    requires g.cur < |g.blocks|
    ensures r.cur == g.cur && |r.blocks| == |g.blocks|
  {
    match idx
    case None => Emit(g, Store(v, Slot(info.slot)))
    case Some(i) =>
      var (p, g1) := ElemAddr(g, info, i);
      Emit(g1, Store(v, p))
  }

  // The load before a store to a global scalar is never used.
  function SetGlobal(env: Env, g: Gen, x: string, v: Operand, idx: Option<Operand>): (r: Option<Gen>)
    requires g.cur < |g.blocks|
    ensures r.Some? ==> r.value.cur == g.cur && |r.value.blocks| == |g.blocks|
  {
    if x !in env.globals then None
    else
      match idx
      case None => Some(Emit(EmitLoad(g, Glob(x)).1, Store(v, Glob(x))))
      case Some(i) =>
        var (p, g1) := Compute(g, Gep(Glob(x), i));
        Some(Emit(g1, Store(v, p)))
  }

  function SetValue(env: Env, g: Gen, x: string, v: Operand, idx: Option<Operand>): (r: Option<Gen>)
    requires g.cur < |g.blocks|
    ensures r.Some? ==> r.value.cur == g.cur && |r.value.blocks| == |g.blocks|
  {
    match Find(g.scopes, x)
    case None => SetGlobal(env, g, x, v, idx)
    case Some(l) => if g.scopes[l][x].isConst then None else Some(SetLocal(g, g.scopes[l][x], v, idx))
  }

  // Stores of the initial values from cell `i` on.
  function StoreCells(g: Gen, slot: nat, vals: seq<Operand>, i: nat): (r: Gen)
    requires g.cur < |g.blocks| && i <= |vals|
    ensures r.cur == g.cur && |r.blocks| == |g.blocks|
    decreases |vals| - i
  {
    if i == |vals| then g
    else
      var (p, g1) := Compute(g, Gep(Slot(slot), CInt(i)));
      StoreCells(Emit(g1, Store(vals[i], p)), slot, vals, i + 1)
  }

  function Alloca(g: Gen, kind: Kind): Gen {
    g.(slots := g.slots + [kind])
  }

  function Bind(g: Gen, x: string, info: VarInfo): Gen
    requires g.scopes != []
  {
    var l := |g.scopes| - 1;
    g.(scopes := g.scopes[l := g.scopes[l][x := info]])
  }

  // A new variable in the top layer, with its slot and the stores that initialise it.
  function Define(g: Gen, x: string, isConst: bool, kind: Kind, vals: seq<Operand>): (r: Option<Gen>)
    requires g.cur < |g.blocks|
    requires |vals| == Cells(kind)
    ensures r.Some? ==> r.value.cur == g.cur && |r.value.blocks| == |g.blocks|
  {
    if g.scopes == [] || x in g.scopes[|g.scopes| - 1] then None
    else
      var s := |g.slots|;
      var g1 := Alloca(g, kind);
      var g2 := if kind.KArray? then StoreCells(g1, s, vals, 0) else Emit(g1, Store(vals[0], Slot(s)));
      if g2.scopes == [] then None else Some(Bind(g2, x, VarInfo(isConst, s, kind)))
  }

  // ----- expressions -----

  function AluOf(op: Ast.BinOp): Option<AluOp> {
    match op
    case Add => Some(AAdd)
    case Sub => Some(ASub)
    case Mul => Some(AMul)
    case Div => Some(ASDiv)
    case Mod => Some(ASRem)
    case _ => None
  }

  function CondOf(op: Ast.BinOp): Cond {
    match op
    case Eq => CEq
    case Ne => CNe
    case Lt => CSlt
    case Gt => CSgt
    case Le => CSle
    case _ => CSge
  }

  function GenUnary(g: Gen, op: Ast.UnOp, v: Operand): (r: (Operand, Gen))
    requires g.cur < |g.blocks|
    ensures r.1.cur == g.cur && |r.1.blocks| == |g.blocks|
  {
    match op
    case Pos => (v, g)
    case Neg => Compute(g, Alu(ASub, CInt(0), v))
    case Not => CompareInt(g, CEq, CInt(0), v)
  }

  // The left operand of `||` and `&&` is made a boolean before the right one is generated.
  function GenLeft(g: Gen, op: Ast.BinOp, v: Operand): (r: (Operand, Gen))
    requires g.cur < |g.blocks|
    ensures r.1.cur == g.cur && |r.1.blocks| == |g.blocks|
  {
    if op.Or? || op.And? then IntToBoolean(g, v) else (v, g)
  }

  function GenBinary(g: Gen, op: Ast.BinOp, a: Operand, b: Operand): (r: (Operand, Gen))
    requires g.cur < |g.blocks|
    ensures r.1.cur == g.cur && |r.1.blocks| == |g.blocks|
  {
    if op.Or? || op.And? then
      var (c, g1) := IntToBoolean(g, b);
      var (s, g2) := Compute(g1, if op.Or? then Select(a, CBool(true), c) else Select(a, c, CBool(false)));
      BooleanToInt(g2, s)
    else if AluOf(op).Some? then Compute(g, Alu(AluOf(op).value, a, b))
    else CompareInt(g, CondOf(op), a, b)
  }

  function EmitCall(g: Gen, f: string, args: seq<Operand>): (r: (Operand, Gen))
    requires g.cur < |g.blocks|
    ensures r.1.cur == g.cur && |r.1.blocks| == |g.blocks|
  {
    (Reg(g.nextReg), Emit(g.(nextReg := g.nextReg + 1), Call(g.nextReg, f, args)))
  }

  function GenExpr(env: Env, g: Gen, e: Ast.Expr): (r: Option<(Operand, Gen)>)
    requires g.cur < |g.blocks|
    ensures r.Some? ==> r.value.1.cur == g.cur && |r.value.1.blocks| == |g.blocks|
    decreases e, 1
  {
    match e
    case Num(n) => Some((CInt(Wrap(n)), g))
    case Paren(inner) => GenExpr(env, g, inner)
    case Var(x) => GetValue(env, g, x, None)
    case Index(x, i) =>
      var (o, g1) :- GenExpr(env, g, i);
      GetValue(env, g1, x, Some(o))
    case Call(f, args) =>
      if f !in env.funcs || env.funcs[f] != |args| || g.scopes == [] then None
      else
        var (os, g1) :- GenArgs(env, g, args);
        Some(EmitCall(g1, f, os))
    case Unary(op, a) =>
      var (o, g1) :- GenExpr(env, g, a);
      Some(GenUnary(g1, op, o))
    case Binary(op, l, r) =>
      var (a, g1) :- GenExpr(env, g, l);
      var (a', g2) := GenLeft(g1, op, a);
      var (b, g3) :- GenExpr(env, g2, r);
      Some(GenBinary(g3, op, a', b))
  }

  function GenArgs(env: Env, g: Gen, es: seq<Ast.Expr>): (r: Option<(seq<Operand>, Gen)>)
    requires g.cur < |g.blocks|
    ensures r.Some? ==> |r.value.0| == |es| && r.value.1.cur == g.cur && |r.value.1.blocks| == |g.blocks|
    decreases es, 0
  {
    if es == [] then Some(([], g))
    else
      var (o, g1) :- GenExpr(env, g, es[0]);
      var (os, g2) :- GenArgs(env, g1, es[1..]);
      Some(([o] + os, g2))
  }

  // ----- declarations -----

  function Constants(codes: seq<int>): (r: seq<Operand>)
    ensures |r| == |codes|
  {
    seq(|codes|, i requires 0 <= i < |codes| => CInt(Wrap(codes[i])))
  }

  function ZeroOps(n: nat): (r: seq<Operand>)
    ensures |r| == n
  {
    seq(n, _ => CInt(0))
  }

  // `n` initial values: the initialisers in order, then zeros; surplus initialisers generate nothing.
  function GenInit(env: Env, g: Gen, init: Option<Ast.Init>, n: nat): (r: Option<(seq<Operand>, Gen)>)
    requires g.cur < |g.blocks|
    ensures r.Some? ==> |r.value.0| == n && r.value.1.cur == g.cur && |r.value.1.blocks| == |g.blocks|
  {
    match init
    case None => Some((ZeroOps(n), g))
    case Some(Text(codes)) =>
      var cs := Constants(Ast.Prefix(codes, n));
      Some((cs + ZeroOps(n - |cs|), g))
    case Some(List(_, es)) =>
      var (os, g1) :- GenArgs(env, g, Ast.Prefix(es, n));
      Some((os + ZeroOps(n - |os|), g1))
  }

  function GenDef(env: Env, g: Gen, isConst: bool, def: Ast.Def): (r: Option<Gen>)
    requires g.cur < |g.blocks|
    ensures r.Some? ==> r.value.cur == g.cur && |r.value.blocks| == |g.blocks|
  {
    match def.size
    case None =>
      var (vals, g1) :- GenInit(env, g, def.init, 1);
      Define(g1, def.name, isConst, KScalar, vals)
    case Some(e) =>
      var (n, g1) :- GenExpr(env, g, e);
      if !n.CInt? || n.i <= 0 then None
      else
        var (vals, g2) :- GenInit(env, g1, def.init, n.i);
        Define(g2, def.name, isConst, KArray(n.i), vals)
  }

  function GenDefs(env: Env, g: Gen, isConst: bool, defs: seq<Ast.Def>): (r: Option<Gen>)
    requires g.cur < |g.blocks|
    ensures r.Some? ==> r.value.cur == g.cur && |r.value.blocks| == |g.blocks|
    decreases defs
  {
    if defs == [] then Some(g)
    else
      var g1 :- GenDef(env, g, isConst, defs[0]);
      GenDefs(env, g1, isConst, defs[1..])
  }

  // ----- statements -----

  function PushScope(g: Gen): Gen {
    g.(scopes := g.scopes + [map[]])
  }

  function PopScope(g: Gen): Gen {
    if g.scopes == [] then g else g.(scopes := g.scopes[..|g.scopes| - 1])
  }

  function GenBlock(env: Env, g: Gen, items: seq<Ast.Item>): (r: Option<Gen>)
    requires g.cur < |g.blocks|
    ensures r.Some? ==> r.value.cur < |r.value.blocks| && |g.blocks| <= |r.value.blocks|
    decreases items, 1
  {
    var g1 :- GenItems(env, PushScope(g), items);
    Some(PopScope(g1))
  }

  function GenItems(env: Env, g: Gen, items: seq<Ast.Item>): (r: Option<Gen>)
    requires g.cur < |g.blocks|
    ensures r.Some? ==> r.value.cur < |r.value.blocks| && |g.blocks| <= |r.value.blocks|
    decreases items, 0
  {
    if items == [] then Some(g)
    else
      var g1 :- GenItem(env, g, items[0]);
      GenItems(env, g1, items[1..])
  }

  function GenItem(env: Env, g: Gen, item: Ast.Item): (r: Option<Gen>)
    requires g.cur < |g.blocks|
    ensures r.Some? ==> r.value.cur < |r.value.blocks| && |g.blocks| <= |r.value.blocks|
    decreases item, 0
  {
    match item
    case Decl(isConst, defs) => GenDefs(env, g, isConst, defs)
    case Do(s) => GenStmt(env, g, s)
  }

  // `else`, if any; its absence emits nothing.
  function GenElse(env: Env, g: Gen, els: Option<Ast.Stmt>): (r: Option<Gen>)
    requires g.cur < |g.blocks|
    ensures r.Some? ==> r.value.cur < |r.value.blocks| && |g.blocks| <= |r.value.blocks|
    decreases els, 0
  {
    match els
    case None => Some(g)
    case Some(s) => GenStmt(env, g, s)
  }

  // State in which the `then` branch is generated.
  function BeginThen(g: Gen, v: Operand): (r: Gen)
    requires g.cur < |g.blocks|
    ensures r.cur == |g.blocks| && |r.blocks| == |g.blocks| + 3
  {
    var (b, g1) := IntToBoolean(g, v);
    var t := |g1.blocks|;
    Emit(ThreeBlocks(g1), CondBr(b, t, t + 1)).(cur := t)
  }

  // State in which the loop's condition is generated.
  function BeginLoop(g: Gen): (r: Gen)
    requires g.cur < |g.blocks|
    ensures r.cur == |g.blocks| && |r.blocks| == |g.blocks| + 3
  {
    var t := |g.blocks|;
    Emit(ThreeBlocks(g).(loops := g.loops + [(t, t + 2)]), Br(t)).(cur := t)
  }

  // State in which the loop's body is generated; `t` is the condition block.
  function BeginBody(g: Gen, v: Operand, t: nat): (r: Gen)
    requires g.cur < |g.blocks|
    requires t + 2 < |g.blocks|
    ensures r.cur == t + 1 && |r.blocks| == |g.blocks|
  {
    var (b, g1) := IntToBoolean(g, v);
    Insert(Emit(g1, CondBr(b, t + 1, t + 2)), t + 1)
  }

  function EndLoop(g: Gen): Gen {
    if g.loops == [] then g else g.(loops := g.loops[..|g.loops| - 1])
  }

  // `t` is the `then` block; the other two of an `if` follow it.
  function BeginElse(g: Gen, t: nat): (r: Gen)
    requires g.cur < |g.blocks|
    ensures r.cur == t + 1 && |r.blocks| == |g.blocks|
  {
    Insert(Seal(g, t + 2), t + 1)
  }

  function EndIf(g: Gen, t: nat): (r: Gen)
    requires g.cur < |g.blocks|
    ensures r.cur == t + 2 && |r.blocks| == |g.blocks|
  {
    Insert(Seal(g, t + 2), t + 2)
  }

  // `t` is the condition block.
  function EndWhile(g: Gen, t: nat): (r: Gen)
    requires g.cur < |g.blocks|
    ensures r.cur == t + 2 && |r.blocks| == |g.blocks|
  {
    EndLoop(Insert(Seal(g, t), t + 2))
  }

  function GenIf(env: Env, g: Gen, s: Ast.Stmt): (r: Option<Gen>)
    requires g.cur < |g.blocks| && s.If?
    ensures r.Some? ==> r.value.cur < |r.value.blocks| && |g.blocks| <= |r.value.blocks|
    decreases s, 0
  {
    var (v, g1) :- GenExpr(env, g, s.cond);
    var t := |g1.blocks|;
    var g2 :- GenStmt(env, BeginThen(g1, v), s.thn);
    var g3 :- GenElse(env, BeginElse(g2, t), s.els);
    Some(EndIf(g3, t))
  }

  function GenWhile(env: Env, g: Gen, s: Ast.Stmt): (r: Option<Gen>)
    requires g.cur < |g.blocks| && s.While?
    ensures r.Some? ==> r.value.cur < |r.value.blocks| && |g.blocks| <= |r.value.blocks|
    decreases s, 0
  {
    var t := |g.blocks|;
    var (v, g1) :- GenExpr(env, BeginLoop(g), s.cond);
    var g2 :- GenStmt(env, BeginBody(g1, v, t), s.body);
    Some(EndWhile(g2, t))
  }

  function GenStmt(env: Env, g: Gen, s: Ast.Stmt): (r: Option<Gen>)
    requires g.cur < |g.blocks|
    ensures r.Some? ==> r.value.cur < |r.value.blocks| && |g.blocks| <= |r.value.blocks|
    decreases s, 1
  {
    match s
    case Return(None) => Some(Emit(g, RetVoid))
    case Return(Some(e)) =>
      var (o, g1) :- GenExpr(env, g, e);
      Some(Emit(g1, Ret(o)))
    case Assign(x, None, e) =>
      var (v, g1) :- GenExpr(env, g, e);
      SetValue(env, g1, x, v, None)
    case Assign(x, Some(i), e) =>
      var (v, g1) :- GenExpr(env, g, e);
      var (o, g2) :- GenExpr(env, g1, i);
      SetValue(env, g2, x, v, Some(o))
    case Eval(None) => Some(g)
    case Eval(Some(e)) =>
      var (_, g1) :- GenExpr(env, g, e);
      Some(g1)
    case Block(items) => GenBlock(env, g, items)
    case If(_, _, _) => GenIf(env, g, s)
    case While(_, _) => GenWhile(env, g, s)
    case Continue => if g.loops == [] then None else JumpTo(g, g.loops[|g.loops| - 1].0)
    case Break => if g.loops == [] then None else JumpTo(g, g.loops[|g.loops| - 1].1)
  }

  function JumpTo(g: Gen, b: nat): (r: Option<Gen>)
    requires g.cur < |g.blocks|
    ensures r.Some? ==> r.value.cur < |r.value.blocks| && |g.blocks| <= |r.value.blocks|
  {
    Some(Emit(g, Br(b)))
  }

  // ----- functions -----

  const EMPTY: Gen := Gen([[]], [0], 0, [], [], 0, [])

  function ParamKind(p: Ast.Param): Kind {
    if p.isArray then KPtr else KScalar
  }

  // Each argument is stored into a slot of its own; `n` parameters are done.
  function GenParams(g: Gen, params: seq<Ast.Param>, n: nat): (r: Option<Gen>)
    requires g.cur < |g.blocks| && n <= |params|
    ensures r.Some? ==> r.value.cur == g.cur && |r.value.blocks| == |g.blocks|
  {
    if n == 0 then Some(g)
    else
      var g1 :- GenParams(g, params, n - 1);
      Define(g1, params[n - 1].name, false, ParamKind(params[n - 1]), [Arg(n - 1)])
  }

  function Finish(g: Gen): (r: Gen)
    requires g.cur < |g.blocks|
  {
    if EndsInReturn(g) then g else Emit(g, RetVoid)
  }

  function GenBody(env: Env, f: Ast.Func): (r: Option<Gen>)
    ensures r.Some? ==> r.value.cur < |r.value.blocks|
  {
    var g1 :- GenParams(PushScope(EMPTY), f.params, |f.params|);
    var g2 :- GenBlock(env, g1, f.body);
    Some(Finish(g2))
  }

  // The function itself is declared before its body is generated, so it may call itself.
  function GenFunc(env: Env, f: Ast.Func): Option<Fn> {
    if f.name in env.funcs || f.name in env.globals then None
    else
      var g :- GenBody(env.(funcs := env.funcs[f.name := |f.params|]), f);
      Some(Fn(|f.params|, g.slots, g.blocks))
  }

  // ----- programs -----

  datatype Unit = Unit(globals: map<string, int>, fns: Module)

  function EnvOf(u: Unit): Env {
    Env(map f | f in u.fns :: u.fns[f].arity, u.globals)
  }

  // Only global scalars are modelled; the initialiser must fold to a constant.
  function GenGlobal(u: Unit, def: Ast.Def): Option<Unit> {
    if def.size.Some? then None
    else
      var (vals, _) :- GenInit(EnvOf(u), EMPTY, def.init, 1);
      if !vals[0].CInt? || def.name in u.globals || def.name in u.fns then None
      else Some(u.(globals := u.globals[def.name := vals[0].i]))
  }

  function GenGlobals(u: Unit, defs: seq<Ast.Def>): Option<Unit>
    decreases defs
  {
    if defs == [] then Some(u)
    else
      var u1 :- GenGlobal(u, defs[0]);
      GenGlobals(u1, defs[1..])
  }

  function GenTop(u: Unit, top: Ast.Top): Option<Unit> {
    match top
    case Globals(_, defs) => GenGlobals(u, defs)
    case Function(f) =>
      var fn :- GenFunc(EnvOf(u), f);
      Some(u.(fns := u.fns[f.name := fn]))
  }

  function GenProgram(p: Ast.Program): Option<Unit> {
    if p == [] then Some(Unit(map[], map[]))
    else
      var u :- GenProgram(p[..|p| - 1]);
      GenTop(u, p[|p| - 1])
  }
}
