// The code generator: an object whose methods append instructions at a moving insertion point,
// push and pop scopes and loop targets, and give up on the first error. Each method is proved
// to take the generator from one state to the next exactly as Lowering says.
module CodeGen {
  import opened Wrappers
  import opened Int64
  import opened Scopes
  import opened Target
  import opened Lowering
  import opened Growth
  import opened AstBuilder
  import Ast

  class Generator {
    // the function under construction
    var blocks: seq<Code>
    var layout: seq<nat>
    var insertPoint: nat
    var nextReg: nat
    var slots: seq<Kind>
    // the two stacks
    var nestedNamedValues: Layers
    var nestedBlocks: seq<(nat, nat)>
    // the module
    var env: Env
    var fns: Module

    ghost function State(): Gen
      reads this
    {
      Gen(blocks, layout, insertPoint, nestedNamedValues, nestedBlocks, nextReg, slots)
    }

    ghost predicate Valid()
      reads this
    {
      insertPoint < |blocks|
    }

    constructor ()
      ensures Holds(Unit(map[], map[])) && State() == EMPTY
    {
      blocks, layout, insertPoint, nextReg, slots := [[]], [0], 0, 0, [];
      nestedNamedValues, nestedBlocks := [], [];
      env, fns := Env(map[], map[]), map[];
    }

    // ----- builder -----

    method Append(i: Instr)
      requires Valid()
      modifies `blocks
      ensures State() == Emit(old(State()), i)
    {
      blocks := blocks[insertPoint := blocks[insertPoint] + [i]];
    }

    method Create(rhs: Rhs) returns (o: Operand)
      requires Valid()
      modifies `blocks, `nextReg
      ensures (o, State()) == Compute(old(State()), rhs)
    {
      match Folded(rhs)
      case Some(c) => o := c;
      case None =>
        o := Reg(nextReg);
        nextReg := nextReg + 1;
        Append(Set(nextReg - 1, rhs));
    }

    method CreateLoad(p: Operand) returns (o: Operand)
      requires Valid()
      modifies `blocks, `nextReg
      ensures (o, State()) == EmitLoad(old(State()), p)
    {
      o := Reg(nextReg);
      nextReg := nextReg + 1;
      Append(Load(nextReg - 1, p));
    }

    method MakeBoolean(v: Operand) returns (o: Operand)
      requires Valid()
      modifies `blocks, `nextReg
      ensures (o, State()) == IntToBoolean(old(State()), v)
    {
      o := Create(ICmp(CNe, CInt(0), v));
    }

    method MakeInt(v: Operand) returns (o: Operand)
      requires Valid()
      modifies `blocks, `nextReg
      ensures (o, State()) == BooleanToInt(old(State()), v)
    {
      o := Create(ZExt(v));
    }

    method CreateCompare(c: Cond, a: Operand, b: Operand) returns (o: Operand)
      requires Valid()
      modifies `blocks, `nextReg
      ensures (o, State()) == CompareInt(old(State()), c, a, b)
    {
      var t := Create(ICmp(c, a, b));
      o := MakeInt(t);
    }

    // ----- scopes -----

    method PushNamedValuesLayer()
      modifies `nestedNamedValues
      ensures State() == PushScope(old(State()))
    {
      nestedNamedValues := nestedNamedValues + [map[]];
    }

    method PopNamedValuesLayer()
      requires nestedNamedValues != []
      modifies `nestedNamedValues
      ensures State() == PopScope(old(State()))
    {
      nestedNamedValues := nestedNamedValues[..|nestedNamedValues| - 1];
    }

    // The layers are scanned from the top down; -1 if none has the name.
    method FindLayer(ident: string) returns (layer: int)
      ensures layer == match Find(nestedNamedValues, ident) case Some(l) => l case None => -1
    {
      layer := |nestedNamedValues| - 1;
      while layer >= 0
        invariant -1 <= layer < |nestedNamedValues|
        invariant Find(nestedNamedValues, ident) == Find(nestedNamedValues[..layer + 1], ident)
      {
        if ident in nestedNamedValues[layer] {
          break;
        }
        assert nestedNamedValues[..layer + 1][..layer] == nestedNamedValues[..layer];
        layer := layer - 1;
      }
    }

    // ----- variables -----

    method CreateElemAddr(info: VarInfo, i: Operand) returns (p: Operand)
      requires Valid()
      modifies `blocks, `nextReg
      ensures (p, State()) == ElemAddr(old(State()), info, i)
    {
      if info.kind.KArray? {
        p := Create(Gep(Slot(info.slot), i));
      } else {
        var base := CreateLoad(Slot(info.slot));
        p := Create(Gep(base, i));
      }
    }

    method CreateGetValueInst(info: VarInfo, idx: Option<Operand>) returns (o: Operand)
      requires Valid()
      modifies `blocks, `nextReg
      ensures (o, State()) == GetLocal(old(State()), info, idx)
    {
      match idx
      case None =>
        if info.kind.KArray? {
          o := Create(Gep(Slot(info.slot), CInt(0)));
        } else {
          o := CreateLoad(Slot(info.slot));
        }
      case Some(i) =>
        var p := CreateElemAddr(info, i);
        o := CreateLoad(p);
    }

    method CreateSetValueInst(info: VarInfo, v: Operand, idx: Option<Operand>)
      requires Valid()
      modifies `blocks, `nextReg
      ensures State() == SetLocal(old(State()), info, v, idx)
    {
      match idx
      case None => Append(Store(v, Slot(info.slot)));
      case Some(i) =>
        var p := CreateElemAddr(info, i);
        Append(Store(v, p));
    }

    method GetGlobalValue(ident: string, idx: Option<Operand>) returns (r: Option<Operand>)
      requires Valid()
      modifies `blocks, `nextReg
      ensures match GetGlobal(env, old(State()), ident, idx)
              case None => r.None?
              case Some((o, g)) => r == Some(o) && State() == g
    {
      if ident !in env.globals {
        return None;
      }
      if nestedNamedValues == [] {
        return if idx.None? then Some(CInt(env.globals[ident])) else None;
      }
      match idx
      case None =>
        var o := CreateLoad(Glob(ident));
        r := Some(o);
      case Some(i) =>
        var p := Create(Gep(Glob(ident), i));
        var o := CreateLoad(p);
        r := Some(o);
    }

    method SetGlobalValue(ident: string, v: Operand, idx: Option<Operand>) returns (r: Option<()>)
      requires Valid()
      modifies `blocks, `nextReg
      ensures match SetGlobal(env, old(State()), ident, v, idx)
              case None => r.None?
              case Some(g) => r.Some? && State() == g
    {
      if ident !in env.globals {
        return None;
      }
      match idx {
        case None =>
          var unused := CreateLoad(Glob(ident));
          Append(Store(v, Glob(ident)));
        case Some(i) =>
          var p := Create(Gep(Glob(ident), i));
          Append(Store(v, p));
      }
      r := Some(());
    }

    method ReadValue(ident: string, idx: Option<Operand>) returns (r: Option<Operand>)
      requires Valid()
      modifies `blocks, `nextReg
      ensures match GetValue(env, old(State()), ident, idx)
              case None => r.None?
              case Some((o, g)) => r == Some(o) && State() == g
    {
      var layer := FindLayer(ident);
      if layer == -1 {
        r := GetGlobalValue(ident, idx);
      } else {
        var o := CreateGetValueInst(nestedNamedValues[layer][ident], idx);
        r := Some(o);
      }
    }

    method WriteValue(ident: string, v: Operand, idx: Option<Operand>) returns (r: Option<()>)
      requires Valid()
      modifies `blocks, `nextReg
      ensures match SetValue(env, old(State()), ident, v, idx)
              case None => r.None?
              case Some(g) => r.Some? && State() == g
    {
      var layer := FindLayer(ident);
      if layer == -1 {
        r := SetGlobalValue(ident, v, idx);
      } else if nestedNamedValues[layer][ident].isConst {
        r := None;
      } else {
        CreateSetValueInst(nestedNamedValues[layer][ident], v, idx);
        r := Some(());
      }
    }

    // Reserves a slot and stores the initial values into it.
    method CreateDefineValueInst(vals: seq<Operand>, kind: Kind) returns (slot: nat)
      requires Valid() && |vals| == Cells(kind)
      modifies `blocks, `nextReg, `slots
      ensures slot == old(|slots|)
      ensures State() == if kind.KArray? then StoreCells(Alloca(old(State()), kind), slot, vals, 0)
                         else Emit(Alloca(old(State()), kind), Store(vals[0], Slot(slot)))
    {
      slot := |slots|;
      slots := slots + [kind];
      if !kind.KArray? {
        Append(Store(vals[0], Slot(slot)));
      } else {
        ghost var g := State();
        for i := 0 to |vals|
          invariant Valid()
          invariant StoreCells(g, slot, vals, 0) == StoreCells(State(), slot, vals, i)
        {
          var p := Create(Gep(Slot(slot), CInt(i)));
          Append(Store(vals[i], p));
        }
      }
    }

    method DefineValue(ident: string, isConst: bool, kind: Kind, vals: seq<Operand>) returns (r: Option<()>)
      requires Valid() && |vals| == Cells(kind)
      modifies `blocks, `nextReg, `slots, `nestedNamedValues
      ensures match Define(old(State()), ident, isConst, kind, vals)
              case None => r.None?
              case Some(g) => r.Some? && State() == g
    {
      if nestedNamedValues == [] || ident in nestedNamedValues[|nestedNamedValues| - 1] {
        return None;
      }
      ghost var g0 := Alloca(State(), kind);
      if kind.KArray? {
        StoreCellsExtends(g0, |slots|, vals, 0);
      }
      var slot := CreateDefineValueInst(vals, kind);
      var l := |nestedNamedValues| - 1;
      nestedNamedValues := nestedNamedValues[l := nestedNamedValues[l][ident := VarInfo(isConst, slot, kind)]];
      r := Some(());
    }

    // ----- expressions -----

    method CodeGenExp(e: Ast.Expr) returns (r: Option<Operand>)
      requires Valid()
      modifies `blocks, `nextReg
      ensures match GenExpr(env, old(State()), e)
              case None => r.None?
              case Some((o, g)) => r == Some(o) && State() == g
      decreases e, 1
    {
      match e
      case Num(n) => r := Some(CInt(Wrap(n)));
      case Paren(inner) => r := CodeGenExp(inner);
      case Var(x) => r := ReadValue(x, None);
      case Index(x, i) =>
        var o :- CodeGenExp(i);
        r := ReadValue(x, Some(o));
      case Call(f, args) =>
        if f !in env.funcs || env.funcs[f] != |args| || nestedNamedValues == [] {
          return None;
        }
        var os :- CodeGenArgs(args);
        r := Some(Reg(nextReg));
        nextReg := nextReg + 1;
        Append(Instr.Call(nextReg - 1, f, os));
      case Unary(op, a) =>
        var v :- CodeGenExp(a);
        match op {
          case Pos => r := Some(v);
          case Neg =>
            var o := Create(Alu(ASub, CInt(0), v));
            r := Some(o);
          case Not =>
            var o := CreateCompare(CEq, CInt(0), v);
            r := Some(o);
        }
      case Binary(op, l, right) =>
        var a :- CodeGenExp(l);
        if op.Or? || op.And? {
          a := MakeBoolean(a);
        }
        var b :- CodeGenExp(right);
        var o := CreateBinary(op, a, b);
        r := Some(o);
    }

    // CreateLogicalOr and CreateLogicalAnd: a select between the operands.
    method CreateLogical(op: Ast.BinOp, a: Operand, b: Operand) returns (o: Operand)
      requires Valid() && (op.Or? || op.And?)
      modifies `blocks, `nextReg
      ensures (o, State()) == GenBinary(old(State()), op, a, b)
    {
      hide Compute;
      var c := MakeBoolean(b);
      var s := Create(if op.Or? then Select(a, CBool(true), c) else Select(a, c, CBool(false)));
      o := MakeInt(s);
    }

    method CreateArithmetic(op: Ast.BinOp, a: Operand, b: Operand) returns (o: Operand)
      requires Valid() && !op.Or? && !op.And?
      modifies `blocks, `nextReg
      ensures (o, State()) == GenBinary(old(State()), op, a, b)
    {
      hide Compute;
      if AluOf(op).Some? {
        o := Create(Alu(AluOf(op).value, a, b));
      } else {
        o := CreateCompare(CondOf(op), a, b);
      }
    }

    method CreateBinary(op: Ast.BinOp, a: Operand, b: Operand) returns (o: Operand)
      requires Valid()
      modifies `blocks, `nextReg
      ensures (o, State()) == GenBinary(old(State()), op, a, b)
    {
      hide GenBinary;
      if op.Or? || op.And? {
        o := CreateLogical(op, a, b);
      } else {
        o := CreateArithmetic(op, a, b);
      }
    }

    method CodeGenArgs(es: seq<Ast.Expr>) returns (r: Option<seq<Operand>>)
      requires Valid()
      modifies `blocks, `nextReg
      ensures match GenArgs(env, old(State()), es)
              case None => r.None?
              case Some((os, g)) => r == Some(os) && State() == g
      decreases es, 0
    {
      var vals := [];
      ghost var g0 := State();
      ContinuesStart(env, g0, es);
      assert es[0..] == es;
      for i := 0 to |es|
        invariant Valid()
        invariant Continues(env, g0, es, vals, State(), es[i..])
      {
        ghost var g := State();
        assert es[i..][0] == es[i] && es[i..][1..] == es[i + 1..];
        var v :- CodeGenExp(es[i]);
        ContinuesStep(env, g0, es, vals, g, es[i..], v, State());
        vals := vals + [v];
      }
      ContinuesEnd(env, g0, es, vals, State());
      r := Some(vals);
    }

    // ----- declarations -----

    // Cell by cell: an initialiser while there are any, then zeros.
    method GetInitVals(init: Option<Ast.Init>, size: nat) returns (r: Option<seq<Operand>>)
      requires Valid()
      modifies `blocks, `nextReg
      ensures match GenInit(env, old(State()), init, size)
              case None => r.None?
              case Some((vals, g)) => r == Some(vals) && State() == g
    {
      var vals := [];
      ghost var g0 := State();
      InitStart(env, g0, init, size);
      for idx := 0 to size
        invariant Valid() && |vals| == idx
        invariant InitSoFar(env, g0, init, size, vals, State())
      {
        ghost var g := State();
        var expSize := if init.None? then 0 else if init.value.List? then |init.value.es| else |init.value.codes|;
        var v := CInt(0);
        if idx < expSize {
          if init.value.Text? {
            v := CInt(Wrap(init.value.codes[idx]));
          } else {
            InitFails(env, g0, init, size, vals, g);
            v :- CodeGenExp(init.value.es[idx]);
          }
        }
        InitStep(env, g0, init, size, vals, g, v, State());
        vals := vals + [v];
      }
      InitEnd(env, g0, init, size, vals, State());
      r := Some(vals);
    }

    method CodeGenDef(isConst: bool, def: Ast.Def) returns (r: Option<()>)
      requires Valid()
      modifies `blocks, `nextReg, `slots, `nestedNamedValues
      ensures match GenDef(env, old(State()), isConst, def)
              case None => r.None?
              case Some(g) => r.Some? && State() == g
    {
      match def.size
      case None =>
        var vals :- GetInitVals(def.init, 1);
        r := DefineValue(def.name, isConst, KScalar, vals);
      case Some(e) =>
        var n :- CodeGenExp(e);
        if !n.CInt? || n.i <= 0 {
          return None;
        }
        var vals :- GetInitVals(def.init, n.i);
        r := DefineValue(def.name, isConst, KArray(n.i), vals);
    }

    method CodeGenDecl(isConst: bool, defs: seq<Ast.Def>) returns (r: Option<()>)
      requires Valid()
      modifies `blocks, `nextReg, `slots, `nestedNamedValues
      ensures match GenDefs(env, old(State()), isConst, defs)
              case None => r.None?
              case Some(g) => r.Some? && State() == g
    {
      assert defs[0..] == defs;
      for i := 0 to |defs|
        invariant Valid()
        invariant GenDefs(env, old(State()), isConst, defs) == GenDefs(env, State(), isConst, defs[i..])
      {
        assert defs[i..][0] == defs[i] && defs[i..][1..] == defs[i + 1..];
        var _ :- CodeGenDef(isConst, defs[i]);
      }
      r := Some(());
    }

    // ----- statements -----

    method CodeGenBlock(b: BlockNode) returns (r: Option<()>)
      requires Valid() && AllReadable(b.items)
      modifies `blocks, `nextReg, `slots, `nestedNamedValues, `nestedBlocks, `layout, `insertPoint
      ensures match GenBlock(env, old(State()), DecodeItems(b.items))
              case None => r.None?
              case Some(g) => r.Some? && State() == g
      decreases b, 0
    {
      PushNamedValuesLayer();
      ghost var g0 := State();
      ghost var items := DecodeItems(b.items);
      assert b.items[0..] == b.items && items[0..] == items;
      for i := 0 to |b.items|
        invariant Valid() && nestedNamedValues != []
        invariant AllReadable(b.items[i..])
        invariant GenItems(env, g0, items) == GenItems(env, State(), DecodeItems(b.items[i..]))
      {
        ghost var g := State();
        assert b.items[i..][0] == b.items[i] && b.items[i..][1..] == b.items[i + 1..];
        ghost var rest := DecodeItems(b.items[i..]);
        assert rest[0] == DecodeItem(b.items[i]) && rest[1..] == DecodeItems(b.items[i + 1..]);
        var _ :- CodeGenBlockItem(b.items[i]);
        GenItemExtends(env, g, rest[0]);
      }
      PopNamedValuesLayer();
      r := Some(());
    }

    method CodeGenBlockItem(item: ItemNode) returns (r: Option<()>)
      requires Valid() && ItemReadable(item)
      modifies `blocks, `nextReg, `slots, `nestedNamedValues, `nestedBlocks, `layout, `insertPoint
      ensures match GenItem(env, old(State()), DecodeItem(item))
              case None => r.None?
              case Some(g) => r.Some? && State() == g
      decreases item, 0
    {
      match item
      case DeclNode(isConst, defs) => r := CodeGenDecl(isConst, defs);
      case StmtItem(s) => r := CodeGenStmt(s);
    }

    method CodeGenStmt(n: StmtNode) returns (r: Option<()>)
      requires Valid() && Readable(n)
      modifies `blocks, `nextReg, `slots, `nestedNamedValues, `nestedBlocks, `layout, `insertPoint
      ensures match GenStmt(env, old(State()), Decode(n))
              case None => r.None?
              case Some(g) => r.Some? && State() == g
      decreases n, 1
    {
      if n.block.Some? {
        r := CodeGenBlock(n.block.value);
        return;
      }
      if n.ifStmt.Some? {
        r := CodeGenIfStmt(n);
        return;
      }
      if n.whileStmt.Some? {
        r := CodeGenWhileStmt(n);
        return;
      }
      if n.isBreak || n.isContinue {
        if nestedBlocks == [] {
          return None;
        }
        if n.isContinue {
          Append(Br(nestedBlocks[|nestedBlocks| - 1].0));
        } else {
          Append(Br(nestedBlocks[|nestedBlocks| - 1].1));
        }
        return Some(());
      }
      if n.expr.None? {
        if n.isRet {
          Append(RetVoid);
        }
        return Some(());
      }
      var v :- CodeGenExp(n.expr.value);
      if n.isRet {
        Append(Ret(v));
        return Some(());
      }
      if n.lVal == "" {
        return Some(());
      }
      var subIdx := None;
      if n.subIdx.Some? {
        var o :- CodeGenExp(n.subIdx.value);
        subIdx := Some(o);
      }
      r := WriteValue(n.lVal, v, subIdx);
    }

    // Closes the current block unless a branch already does.
    method BranchUnlessClosed(b: nat)
      requires Valid()
      modifies `blocks
      ensures State() == Seal(old(State()), b)
    {
      var code := blocks[insertPoint];
      if !(code != [] && (code[|code| - 1].Br? || code[|code| - 1].CondBr?)) {
        Append(Br(b));
      }
    }

    method InsertBlock(b: nat)
      modifies `layout, `insertPoint
      ensures State() == Insert(old(State()), b)
    {
      layout := layout + [b];
      insertPoint := b;
    }

    method CodeGenIfStmt(n: StmtNode) returns (r: Option<()>)
      requires Valid() && Readable(n) && n.block.None? && n.ifStmt.Some?
      modifies `blocks, `nextReg, `slots, `nestedNamedValues, `nestedBlocks, `layout, `insertPoint
      ensures match GenIf(env, old(State()), Decode(n))
              case None => r.None?
              case Some(g) => r.Some? && State() == g
      decreases n, 0
    {
      hide GenExpr, GenStmt, Emit, Compute, Seal;
      var cond :- CodeGenExp(n.expr.value);
      ghost var g1, v := State(), cond;
      cond := MakeBoolean(cond);
      var thenBB, elseBB, mergeBB := |blocks|, |blocks| + 1, |blocks| + 2;
      blocks, layout := blocks + [[], [], []], layout + [thenBB];
      Append(CondBr(cond, thenBB, elseBB));
      insertPoint := thenBB;
      assert State() == BeginThen(g1, v);
      var _ :- CodeGenStmt(n.ifStmt.value);
      ghost var g2 := State();
      BranchUnlessClosed(mergeBB);
      InsertBlock(elseBB);
      assert State() == BeginElse(g2, thenBB);
      ghost var els := DecodeElse(n.elseStmt);
      assert Decode(n) == Ast.If(n.expr.value, Decode(n.ifStmt.value), els);
      assert els.Some? ==> els.value == Decode(n.elseStmt.value);
      assert GenElse(env, State(), els) == if els.Some? then GenStmt(env, State(), els.value) else Some(State());
      if n.elseStmt.Some? {
        var _ :- CodeGenStmt(n.elseStmt.value);
      }
      ghost var g3 := State();
      BranchUnlessClosed(mergeBB);
      InsertBlock(mergeBB);
      assert State() == EndIf(g3, thenBB);
      r := Some(());
    }

    method CodeGenWhileStmt(n: StmtNode) returns (r: Option<()>)
      requires Valid() && Readable(n) && n.block.None? && n.ifStmt.None? && n.whileStmt.Some?
      modifies `blocks, `nextReg, `slots, `nestedNamedValues, `nestedBlocks, `layout, `insertPoint
      ensures match GenWhile(env, old(State()), Decode(n))
              case None => r.None?
              case Some(g) => r.Some? && State() == g
      decreases n, 0
    {
      hide GenExpr, GenStmt, Extends, ExtendsPlain, Compute, AllReadable, BeginLoop, BeginBody, EndWhile;
      ghost var g0 := State();
      var loopBB, bodyBB, afterBB := OpenLoop();
      var cond :- CodeGenExp(n.expr.value);
      ghost var g1, v := State(), cond;
      GenExprExtends(env, BeginLoop(g0), n.expr.value);
      LoopTest(cond, bodyBB, afterBB);
      var _ :- CodeGenStmt(n.whileStmt.value);
      GenStmtExtends(env, BeginBody(g1, v, loopBB), Decode(n.whileStmt.value));
      InsideLoop(g0, g1, v, State());
      CloseLoop(loopBB, afterBB);
      r := Some(());
    }

    // The three blocks of a loop, its entry on the loop stack, and the way into the condition.
    method OpenLoop() returns (loopBB: nat, bodyBB: nat, afterBB: nat)
      requires Valid()
      modifies `blocks, `nestedBlocks, `layout, `insertPoint
      ensures loopBB == |old(blocks)| && bodyBB == loopBB + 1 && afterBB == loopBB + 2
      ensures Valid() && State() == BeginLoop(old(State()))
    {
      loopBB, bodyBB, afterBB := |blocks|, |blocks| + 1, |blocks| + 2;
      blocks, layout := blocks + [[], [], []], layout + [loopBB];
      nestedBlocks := nestedBlocks + [(loopBB, afterBB)];
      Append(Br(loopBB));
      insertPoint := loopBB;
    }

    method LoopTest(cond: Operand, bodyBB: nat, afterBB: nat)
      requires Valid() && 0 < bodyBB && afterBB == bodyBB + 1 && afterBB < |blocks|
      modifies `blocks, `nextReg, `layout, `insertPoint
      ensures Valid() && State() == BeginBody(old(State()), cond, bodyBB - 1)
    {
      hide Compute;
      var b := MakeBoolean(cond);
      Append(CondBr(b, bodyBB, afterBB));
      InsertBlock(bodyBB);
    }

    method CloseLoop(loopBB: nat, afterBB: nat)
      requires Valid() && afterBB == loopBB + 2 && afterBB < |blocks| && nestedBlocks != []
      modifies `blocks, `nestedBlocks, `layout, `insertPoint
      ensures Valid() && State() == EndWhile(old(State()), loopBB)
    {
      BranchUnlessClosed(loopBB);
      InsertBlock(afterBB);
      nestedBlocks := nestedBlocks[..|nestedBlocks| - 1];
    }

    // ----- functions and programs -----

    // The arguments become variables of the function's outermost layer.
    method DefineParams(params: seq<Ast.Param>) returns (r: Option<()>)
      requires Valid()
      modifies `blocks, `nextReg, `slots, `nestedNamedValues
      ensures match GenParams(old(State()), params, |params|)
              case None => r.None?
              case Some(g) => r.Some? && State() == g
    {
      hide Define, Extends;
      for i := 0 to |params|
        invariant Valid()
        invariant GenParams(old(State()), params, i) == Some(State())
      {
        if GenParams(old(State()), params, i + 1).None? {
          ParamsFail(old(State()), params, i + 1);
        }
        var p := params[i];
        var _ :- DefineValue(p.name, false, ParamKind(p), [Arg(i)]);
      }
      r := Some(());
    }

    method ReturnUnlessClosed()
      requires Valid()
      modifies `blocks
      ensures State() == Finish(old(State()))
    {
      var code := blocks[insertPoint];
      if !(code != [] && (code[|code| - 1].Ret? || code[|code| - 1].RetVoid?)) {
        Append(RetVoid);
      }
    }

    method CodeGenFunc(f: FuncNode) returns (r: Option<()>)
      requires AllReadable(f.block.items) && Idle()
      modifies this
      ensures match GenFunc(old(env), DecodeFunc(f))
              case None => r.None?
              case Some(fn) =>
                && r.Some? && Idle() && fns == old(fns)[f.name := fn]
                && env == old(env).(funcs := old(env).funcs[f.name := |f.params|])
    {
      if f.name in env.funcs || f.name in env.globals {
        return None;
      }
      env := env.(funcs := env.funcs[f.name := |f.params|]);
      var _ :- CodeGenBody(f);
      PopNamedValuesLayer();
      fns := fns[f.name := Fn(|f.params|, slots, blocks)];
      r := Some(());
    }

    // From the entry block to the closing return.
    method CodeGenBody(f: FuncNode) returns (r: Option<()>)
      requires AllReadable(f.block.items) && Idle()
      modifies `blocks, `nextReg, `slots, `nestedNamedValues, `nestedBlocks, `layout, `insertPoint
      ensures match GenBody(env, DecodeFunc(f))
              case None => r.None?
              case Some(g) => r.Some? && Valid() && State() == g && |nestedNamedValues| == 1 && nestedBlocks == []
    {
      hide GenBlock, Extends, Define, ExtendsHere, Emit, AllReadable, ExtendsPlain;
      blocks, layout, insertPoint, nextReg, slots := [[]], [0], 0, 0, [];
      PushNamedValuesLayer();
      ghost var g0 := State();
      assert g0 == PushScope(EMPTY);
      var _ :- DefineParams(f.params);
      ghost var g1 := State();
      GenParamsExtends(g0, f.params, |f.params|);
      var _ :- CodeGenBlock(f.block);
      BodyStacks(env, f.params, g1, DecodeItems(f.block.items));
      ReturnUnlessClosed();
      r := Some(());
    }

    // Between functions both stacks are empty.
    ghost predicate Idle()
      reads this
    {
      nestedNamedValues == [] && nestedBlocks == []
    }

    ghost predicate Holds(u: Unit)
      reads this
    {
      Idle() && env == EnvOf(u) && fns == u.fns
    }

    method DefineGlobalValue(def: Ast.Def, ghost u: Unit) returns (r: Option<()>)
      requires Holds(u)
      modifies this
      ensures match GenGlobal(u, def)
              case None => r.None?
              case Some(u') => r.Some? && Holds(u')
    {
      if def.size.Some? {
        return None;
      }
      // constants emit nothing, so any insertion point will do
      blocks, layout, insertPoint, nextReg, slots := [[]], [0], 0, 0, [];
      var vals :- GetInitVals(def.init, 1);
      if !vals[0].CInt? || def.name in env.globals || def.name in env.funcs {
        return None;
      }
      env := env.(globals := env.globals[def.name := vals[0].i]);
      r := Some(());
    }

    method CodeGenGlobals(defs: seq<Ast.Def>, ghost u: Unit) returns (r: Option<()>)
      requires Holds(u)
      modifies this
      ensures match GenGlobals(u, defs)
              case None => r.None?
              case Some(u') => r.Some? && Holds(u')
    {
      ghost var v := u;
      assert defs[0..] == defs;
      for i := 0 to |defs|
        invariant Holds(v)
        invariant GenGlobals(u, defs) == GenGlobals(v, defs[i..])
      {
        assert defs[i..][0] == defs[i] && defs[i..][1..] == defs[i + 1..];
        var _ :- DefineGlobalValue(defs[i], v);
        v := GenGlobal(v, defs[i]).value;
      }
      r := Some(());
    }

    // What comes before in the program is generated first.
    method CodeGenProgram(n: ProgNode) returns (r: Option<()>)
      requires ProgReadable(n) && Holds(Unit(map[], map[]))
      modifies this
      ensures match GenProgram(DecodeProg(n))
              case None => r.None?
              case Some(u) => r.Some? && Holds(u)
      decreases n
    {
      hide GenGlobals, GenFunc;
      ghost var u := Unit(map[], map[]);
      ghost var p: Ast.Program := [];
      if n.prog.Some? {
        p := DecodeProg(n.prog.value);
        ProgramStops(p, n);
        var _ :- CodeGenProgram(n.prog.value);
        u := GenProgram(p).value;
      }
      assert GenProgram(p) == Some(u) && Holds(u);
      if n.decl.Some? {
        ghost var top := Ast.Globals(n.decl.value.isConst, n.decl.value.defs);
        ProgramSnoc(p, top);
        p := p + [top];
        ProgramStops(p, n);
        var _ :- CodeGenGlobals(n.decl.value.defs, u);
        u := GenProgram(p).value;
      }
      assert GenProgram(p) == Some(u) && Holds(u);
      if n.func.Some? {
        ghost var f := DecodeFunc(n.func.value);
        ProgramSnoc(p, Ast.Function(f));
        p := p + [Ast.Function(f)];
        assert DecodeProg(n) == p;
        var _ :- CodeGenFunc(n.func.value);
        EnvAfter(u, f);
        u := GenProgram(p).value;
      }
      assert GenProgram(p) == Some(u) && Holds(u);
      assert DecodeProg(n) == p;
      r := Some(());
    }
  }

  // At the end of a loop's body its entry is on top of the loop stack.
  lemma InsideLoop(g: Gen, g1: Gen, v: Operand, g2: Gen)
    requires g.cur < |g.blocks| && ExtendsPlain(BeginLoop(g), g1)
    requires Extends(BeginBody(g1, v, |g.blocks|), g2)
    ensures g2.loops == g.loops + [(|g.blocks|, |g.blocks| + 2)] && |g.blocks| + 3 <= |g2.blocks|
  {
    hide Folded;
  }

  // A function's parameters and body leave one layer and no loop.
  lemma BodyStacks(env: Env, params: seq<Ast.Param>, g1: Gen, items: seq<Ast.Item>)
    requires GenParams(PushScope(EMPTY), params, |params|) == Some(g1) && GenBlock(env, g1, items).Some?
    ensures var g2 := GenBlock(env, g1, items).value; |g2.scopes| == 1 && g2.loops == []
  {
    hide GenBlock, GenParams;
    GenParamsExtends(PushScope(EMPTY), params, |params|);
    GenBlockExtends(env, g1, items);
  }

  lemma ProgramSnoc(p: Ast.Program, top: Ast.Top)
    ensures GenProgram(p + [top]) == match GenProgram(p) case None => None case Some(u) => GenTop(u, top)
  {
    hide GenTop;
    assert (p + [top])[..|p|] == p;
  }

  // A program whose beginning is rejected is rejected.
  lemma ProgramStops(p: Ast.Program, n: ProgNode)
    requires ProgReadable(n) && p <= DecodeProg(n)
    ensures GenProgram(p).None? ==> GenProgram(DecodeProg(n)).None?
  {
    if GenProgram(p).None? {
      PrefixStops(p, DecodeProg(n));
    }
  }

  lemma {:induction false} PrefixStops(p: Ast.Program, q: Ast.Program)
    requires p <= q && GenProgram(p).None?
    ensures GenProgram(q).None?
    decreases |q|
  {
    hide GenTop;
    if p == q {
    } else {
      PrefixStops(p, q[..|q| - 1]);
    }
  }

  lemma EnvAfter(u: Unit, f: Ast.Func)
    requires GenFunc(EnvOf(u), f).Some?
    ensures var fn := GenFunc(EnvOf(u), f).value;
            EnvOf(u.(fns := u.fns[f.name := fn])) == EnvOf(u).(funcs := EnvOf(u).funcs[f.name := |f.params|])
  {
    hide GenBody;
  }

  // ----- what the loops rely on -----

  lemma ContinuesStart(env: Env, g: Gen, es: seq<Ast.Expr>)
    requires g.cur < |g.blocks|
    ensures Continues(env, g, es, [], g, es)
  {
    if GenArgs(env, g, es).Some? {
      assert [] + GenArgs(env, g, es).value.0 == GenArgs(env, g, es).value.0;
    }
  }

  lemma ContinuesStep(env: Env, g0: Gen, es: seq<Ast.Expr>, vals: seq<Operand>, g: Gen, rest: seq<Ast.Expr>,
          v: Operand, h: Gen)
    requires g0.cur < |g0.blocks| && g.cur < |g.blocks| && h.cur < |h.blocks|
    requires Continues(env, g0, es, vals, g, rest) && rest != []
    requires GenExpr(env, g, rest[0]) == Some((v, h))
    ensures Continues(env, g0, es, vals + [v], h, rest[1..])
  {
    hide GenExpr;
    if GenArgs(env, h, rest[1..]).Some? {
      var os := GenArgs(env, h, rest[1..]).value.0;
      assert vals + ([v] + os) == vals + [v] + os;
    }
  }

  lemma ContinuesEnd(env: Env, g0: Gen, es: seq<Ast.Expr>, vals: seq<Operand>, g: Gen)
    requires g0.cur < |g0.blocks| && g.cur < |g.blocks|
    requires Continues(env, g0, es, vals, g, [])
    ensures GenArgs(env, g0, es) == Some((vals, g))
  {
    assert vals + [] == vals;
  }

  function Least(a: nat, b: nat): nat {
    if a < b then a else b
  }

  ghost predicate InitSoFar(env: Env, g0: Gen, init: Option<Ast.Init>, n: nat, vals: seq<Operand>, g: Gen)
    requires g0.cur < |g0.blocks| && g.cur < |g.blocks|
  {
    && |vals| <= n
    && match init
       case None => vals == ZeroOps(|vals|) && g == g0
       case Some(Text(codes)) =>
         var cs := Constants(Ast.Prefix(codes, n));
         vals == (cs + ZeroOps(n - |cs|))[..|vals|] && g == g0
       case Some(List(_, es)) =>
         var used := Ast.Prefix(es, n);
         var j := Least(|vals|, |used|);
         vals[j..] == ZeroOps(|vals| - j) && Continues(env, g0, used, vals[..j], g, used[j..])
  }

  lemma InitStart(env: Env, g: Gen, init: Option<Ast.Init>, n: nat)
    requires g.cur < |g.blocks|
    ensures InitSoFar(env, g, init, n, [], g)
  {
    if init.Some? && init.value.List? {
      var used := Ast.Prefix(init.value.es, n);
      ContinuesStart(env, g, used);
      assert used[0..] == used;
    }
  }

  // An initialiser that cannot be generated makes the whole list fail.
  lemma InitFails(env: Env, g0: Gen, init: Option<Ast.Init>, n: nat, vals: seq<Operand>, g: Gen)
    requires g0.cur < |g0.blocks| && g.cur < |g.blocks|
    requires InitSoFar(env, g0, init, n, vals, g) && |vals| < n
    requires init.Some? && init.value.List? && |vals| < |init.value.es|
    ensures GenExpr(env, g, init.value.es[|vals|]).None? ==> GenInit(env, g0, init, n).None?
  {
    hide GenExpr;
    var used := Ast.Prefix(init.value.es, n);
    assert used[|vals|..][0] == init.value.es[|vals|];
    assert vals[..|vals|] == vals;
  }

  // `v` is the initial value of cell `k`, and `h` the state after generating it.
  ghost predicate NextInit(env: Env, g: Gen, init: Option<Ast.Init>, k: nat, v: Operand, h: Gen)
    requires g.cur < |g.blocks|
  {
    match init
    case None => v == CInt(0) && h == g
    case Some(Text(codes)) => v == (if k < |codes| then CInt(Wrap(codes[k])) else CInt(0)) && h == g
    case Some(List(_, es)) =>
      if k < |es| then GenExpr(env, g, es[k]) == Some((v, h)) else v == CInt(0) && h == g
  }

  lemma InitStep(env: Env, g0: Gen, init: Option<Ast.Init>, n: nat, vals: seq<Operand>, g: Gen, v: Operand, h: Gen)
    requires g0.cur < |g0.blocks| && g.cur < |g.blocks| && h.cur < |h.blocks|
    requires InitSoFar(env, g0, init, n, vals, g) && |vals| < n
    requires NextInit(env, g, init, |vals|, v, h)
    ensures InitSoFar(env, g0, init, n, vals + [v], h)
  {
    hide GenExpr, Emit, Continues;
    match init
    case None =>
    case Some(Text(codes)) =>
    case Some(List(_, es)) =>
      var used := Ast.Prefix(es, n);
      var vals' := vals + [v];
      if |vals| < |used| {
        assert used[|vals|..][0] == es[|vals|] && used[|vals|..][1..] == used[|vals| + 1..];
        assert vals[..|vals|] == vals && vals'[..|vals'|] == vals';
        ContinuesStep(env, g0, used, vals, g, used[|vals|..], v, h);
      } else {
        assert vals'[..|used|] == vals[..|used|];
        assert vals'[|used|..] == vals[|used|..] + [v];
      }
  }

  lemma InitEnd(env: Env, g0: Gen, init: Option<Ast.Init>, n: nat, vals: seq<Operand>, g: Gen)
    requires g0.cur < |g0.blocks| && g.cur < |g.blocks|
    requires InitSoFar(env, g0, init, n, vals, g) && |vals| == n
    ensures GenInit(env, g0, init, n) == Some((vals, g))
  {
    hide GenExpr;
    match init
    case None =>
    case Some(Text(codes)) =>
      var cs := Constants(Ast.Prefix(codes, n));
      var all := cs + ZeroOps(n - |cs|);
      assert all[..n] == all;
    case Some(List(_, es)) =>
      var used := Ast.Prefix(es, n);
      assert used[|used|..] == [];
      ContinuesEnd(env, g0, used, vals[..|used|], g);
      assert vals == vals[..|used|] + vals[|used|..];
  }

  // A parameter that cannot be defined makes the whole list fail.
  lemma {:induction false} ParamsFail(g: Gen, params: seq<Ast.Param>, n: nat)
    requires g.cur < |g.blocks| && n <= |params|
    requires GenParams(g, params, n).None?
    ensures GenParams(g, params, |params|).None?
    decreases |params| - n
  {
    if n == |params| {
    } else {
      ParamsFail(g, params, n + 1);
    }
  }

  // Generating `es` from `g0` comes to having `vals` and generating `rest` from `g`.
  ghost predicate Continues(env: Env, g0: Gen, es: seq<Ast.Expr>, vals: seq<Operand>, g: Gen, rest: seq<Ast.Expr>)
    requires g0.cur < |g0.blocks| && g.cur < |g.blocks|
  {
    GenArgs(env, g0, es) ==
    match GenArgs(env, g, rest)
    case None => None
    case Some((os, h)) => Some((vals + os, h))
  }
}
