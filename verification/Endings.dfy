// How blocks end. The generator looks at the last instruction before it closes a block. Where no
// statement follows a jump this does prevent two branches in a block, though not a branch after a return.
module Endings {
  import opened Wrappers
  import opened Target
  import opened Lowering
  import opened Growth
  import Ast

  predicate IsBranch(i: Instr) {
    i.Br? || i.CondBr?
  }

  predicate IsReturn(i: Instr) {
    i.Ret? || i.RetVoid?
  }

  // Nothing follows a branch, and nothing but one branch a return.
  ghost predicate Clean(code: Code) {
    forall i | 0 <= i < |code| ::
      && (IsBranch(code[i]) ==> i + 1 == |code|)
      && (IsReturn(code[i]) ==> i + 1 == |code| || (i + 2 == |code| && IsBranch(code[|code| - 1])))
  }

  ghost predicate AllClean(g: Gen) {
    forall b | 0 <= b < |g.blocks| :: Clean(g.blocks[b])
  }

  // The insertion block is already closed.
  ghost predicate Closed(g: Gen)
    requires g.cur < |g.blocks|
  {
    EndsInBranch(g) || EndsInReturn(g)
  }

  // ----- programs in which no statement follows a jump -----

  predicate Jumps(s: Ast.Stmt)
    decreases s, 0
  {
    match s
    case Return(_) => true
    case Continue => true
    case Break => true
    case Block(items) => JumpsLast(items)
    case _ => false
  }

  predicate JumpsLast(items: seq<Ast.Item>)
    decreases items, 0
  {
    items != [] && if |items| == 1 then JumpsItem(items[0]) else JumpsLast(items[1..])
  }

  predicate JumpsItem(item: Ast.Item)
    decreases item, 0
  {
    item.Do? && Jumps(item.s)
  }

  predicate Lively(s: Ast.Stmt)
    decreases s, 0
  {
    match s
    case Block(items) => LivelyItems(items)
    case If(_, thn, els) => Lively(thn) && (els.Some? ==> Lively(els.value))
    case While(_, body) => Lively(body)
    case _ => true
  }

  predicate LivelyItems(items: seq<Ast.Item>)
    decreases items, 0
  {
    items != [] ==>
      && LivelyItem(items[0]) && LivelyItems(items[1..])
      && (|items| > 1 ==> !JumpsItem(items[0]))
  }

  predicate LivelyItem(item: Ast.Item)
    decreases item, 0
  {
    item.Do? ==> Lively(item.s)
  }

  // ----- single steps -----

  // Code that is clean and not closed has no terminator in it.
  lemma OpenStraight(g: Gen)
    requires g.cur < |g.blocks| && AllClean(g) && !Closed(g)
    ensures forall i | i in g.blocks[g.cur] :: !IsTerminator(i)
  {
  }

  lemma StraightClean(g: Gen, h: Gen)
    requires ExtendsHere(g, h) && AllClean(g) && !Closed(g)
    ensures AllClean(h) && !Closed(h) && !EndsInBranch(h)
  {
    var a, b := g.blocks[g.cur], h.blocks[g.cur];
    OpenStraight(g);
    forall i | 0 <= i < |b|
      ensures !IsTerminator(b[i])
    {
      if i < |a| {
        assert a[i] == b[i];
      }
    }
  }

  lemma EmitClean(g: Gen, i: Instr)
    requires g.cur < |g.blocks| && AllClean(g) && !EndsInBranch(g)
    requires IsBranch(i) || (IsReturn(i) && !EndsInReturn(g))
    ensures AllClean(Emit(g, i))
  {
    var a, b := g.blocks[g.cur], Emit(g, i).blocks[g.cur];
    assert forall k | 0 <= k < |a| :: b[k] == a[k];
  }

  lemma SealClean(g: Gen, b: nat)
    requires g.cur < |g.blocks| && AllClean(g)
    ensures AllClean(Seal(g, b))
  {
    if !EndsInBranch(g) {
      EmitClean(g, Br(b));
    }
  }

  // A block just entered and still empty.
  ghost predicate Begun(g: Gen) {
    g.cur < |g.blocks| && AllClean(g) && g.blocks[g.cur] == []
  }

  // ----- forks -----

  lemma ThenBegun(g: Gen, v: Operand)
    requires g.cur < |g.blocks| && AllClean(g) && !Closed(g)
    ensures Begun(BeginThen(g, v))
    ensures var t, h := |g.blocks|, BeginThen(g, v); h.blocks[t + 1] == [] && h.blocks[t + 2] == []
  {
    var (b, g1) := IntToBoolean(g, v);
    ComputeExtends(g, ICmp(CNe, CInt(0), v));
    StraightClean(g, g1);
    var g2 := ThreeBlocks(g1);
    EmitClean(g2, CondBr(b, |g1.blocks|, |g1.blocks| + 1));
  }

  // From one empty block to the next: what was generated in between is closed.
  lemma NextBegun(g: Gen, h: Gen, c: nat, b: nat)
    requires Extends(g, h) && AllClean(h)
    requires b < |g.blocks| && b != g.cur && g.blocks[b] == []
    ensures Begun(Insert(Seal(h, c), b))
  {
    SealClean(h, c);
    assert h.blocks[b] == [];
  }

  lemma StaysEmpty(g: Gen, h: Gen, b: nat)
    requires Extends(g, h) && b < |g.blocks| && b != g.cur && g.blocks[b] == []
    ensures b < |h.blocks| && h.blocks[b] == []
  {
  }

  lemma LoopBegun(g: Gen)
    requires g.cur < |g.blocks| && AllClean(g) && !Closed(g)
    ensures Begun(BeginLoop(g))
    ensures var t, h := |g.blocks|, BeginLoop(g); h.blocks[t + 1] == [] && h.blocks[t + 2] == []
  {
    var t := |g.blocks|;
    EmitClean(ThreeBlocks(g).(loops := g.loops + [(t, t + 2)]), Br(t));
  }

  // `g`: the condition is ready, in block t.
  lemma BodyBegun(g: Gen, v: Operand, t: nat)
    requires t + 2 < |g.blocks| && g.cur == t && AllClean(g) && !Closed(g)
    requires g.blocks[t + 1] == [] && g.blocks[t + 2] == []
    ensures Begun(BeginBody(g, v, t)) && BeginBody(g, v, t).blocks[t + 2] == []
  {
    var (b, g1) := IntToBoolean(g, v);
    ComputeExtends(g, ICmp(CNe, CInt(0), v));
    StraightClean(g, g1);
    EmitClean(g1, CondBr(b, t + 1, t + 2));
  }

  // ----- statements -----

  // What a statement that jumps or not, inside a loop or not, leaves behind.
  ghost predicate Ending(h: Gen, jumps: bool, inLoop: bool) {
    h.cur < |h.blocks| && AllClean(h) && (Closed(h) ==> jumps) && (EndsInBranch(h) ==> inLoop)
  }

  lemma {:induction false} StmtEnding(env: Env, g: Gen, s: Ast.Stmt)
    requires g.cur < |g.blocks| && g.scopes != [] && AllClean(g) && !Closed(g) && Lively(s)
    requires GenStmt(env, g, s).Some?
    ensures Ending(GenStmt(env, g, s).value, Jumps(s), g.loops != [])
    decreases s, 2
  {
    hide AllClean, Closed, EndsInBranch, GenExpr, SetValue, GenItems;
    match s
    case Return(None) => ReturnEnding(g, g, RetVoid);
    case Return(Some(e)) =>
      GenExprExtends(env, g, e);
      var (o, g1) := GenExpr(env, g, e).value;
      ReturnEnding(g, g1, Ret(o));
    case Assign(_, _, _) => AssignEnding(env, g, s);
    case Eval(None) => OpenBranch(g);
    case Eval(Some(e)) =>
      GenExprExtends(env, g, e);
      StraightClean(g, GenExpr(env, g, e).value.1);
    case Block(items) =>
      SameBlocks(g, PushScope(g));
      ItemsEnding(env, PushScope(g), items);
      SameBlocks(GenItems(env, PushScope(g), items).value, GenStmt(env, g, s).value);
    case If(_, _, _) => IfEnding(env, g, s);
    case While(_, _) => WhileEnding(env, g, s);
    case Continue => BranchEnding(g, g.loops[|g.loops| - 1].0);
    case Break => BranchEnding(g, g.loops[|g.loops| - 1].1);
  }

  lemma AssignEnding(env: Env, g: Gen, s: Ast.Stmt)
    requires g.cur < |g.blocks| && AllClean(g) && !Closed(g)
    requires s.Assign? && GenStmt(env, g, s).Some?
    ensures Ending(GenStmt(env, g, s).value, false, false)
  {
    hide AllClean, Closed, EndsInBranch, GenExpr, SetValue;
    GenExprExtends(env, g, s.rhs);
    var (v, g1) := GenExpr(env, g, s.rhs).value;
    match s.idx {
      case None =>
        SetValueExtends(env, g1, s.name, v, None);
      case Some(i) =>
        GenExprExtends(env, g1, i);
        var (o, g2) := GenExpr(env, g1, i).value;
        SetValueExtends(env, g2, s.name, v, Some(o));
        ExtendsTrans(g1, g2, GenStmt(env, g, s).value);
    }
    ExtendsTrans(g, g1, GenStmt(env, g, s).value);
    StraightClean(g, GenStmt(env, g, s).value);
  }

  lemma ReturnEnding(g: Gen, g1: Gen, i: Instr)
    requires g.cur < |g.blocks| && AllClean(g) && !Closed(g) && (g == g1 || ExtendsHere(g, g1)) && IsReturn(i)
    ensures Ending(Emit(g1, i), true, false)
  {
    if g != g1 {
      StraightClean(g, g1);
    }
    EmitClean(g1, i);
  }

  lemma BranchEnding(g: Gen, b: nat)
    requires g.cur < |g.blocks| && AllClean(g) && !Closed(g)
    ensures Ending(Emit(g, Br(b)), true, true)
  {
    EmitClean(g, Br(b));
  }

  lemma SameBlocks(g: Gen, h: Gen)
    requires g.cur < |g.blocks| && h.blocks == g.blocks && h.cur == g.cur
    ensures AllClean(g) <==> AllClean(h)
    ensures (Closed(g) <==> Closed(h)) && (EndsInBranch(g) <==> EndsInBranch(h))
  {
  }

  lemma {:induction false} ItemsEnding(env: Env, g: Gen, items: seq<Ast.Item>)
    requires g.cur < |g.blocks| && g.scopes != [] && AllClean(g) && !Closed(g) && LivelyItems(items)
    requires GenItems(env, g, items).Some?
    ensures Ending(GenItems(env, g, items).value, JumpsLast(items), g.loops != [])
    decreases items, 0
  {
    hide AllClean, Closed, EndsInBranch, GenItem;
    if items == [] {
      OpenBranch(g);
    } else {
      ItemEnding(env, g, items[0]);
      var g1 := GenItem(env, g, items[0]).value;
      if |items| == 1 {
        assert items[1..] == [] && GenItems(env, g1, items[1..]) == Some(g1);
      } else {
        GenItemExtends(env, g, items[0]);
        ItemsEnding(env, g1, items[1..]);
      }
    }
  }

  lemma {:induction false} ItemEnding(env: Env, g: Gen, item: Ast.Item)
    requires g.cur < |g.blocks| && g.scopes != [] && AllClean(g) && !Closed(g) && LivelyItem(item)
    requires GenItem(env, g, item).Some?
    ensures Ending(GenItem(env, g, item).value, JumpsItem(item), g.loops != [])
    decreases item, 0
  {
    hide AllClean, Closed, EndsInBranch, GenDefs, GenStmt;
    match item
    case Decl(isConst, defs) =>
      GenDefsExtends(env, g, isConst, defs);
      StraightClean(g, GenDefs(env, g, isConst, defs).value);
    case Do(s) => StmtEnding(env, g, s);
  }

  lemma EmptyOpen(g: Gen)
    requires Begun(g)
    ensures g.cur < |g.blocks| && AllClean(g) && !Closed(g)
    ensures !EndsInBranch(g)
  {
  }

  lemma OpenBranch(g: Gen)
    requires g.cur < |g.blocks| && !Closed(g)
    ensures !EndsInBranch(g)
  {
  }

  lemma {:induction false} IfEnding(env: Env, g: Gen, s: Ast.Stmt)
    requires g.cur < |g.blocks| && g.scopes != [] && AllClean(g) && !Closed(g) && Lively(s)
    requires s.If? && GenIf(env, g, s).Some?
    ensures Ending(GenIf(env, g, s).value, false, false)
    decreases s, 0
  {
    hide AllClean, Closed, EndsInBranch, GenExpr, GenStmt, BeginThen, Extends, Begun, Seal;
    GenExprExtends(env, g, s.cond);
    var (v, g1) := GenExpr(env, g, s.cond).value;
    StraightClean(g, g1);
    var t := |g1.blocks|;
    var g2 := BeginThen(g1, v);
    ThenBegun(g1, v);
    EmptyOpen(g2);
    BeginThenExtends(g1, v);
    SameScopes(g, g1);
    StmtEnding(env, g2, s.thn);
    var g3 := GenStmt(env, g2, s.thn).value;
    GenStmtExtends(env, g2, s.thn);
    NextBegun(g2, g3, t + 2, t + 1);
    StaysEmpty(g2, g3, t + 2);
    var g4 := BeginElse(g3, t);
    EmptyOpen(g4);
    SealExtends(g3, t + 2);
    SealEmpty(g3, t + 2, t + 2);
    if s.els.Some? {
      StmtEnding(env, g4, s.els.value);
      GenStmtExtends(env, g4, s.els.value);
      NextBegun(g4, GenStmt(env, g4, s.els.value).value, t + 2, t + 2);
    } else {
      Itself(g4);
      NextBegun(g4, g4, t + 2, t + 2);
    }
    EmptyOpen(GenIf(env, g, s).value);
  }

  lemma SameScopes(g: Gen, g1: Gen)
    requires ExtendsPlain(g, g1)
    ensures g1.scopes == g.scopes && g1.cur < |g1.blocks|
  {
  }

  lemma SealEmpty(g: Gen, c: nat, b: nat)
    requires g.cur < |g.blocks| && b < |g.blocks| && b != g.cur && g.blocks[b] == []
    ensures Seal(g, c).blocks[b] == []
  {
  }

  lemma Itself(g: Gen)
    requires g.cur < |g.blocks|
    ensures Extends(g, g)
  {
  }

  lemma {:induction false} WhileEnding(env: Env, g: Gen, s: Ast.Stmt)
    requires g.cur < |g.blocks| && g.scopes != [] && AllClean(g) && !Closed(g) && Lively(s)
    requires s.While? && GenWhile(env, g, s).Some?
    ensures Ending(GenWhile(env, g, s).value, false, false)
    decreases s, 0
  {
    hide AllClean, Closed, EndsInBranch, GenExpr, GenStmt, BeginLoop, BeginBody, Extends, Begun, Seal;
    var t := |g.blocks|;
    var g1 := BeginLoop(g);
    LoopBegun(g);
    EmptyOpen(g1);
    BeginLoopExtends(g);
    GenExprExtends(env, g1, s.cond);
    var (v, g2) := GenExpr(env, g1, s.cond).value;
    StraightClean(g1, g2);
    ConditionKeeps(g1, g2);
    BodyBegun(g2, v, t);
    var g3 := BeginBody(g2, v, t);
    EmptyOpen(g3);
    BodyScopes(g1, g2, v);
    StmtEnding(env, g3, s.body);
    var g4 := GenStmt(env, g3, s.body).value;
    GenStmtExtends(env, g3, s.body);
    NextBegun(g3, g4, t, t + 2);
    var h := Insert(Seal(g4, t), t + 2);
    EmptyOpen(h);
    SameBlocks(h, EndLoop(h));
  }

  lemma ConditionKeeps(g1: Gen, g2: Gen)
    requires ExtendsPlain(g1, g2)
    ensures g2.cur == g1.cur && |g2.blocks| == |g1.blocks| && g2.scopes == g1.scopes
    ensures forall b | 0 <= b < |g1.blocks| && b != g1.cur :: g2.blocks[b] == g1.blocks[b]
  {
  }

  lemma BodyScopes(g1: Gen, g2: Gen, v: Operand)
    requires ExtendsPlain(g1, g2) && g1.cur + 2 < |g1.blocks|
    ensures BeginBody(g2, v, g1.cur).scopes == g1.scopes
    ensures BeginBody(g2, v, g1.cur).cur == g1.cur + 1
    ensures |BeginBody(g2, v, g1.cur).blocks| == |g1.blocks|
  {
    ComputeExtends(g2, ICmp(CNe, CInt(0), v));
  }

  // ----- functions -----

  // In the code of a function without dead statements every block has at most one branch, its last
  // instruction, and the last block is closed by a return.
  lemma FunctionClean(env: Env, f: Ast.Func)
    requires LivelyItems(f.body) && GenBody(env, f).Some?
    ensures AllClean(GenBody(env, f).value) && EndsInReturn(GenBody(env, f).value)
  {
    hide GenParams, GenItems, AllClean, Closed, EndsInBranch, EndsInReturn, LivelyItems, Extends, ExtendsHere, Begun;
    var g0 := PushScope(EMPTY);
    var g1 := GenParams(g0, f.params, |f.params|).value;
    ParamsOpen(f);
    SameBlocks(g1, PushScope(g1));
    ItemsEnding(env, PushScope(g1), f.body);
    var g2 := GenItems(env, PushScope(g1), f.body).value;
    SameBlocks(g2, PopScope(g2));
    FinishClean(PopScope(g2));
  }

  lemma ParamsOpen(f: Ast.Func)
    requires GenParams(PushScope(EMPTY), f.params, |f.params|).Some?
    ensures var g := GenParams(PushScope(EMPTY), f.params, |f.params|).value;
      g.cur < |g.blocks| && AllClean(g) && !Closed(g) && g.loops == []
  {
    hide GenParams, AllClean, Closed;
    var g0 := PushScope(EMPTY);
    Starts();
    EmptyOpen(g0);
    GenParamsExtends(g0, f.params, |f.params|);
    StraightClean(g0, GenParams(g0, f.params, |f.params|).value);
  }

  lemma Starts()
    ensures Begun(PushScope(EMPTY))
  {
  }

  lemma FinishClean(g: Gen)
    requires g.cur < |g.blocks| && AllClean(g) && !EndsInBranch(g)
    ensures Finish(g).cur < |Finish(g).blocks| && AllClean(Finish(g)) && EndsInReturn(Finish(g))
  {
    if !EndsInReturn(g) {
      EmitClean(g, RetVoid);
    }
  }

  // A branch after a return is not prevented: if (1) then return 1; end
  lemma BranchAfterReturn(env: Env, g: Gen)
    requires g.cur < |g.blocks|
    ensures var h := GenStmt(env, g, Ast.If(Ast.Num(1), Ast.Return(Some(Ast.Num(1))), None));
      h.Some? && h.value.blocks[|g.blocks|] == [Ret(CInt(1)), Br(|g.blocks| + 2)]
  {
    var one, t := Ast.Num(1), |g.blocks|;
    var g2 := BeginThen(g, CInt(1));
    assert GenExpr(env, g, one) == Some((CInt(1), g)) && GenExpr(env, g2, one) == Some((CInt(1), g2));
    assert g2.blocks[t] == [];
    var g3 := Emit(g2, Ret(CInt(1)));
    assert GenStmt(env, g2, Ast.Return(Some(one))) == Some(g3) && g3.blocks[t] == [Ret(CInt(1))];
    assert BeginElse(g3, t).blocks[t] == [Ret(CInt(1)), Br(t + 2)];
  }

  // Nor are two branches where a statement follows a jump: break; continue;
  lemma BranchAfterBranch(env: Env, g: Gen, t: nat, b: nat)
    requires g.cur < |g.blocks| && g.loops == [(t, b)]
    ensures var h := GenItems(env, g, [Ast.Do(Ast.Break), Ast.Do(Ast.Continue)]);
      h.Some? && h.value.blocks[g.cur] == g.blocks[g.cur] + [Br(b), Br(t)]
  {
    var items := [Ast.Do(Ast.Break), Ast.Do(Ast.Continue)];
    var g1 := Emit(g, Br(b));
    var g2 := Emit(g1, Br(t));
    assert GenItem(env, g, items[0]) == Some(g1) && GenItem(env, g1, items[1]) == Some(g2);
    assert items[1..] == [items[1]] && items[1..][1..] == [];
    assert GenItems(env, g2, []) == Some(g2) && GenItems(env, g1, items[1..]) == Some(g2);
    assert g2.blocks[g.cur] == g.blocks[g.cur] + [Br(b), Br(t)];
  }
}
