// The shape of a generated function: how many blocks it has, that each is inserted once and
// closed by a terminator, and that no branch leaves the function - whatever dead code follows a
// break, a continue or a return.
module Cfg {
  import opened Wrappers
  import opened Target
  import opened Lowering
  import opened Growth
  import Ast

  // ----- counting -----

  // The ifs and whiles of a statement; each costs three blocks.
  function Forks(s: Ast.Stmt): nat
    decreases s, 1
  {
    match s
    case Block(items) => ItemForks(items)
    case If(_, thn, els) => 1 + Forks(thn) + ElseForks(els)
    case While(_, body) => 1 + Forks(body)
    case _ => 0
  }

  function ElseForks(els: Option<Ast.Stmt>): nat
    decreases els, 0
  {
    if els.Some? then Forks(els.value) else 0
  }

  function ItemForks(items: seq<Ast.Item>): nat
    decreases items, 0
  {
    if items == [] then 0 else OneItemForks(items[0]) + ItemForks(items[1..])
  }

  function OneItemForks(item: Ast.Item): nat
    decreases item, 0
  {
    if item.Do? then Forks(item.s) else 0
  }

  ghost predicate Grew(g: Gen, h: Gen, forks: nat) {
    |h.blocks| == |g.blocks| + 3 * forks && |h.layout| == |g.layout| + 3 * forks
  }

  // ----- closedness -----

  ghost predicate TargetsIn(code: Code, n: nat) {
    forall i | 0 <= i < |code| ::
      (code[i].Br? ==> code[i].b < n) && (code[i].CondBr? ==> code[i].t < n && code[i].e < n)
  }

  ghost predicate ClosedBlock(code: Code) {
    code != [] && IsTerminator(code[|code| - 1])
  }

  ghost predicate Distinct(layout: seq<nat>) {
    forall i, j | 0 <= i < j < |layout| :: layout[i] != layout[j]
  }

  // Every inserted block but the current one is closed, and a block not yet inserted is empty.
  ghost predicate WellShaped(g: Gen) {
    match g
    case Gen(blocks, layout, cur, _, loops, _, _) =>
      && cur < |blocks| && cur in layout
      && Distinct(layout)
      && (forall b | b in layout :: b < |blocks|)
      && (forall b | 0 <= b < |blocks| :: TargetsIn(blocks[b], |blocks|))
      && (forall b | 0 <= b < |blocks| && b !in layout :: blocks[b] == [])
      && (forall b | 0 <= b < |blocks| && b in layout && b != cur :: ClosedBlock(blocks[b]))
      && (forall i | 0 <= i < |loops| :: loops[i].0 < |blocks| && loops[i].1 < |blocks|)
  }

  lemma StraightShaped(g: Gen, h: Gen)
    requires WellShaped(g) && ExtendsHere(g, h)
    ensures WellShaped(h)
  {
    var a, b := g.blocks[g.cur], h.blocks[g.cur];
    forall i | 0 <= i < |b|
      ensures (b[i].Br? ==> b[i].b < |g.blocks|) && (b[i].CondBr? ==> b[i].t < |g.blocks| && b[i].e < |g.blocks|)
    {
      if i < |a| {
        assert b[i] == a[i];
      }
    }
    forall k | 0 <= k < |h.blocks|
      ensures TargetsIn(h.blocks[k], |h.blocks|)
    {
      assert TargetsIn(g.blocks[k], |g.blocks|);
    }
  }

  ghost predicate TargetIn(i: Instr, n: nat) {
    (i.Br? ==> i.b < n) && (i.CondBr? ==> i.t < n && i.e < n)
  }

  lemma EmitShaped(g: Gen, i: Instr)
    requires WellShaped(g) && TargetIn(i, |g.blocks|)
    ensures WellShaped(Emit(g, i))
    ensures IsTerminator(i) ==> ClosedBlock(Emit(g, i).blocks[g.cur])
  {
    var h := Emit(g, i);
    forall b | 0 <= b < |h.blocks|
      ensures TargetsIn(h.blocks[b], |h.blocks|)
    {
      assert TargetsIn(g.blocks[b], |g.blocks|);
    }
  }

  // Moving on to a pending block once the current one is closed.
  lemma InsertShaped(g: Gen, b: nat)
    requires WellShaped(g) && ClosedBlock(g.blocks[g.cur])
    requires b < |g.blocks| && b !in g.layout
    ensures WellShaped(Insert(g, b))
  {
    var h := Insert(g, b);
    forall i, j | 0 <= i < j < |h.layout|
      ensures h.layout[i] != h.layout[j]
    {
      assert j == |g.layout| ==> h.layout[i] in g.layout;
    }
  }

  lemma SealShaped(g: Gen, b: nat)
    requires WellShaped(g) && b < |g.blocks|
    ensures WellShaped(Seal(g, b)) && ClosedBlock(Seal(g, b).blocks[g.cur])
    ensures Seal(g, b).layout == g.layout
  {
    EmitShaped(g, Br(b));
  }

  lemma ThreeShaped(g: Gen)
    requires WellShaped(g)
    ensures WellShaped(ThreeBlocks(g).(layout := g.layout))
  {
    var h := ThreeBlocks(g);
    forall b | 0 <= b < |h.blocks|
      ensures TargetsIn(h.blocks[b], |h.blocks|)
    {
      assert b < |g.blocks| ==> h.blocks[b] == g.blocks[b];
      if b < |g.blocks| {
        assert TargetsIn(g.blocks[b], |g.blocks|);
      }
    }
    forall b | 0 <= b < |h.blocks| && b in g.layout && b != g.cur
      ensures ClosedBlock(h.blocks[b])
    {
      assert h.blocks[b] == g.blocks[b];
    }
    forall b | 0 <= b < |h.blocks| && b !in g.layout
      ensures h.blocks[b] == []
    {
      assert b < |g.blocks| ==> h.blocks[b] == g.blocks[b];
    }
  }

  // Three pending blocks, the current block closed by `i`, and generation resumed in the first of them.
  lemma ForkShaped(g: Gen, i: Instr)
    requires WellShaped(g) && IsTerminator(i) && TargetIn(i, |g.blocks| + 3)
    ensures var t := |g.blocks|; WellShaped(Emit(ThreeBlocks(g), i).(cur := t))
    ensures var h := Emit(ThreeBlocks(g), i); |g.blocks| + 1 !in h.layout && |g.blocks| + 2 !in h.layout
  {
    var t := |g.blocks|;
    var g1 := ThreeBlocks(g).(layout := g.layout);
    ThreeShaped(g);
    EmitShaped(g1, i);
    InsertShaped(Emit(g1, i), t);
    assert Emit(ThreeBlocks(g), i).(cur := t) == Insert(Emit(g1, i), t);
  }

  // What was pending before stays pending.
  lemma StillPending(g: Gen, h: Gen, b: nat)
    requires Extends(g, h) && b < |g.blocks| && b !in g.layout
    ensures b !in h.layout
  {
    forall i | 0 <= i < |h.layout|
      ensures h.layout[i] != b
    {
      if i < |g.layout| {
        assert h.layout[i] == h.layout[..|g.layout|][i] == g.layout[i];
      }
    }
  }

  // ----- statements -----

  lemma {:induction false} BlockShaped(env: Env, g: Gen, items: seq<Ast.Item>)
    requires WellShaped(g) && GenBlock(env, g, items).Some?
    ensures WellShaped(GenBlock(env, g, items).value) && Grew(g, GenBlock(env, g, items).value, ItemForks(items))
    decreases items, 1
  {
    ItemsShaped(env, PushScope(g), items);
  }

  lemma {:induction false} ItemsShaped(env: Env, g: Gen, items: seq<Ast.Item>)
    requires WellShaped(g) && g.scopes != [] && GenItems(env, g, items).Some?
    ensures WellShaped(GenItems(env, g, items).value) && Grew(g, GenItems(env, g, items).value, ItemForks(items))
    decreases items, 0
  {
    if items == [] {
    } else {
      GenItemExtends(env, g, items[0]);
      ItemShaped(env, g, items[0]);
      ItemsShaped(env, GenItem(env, g, items[0]).value, items[1..]);
    }
  }

  lemma {:induction false} ItemShaped(env: Env, g: Gen, item: Ast.Item)
    requires WellShaped(g) && g.scopes != [] && GenItem(env, g, item).Some?
    ensures WellShaped(GenItem(env, g, item).value) && Grew(g, GenItem(env, g, item).value, OneItemForks(item))
    decreases item, 0
  {
    match item
    case Decl(isConst, defs) =>
      GenDefsExtends(env, g, isConst, defs);
      StraightShaped(g, GenDefs(env, g, isConst, defs).value);
    case Do(s) => StmtShaped(env, g, s);
  }

  lemma {:induction false} ElseShaped(env: Env, g: Gen, els: Option<Ast.Stmt>)
    requires WellShaped(g) && g.scopes != [] && GenElse(env, g, els).Some?
    ensures WellShaped(GenElse(env, g, els).value) && Grew(g, GenElse(env, g, els).value, ElseForks(els))
    decreases els, 0
  {
    if els.Some? {
      StmtShaped(env, g, els.value);
    }
  }

  lemma {:induction false} StmtShaped(env: Env, g: Gen, s: Ast.Stmt)
    requires WellShaped(g) && g.scopes != [] && GenStmt(env, g, s).Some?
    ensures WellShaped(GenStmt(env, g, s).value) && Grew(g, GenStmt(env, g, s).value, Forks(s))
    decreases s, 1
  {
    hide GenExpr, SetValue, WellShaped, Extends, Compute;
    match s
    case Return(None) => EmitShaped(g, RetVoid);
    case Return(Some(e)) =>
      ExprShaped(env, g, e);
      EmitShaped(GenExpr(env, g, e).value.1, Ret(GenExpr(env, g, e).value.0));
    case Assign(x, None, e) =>
      ExprShaped(env, g, e);
      var (v, g1) := GenExpr(env, g, e).value;
      SetShaped(env, g1, x, v, None);
    case Assign(x, Some(i), e) =>
      ExprShaped(env, g, e);
      var (v, g1) := GenExpr(env, g, e).value;
      ExprShaped(env, g1, i);
      var (o, g2) := GenExpr(env, g1, i).value;
      SetShaped(env, g2, x, v, Some(o));
    case Eval(None) =>
    case Eval(Some(e)) => ExprShaped(env, g, e);
    case Block(items) => BlockShaped(env, g, items);
    case If(_, _, _) => IfShaped(env, g, s);
    case While(_, _) => WhileShaped(env, g, s);
    case Continue => JumpShaped(g); EmitShaped(g, Br(g.loops[|g.loops| - 1].0));
    case Break => JumpShaped(g); EmitShaped(g, Br(g.loops[|g.loops| - 1].1));
  }

  lemma JumpShaped(g: Gen)
    requires WellShaped(g) && g.loops != []
    ensures g.loops[|g.loops| - 1].0 < |g.blocks| && g.loops[|g.loops| - 1].1 < |g.blocks|
  {
  }

  lemma ExprShaped(env: Env, g: Gen, e: Ast.Expr)
    requires WellShaped(g) && GenExpr(env, g, e).Some?
    ensures var h := GenExpr(env, g, e).value.1;
            WellShaped(h) && Grew(g, h, 0) && ExtendsPlain(g, h)
  {
    GenExprExtends(env, g, e);
    StraightShaped(g, GenExpr(env, g, e).value.1);
  }

  lemma SetShaped(env: Env, g: Gen, x: string, v: Operand, idx: Option<Operand>)
    requires WellShaped(g) && SetValue(env, g, x, v, idx).Some?
    ensures WellShaped(SetValue(env, g, x, v, idx).value) && Grew(g, SetValue(env, g, x, v, idx).value, 0)
  {
    SetValueExtends(env, g, x, v, idx);
    StraightShaped(g, SetValue(env, g, x, v, idx).value);
  }

  lemma BeginThenShaped(g: Gen, v: Operand)
    requires WellShaped(g)
    ensures var h := BeginThen(g, v); var t := |g.blocks|;
            && WellShaped(h) && |h.layout| == |g.layout| + 1 && |h.blocks| == |g.blocks| + 3
            && t + 1 !in h.layout && t + 2 !in h.layout && h.scopes == g.scopes
  {
    var (b, g1) := IntToBoolean(g, v);
    ComputeExtends(g, ICmp(CNe, CInt(0), v));
    StraightShaped(g, g1);
    ForkShaped(g1, CondBr(b, |g.blocks|, |g.blocks| + 1));
  }

  // A branch is closed and the pending block `b` is begun.
  lemma NextShaped(g: Gen, h: Gen, c: nat, b: nat)
    requires WellShaped(h) && Extends(g, h) && c < |g.blocks| && b < |g.blocks| && b !in g.layout
    ensures WellShaped(Insert(Seal(h, c), b))
    ensures |Insert(Seal(h, c), b).layout| == |h.layout| + 1 && |Insert(Seal(h, c), b).blocks| == |h.blocks|
    ensures forall p | 0 <= p < |g.blocks| && p != b && p !in g.layout :: p !in Insert(Seal(h, c), b).layout
    ensures Insert(Seal(h, c), b).scopes == h.scopes
  {
    StillPending(g, h, b);
    forall p | 0 <= p < |g.blocks| && p != b && p !in g.layout
      ensures p !in Insert(Seal(h, c), b).layout
    {
      StillPending(g, h, p);
    }
    SealShaped(h, c);
    InsertShaped(Seal(h, c), b);
  }

  lemma {:induction false} IfShaped(env: Env, g: Gen, s: Ast.Stmt)
    requires WellShaped(g) && g.scopes != [] && s.If? && GenIf(env, g, s).Some?
    ensures WellShaped(GenIf(env, g, s).value) && Grew(g, GenIf(env, g, s).value, Forks(s))
    decreases s, 0
  {
    hide GenExpr, GenStmt, GenElse, Compute, WellShaped, Extends, BeginThen, Emit, Seal;
    ExprShaped(env, g, s.cond);
    var (v, g1) := GenExpr(env, g, s.cond).value;
    var t := |g1.blocks|;
    var g2 := BeginThen(g1, v);
    BeginThenShaped(g1, v);
    StmtShaped(env, g2, s.thn);
    GenStmtExtends(env, g2, s.thn);
    var g3 := GenStmt(env, g2, s.thn).value;
    NextShaped(g2, g3, t + 2, t + 1);
    var g4 := BeginElse(g3, t);
    ElseShaped(env, g4, s.els);
    GenElseExtends(env, g4, s.els);
    NextShaped(g4, GenElse(env, g4, s.els).value, t + 2, t + 2);
  }

  lemma BeginLoopShaped(g: Gen)
    requires WellShaped(g)
    ensures var h := BeginLoop(g); var t := |g.blocks|;
            && WellShaped(h) && |h.layout| == |g.layout| + 1 && |h.blocks| == |g.blocks| + 3
            && t + 1 !in h.layout && t + 2 !in h.layout && h.scopes == g.scopes
  {
    ForkShaped(g, Br(|g.blocks|));
    var h := Emit(ThreeBlocks(g), Br(|g.blocks|)).(cur := |g.blocks|);
    assert BeginLoop(g) == h.(loops := BeginLoop(g).loops);
    assert WellShaped(h);
  }

  lemma BeginBodyShaped(g: Gen, h: Gen, v: Operand)
    requires WellShaped(h) && ExtendsPlain(g, h) && g.cur + 2 < |g.blocks|
    requires g.cur + 1 !in g.layout && g.cur + 2 !in g.layout
    ensures var j := BeginBody(h, v, g.cur);
            && WellShaped(j) && |j.layout| == |h.layout| + 1 && |j.blocks| == |h.blocks|
            && g.cur + 2 !in j.layout && j.scopes == h.scopes
  {
    var t := g.cur;
    var (b, h1) := IntToBoolean(h, v);
    ComputeExtends(h, ICmp(CNe, CInt(0), v));
    StraightShaped(h, h1);
    EmitShaped(h1, CondBr(b, t + 1, t + 2));
    InsertShaped(Emit(h1, CondBr(b, t + 1, t + 2)), t + 1);
  }

  lemma {:induction false} WhileShaped(env: Env, g: Gen, s: Ast.Stmt)
    requires WellShaped(g) && g.scopes != [] && s.While? && GenWhile(env, g, s).Some?
    ensures WellShaped(GenWhile(env, g, s).value) && Grew(g, GenWhile(env, g, s).value, Forks(s))
    decreases s, 0
  {
    hide GenExpr, GenStmt, Compute, Extends, BeginBody, Emit, Seal, BeginLoop, Distinct, ClosedBlock;
    hide TargetsIn;
    var t := |g.blocks|;
    var g1 := BeginLoop(g);
    BeginLoopShaped(g);
    ExprShaped(env, g1, s.cond);
    var (v, g2) := GenExpr(env, g1, s.cond).value;
    var g3 := BeginBody(g2, v, t);
    BeginBodyShaped(g1, g2, v);
    StmtShaped(env, g3, s.body);
    GenStmtExtends(env, g3, s.body);
    var g4 := GenStmt(env, g3, s.body).value;
    NextShaped(g3, g4, t, t + 2);
    var h := Insert(Seal(g4, t), t + 2);
    assert WellShaped(EndLoop(h));
  }

  // ----- functions -----

  lemma FinishShaped(g: Gen)
    requires WellShaped(g)
    ensures WellShaped(Finish(g)) && ClosedBlock(Finish(g).blocks[g.cur]) && Finish(g).layout == g.layout
  {
    EmitShaped(g, RetVoid);
  }

  ghost function Listed(layout: seq<nat>): (s: set<nat>)
    requires Distinct(layout)
    ensures |s| == |layout| && forall b: nat :: b in s <==> b in layout
  {
    if layout == [] then {}
    else
      var n := |layout| - 1;
      assert layout == layout[..n] + [layout[n]];
      Listed(layout[..n]) + {layout[n]}
  }

  ghost function Below(n: nat): (s: set<nat>)
    ensures |s| == n && forall b: nat :: b in s <==> b < n
  {
    if n == 0 then {} else Below(n - 1) + {n - 1}
  }

  // Distinct numbers below n, n of them, are all the numbers below n.
  lemma AllListed(layout: seq<nat>, n: nat)
    requires Distinct(layout) && |layout| == n && forall b | b in layout :: b < n
    ensures forall b: nat | b < n :: b in layout
  {
    var listed, all := Listed(layout), Below(n);
    assert listed <= all;
    hide Listed, Below;
    assert all == listed + (all - listed);
    assert |all| == |listed| + |all - listed|;
    assert all - listed == {};
    forall b: nat | b < n
      ensures b in layout
    {
      assert b in all && b !in all - listed;
    }
  }

  // A generated function has one block and three more for each if and while, all of them
  // inserted exactly once and closed, and every branch stays inside the function.
  lemma FunctionShape(env: Env, f: Ast.Func)
    requires GenBody(env, f).Some?
    ensures var g := GenBody(env, f).value;
            && |g.blocks| == 1 + 3 * ItemForks(f.body)
            && |g.layout| == |g.blocks| && Distinct(g.layout) && (forall b: nat | b < |g.blocks| :: b in g.layout)
            && (forall b | 0 <= b < |g.blocks| :: ClosedBlock(g.blocks[b]) && TargetsIn(g.blocks[b], |g.blocks|))
            && g.loops == [] && |g.scopes| == 1
  {
    hide GenBlock, GenParams;
    var g0 := PushScope(EMPTY);
    var g1 := GenParams(g0, f.params, |f.params|).value;
    GenParamsExtends(g0, f.params, |f.params|);
    StraightShaped(g0, g1);
    var g2 := GenBlock(env, g1, f.body).value;
    BlockShaped(env, g1, f.body);
    GenBlockExtends(env, g1, f.body);
    FinishShaped(g2);
    AllListed(g2.layout, |g2.blocks|);
  }
}
