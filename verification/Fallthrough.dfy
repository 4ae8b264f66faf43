// Whether control can reach the end of the code just generated. A branch is left out after a
// statement exactly when the current block already ends in one; that is harmless because such
// a statement never completes normally.
module Fallthrough {
  import opened Wrappers
  import opened Source
  import opened Lowering
  import opened Growth
  import Ast

  ghost predicate Open(g: Gen)
    requires g.cur < |g.blocks|
  {
    !EndsInBranch(g) && !EndsInReturn(g)
  }

  lemma StaysOpen(g: Gen, h: Gen)
    requires ExtendsHere(g, h) && Open(g)
    ensures Open(h)
  {
    var a, b := g.blocks[g.cur], h.blocks[g.cur];
    if |a| == |b| {
      assert a == b;
    }
  }

  lemma {:induction false} BlockOpen(fs: Funcs, env: Env, g: Gen, items: seq<Ast.Item>, k: nat, st: State)
    requires g.cur < |g.blocks| && g.scopes != [] && GenBlock(env, g, items).Some?
    requires Open(g) && ExecBlock(fs, k, items, st).Normal?
    ensures Open(GenBlock(env, g, items).value)
    decreases items, 1
  {
    ItemsOpen(fs, env, PushScope(g), items, k, PushLayer(st));
  }

  lemma {:induction false} ItemsOpen(fs: Funcs, env: Env, g: Gen, items: seq<Ast.Item>, k: nat, st: State)
    requires g.cur < |g.blocks| && g.scopes != [] && GenItems(env, g, items).Some?
    requires Open(g) && ExecItems(fs, k, items, st).Normal?
    ensures Open(GenItems(env, g, items).value)
    decreases items, 0
  {
    if items == [] {
    } else {
      var g1 := GenItem(env, g, items[0]).value;
      GenItemExtends(env, g, items[0]);
      ItemOpen(fs, env, g, items[0], k, st);
      ItemsOpen(fs, env, g1, items[1..], k, ExecItem(fs, k, items[0], st).st);
    }
  }

  lemma {:induction false} ItemOpen(fs: Funcs, env: Env, g: Gen, item: Ast.Item, k: nat, st: State)
    requires g.cur < |g.blocks| && g.scopes != [] && GenItem(env, g, item).Some?
    requires Open(g) && ExecItem(fs, k, item, st).Normal?
    ensures Open(GenItem(env, g, item).value)
    decreases item, 0
  {
    match item
    case Decl(isConst, defs) =>
      GenDefsExtends(env, g, isConst, defs);
      StaysOpen(g, GenDefs(env, g, isConst, defs).value);
    case Do(s) => StmtOpen(fs, env, g, s, k, st);
  }

  lemma {:induction false} StmtOpen(fs: Funcs, env: Env, g: Gen, s: Ast.Stmt, k: nat, st: State)
    requires g.cur < |g.blocks| && g.scopes != [] && GenStmt(env, g, s).Some?
    requires Open(g) && ExecStmt(fs, k, s, st).Normal?
    ensures Open(GenStmt(env, g, s).value)
    decreases s, 1
  {
    match s
    case Return(_) =>
    case Assign(x, None, e) =>
      GenExprExtends(env, g, e);
      var (v, g1) := GenExpr(env, g, e).value;
      SetValueExtends(env, g1, x, v, None);
      StaysOpen(g, g1);
      StaysOpen(g1, SetValue(env, g1, x, v, None).value);
    case Assign(x, Some(i), e) =>
      GenExprExtends(env, g, e);
      var (v, g1) := GenExpr(env, g, e).value;
      GenExprExtends(env, g1, i);
      var (o, g2) := GenExpr(env, g1, i).value;
      SetValueExtends(env, g2, x, v, Some(o));
      StaysOpen(g, g1);
      StaysOpen(g1, g2);
      StaysOpen(g2, SetValue(env, g2, x, v, Some(o)).value);
    case Eval(None) =>
    case Eval(Some(e)) =>
      GenExprExtends(env, g, e);
      StaysOpen(g, GenExpr(env, g, e).value.1);
    case Block(items) => BlockOpen(fs, env, g, items, k, st);
    case If(_, _, _) => IfOpen(env, g, s);
    case While(_, _) => WhileOpen(env, g, s);
    case Continue =>
    case Break =>
  }

  // An `if` or a loop ends in a block created for what follows it, still empty.
  lemma {:induction false} IfOpen(env: Env, g: Gen, s: Ast.Stmt)
    requires g.cur < |g.blocks| && s.If? && GenIf(env, g, s).Some?
    ensures Open(GenIf(env, g, s).value)
  {
    GenExprExtends(env, g, s.cond);
    var (v, g1) := GenExpr(env, g, s.cond).value;
    var t := |g1.blocks|;
    var g2 := GenStmt(env, BeginThen(g1, v), s.thn).value;
    GenStmtExtends(env, BeginThen(g1, v), s.thn);
    assert BeginThen(g1, v).blocks[t + 2] == [];
    var g3 := BeginElse(g2, t);
    assert g3.blocks[t + 2] == [];
    GenElseExtends(env, g3, s.els);
    var g4 := GenElse(env, g3, s.els).value;
    assert g4.blocks[t + 2] == [];
  }

  lemma {:induction false} WhileOpen(env: Env, g: Gen, s: Ast.Stmt)
    requires g.cur < |g.blocks| && s.While? && GenWhile(env, g, s).Some?
    ensures Open(GenWhile(env, g, s).value)
  {
    var t := |g.blocks|;
    GenExprExtends(env, BeginLoop(g), s.cond);
    var (v, g1) := GenExpr(env, BeginLoop(g), s.cond).value;
    assert BeginLoop(g).blocks[t + 2] == [];
    var g2 := BeginBody(g1, v, t);
    assert g2.blocks[t + 2] == [];
    GenStmtExtends(env, g2, s.body);
    assert GenStmt(env, g2, s.body).value.blocks[t + 2] == [];
  }
}
