// Which programs the compiler accepts, read off the program text: a check of names, arities, jumps and
// constants that generates nothing, and the proof that generation succeeds exactly when it passes.
module Acceptance {
  import opened Wrappers
  import opened Int64
  import opened Scopes
  import opened Source
  import opened Target
  import opened Lowering
  import opened Growth
  import opened Compile
  import Progress
  import Ast

  // For every layer in scope, whether a name is a constant. Outside every function there is none.
  type Visible = seq<map<string, bool>>

  // ----- the check -----

  // The value of an expression built from literals, operators that have a result and `names`.
  function ConstOf(names: map<string, int>, e: Ast.Expr): Option<int> {
    match e
    case Num(n) => Some(Wrap(n))
    case Paren(i) => ConstOf(names, i)
    case Var(x) => if x in names then Some(names[x]) else None
    case Index(_, _) => None
    case Call(_, _) => None
    case Unary(op, a) =>
      var v :- ConstOf(names, a);
      Some(ApplyUnary(op, v))
    case Binary(op, l, r) =>
      var v :- ConstOf(names, l);
      var w :- ConstOf(names, r);
      Apply(op, v, w)
  }

  predicate Known(env: Env, vis: Visible, x: string) {
    (exists l | 0 <= l < |vis| :: x in vis[l]) || x in env.globals
  }

  // The declaration that a name refers to is not of a constant.
  predicate Writable(env: Env, vis: Visible, x: string) {
    match Find(vis, x)
    case None => x in env.globals
    case Some(l) => !vis[l][x]
  }

  predicate CheckExpr(env: Env, vis: Visible, e: Ast.Expr)
    decreases e, 1
  {
    match e
    case Num(_) => true
    case Paren(i) => CheckExpr(env, vis, i)
    case Var(x) => Known(env, vis, x)
    case Index(x, i) => vis != [] && Known(env, vis, x) && CheckExpr(env, vis, i)
    case Call(f, args) => vis != [] && f in env.funcs && env.funcs[f] == |args| && CheckAll(env, vis, args)
    case Unary(_, a) => CheckExpr(env, vis, a)
    case Binary(_, l, r) => CheckExpr(env, vis, l) && CheckExpr(env, vis, r)
  }

  predicate CheckAll(env: Env, vis: Visible, es: seq<Ast.Expr>)
    decreases es, 0
  {
    es != [] ==> CheckExpr(env, vis, es[0]) && CheckAll(env, vis, es[1..])
  }

  // Of the initialisers of n cells the first n are looked at.
  predicate CheckInit(env: Env, vis: Visible, init: Option<Ast.Init>, n: nat) {
    init.Some? && init.value.List? ==>
      CheckAll(env, vis, if |init.value.es| <= n then init.value.es else init.value.es[..n])
  }

  predicate CheckSize(size: Option<Ast.Expr>) {
    size.Some? ==> ConstOf(map[], size.value).Some? && ConstOf(map[], size.value).value > 0
  }

  function SizeOf(size: Option<Ast.Expr>): nat
    requires CheckSize(size)
  {
    if size.None? then 1 else ConstOf(map[], size.value).value
  }

  // What is in scope after a definition, whose name must be new in its own block only.
  function CheckDef(env: Env, vis: Visible, isConst: bool, def: Ast.Def): (r: Option<Visible>)
    requires vis != []
    ensures r.Some? ==> |r.value| == |vis|
  {
    var top := |vis| - 1;
    if CheckSize(def.size) && CheckInit(env, vis, def.init, SizeOf(def.size)) && def.name !in vis[top]
    then Some(vis[top := vis[top][def.name := isConst]])
    else None
  }

  function CheckDefs(env: Env, vis: Visible, isConst: bool, defs: seq<Ast.Def>): (r: Option<Visible>)
    requires vis != []
    ensures r.Some? ==> |r.value| == |vis|
    decreases defs
  {
    if defs == [] then Some(vis)
    else
      var vis1 :- CheckDef(env, vis, isConst, defs[0]);
      CheckDefs(env, vis1, isConst, defs[1..])
  }

  predicate CheckStmt(env: Env, vis: Visible, inLoop: bool, s: Ast.Stmt)
    requires vis != []
    decreases s, 0
  {
    match s
    case Return(e) => e.Some? ==> CheckExpr(env, vis, e.value)
    case Assign(x, idx, e) =>
      Writable(env, vis, x) && CheckExpr(env, vis, e) && (idx.Some? ==> CheckExpr(env, vis, idx.value))
    case Eval(e) => e.Some? ==> CheckExpr(env, vis, e.value)
    case Block(items) => CheckItems(env, vis + [map[]], inLoop, items)
    case If(c, thn, els) =>
      && CheckExpr(env, vis, c) && CheckStmt(env, vis, inLoop, thn)
      && (els.Some? ==> CheckStmt(env, vis, inLoop, els.value))
    case While(c, body) => CheckExpr(env, vis, c) && CheckStmt(env, vis, true, body)
    case Continue => inLoop
    case Break => inLoop
  }

  predicate CheckItems(env: Env, vis: Visible, inLoop: bool, items: seq<Ast.Item>)
    requires vis != []
    decreases items, 0
  {
    items != [] ==>
      && CheckItem(env, vis, inLoop, items[0]).Some?
      && CheckItems(env, CheckItem(env, vis, inLoop, items[0]).value, inLoop, items[1..])
  }

  function CheckItem(env: Env, vis: Visible, inLoop: bool, item: Ast.Item): (r: Option<Visible>)
    requires vis != []
    ensures r.Some? ==> |r.value| == |vis|
    decreases item, 0
  {
    match item
    case Decl(isConst, defs) => CheckDefs(env, vis, isConst, defs)
    case Do(s) => if CheckStmt(env, vis, inLoop, s) then Some(vis) else None
  }

  predicate Distinct(params: seq<Ast.Param>) {
    forall i, j | 0 <= i < j < |params| :: params[i].name != params[j].name
  }

  function ParamLayer(params: seq<Ast.Param>): map<string, bool> {
    map p | p in params :: p.name := false
  }

  // A function may call itself and what was defined before it.
  predicate CheckFunc(env: Env, f: Ast.Func) {
    && f.name !in env.funcs && f.name !in env.globals
    && Distinct(f.params)
    && CheckItems(env.(funcs := env.funcs[f.name := |f.params|]), [ParamLayer(f.params), map[]], false, f.body)
  }

  // The value a global scalar starts with.
  function GlobalValue(globals: map<string, int>, init: Option<Ast.Init>): Option<int> {
    match init
    case None => Some(0)
    case Some(Text(codes)) => Some(if codes == [] then 0 else Wrap(codes[0]))
    case Some(List(_, es)) => if es == [] then Some(0) else ConstOf(globals, es[0])
  }

  function CheckGlobal(env: Env, def: Ast.Def): Option<Env> {
    if def.size.Some? || def.name in env.globals || def.name in env.funcs then None
    else
      var v :- GlobalValue(env.globals, def.init);
      Some(env.(globals := env.globals[def.name := v]))
  }

  function CheckGlobals(env: Env, defs: seq<Ast.Def>): Option<Env>
    decreases defs
  {
    if defs == [] then Some(env)
    else
      var env1 :- CheckGlobal(env, defs[0]);
      CheckGlobals(env1, defs[1..])
  }

  function CheckTop(env: Env, top: Ast.Top): Option<Env> {
    match top
    case Globals(_, defs) => CheckGlobals(env, defs)
    case Function(f) => if CheckFunc(env, f) then Some(env.(funcs := env.funcs[f.name := |f.params|])) else None
  }

  // The functions and globals of a program that passes.
  function CheckProgram(p: Ast.Program): Option<Env> {
    if p == [] then Some(Env(map[], map[]))
    else
      var env :- CheckProgram(p[..|p| - 1]);
      CheckTop(env, p[|p| - 1])
  }

  // ----- the scopes of the generator, seen as the check sees them -----

  function Consts(layer: map<string, VarInfo>): map<string, bool> {
    map x | x in layer :: layer[x].isConst
  }

  function See(scopes: Layers): (vis: Visible)
    ensures |vis| == |scopes|
  {
    seq(|scopes|, l requires 0 <= l < |scopes| => Consts(scopes[l]))
  }

  lemma SeeFind(scopes: Layers, x: string)
    ensures Find(See(scopes), x) == Find(scopes, x)
    ensures Find(scopes, x).Some? <==> exists l | 0 <= l < |scopes| :: x in See(scopes)[l]
    ensures var l := Find(scopes, x); l.Some? ==> See(scopes)[l.value][x] == scopes[l.value][x].isConst
  {
    forall l | 0 <= l < |scopes|
      ensures See(scopes)[l].Keys == scopes[l].Keys
    {
    }
    FindSameNames(See(scopes), scopes, x);
  }

  // ----- expressions -----

  // What names stand for when an expression is folded: outside every function a global is its value.
  function Folding(env: Env, scopes: Layers): map<string, int> {
    if scopes == [] then env.globals else map[]
  }

  // The operand of an expression is a constant exactly when the expression has a constant value.
  ghost predicate Folds(env: Env, scopes: Layers, e: Ast.Expr, o: Operand) {
    if ConstOf(Folding(env, scopes), e).Some? then o == CInt(ConstOf(Folding(env, scopes), e).value) else !o.CInt?
  }

  lemma GetValueChecks(env: Env, g: Gen, x: string, idx: Option<Operand>)
    requires g.cur < |g.blocks|
    ensures GetValue(env, g, x, idx).Some? <==> Known(env, See(g.scopes), x) && (idx.Some? ==> g.scopes != [])
    ensures GetValue(env, g, x, None).Some? ==> Folds(env, g.scopes, Ast.Var(x), GetValue(env, g, x, None).value.0)
    ensures idx.Some? && GetValue(env, g, x, idx).Some? ==> !GetValue(env, g, x, idx).value.0.CInt?
  {
    SeeFind(g.scopes, x);
  }

  lemma UnaryFolds(g: Gen, op: Ast.UnOp, v: Operand)
    requires g.cur < |g.blocks|
    ensures var o := GenUnary(g, op, v).0; if v.CInt? then o == CInt(ApplyUnary(op, v.i)) else !o.CInt?
  {
  }

  lemma LogicFolds(g1: Gen, g3: Gen, op: Ast.BinOp, i: int, j: int)
    requires g1.cur < |g1.blocks| && g3.cur < |g3.blocks| && (op.Or? || op.And?)
    ensures GenBinary(g3, op, GenLeft(g1, op, CInt(i)).0, CInt(j)).0 == CInt(Apply(op, i, j).value)
  {
    assert GenLeft(g1, op, CInt(i)).0 == CBool(0 != i);
    assert IntToBoolean(g3, CInt(j)) == (CBool(0 != j), g3);
  }

  lemma ArithFolds(g1: Gen, g3: Gen, op: Ast.BinOp, i: int, j: int)
    requires g1.cur < |g1.blocks| && g3.cur < |g3.blocks| && !op.Or? && !op.And? && Apply(op, i, j).Some?
    ensures GenBinary(g3, op, GenLeft(g1, op, CInt(i)).0, CInt(j)).0 == CInt(Apply(op, i, j).value)
  {
  }

  lemma BinaryFolds(g1: Gen, g3: Gen, op: Ast.BinOp, a: Operand, b: Operand)
    requires g1.cur < |g1.blocks| && g3.cur < |g3.blocks|
    ensures var o := GenBinary(g3, op, GenLeft(g1, op, a).0, b).0;
      if a.CInt? && b.CInt? && Apply(op, a.i, b.i).Some? then o == CInt(Apply(op, a.i, b.i).value) else !o.CInt?
  {
    hide GenBinary, GenLeft, Apply;
    if GenBinary(g3, op, GenLeft(g1, op, a).0, b).0.CInt? {
      FoldOperator(g1, g3, op, a, b);
    }
    if a.CInt? && b.CInt? && Apply(op, a.i, b.i).Some? {
      if op.Or? || op.And? {
        LogicFolds(g1, g3, op, a.i, b.i);
      } else {
        ArithFolds(g1, g3, op, a.i, b.i);
      }
    }
  }

  // What the check owes to the generation of an expression.
  ghost predicate ExprChecks(env: Env, g: Gen, e: Ast.Expr)
    requires g.cur < |g.blocks|
  {
    && (GenExpr(env, g, e).Some? <==> CheckExpr(env, See(g.scopes), e))
    && (GenExpr(env, g, e).Some? ==> Folds(env, g.scopes, e, GenExpr(env, g, e).value.0))
  }

  lemma {:induction false} ChecksExpr(env: Env, g: Gen, e: Ast.Expr)
    requires g.cur < |g.blocks|
    ensures ExprChecks(env, g, e)
    decreases e, 1
  {
    hide See, GetValue, GenUnary, Known, Apply, ApplyUnary;
    match e
    case Num(_) =>
    case Paren(i) => ChecksExpr(env, g, i);
    case Var(x) => GetValueChecks(env, g, x, None);
    case Index(x, i) =>
      ChecksExpr(env, g, i);
      if GenExpr(env, g, i).Some? {
        GenExprExtends(env, g, i);
        var (o, g1) := GenExpr(env, g, i).value;
        GetValueChecks(env, g1, x, Some(o));
      }
    case Call(f, args) => ChecksArgs(env, g, args);
    case Unary(op, a) =>
      ChecksExpr(env, g, a);
      if GenExpr(env, g, a).Some? {
        var (o, g1) := GenExpr(env, g, a).value;
        UnaryFolds(g1, op, o);
      }
    case Binary(_, _, _) => ChecksBinary(env, g, e);
  }

  lemma {:induction false} ChecksBinary(env: Env, g: Gen, e: Ast.Expr)
    requires g.cur < |g.blocks| && e.Binary?
    ensures ExprChecks(env, g, e)
    decreases e, 0
  {
    hide See, GetValue, GenBinary, GenLeft, Known, Apply, ApplyUnary;
    var op := e.bop;
    ChecksExpr(env, g, e.l);
    if GenExpr(env, g, e.l).Some? {
      GenExprExtends(env, g, e.l);
      var (a, g1) := GenExpr(env, g, e.l).value;
      GenLeftExtends(g1, op, a);
      var (a', g2) := GenLeft(g1, op, a);
      ChecksExpr(env, g2, e.r);
      if GenExpr(env, g2, e.r).Some? {
        var (b, g3) := GenExpr(env, g2, e.r).value;
        BinaryFolds(g1, g3, op, a, b);
      }
    }
  }

  lemma {:induction false} ChecksArgs(env: Env, g: Gen, es: seq<Ast.Expr>)
    requires g.cur < |g.blocks|
    ensures GenArgs(env, g, es).Some? <==> CheckAll(env, See(g.scopes), es)
    decreases es, 0
  {
    hide See, GenExpr, CheckExpr;
    if es == [] {
    } else {
      ChecksExpr(env, g, es[0]);
      if GenExpr(env, g, es[0]).Some? {
        GenExprExtends(env, g, es[0]);
        ChecksArgs(env, GenExpr(env, g, es[0]).value.1, es[1..]);
      }
    }
  }

  // A constant expression needs no name but those it is folded with.
  lemma {:induction false} ConstChecks(env: Env, vis: Visible, names: map<string, int>, e: Ast.Expr)
    requires ConstOf(names, e).Some? && names.Keys <= env.globals.Keys
    ensures CheckExpr(env, vis, e)
    decreases e
  {
    match e
    case Num(_) =>
    case Paren(i) => ConstChecks(env, vis, names, i);
    case Var(x) => assert x in names.Keys;
    case Unary(_, a) => ConstChecks(env, vis, names, a);
    case Binary(_, l, r) =>
      ConstChecks(env, vis, names, l);
      ConstChecks(env, vis, names, r);
  }

  // ----- declarations -----

  lemma ChecksInit(env: Env, g: Gen, init: Option<Ast.Init>, n: nat)
    requires g.cur < |g.blocks|
    ensures GenInit(env, g, init, n).Some? <==> CheckInit(env, See(g.scopes), init, n)
  {
    hide See, GenArgs, CheckAll;
    if init.Some? && init.value.List? {
      ChecksArgs(env, g, Ast.Prefix(init.value.es, n));
    }
  }

  lemma ChecksDefine(g: Gen, x: string, isConst: bool, kind: Kind, vals: seq<Operand>)
    requires g.cur < |g.blocks| && |vals| == Cells(kind) && g.scopes != []
    ensures var vis, top := See(g.scopes), |g.scopes| - 1;
      && (Define(g, x, isConst, kind, vals).Some? <==> x !in vis[top])
      && (Define(g, x, isConst, kind, vals).Some? ==>
            See(Define(g, x, isConst, kind, vals).value.scopes) == vis[top := vis[top][x := isConst]])
  {
    hide StoreCells;
    var top := |g.scopes| - 1;
    var g1 := Alloca(g, kind);
    if kind.KArray? {
      StoreCellsExtends(g1, |g.slots|, vals, 0);
    }
    var info := VarInfo(isConst, |g.slots|, kind);
    assert Consts(g.scopes[top][x := info]) == Consts(g.scopes[top])[x := isConst];
    assert See(g.scopes[top := g.scopes[top][x := info]]) == See(g.scopes)[top := Consts(g.scopes[top])[x := isConst]];
  }

  ghost predicate DefChecks(r: Option<Gen>, check: Option<Visible>) {
    (r.Some? <==> check.Some?) && (r.Some? ==> See(r.value.scopes) == check.value)
  }

  lemma ChecksDef(env: Env, g: Gen, isConst: bool, def: Ast.Def)
    requires g.cur < |g.blocks| && g.scopes != []
    ensures DefChecks(GenDef(env, g, isConst, def), CheckDef(env, See(g.scopes), isConst, def))
  {
    hide See, GenExpr, GenInit, Define, CheckExpr, CheckInit;
    var vis := See(g.scopes);
    match def.size
    case None =>
      ChecksInit(env, g, def.init, 1);
      if GenInit(env, g, def.init, 1).Some? {
        GenInitExtends(env, g, def.init, 1);
        var (vals, g1) := GenInit(env, g, def.init, 1).value;
        ChecksDefine(g1, def.name, isConst, KScalar, vals);
      }
    case Some(e) =>
      ChecksExpr(env, g, e);
      if ConstOf(map[], e).Some? {
        ConstChecks(env, vis, map[], e);
      }
      if GenExpr(env, g, e).Some? && CheckSize(def.size) {
        GenExprExtends(env, g, e);
        var (o, g1) := GenExpr(env, g, e).value;
        ChecksInit(env, g1, def.init, o.i);
        if GenInit(env, g1, def.init, o.i).Some? {
          GenInitExtends(env, g1, def.init, o.i);
          var (vals, g2) := GenInit(env, g1, def.init, o.i).value;
          ChecksDefine(g2, def.name, isConst, KArray(o.i), vals);
        }
      }
  }

  lemma {:induction false} ChecksDefs(env: Env, g: Gen, isConst: bool, defs: seq<Ast.Def>)
    requires g.cur < |g.blocks| && g.scopes != []
    ensures DefChecks(GenDefs(env, g, isConst, defs), CheckDefs(env, See(g.scopes), isConst, defs))
    decreases defs
  {
    hide See, GenDef, CheckDef;
    if defs == [] {
    } else {
      ChecksDef(env, g, isConst, defs[0]);
      if GenDef(env, g, isConst, defs[0]).Some? {
        GenDefExtends(env, g, isConst, defs[0]);
        ChecksDefs(env, GenDef(env, g, isConst, defs[0]).value, isConst, defs[1..]);
      }
    }
  }

  // ----- statements -----

  lemma ChecksTarget(env: Env, g: Gen, x: string, v: Operand, idx: Option<Operand>)
    requires g.cur < |g.blocks|
    ensures SetValue(env, g, x, v, idx).Some? <==> Writable(env, See(g.scopes), x)
  {
    SeeFind(g.scopes, x);
  }

  lemma {:induction false} ChecksStmt(env: Env, g: Gen, s: Ast.Stmt)
    requires g.cur < |g.blocks| && g.scopes != []
    ensures GenStmt(env, g, s).Some? <==> CheckStmt(env, See(g.scopes), g.loops != [], s)
    decreases s, 2
  {
    hide See, GenExpr, GenItems, CheckExpr, CheckItems, SetValue, Writable;
    match s
    case Return(e) =>
      if e.Some? {
        ChecksExpr(env, g, e.value);
      }
    case Assign(_, _, _) => ChecksAssign(env, g, s);
    case Eval(e) =>
      if e.Some? {
        ChecksExpr(env, g, e.value);
      }
    case Block(items) =>
      SeePush(g.scopes);
      ChecksItems(env, PushScope(g), items);
    case If(_, _, _) => ChecksIf(env, g, s);
    case While(_, _) => ChecksWhile(env, g, s);
    case Continue =>
    case Break =>
  }

  lemma SeePush(scopes: Layers)
    ensures See(scopes + [map[]]) == See(scopes) + [map[]]
  {
    assert Consts(map[]) == map[];
  }

  lemma ChecksAssign(env: Env, g: Gen, s: Ast.Stmt)
    requires g.cur < |g.blocks| && g.scopes != [] && s.Assign?
    ensures GenStmt(env, g, s).Some? <==> CheckStmt(env, See(g.scopes), g.loops != [], s)
  {
    hide See, GenExpr, CheckExpr, SetValue, Writable;
    ChecksExpr(env, g, s.rhs);
    if GenExpr(env, g, s.rhs).Some? {
      GenExprExtends(env, g, s.rhs);
      var (v, g1) := GenExpr(env, g, s.rhs).value;
      match s.idx
      case None => ChecksTarget(env, g1, s.name, v, None);
      case Some(i) =>
        ChecksExpr(env, g1, i);
        if GenExpr(env, g1, i).Some? {
          GenExprExtends(env, g1, i);
          var (o, g2) := GenExpr(env, g1, i).value;
          ChecksTarget(env, g2, s.name, v, Some(o));
        }
    }
  }

  lemma {:induction false} ChecksIf(env: Env, g: Gen, s: Ast.Stmt)
    requires g.cur < |g.blocks| && g.scopes != [] && s.If?
    ensures GenIf(env, g, s).Some? <==> CheckStmt(env, See(g.scopes), g.loops != [], s)
    decreases s, 0
  {
    hide See, GenExpr, GenStmt, CheckExpr, BeginThen, BeginElse, Extends;
    ChecksExpr(env, g, s.cond);
    if GenExpr(env, g, s.cond).Some? {
      GenExprExtends(env, g, s.cond);
      var (v, g1) := GenExpr(env, g, s.cond).value;
      var g2 := BeginThen(g1, v);
      BeginThenKeeps(g, g1, v);
      ChecksStmt(env, g2, s.thn);
      if GenStmt(env, g2, s.thn).Some? {
        var g3 := GenStmt(env, g2, s.thn).value;
        GenStmtExtends(env, g2, s.thn);
        BeginElseKeeps(g2, g3, |g1.blocks|);
        if s.els.Some? {
          ChecksStmt(env, BeginElse(g3, |g1.blocks|), s.els.value);
        }
      }
    }
  }

  lemma BeginThenKeeps(g: Gen, g1: Gen, v: Operand)
    requires g.cur < |g.blocks| && ExtendsPlain(g, g1)
    ensures BeginThen(g1, v).scopes == g.scopes && BeginThen(g1, v).loops == g.loops
  {
    BeginThenExtends(g1, v);
  }

  lemma BeginElseKeeps(g: Gen, g1: Gen, t: nat)
    requires Extends(g, g1) && g1.scopes == g.scopes
    ensures BeginElse(g1, t).scopes == g.scopes && BeginElse(g1, t).loops == g.loops
  {
    SealExtends(g1, t + 2);
  }

  lemma {:induction false} ChecksWhile(env: Env, g: Gen, s: Ast.Stmt)
    requires g.cur < |g.blocks| && g.scopes != [] && s.While?
    ensures GenWhile(env, g, s).Some? <==> CheckStmt(env, See(g.scopes), g.loops != [], s)
    decreases s, 0
  {
    hide See, GenExpr, GenStmt, CheckExpr, Extends;
    var g1 := BeginLoop(g);
    assert g1.scopes == g.scopes;
    ChecksExpr(env, g1, s.cond);
    if GenExpr(env, g1, s.cond).Some? {
      GenExprExtends(env, g1, s.cond);
      var (v, g2) := GenExpr(env, g1, s.cond).value;
      BeginBodyKeeps(g, g2, v);
      ChecksStmt(env, BeginBody(g2, v, |g.blocks|), s.body);
    }
  }

  lemma BeginBodyKeeps(g: Gen, g2: Gen, v: Operand)
    requires g.cur < |g.blocks| && ExtendsPlain(BeginLoop(g), g2)
    ensures BeginBody(g2, v, |g.blocks|).scopes == g.scopes
    ensures BeginBody(g2, v, |g.blocks|).loops != []
  {
    ComputeExtends(g2, ICmp(CNe, CInt(0), v));
  }

  lemma {:induction false} ChecksItems(env: Env, g: Gen, items: seq<Ast.Item>)
    requires g.cur < |g.blocks| && g.scopes != []
    ensures GenItems(env, g, items).Some? <==> CheckItems(env, See(g.scopes), g.loops != [], items)
    decreases items, 0
  {
    hide See, GenItem, CheckItem, Extends;
    if items == [] {
    } else {
      ChecksItem(env, g, items[0]);
      if GenItem(env, g, items[0]).Some? {
        var g1 := GenItem(env, g, items[0]).value;
        ItemKeepsLoops(env, g, items[0]);
        ChecksItems(env, g1, items[1..]);
      }
    }
  }

  lemma ItemKeepsLoops(env: Env, g: Gen, item: Ast.Item)
    requires g.cur < |g.blocks| && g.scopes != [] && GenItem(env, g, item).Some?
    ensures GenItem(env, g, item).value.loops == g.loops && GenItem(env, g, item).value.scopes != []
  {
    hide GenItem;
    GenItemExtends(env, g, item);
  }

  lemma {:induction false} ChecksItem(env: Env, g: Gen, item: Ast.Item)
    requires g.cur < |g.blocks| && g.scopes != []
    ensures DefChecks(GenItem(env, g, item), CheckItem(env, See(g.scopes), g.loops != [], item))
    decreases item, 0
  {
    hide See, GenDefs, CheckDefs, GenStmt, CheckStmt;
    match item
    case Decl(isConst, defs) => ChecksDefs(env, g, isConst, defs);
    case Do(s) =>
      ChecksStmt(env, g, s);
      if GenStmt(env, g, s).Some? {
        GenStmtExtends(env, g, s);
      }
  }

  // ----- functions and programs -----

  lemma {:induction false} ChecksParams(params: seq<Ast.Param>, n: nat)
    requires n <= |params|
    ensures var g := GenParams(PushScope(EMPTY), params, n);
      && (g.Some? <==> Distinct(params[..n]))
      && (g.Some? ==> See(g.value.scopes) == [ParamLayer(params[..n])] && g.value.loops == [])
    decreases n
  {
    hide Define, See, ParamLayer;
    if n == 0 {
      SeePush([]);
      assert EMPTY.scopes == [] && See([]) == [];
      assert params[..0] == [];
      NoParams();
    } else {
      ChecksParams(params, n - 1);
      var q, p := params[..n - 1], params[n - 1];
      assert params[..n] == q + [p];
      var g1 := GenParams(PushScope(EMPTY), params, n - 1);
      if g1.Some? {
        ChecksDefine(g1.value, p.name, false, ParamKind(p), [Arg(n - 1)]);
        ParamNew(q, p);
        if GenParams(PushScope(EMPTY), params, n).Some? {
          DefineExtends(g1.value, p.name, false, ParamKind(p), [Arg(n - 1)]);
        }
      } else {
        assert forall i, j | 0 <= i < j < n - 1 :: params[..n][i] == q[i] && params[..n][j] == q[j];
      }
    }
  }

  lemma NoParams()
    ensures ParamLayer([]) == map[]
  {
  }

  lemma ParamNew(q: seq<Ast.Param>, p: Ast.Param)
    requires Distinct(q)
    ensures Distinct(q + [p]) <==> p.name !in ParamLayer(q)
    ensures ParamLayer(q + [p]) == ParamLayer(q)[p.name := false]
  {
    var all := q + [p];
    if p.name in ParamLayer(q) {
      var r :| r in q && r.name == p.name;
      var i :| 0 <= i < |q| && q[i] == r;
      assert all[i].name == all[|q|].name;
    } else {
      forall i, j | 0 <= i < j < |all|
        ensures all[i].name != all[j].name
      {
        assert all[i] == q[i] && q[i] in q;
        assert j < |q| ==> all[j] == q[j];
      }
    }
  }

  lemma ChecksBody(env: Env, f: Ast.Func)
    ensures GenBody(env, f).Some? <==>
      Distinct(f.params) && CheckItems(env, [ParamLayer(f.params), map[]], false, f.body)
  {
    hide See, GenItems, CheckItems, GenParams, Distinct, ParamLayer;
    ChecksParams(f.params, |f.params|);
    assert f.params[..|f.params|] == f.params;
    var g := GenParams(PushScope(EMPTY), f.params, |f.params|);
    if g.Some? {
      SeePush(g.value.scopes);
      assert [ParamLayer(f.params)] + [map[]] == [ParamLayer(f.params), map[]];
      ChecksItems(env, PushScope(g.value), f.body);
    }
  }

  lemma ChecksGlobal(u: Unit, def: Ast.Def)
    ensures (GenGlobal(u, def).Some? <==> CheckGlobal(EnvOf(u), def).Some?)
      && (GenGlobal(u, def).Some? ==> EnvOf(GenGlobal(u, def).value) == CheckGlobal(EnvOf(u), def).value)
  {
    hide GenExpr, CheckExpr, ConstOf;
    var env := EnvOf(u);
    assert See([]) == [];
    match def.init
    case None =>
    case Some(Text(codes)) =>
    case Some(List(_, es)) =>
      if es != [] {
        var used := Ast.Prefix(es, 1);
        assert used == [es[0]];
        ChecksExpr(env, EMPTY, es[0]);
        if ConstOf(env.globals, es[0]).Some? {
          ConstChecks(env, [], env.globals, es[0]);
        }
        OneArgument(env, es[0]);
      }
  }

  lemma OneArgument(env: Env, e: Ast.Expr)
    ensures GenArgs(env, EMPTY, [e]).Some? <==> GenExpr(env, EMPTY, e).Some?
    ensures GenArgs(env, EMPTY, [e]).Some? ==>
      GenArgs(env, EMPTY, [e]).value.0[0] == GenExpr(env, EMPTY, e).value.0
  {
    hide GenExpr;
    if GenExpr(env, EMPTY, e).Some? {
      assert GenArgs(env, GenExpr(env, EMPTY, e).value.1, [e][1..]).Some?;
    }
  }

  lemma {:induction false} ChecksGlobals(u: Unit, defs: seq<Ast.Def>)
    ensures (GenGlobals(u, defs).Some? <==> CheckGlobals(EnvOf(u), defs).Some?)
      && (GenGlobals(u, defs).Some? ==> EnvOf(GenGlobals(u, defs).value) == CheckGlobals(EnvOf(u), defs).value)
    decreases defs
  {
    hide GenGlobal, CheckGlobal, EnvOf;
    if defs == [] {
    } else {
      ChecksGlobal(u, defs[0]);
      if GenGlobal(u, defs[0]).Some? {
        ChecksGlobals(GenGlobal(u, defs[0]).value, defs[1..]);
      }
    }
  }

  // The compiler accepts exactly the programs that pass, and knows the functions and globals the check finds.
  lemma {:induction false} ChecksProgram(p: Ast.Program)
    ensures GenProgram(p).Some? <==> CheckProgram(p).Some?
    ensures GenProgram(p).Some? ==> EnvOf(GenProgram(p).value) == CheckProgram(p).value
    decreases |p|
  {
    hide GenBody, GenGlobals, CheckGlobals, CheckItems;
    if p == [] {
    } else {
      ChecksProgram(p[..|p| - 1]);
      if GenProgram(p[..|p| - 1]).Some? {
        var u := GenProgram(p[..|p| - 1]).value;
        match p[|p| - 1]
        case Globals(_, defs) => ChecksGlobals(u, defs);
        case Function(f) => ChecksBody(EnvOf(u).(funcs := EnvOf(u).funcs[f.name := |f.params|]), f);
      }
    }
  }

  // To be run it also needs a `main` without parameters.
  lemma AcceptsExactly(p: Ast.Program)
    ensures Accepted(p) <==>
      CheckProgram(p).Some? && "main" in CheckProgram(p).value.funcs && CheckProgram(p).value.funcs["main"] == 0
  {
    hide GenBody, CheckProgram, GenProgram;
    ChecksProgram(p);
    if GenProgram(p).Some? {
      ProgramWorld(p);
      var w := WorldOf(p);
      if "main" in w.fs {
        assert Progress.FuncOk(w, "main");
      }
    }
  }
}
