// More fuel changes nothing about a run that was seen to end.
module Fuel {
  import opened Wrappers
  import opened Source
  import Ast

  // What is known at less fuel is known at more.
  predicate Settled<T(==)>(r: Result<T>, s: Result<T>) {
    r.OutOfFuel? || s == r
  }

  predicate Ended(o: Outcome, p: Outcome) {
    o.Stopped? || p == o
  }

  lemma {:induction false} EvalMore(fs: Funcs, k: nat, l: nat, e: Ast.Expr, st: State)
    requires k <= l
    ensures Settled(EvalExpr(fs, k, e, st), EvalExpr(fs, l, e, st))
    decreases k, e, 1
  {
    hide Invoke, ReadVar, ReadElem, CombineUnary, Combine;
    match e {
      case Num(_) =>
      case Paren(i) => EvalMore(fs, k, l, i, st);
      case Var(_) =>
      case Index(_, i) => EvalMore(fs, k, l, i, st);
      case Call(f, args) =>
        if f in fs && |fs[f].params| == |args| {
          ArgsMore(fs, k, l, args, st);
          var vs := EvalArgs(fs, k, args, st);
          if vs.Ok? && k != 0 {
            InvokeMore(fs, k - 1, l - 1, fs[f], vs.v, vs.st);
          }
        }
      case Unary(_, a) => EvalMore(fs, k, l, a, st);
      case Binary(op, a, b) =>
        EvalMore(fs, k, l, a, st);
        var v := EvalExpr(fs, k, a, st);
        if v.Ok? {
          RestMore(fs, k, l, op, v.v, b, v.st);
        }
    }
  }

  lemma {:induction false} RestMore(fs: Funcs, k: nat, l: nat, op: Ast.BinOp, a: Val, e: Ast.Expr, st: State)
    requires k <= l
    ensures Settled(EvalRest(fs, k, op, a, e, st), EvalRest(fs, l, op, a, e, st))
    decreases k, e, 2
  {
    hide Combine;
    EvalMore(fs, k, l, e, st);
  }

  lemma {:induction false} ArgsMore(fs: Funcs, k: nat, l: nat, es: seq<Ast.Expr>, st: State)
    requires k <= l
    ensures Settled(EvalArgs(fs, k, es, st), EvalArgs(fs, l, es, st))
    decreases k, es, 0
  {
    if es == [] {
    } else {
      EvalMore(fs, k, l, es[0], st);
      var v := EvalExpr(fs, k, es[0], st);
      if v.Ok? {
        ArgsMore(fs, k, l, es[1..], v.st);
      }
    }
  }

  lemma {:induction false} InvokeMore(fs: Funcs, k: nat, l: nat, f: Ast.Func, vs: seq<Val>, st: State)
    requires k <= l && |f.params| == |vs|
    ensures Settled(Invoke(fs, k, f, vs, st), Invoke(fs, l, f, vs, st))
    decreases k, f.body, 3
  {
    hide BindParams, ExecBlock;
    var b := BindParams(f.params, vs);
    if b.Bound? {
      BlockMore(fs, k, l, f.body, st.(frames := st.frames + [[b.layer]]));
    }
  }

  lemma {:induction false} InitMore(fs: Funcs, k: nat, l: nat, init: Option<Ast.Init>, n: nat, st: State)
    requires k <= l
    ensures Settled(EvalInit(fs, k, init, n, st), EvalInit(fs, l, init, n, st))
    decreases k, init, 0
  {
    hide Ints, Zeros, Wraps;
    if init.Some? && init.value.List? {
      ArgsMore(fs, k, l, Ast.Prefix(init.value.es, n), st);
    }
  }

  lemma {:induction false} DefMore(fs: Funcs, k: nat, l: nat, isConst: bool, def: Ast.Def, st: State)
    requires k <= l
    ensures Ended(ExecDef(fs, k, isConst, def, st), ExecDef(fs, l, isConst, def, st))
    decreases k, def, 0
  {
    hide Declare, EvalInit, EvalExpr;
    match def.size
    case None => InitMore(fs, k, l, def.init, 1, st);
    case Some(e) =>
      EvalMore(fs, k, l, e, st);
      var n := EvalExpr(fs, k, e, st);
      if n.Ok? && n.v.VInt? && n.v.i > 0 {
        InitMore(fs, k, l, def.init, n.v.i, n.st);
      }
  }

  lemma {:induction false} DefsMore(fs: Funcs, k: nat, l: nat, isConst: bool, defs: seq<Ast.Def>, st: State)
    requires k <= l
    ensures Ended(ExecDefs(fs, k, isConst, defs, st), ExecDefs(fs, l, isConst, defs, st))
    decreases k, defs, 0
  {
    hide ExecDef;
    if defs == [] {
    } else {
      DefMore(fs, k, l, isConst, defs[0], st);
      var o := ExecDef(fs, k, isConst, defs[0], st);
      if o.Normal? {
        DefsMore(fs, k, l, isConst, defs[1..], o.st);
      }
    }
  }

  lemma {:induction false} BlockMore(fs: Funcs, k: nat, l: nat, items: seq<Ast.Item>, st: State)
    requires k <= l
    ensures Ended(ExecBlock(fs, k, items, st), ExecBlock(fs, l, items, st))
    decreases k, items, 1
  {
    hide ExecItems;
    if st.frames != [] {
      ItemsMore(fs, k, l, items, PushLayer(st));
    }
  }

  lemma {:induction false} ItemsMore(fs: Funcs, k: nat, l: nat, items: seq<Ast.Item>, st: State)
    requires k <= l
    ensures Ended(ExecItems(fs, k, items, st), ExecItems(fs, l, items, st))
    decreases k, items, 0
  {
    hide ExecItem;
    if items == [] {
    } else {
      ItemMore(fs, k, l, items[0], st);
      var o := ExecItem(fs, k, items[0], st);
      if o.Normal? {
        ItemsMore(fs, k, l, items[1..], o.st);
      }
    }
  }

  lemma {:induction false} ItemMore(fs: Funcs, k: nat, l: nat, item: Ast.Item, st: State)
    requires k <= l
    ensures Ended(ExecItem(fs, k, item, st), ExecItem(fs, l, item, st))
    decreases k, item, 0
  {
    hide ExecDefs, ExecStmt;
    match item
    case Decl(isConst, defs) => DefsMore(fs, k, l, isConst, defs, st);
    case Do(s) => StmtMore(fs, k, l, s, st);
  }

  lemma {:induction false} StmtMore(fs: Funcs, k: nat, l: nat, s: Ast.Stmt, st: State)
    requires k <= l
    ensures Ended(ExecStmt(fs, k, s, st), ExecStmt(fs, l, s, st))
    decreases k, s, 2
  {
    hide ExecIf, ExecWhile, ExecBlock, WriteVar, WriteElem, EvalExpr;
    match s {
      case Return(None) =>
      case Return(Some(e)) => EvalMore(fs, k, l, e, st);
      case Assign(_, idx, e) =>
        EvalMore(fs, k, l, e, st);
        var v := EvalExpr(fs, k, e, st);
        if v.Ok? && idx.Some? {
          EvalMore(fs, k, l, idx.value, v.st);
        }
      case Eval(None) =>
      case Eval(Some(e)) => EvalMore(fs, k, l, e, st);
      case Block(items) => BlockMore(fs, k, l, items, st);
      case If(_, _, _) => IfMore(fs, k, l, s, st);
      case While(_, _) => WhileMore(fs, k, l, s, st);
      case Continue =>
      case Break =>
    }
  }

  lemma {:induction false} IfMore(fs: Funcs, k: nat, l: nat, s: Ast.Stmt, st: State)
    requires s.If? && k <= l
    ensures Ended(ExecIf(fs, k, s, st), ExecIf(fs, l, s, st))
    decreases k, s, 0
  {
    hide ExecStmt, EvalExpr;
    EvalMore(fs, k, l, s.cond, st);
    var v := EvalExpr(fs, k, s.cond, st);
    if v.Ok? {
      StmtMore(fs, k, l, s.thn, v.st);
      if s.els.Some? {
        StmtMore(fs, k, l, s.els.value, v.st);
      }
    }
  }

  lemma {:induction false} WhileMore(fs: Funcs, k: nat, l: nat, s: Ast.Stmt, st: State)
    requires s.While? && k <= l
    ensures Ended(ExecWhile(fs, k, s, st), ExecWhile(fs, l, s, st))
    decreases k, s, 1
  {
    hide ExecStmt, EvalExpr;
    EvalMore(fs, k, l, s.cond, st);
    var v := EvalExpr(fs, k, s.cond, st);
    if v.Ok? {
      StmtMore(fs, k, l, s.body, v.st);
      var o := ExecStmt(fs, k, s.body, v.st);
      if (o.Normal? || o.Continued?) && k != 0 {
        WhileMore(fs, k - 1, l - 1, s, o.st);
      }
    }
  }

  // ----- programs -----

  // Global initialisers come before every function, so nothing in them can use up fuel.
  lemma {:induction false} NoFuelNeeded(k: nat, e: Ast.Expr, st: State)
    ensures !EvalExpr(map[], k, e, st).OutOfFuel?
    decreases e, 1
  {
    hide ReadVar, ReadElem, CombineUnary, Combine;
    match e
    case Num(_) =>
    case Paren(i) => NoFuelNeeded(k, i, st);
    case Var(_) => NoFuelToRead(st, e.name);
    case Index(x, i) =>
      NoFuelNeeded(k, i, st);
      var v := EvalExpr(map[], k, i, st);
      if v.Ok? {
        NoFuelToIndex(v.st, x, v.v);
      }
    case Call(_, _) =>
    case Unary(op, a) =>
      NoFuelNeeded(k, a, st);
      var v := EvalExpr(map[], k, a, st);
      if v.Ok? {
        NoFuelToCombine(op, Ast.Add, v.v, v.v, v.st);
      }
    case Binary(op, a, b) =>
      NoFuelNeeded(k, a, st);
      var v := EvalExpr(map[], k, a, st);
      if v.Ok? {
        NoFuelNeeded(k, b, v.st);
        var u := EvalExpr(map[], k, b, v.st);
        if u.Ok? {
          NoFuelToCombine(Ast.Pos, op, v.v, u.v, u.st);
        }
      }
  }

  lemma NoFuelToRead(st: State, x: string)
    ensures !ReadVar(st, x).OutOfFuel?
  {
  }

  lemma NoFuelToIndex(st: State, x: string, i: Val)
    ensures !ReadElem(st, x, i).OutOfFuel?
  {
  }

  lemma NoFuelToCombine(op: Ast.UnOp, bop: Ast.BinOp, a: Val, b: Val, st: State)
    ensures !CombineUnary(op, a, st).OutOfFuel? && !Combine(bop, a, b, st).OutOfFuel?
  {
  }

  lemma {:induction false} NoFuelForArgs(k: nat, es: seq<Ast.Expr>, st: State)
    ensures !EvalArgs(map[], k, es, st).OutOfFuel?
    decreases es
  {
    if es == [] {
    } else {
      NoFuelNeeded(k, es[0], st);
      var v := EvalExpr(map[], k, es[0], st);
      if v.Ok? {
        NoFuelForArgs(k, es[1..], v.st);
      }
    }
  }

  lemma {:induction false} GlobalsMore(globals: map<string, int>, k: nat, l: nat, defs: seq<Ast.Def>)
    requires k <= l
    ensures InitGlobals(globals, k, defs) == InitGlobals(globals, l, defs)
    decreases defs
  {
    hide EvalInit;
    if defs == [] {
    } else {
      var st := State(globals, []);
      InitialMore(k, l, defs[0].init, st);
      var r := EvalInit(map[], k, defs[0].init, 1, st);
      if r.Ok? {
        GlobalsMore(r.st.globals[defs[0].name := r.v[0]], k, l, defs[1..]);
      }
    }
  }

  lemma InitialMore(k: nat, l: nat, init: Option<Ast.Init>, st: State)
    requires k <= l
    ensures EvalInit(map[], k, init, 1, st) == EvalInit(map[], l, init, 1, st)
  {
    InitMore(map[], k, l, init, 1, st);
    if init.Some? && init.value.List? {
      NoFuelForArgs(k, Ast.Prefix(init.value.es, 1), st);
    }
  }

  lemma {:induction false} AllGlobalsMore(p: Ast.Program, k: nat, l: nat)
    requires k <= l
    ensures GlobalsOf(p, k) == GlobalsOf(p, l)
  {
    hide InitGlobals;
    if p == [] {
    } else {
      AllGlobalsMore(p[..|p| - 1], k, l);
      var globals := GlobalsOf(p[..|p| - 1], k);
      if globals.Some? && p[|p| - 1].Globals? {
        GlobalsMore(globals.value, k, l, p[|p| - 1].defs);
      }
    }
  }

  // A run that ended, or failed, at some fuel is the same run at any larger one.
  lemma RunMore(p: Ast.Program, k: nat, l: nat)
    requires k <= l && !RunMain(p, k).OutOfFuel?
    ensures RunMain(p, l) == RunMain(p, k)
  {
    hide Invoke, GlobalsOf, FuncsOf;
    AllGlobalsMore(p, k, l);
    var fs, globals := FuncsOf(p), GlobalsOf(p, k);
    if globals.Some? && "main" in fs && fs["main"].params == [] {
      InvokeMore(fs, k, l, fs["main"], [], State(globals.value, []));
    }
  }

  // So the fuel never matters to what is seen.
  lemma OneRun(p: Ast.Program, k: nat, l: nat)
    requires !RunMain(p, k).OutOfFuel? && !RunMain(p, l).OutOfFuel?
    ensures RunMain(p, k) == RunMain(p, l)
  {
    if k <= l {
      RunMore(p, k, l);
    } else {
      RunMore(p, l, k);
    }
  }
}
