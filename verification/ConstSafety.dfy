// What `const` protects. Over any run, a const scalar keeps its value as long as it exists. A
// const array does so if the rest of its block never hands it over by its bare name; an
// array parameter is not const, so a callee may store through it.
module ConstSafety {
  import opened Wrappers
  import opened Scopes
  import opened Source
  import opened Target
  import opened Matching
  import Ast

  // ----- what must hold of a state -----

  predicate IsAlias(st: State, d: nat, l: nat, x: string, r: Ref) {
    d < |st.frames| && l < |st.frames[d]| && x in st.frames[d][l] && st.frames[d][l][x].cell == Alias(r)
  }

  ghost predicate Unaliased(st: State, r: Ref) {
    forall d: nat, l: nat, x :: !IsAlias(st, d, l, x, r)
  }

  // Array parameters are bound to arrays of calls further out.
  ghost predicate WellAliased(st: State) {
    forall d: nat, l: nat, x, r :: IsAlias(st, d, l, x, r) ==> r.depth < d
  }

  // What is watched over a run: nothing, or the const at r with the contents c.
  datatype Watch = Nothing | Const(r: Ref, c: Binding)

  // The watched const has its contents, and an array is reachable only by its own name.
  ghost predicate Guarded(st: State, g: Watch) {
    WellAliased(st) &&
    (g.Const? ==>
      ValidRef(st, g.r) && At(st, g.r) == g.c && g.c.isConst && (g.c.cell.Array? ==> Unaliased(st, g.r)))
  }

  ghost predicate SameShape(st: State, st': State) {
    |st'.frames| == |st.frames| && forall d | 0 <= d < |st.frames| :: |st'.frames[d]| == |st.frames[d]|
  }

  ghost predicate Keeps(st: State, st': State, g: Watch) {
    Guarded(st', g) && SameShape(st, st')
  }

  // Code running in the frame of a watched array must not mention its name bare.
  predicate Local(st: State, g: Watch) {
    g.Const? && g.c.cell.Array? && g.r.depth == |st.frames| - 1
  }

  function Watched(g: Watch): string {
    if g.Const? then g.r.name else ""
  }

  // No reference to the watched array, nor into a frame that does not exist.
  predicate Harmless(st: State, v: Val, g: Watch) {
    v.VRef? ==> v.r.depth < |st.frames| && (g.Const? && g.c.cell.Array? ==> v.r != g.r)
  }

  ghost predicate ValKept(st: State, res: Result<Val>, g: Watch) {
    res.Ok? ==> Keeps(st, res.st, g) && Harmless(st, res.v, g)
  }

  ghost predicate ValsKept(st: State, res: Result<seq<Val>>, g: Watch) {
    res.Ok? ==> Keeps(st, res.st, g) && forall v | v in res.v :: Harmless(st, v, g)
  }

  ghost predicate EndKept(st: State, o: Outcome, g: Watch) {
    match o
    case Normal(st') => Keeps(st, st', g)
    case Broke(st') => Keeps(st, st', g)
    case Continued(st') => Keeps(st, st', g)
    case Returned(v, st') => Keeps(st, st', g) && !v.VRef?
    case Stopped => true
    case Failed(_) => true
  }

  // ----- code that does not hand over x -----

  predicate Unpassed(e: Ast.Expr, x: string)
    decreases e, 0
  {
    match e
    case Num(_) => true
    case Paren(i) => Unpassed(i, x)
    case Var(y) => y != x
    case Index(_, i) => Unpassed(i, x)
    case Call(_, args) => AllUnpassed(args, x)
    case Unary(_, a) => Unpassed(a, x)
    case Binary(_, l, r) => Unpassed(l, x) && Unpassed(r, x)
  }

  predicate AllUnpassed(es: seq<Ast.Expr>, x: string)
    decreases es, 0
  {
    es != [] ==> Unpassed(es[0], x) && AllUnpassed(es[1..], x)
  }

  predicate OptUnpassed(e: Option<Ast.Expr>, x: string) {
    e.Some? ==> Unpassed(e.value, x)
  }

  predicate DefUnpassed(d: Ast.Def, x: string) {
    OptUnpassed(d.size, x) && (d.init.Some? && d.init.value.List? ==> AllUnpassed(d.init.value.es, x))
  }

  predicate DefsUnpassed(defs: seq<Ast.Def>, x: string) {
    defs != [] ==> DefUnpassed(defs[0], x) && DefsUnpassed(defs[1..], x)
  }

  predicate StmtUnpassed(s: Ast.Stmt, x: string)
    decreases s, 0
  {
    match s
    case Return(e) => OptUnpassed(e, x)
    case Assign(_, idx, e) => OptUnpassed(idx, x) && Unpassed(e, x)
    case Eval(e) => OptUnpassed(e, x)
    case Block(items) => ItemsUnpassed(items, x)
    case If(c, thn, els) => Unpassed(c, x) && StmtUnpassed(thn, x) && (els.Some? ==> StmtUnpassed(els.value, x))
    case While(c, body) => Unpassed(c, x) && StmtUnpassed(body, x)
    case Continue => true
    case Break => true
  }

  predicate ItemsUnpassed(items: seq<Ast.Item>, x: string)
    decreases items, 0
  {
    items != [] ==> ItemUnpassed(items[0], x) && ItemsUnpassed(items[1..], x)
  }

  predicate ItemUnpassed(item: Ast.Item, x: string)
    decreases item, 0
  {
    match item
    case Decl(_, defs) => DefsUnpassed(defs, x)
    case Do(s) => StmtUnpassed(s, x)
  }

  // ----- single accesses -----

  lemma KeepsTrans(st: State, st1: State, st2: State, g: Watch)
    requires Keeps(st, st1, g) && Keeps(st1, st2, g)
    ensures Keeps(st, st2, g)
  {
  }

  lemma KeepsSelf(st: State, g: Watch)
    requires Guarded(st, g)
    ensures Keeps(st, st, g)
  {
  }

  ghost predicate NoNewAlias(st: State, st': State) {
    forall d: nat, l: nat, x, r :: IsAlias(st', d, l, x, r) ==> IsAlias(st, d, l, x, r)
  }

  // A change that binds no array parameter and leaves the watched const alone.
  lemma Spared(st: State, st': State, g: Watch)
    requires Guarded(st, g) && NoNewAlias(st, st')
    requires g.Const? ==> ValidRef(st', g.r) && At(st', g.r) == At(st, g.r)
    ensures Guarded(st', g)
  {
  }

  // A store elsewhere, of something that is not an alias.
  lemma PutKeeps(st: State, q: Ref, b: Binding, g: Watch)
    requires Guarded(st, g) && ValidRef(st, q) && !b.cell.Alias? && (g.Const? ==> q != g.r)
    ensures Keeps(st, Put(st, q, b), g)
  {
    Spared(st, Put(st, q, b), g);
  }

  lemma ReadVarKeeps(st: State, x: string, g: Watch)
    requires Guarded(st, g) && (Local(st, g) ==> x != Watched(g))
    ensures ValKept(st, ReadVar(st, x), g)
  {
    KeepsSelf(st, g);
    var b := BindingOf(st, x);
    if b.Some? && b.value.cell.Alias? {
      assert IsAlias(st, |st.frames| - 1, Find(TopFrame(st), x).value, x, b.value.cell.r);
    }
  }

  lemma ReadElemKeeps(st: State, x: string, i: Val, g: Watch)
    requires Guarded(st, g)
    ensures ValKept(st, ReadElem(st, x, i), g)
  {
    KeepsSelf(st, g);
  }

  lemma WriteVarKeeps(st: State, x: string, v: Val, g: Watch)
    requires Guarded(st, g)
    ensures EndKept(st, WriteVar(st, x, v), g)
  {
    var b := BindingOf(st, x);
    if b.Some? && !b.value.isConst && b.value.cell.Scalar? && v.VInt? {
      PutKeeps(st, RefTo(st, x), Binding(false, Scalar(v.i)), g);
    } else if b.None? && x in st.globals && v.VInt? {
      Spared(st, st.(globals := st.globals[x := v.i]), g);
    }
  }

  // A const array changes only if the name written is an array parameter bound to it.
  lemma ConstNeedsAlias(st: State, x: string, i: Val, v: Val, r: Ref)
    requires ValidRef(st, r) && At(st, r).isConst && WriteElem(st, x, i, v).Normal?
    ensures var st' := WriteElem(st, x, i, v).st;
      && ValidRef(st', r)
      && (At(st', r) != At(st, r) ==> BindingOf(st, x).Some? && BindingOf(st, x).value.cell == Alias(r))
  {
  }

  lemma WriteElemKeeps(st: State, x: string, i: Val, v: Val, g: Watch)
    requires Guarded(st, g)
    ensures EndKept(st, WriteElem(st, x, i, v), g)
  {
    var o := WriteElem(st, x, i, v);
    if o.Normal? && BindingOf(st, x).Some? {
      var q := ArrayNamed(st, x).value;
      if g.Const? && g.c.cell.Array? {
        assert !IsAlias(st, |st.frames| - 1, Find(TopFrame(st), x).value, x, g.r);
      }
      var b := At(st, q);
      PutKeeps(st, q, b.(cell := Array(b.cell.es[i.i := v.i])), g);
    }
  }

  lemma DeclareKeeps(st: State, x: string, b: Binding, g: Watch)
    requires Guarded(st, g) && !b.cell.Alias?
    ensures EndKept(st, Declare(st, x, b), g)
  {
    var o := Declare(st, x, b);
    if o.Normal? {
      Spared(st, o.st, g);
    }
  }

  // ----- layers and frames -----

  lemma PushKeeps(st: State, g: Watch)
    requires Guarded(st, g) && st.frames != []
    ensures Guarded(PushLayer(st), g)
  {
    Spared(st, PushLayer(st), g);
  }

  lemma PopKeeps(st: State, st': State, g: Watch)
    requires Guarded(st, g) && st.frames != [] && Keeps(PushLayer(st), st', g)
    ensures Keeps(st, PopLayer(st'), g)
  {
    var st2 := PopLayer(st');
    var t := |st.frames| - 1;
    assert |st'.frames[t]| == |PushLayer(st).frames[t]| == |st.frames[t]| + 1;
    forall d | 0 <= d < |st.frames|
      ensures |st2.frames[d]| == |st.frames[d]|
    {
      assert |st'.frames[d]| == |PushLayer(st).frames[d]|;
    }
    Spared(st', st2, g);
  }

  lemma {:induction false} BoundAliases(params: seq<Ast.Param>, vs: seq<Val>, x: string, r: Ref)
    requires |params| == |vs| && VRef(r) !in vs && BindParams(params, vs).Bound? && x in BindParams(params, vs).layer
    ensures BindParams(params, vs).layer[x].cell != Alias(r)
  {
    if params == [] {
    } else {
      var n := |params| - 1;
      if x in BindParams(params[..n], vs[..n]).layer {
        BoundAliases(params[..n], vs[..n], x, r);
      }
    }
  }

  lemma EnterKeeps(st: State, f: Ast.Func, vs: seq<Val>, g: Watch)
    requires Guarded(st, g) && |f.params| == |vs| && BindParams(f.params, vs).Bound?
    requires forall v | v in vs :: Harmless(st, v, g)
    ensures Guarded(st.(frames := st.frames + [[BindParams(f.params, vs).layer]]), g)
  {
    var layer := BindParams(f.params, vs).layer;
    var st' := st.(frames := st.frames + [[layer]]);
    forall d: nat, l: nat, x, r | IsAlias(st', d, l, x, r)
      ensures r.depth < d && (g.Const? && g.c.cell.Array? ==> r != g.r)
    {
      if d < |st.frames| {
        assert IsAlias(st, d, l, x, r);
      } else if VRef(r) !in vs {
        BoundAliases(f.params, vs, x, r);
      }
    }
  }

  lemma LeaveKeeps(st: State, layer: Layer, st': State, g: Watch)
    requires Guarded(st, g) && Keeps(st.(frames := st.frames + [[layer]]), st', g)
    ensures Keeps(st, PopFrame(st'), g)
  {
    var st1 := st.(frames := st.frames + [[layer]]);
    var st2 := PopFrame(st');
    forall d | 0 <= d < |st.frames|
      ensures |st2.frames[d]| == |st.frames[d]|
    {
      assert |st'.frames[d]| == |st1.frames[d]|;
    }
    Spared(st', st2, g);
  }

  // ----- every construct -----

  // The later part of a run, after a part that keeps r.
  lemma ValThen(st: State, st1: State, res: Result<Val>, g: Watch)
    requires Keeps(st, st1, g) && ValKept(st1, res, g)
    ensures ValKept(st, res, g)
  {
  }

  lemma EndThen(st: State, st1: State, o: Outcome, g: Watch)
    requires Keeps(st, st1, g) && EndKept(st1, o, g)
    ensures EndKept(st, o, g)
  {
  }

  lemma LocalSame(st: State, st1: State, g: Watch)
    requires Keeps(st, st1, g)
    ensures Local(st1, g) == Local(st, g) && Guarded(st1, g) && |st1.frames| == |st.frames|
  {
  }

  lemma {:induction false} EvalKeeps(fs: Funcs, k: nat, e: Ast.Expr, st: State, g: Watch)
    requires Guarded(st, g) && (Local(st, g) ==> Unpassed(e, Watched(g)))
    ensures ValKept(st, EvalExpr(fs, k, e, st), g)
    decreases k, e, 1
  {
    hide Guarded, Keeps, Local;
    match e {
      case Num(_) => KeepsSelf(st, g);
      case Paren(inner) => EvalKeeps(fs, k, inner, st, g);
      case Var(x) => ReadVarKeeps(st, x, g);
      case Index(x, i) =>
        EvalKeeps(fs, k, i, st, g);
        var v := EvalExpr(fs, k, i, st);
        if v.Ok? {
          LocalSame(st, v.st, g);
          ReadElemKeeps(v.st, x, v.v, g);
          ValThen(st, v.st, ReadElem(v.st, x, v.v), g);
        }
      case Call(f, args) =>
        if f in fs && |fs[f].params| == |args| {
          ArgsKeep(fs, k, args, st, g);
          var vs := EvalArgs(fs, k, args, st);
          if vs.Ok? && k != 0 {
            LocalSame(st, vs.st, g);
            InvokeKeeps(fs, k - 1, fs[f], vs.v, vs.st, g);
            ValThen(st, vs.st, Invoke(fs, k - 1, fs[f], vs.v, vs.st), g);
          }
        }
      case Unary(op, a) =>
        EvalKeeps(fs, k, a, st, g);
      case Binary(op, l, right) =>
        EvalKeeps(fs, k, l, st, g);
        var a := EvalExpr(fs, k, l, st);
        if a.Ok? {
          LocalSame(st, a.st, g);
          RestKeeps(fs, k, op, a.v, right, a.st, g);
          ValThen(st, a.st, EvalRest(fs, k, op, a.v, right, a.st), g);
        }
    }
  }

  lemma {:induction false} RestKeeps(fs: Funcs, k: nat, op: Ast.BinOp, a: Val, e: Ast.Expr, st: State, g: Watch)
    requires Guarded(st, g) && (Local(st, g) ==> Unpassed(e, Watched(g)))
    ensures ValKept(st, EvalRest(fs, k, op, a, e, st), g)
    decreases k, e, 2
  {
    hide Guarded, Keeps, Local, Apply;
    EvalKeeps(fs, k, e, st, g);
  }

  lemma {:induction false} ArgsKeep(fs: Funcs, k: nat, es: seq<Ast.Expr>, st: State, g: Watch)
    requires Guarded(st, g) && (Local(st, g) ==> AllUnpassed(es, Watched(g)))
    ensures ValsKept(st, EvalArgs(fs, k, es, st), g)
    decreases k, es, 0
  {
    hide Guarded, Keeps, Local;
    if es == [] {
      KeepsSelf(st, g);
    } else {
      EvalKeeps(fs, k, es[0], st, g);
      var v := EvalExpr(fs, k, es[0], st);
      if v.Ok? {
        LocalSame(st, v.st, g);
        ArgsKeep(fs, k, es[1..], v.st, g);
        var vs := EvalArgs(fs, k, es[1..], v.st);
        if vs.Ok? {
          KeepsTrans(st, v.st, vs.st, g);
        }
      }
    }
  }

  lemma {:induction false} InvokeKeeps(fs: Funcs, k: nat, f: Ast.Func, vs: seq<Val>, st: State, g: Watch)
    requires |f.params| == |vs| && Guarded(st, g)
    requires forall v | v in vs :: Harmless(st, v, g)
    ensures ValKept(st, Invoke(fs, k, f, vs, st), g)
    decreases k, f.body, 3
  {
    hide Keeps;
    if BindParams(f.params, vs).Bound? {
      var layer := BindParams(f.params, vs).layer;
      var st1 := st.(frames := st.frames + [[layer]]);
      EnterKeeps(st, f, vs, g);
      assert !Local(st1, g);
      hide Guarded, Local;
      BlockKeeps(fs, k, f.body, st1, g);
      match ExecBlock(fs, k, f.body, st1)
      case Normal(st2) => LeaveKeeps(st, layer, st2, g);
      case Returned(v, st2) => LeaveKeeps(st, layer, st2, g);
      case _ =>
    }
  }

  lemma {:induction false} InitKeeps(fs: Funcs, k: nat, init: Option<Ast.Init>, n: nat, st: State, g: Watch)
    requires Guarded(st, g)
    requires Local(st, g) && init.Some? && init.value.List? ==> AllUnpassed(init.value.es, Watched(g))
    ensures EvalInit(fs, k, init, n, st).Ok? ==> Keeps(st, EvalInit(fs, k, init, n, st).st, g)
    decreases k, init, 0
  {
    hide Guarded, Keeps, Local;
    KeepsSelf(st, g);
    if init.Some? && init.value.List? {
      var es := Ast.Prefix(init.value.es, n);
      if AllUnpassed(init.value.es, Watched(g)) {
        PrefixUnpassed(init.value.es, |es|, Watched(g));
        assert es == init.value.es[..|es|];
      }
      ArgsKeep(fs, k, es, st, g);
    }
  }

  lemma {:induction false} PrefixUnpassed(es: seq<Ast.Expr>, n: nat, x: string)
    requires n <= |es| && AllUnpassed(es, x)
    ensures AllUnpassed(es[..n], x)
  {
    if n == 0 {
    } else {
      PrefixUnpassed(es[1..], n - 1, x);
      assert es[..n][1..] == es[1..][..n - 1];
    }
  }

  lemma {:induction false} DefKeeps(fs: Funcs, k: nat, isConst: bool, def: Ast.Def, st: State, g: Watch)
    requires Guarded(st, g) && (Local(st, g) ==> DefUnpassed(def, Watched(g)))
    ensures EndKept(st, ExecDef(fs, k, isConst, def, st), g)
    decreases k, def, 0
  {
    hide Guarded, Keeps, Local, Declare, EvalInit;
    match def.size
    case None =>
      InitKeeps(fs, k, def.init, 1, st, g);
      var vs := EvalInit(fs, k, def.init, 1, st);
      if vs.Ok? {
        DeclaredKeeps(st, vs.st, def.name, Binding(isConst, Scalar(vs.v[0])), g);
      }
    case Some(e) =>
      EvalKeeps(fs, k, e, st, g);
      var n := EvalExpr(fs, k, e, st);
      if n.Ok? && n.v.VInt? && n.v.i > 0 {
        LocalSame(st, n.st, g);
        InitKeeps(fs, k, def.init, n.v.i, n.st, g);
        var vs := EvalInit(fs, k, def.init, n.v.i, n.st);
        if vs.Ok? {
          KeepsTrans(st, n.st, vs.st, g);
          DeclaredKeeps(st, vs.st, def.name, Binding(isConst, Array(vs.v)), g);
        }
      }
  }

  lemma DeclaredKeeps(st: State, st1: State, x: string, b: Binding, g: Watch)
    requires Keeps(st, st1, g) && !b.cell.Alias?
    ensures EndKept(st, Declare(st1, x, b), g)
  {
    hide Guarded;
    DeclareKeeps(st1, x, b, g);
    EndThen(st, st1, Declare(st1, x, b), g);
  }

  lemma {:induction false} DefsKeep(fs: Funcs, k: nat, isConst: bool, defs: seq<Ast.Def>, st: State, g: Watch)
    requires Guarded(st, g) && (Local(st, g) ==> DefsUnpassed(defs, Watched(g)))
    ensures EndKept(st, ExecDefs(fs, k, isConst, defs, st), g)
    decreases k, defs, 0
  {
    hide Guarded, Keeps, Local, ExecDef, DefUnpassed;
    if defs == [] {
      KeepsSelf(st, g);
    } else {
      DefKeeps(fs, k, isConst, defs[0], st, g);
      var o := ExecDef(fs, k, isConst, defs[0], st);
      if o.Normal? {
        LocalSame(st, o.st, g);
        DefsKeep(fs, k, isConst, defs[1..], o.st, g);
        EndThen(st, o.st, ExecDefs(fs, k, isConst, defs[1..], o.st), g);
      }
    }
  }

  lemma {:induction false} BlockKeeps(fs: Funcs, k: nat, items: seq<Ast.Item>, st: State, g: Watch)
    requires Guarded(st, g) && (Local(st, g) ==> ItemsUnpassed(items, Watched(g)))
    ensures EndKept(st, ExecBlock(fs, k, items, st), g)
    decreases k, items, 1
  {
    hide Guarded, Keeps;
    if st.frames == [] {
    } else {
      PushKeeps(st, g);
      ItemsKeep(fs, k, items, PushLayer(st), g);
      match ExecItems(fs, k, items, PushLayer(st))
      case Normal(st') => PopKeeps(st, st', g);
      case Broke(st') => PopKeeps(st, st', g);
      case Continued(st') => PopKeeps(st, st', g);
      case Returned(_, st') => PopKeeps(st, st', g);
      case _ =>
    }
  }

  lemma {:induction false} ItemsKeep(fs: Funcs, k: nat, items: seq<Ast.Item>, st: State, g: Watch)
    requires Guarded(st, g) && (Local(st, g) ==> ItemsUnpassed(items, Watched(g)))
    ensures EndKept(st, ExecItems(fs, k, items, st), g)
    decreases k, items, 0
  {
    hide Guarded, Keeps, Local, ExecItem, ItemUnpassed;
    if items == [] {
      KeepsSelf(st, g);
    } else {
      ItemKeeps(fs, k, items[0], st, g);
      var o := ExecItem(fs, k, items[0], st);
      if o.Normal? {
        LocalSame(st, o.st, g);
        ItemsKeep(fs, k, items[1..], o.st, g);
        EndThen(st, o.st, ExecItems(fs, k, items[1..], o.st), g);
      }
    }
  }

  lemma {:induction false} ItemKeeps(fs: Funcs, k: nat, item: Ast.Item, st: State, g: Watch)
    requires Guarded(st, g) && (Local(st, g) ==> ItemUnpassed(item, Watched(g)))
    ensures EndKept(st, ExecItem(fs, k, item, st), g)
    decreases k, item, 0
  {
    hide Guarded, Keeps, Local;
    match item
    case Decl(isConst, defs) => DefsKeep(fs, k, isConst, defs, st, g);
    case Do(s) => StmtKeeps(fs, k, s, st, g);
  }

  lemma {:induction false} StmtKeeps(fs: Funcs, k: nat, s: Ast.Stmt, st: State, g: Watch)
    requires Guarded(st, g) && (Local(st, g) ==> StmtUnpassed(s, Watched(g)))
    ensures EndKept(st, ExecStmt(fs, k, s, st), g)
    decreases k, s, 2
  {
    hide Guarded, Keeps, Local, ExecIf, ExecWhile, ExecBlock, WriteVar, WriteElem;
    match s {
      case Return(None) => KeepsSelf(st, g);
      case Return(Some(e)) => EvalKeeps(fs, k, e, st, g);
      case Assign(_, _, _) => AssignKeeps(fs, k, s, st, g);
      case Eval(None) => KeepsSelf(st, g);
      case Eval(Some(e)) => EvalKeeps(fs, k, e, st, g);
      case Block(items) => BlockKeeps(fs, k, items, st, g);
      case If(_, _, _) => IfKeeps(fs, k, s, st, g);
      case While(_, _) => WhileKeeps(fs, k, s, st, g);
      case Continue => KeepsSelf(st, g);
      case Break => KeepsSelf(st, g);
    }
  }

  lemma {:induction false} AssignKeeps(fs: Funcs, k: nat, s: Ast.Stmt, st: State, g: Watch)
    requires s.Assign? && Guarded(st, g) && (Local(st, g) ==> StmtUnpassed(s, Watched(g)))
    ensures EndKept(st, ExecStmt(fs, k, s, st), g)
    decreases k, s, 1
  {
    hide Guarded, Keeps, Local, WriteVar, WriteElem;
    EvalKeeps(fs, k, s.rhs, st, g);
    var v := EvalExpr(fs, k, s.rhs, st);
    if v.Ok? {
      LocalSame(st, v.st, g);
      match s.idx
      case None =>
        WriteVarKeeps(v.st, s.name, v.v, g);
        EndThen(st, v.st, WriteVar(v.st, s.name, v.v), g);
      case Some(i) =>
        EvalKeeps(fs, k, i, v.st, g);
        var vi := EvalExpr(fs, k, i, v.st);
        if vi.Ok? {
          LocalSame(v.st, vi.st, g);
          KeepsTrans(st, v.st, vi.st, g);
          WriteElemKeeps(vi.st, s.name, vi.v, v.v, g);
          EndThen(st, vi.st, WriteElem(vi.st, s.name, vi.v, v.v), g);
        }
    }
  }

  lemma {:induction false} IfKeeps(fs: Funcs, k: nat, s: Ast.Stmt, st: State, g: Watch)
    requires s.If? && Guarded(st, g) && (Local(st, g) ==> StmtUnpassed(s, Watched(g)))
    ensures EndKept(st, ExecIf(fs, k, s, st), g)
    decreases k, s, 0
  {
    hide Guarded, Keeps, Local, ExecStmt;
    EvalKeeps(fs, k, s.cond, st, g);
    var v := EvalExpr(fs, k, s.cond, st);
    if v.Ok? && v.v.VInt? {
      LocalSame(st, v.st, g);
      if v.v.i != 0 {
        StmtKeeps(fs, k, s.thn, v.st, g);
        EndThen(st, v.st, ExecStmt(fs, k, s.thn, v.st), g);
      } else if s.els.Some? {
        StmtKeeps(fs, k, s.els.value, v.st, g);
        EndThen(st, v.st, ExecStmt(fs, k, s.els.value, v.st), g);
      }
    }
  }

  lemma {:induction false} WhileKeeps(fs: Funcs, k: nat, s: Ast.Stmt, st: State, g: Watch)
    requires s.While? && Guarded(st, g) && (Local(st, g) ==> StmtUnpassed(s, Watched(g)))
    ensures EndKept(st, ExecWhile(fs, k, s, st), g)
    decreases k, s, 1
  {
    hide Guarded, Keeps, Local, ExecStmt;
    EvalKeeps(fs, k, s.cond, st, g);
    var v := EvalExpr(fs, k, s.cond, st);
    if v.Ok? && v.v.VInt? && v.v.i != 0 {
      LocalSame(st, v.st, g);
      StmtKeeps(fs, k, s.body, v.st, g);
      var o := ExecStmt(fs, k, s.body, v.st);
      EndThen(st, v.st, o, g);
      if (o.Normal? || o.Continued?) && k != 0 {
        LocalSame(st, o.st, g);
        WhileKeeps(fs, k - 1, s, o.st, g);
        EndThen(st, o.st, ExecWhile(fs, k - 1, s, o.st), g);
      }
    }
  }

  // ----- from the declaration on -----

  lemma StartsWellAliased(globals: map<string, int>)
    ensures WellAliased(State(globals, []))
  {
  }

  // Matching states, and so all states of accepted programs, are such.
  lemma MatchWellAliased(sh: seq<Shape>, st: State, frames: seq<seq<seq<TVal>>>)
    requires Match(sh, st, frames)
    ensures WellAliased(st)
  {
    forall d: nat, l: nat, x, r | IsAlias(st, d, l, x, r)
      ensures r.depth < d
    {
      assert FrameOk(sh, d, st.frames[d], frames[d]);
      assert x in sh[d].scopes[l];
      assert BindOk(sh, d, sh[d].scopes[l][x], st.frames[d][l][x], frames[d]);
    }
  }

  // Where a declaration puts its variable.
  function NewRef(st: State, x: string): Ref
    requires TopFrame(st) != []
  {
    Ref(|st.frames| - 1, |TopFrame(st)| - 1, x)
  }

  // The contents a definition starts with.
  ghost predicate StartsAs(fs: Funcs, k: nat, def: Ast.Def, st: State, cell: Cell) {
    match def.size
    case None =>
      var vs := EvalInit(fs, k, def.init, 1, st);
      vs.Ok? && cell == Scalar(vs.v[0])
    case Some(e) =>
      var n := EvalExpr(fs, k, e, st);
      && n.Ok? && n.v.VInt? && n.v.i > 0
      && var vs := EvalInit(fs, k, def.init, n.v.i, n.st);
         vs.Ok? && cell == Array(vs.v)
  }

  // A const is guarded as soon as it is declared: nothing can be bound to its array yet.
  lemma DeclaredGuarded(fs: Funcs, k: nat, def: Ast.Def, st: State)
    requires WellAliased(st) && TopFrame(st) != [] && ExecDef(fs, k, true, def, st).Normal?
    ensures var st1, r := ExecDef(fs, k, true, def, st).st, NewRef(st, def.name);
      && SameShape(st, st1) && ValidRef(st1, r) && StartsAs(fs, k, def, st, At(st1, r).cell)
      && Guarded(st1, Const(r, At(st1, r)))
  {
    hide EvalExpr, EvalInit;
    match def.size
    case None =>
      InitKeeps(fs, k, def.init, 1, st, Nothing);
      var vs := EvalInit(fs, k, def.init, 1, st);
      NewConst(st, vs.st, def.name, Scalar(vs.v[0]));
    case Some(e) =>
      EvalKeeps(fs, k, e, st, Nothing);
      var n := EvalExpr(fs, k, e, st);
      InitKeeps(fs, k, def.init, n.v.i, n.st, Nothing);
      var vs := EvalInit(fs, k, def.init, n.v.i, n.st);
      KeepsTrans(st, n.st, vs.st, Nothing);
      NewConst(st, vs.st, def.name, Array(vs.v));
  }

  lemma NewConst(st: State, st1: State, x: string, cell: Cell)
    requires TopFrame(st) != [] && Keeps(st, st1, Nothing) && !cell.Alias?
    requires Declare(st1, x, Binding(true, cell)).Normal?
    ensures var st2, r := Declare(st1, x, Binding(true, cell)).st, NewRef(st, x);
      && SameShape(st, st2) && ValidRef(st2, r) && At(st2, r) == Binding(true, cell)
      && Guarded(st2, Const(r, Binding(true, cell)))
  {
    var b := Binding(true, cell);
    assert |st1.frames[|st.frames| - 1]| == |st.frames[|st.frames| - 1]|;
    DeclareKeeps(st1, x, b, Nothing);
    var st2, r := Declare(st1, x, b).st, NewRef(st, x);
    forall d: nat, l: nat, y
      ensures !IsAlias(st2, d, l, y, r)
    {
      assert IsAlias(st2, d, l, y, r) ==> r.depth < d;
    }
  }

  // From its declaration to any later point of its block a const keeps its initial contents, and its
  // name keeps meaning it, if, being an array, the rest of the block does not hand it over. The rest
  // may begin with the remaining definitions of the same declaration.
  lemma ConstKept(fs: Funcs, k: nat, def: Ast.Def, rest: seq<Ast.Item>, n: nat, st: State)
    requires WellAliased(st) && TopFrame(st) != [] && ExecDef(fs, k, true, def, st).Normal? && n <= |rest|
    requires def.size.Some? ==> ItemsUnpassed(rest, def.name)
    ensures var st1, r := ExecDef(fs, k, true, def, st).st, NewRef(st, def.name);
      && ValidRef(st1, r) && StartsAs(fs, k, def, st, At(st1, r).cell)
      && StillBound(ExecItems(fs, k, rest[..n], st1), def.name, r, At(st1, r))
  {
    hide ExecItems, ExecDef;
    DeclaredGuarded(fs, k, def, st);
    var st1, r := ExecDef(fs, k, true, def, st).st, NewRef(st, def.name);
    var g := Const(r, At(st1, r));
    if def.size.Some? {
      ItemsPrefix(rest, n, def.name);
    }
    ItemsKeep(fs, k, rest[..n], st1, g);
    TopBound(ExecItems(fs, k, rest[..n], st1), st1, def.name, g);
  }

  // However the items ended, x is bound at r, innermost, to b.
  ghost predicate StillBound(o: Outcome, x: string, r: Ref, b: Binding) {
    match o
    case Normal(st) => ValidRef(st, r) && At(st, r) == b && BindingOf(st, x) == Some(b)
    case Broke(st) => ValidRef(st, r) && At(st, r) == b && BindingOf(st, x) == Some(b)
    case Continued(st) => ValidRef(st, r) && At(st, r) == b && BindingOf(st, x) == Some(b)
    case Returned(_, st) => ValidRef(st, r) && At(st, r) == b && BindingOf(st, x) == Some(b)
    case Stopped => true
    case Failed(_) => true
  }

  lemma TopBound(o: Outcome, st: State, x: string, g: Watch)
    requires EndKept(st, o, g) && TopFrame(st) != [] && g.Const? && g.r == NewRef(st, x)
    ensures StillBound(o, x, g.r, g.c)
  {
  }

  lemma {:induction false} ItemsPrefix(items: seq<Ast.Item>, n: nat, x: string)
    requires n <= |items| && ItemsUnpassed(items, x)
    ensures ItemsUnpassed(items[..n], x)
  {
    if n == 0 {
    } else {
      ItemsPrefix(items[1..], n - 1, x);
      assert items[..n][1..] == items[1..][..n - 1];
    }
  }
}
