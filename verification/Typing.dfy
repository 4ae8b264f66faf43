// Numbers and arrays kept apart by the program text: a type check that needs no run, and the proof
// that a program passing it never misuses a value. What is left to go wrong at run time is then a trap.
module Typing {
  import opened Wrappers
  import opened Scopes
  import opened Source
  import Ast

  // What an expression yields: a number, an array, or nothing to be relied on.
  datatype Kind = Number | Table | Nothing

  // For every layer, whether a name is an array.
  type Names = seq<map<string, bool>>

  // The functions of a program and which of them are taken to give a value.
  datatype Sig = Sig(fs: Funcs, gives: set<string>)

  // ----- the check -----

  // A name bound in no layer is a global, and globals are numbers.
  function KindOf(t: Names, x: string): Kind {
    match Find(t, x)
    case None => Number
    case Some(l) => if t[l][x] then Table else Number
  }

  function ParamKind(p: Ast.Param): Kind {
    if p.isArray then Table else Number
  }

  function TypeExpr(sig: Sig, t: Names, e: Ast.Expr): Option<Kind>
    decreases e, 1
  {
    match e
    case Num(_) => Some(Number)
    case Paren(i) => TypeExpr(sig, t, i)
    case Var(x) => Some(KindOf(t, x))
    case Index(x, i) => if KindOf(t, x).Table? && IsNumber(sig, t, i) then Some(Number) else None
    case Call(f, args) =>
      if f in sig.fs && |sig.fs[f].params| == |args| && TypeArgs(sig, t, args, sig.fs[f].params)
      then Some(if f in sig.gives then Number else Nothing)
      else None
    case Unary(op, a) => if op.Pos? then TypeExpr(sig, t, a) else if IsNumber(sig, t, a) then Some(Number) else None
    case Binary(_, l, r) => if IsNumber(sig, t, l) && IsNumber(sig, t, r) then Some(Number) else None
  }

  predicate IsNumber(sig: Sig, t: Names, e: Ast.Expr)
    decreases e, 2
  {
    TypeExpr(sig, t, e) == Some(Number)
  }

  predicate TypeArgs(sig: Sig, t: Names, es: seq<Ast.Expr>, params: seq<Ast.Param>)
    requires |es| == |params|
    decreases es, 0
  {
    es != [] ==> TypeExpr(sig, t, es[0]) == Some(ParamKind(params[0])) && TypeArgs(sig, t, es[1..], params[1..])
  }

  predicate AllNumbers(sig: Sig, t: Names, es: seq<Ast.Expr>) {
    forall e | e in es :: IsNumber(sig, t, e)
  }

  function Named(t: Names, x: string, isArray: bool): Names
    requires t != []
  {
    t[|t| - 1 := t[|t| - 1][x := isArray]]
  }

  // The names after a definition.
  function TypeDef(sig: Sig, t: Names, def: Ast.Def): (r: Option<Names>)
    requires t != []
    ensures r.Some? ==> |r.value| == |t| && r.value[..|t| - 1] == t[..|t| - 1]
  {
    if (def.size.None? || IsNumber(sig, t, def.size.value))
       && (def.init.Some? && def.init.value.List? ==> AllNumbers(sig, t, def.init.value.es))
    then Some(Named(t, def.name, def.size.Some?))
    else None
  }

  function TypeDefs(sig: Sig, t: Names, defs: seq<Ast.Def>): (r: Option<Names>)
    requires t != []
    ensures r.Some? ==> |r.value| == |t| && r.value[..|t| - 1] == t[..|t| - 1]
    decreases defs
  {
    if defs == [] then Some(t)
    else
      var t1 :- TypeDef(sig, t, defs[0]);
      TypeDefs(sig, t1, defs[1..])
  }

  // In a function that gives a value, every `return` has one.
  predicate TypeStmt(sig: Sig, gives: bool, t: Names, s: Ast.Stmt)
    decreases s, 0
  {
    match s
    case Return(e) => if e.None? then !gives else IsNumber(sig, t, e.value)
    case Assign(x, None, e) => KindOf(t, x).Number? && IsNumber(sig, t, e)
    case Assign(x, Some(i), e) => KindOf(t, x).Table? && IsNumber(sig, t, i) && IsNumber(sig, t, e)
    case Eval(e) => e.Some? ==> TypeExpr(sig, t, e.value).Some?
    case Block(items) => TypeItems(sig, gives, t + [map[]], items)
    case If(c, thn, els) =>
      && IsNumber(sig, t, c) && TypeStmt(sig, gives, t, thn)
      && (els.Some? ==> TypeStmt(sig, gives, t, els.value))
    case While(c, body) => IsNumber(sig, t, c) && TypeStmt(sig, gives, t, body)
    case Continue => true
    case Break => true
  }

  predicate TypeItems(sig: Sig, gives: bool, t: Names, items: seq<Ast.Item>)
    requires t != []
    decreases items, 0
  {
    items != [] ==>
      && TypeItem(sig, gives, t, items[0]).Some?
      && TypeItems(sig, gives, TypeItem(sig, gives, t, items[0]).value, items[1..])
  }

  // The names after an item.
  function TypeItem(sig: Sig, gives: bool, t: Names, item: Ast.Item): (r: Option<Names>)
    requires t != []
    ensures r.Some? ==> |r.value| == |t| && r.value[..|t| - 1] == t[..|t| - 1]
    decreases item, 0
  {
    match item
    case Decl(_, defs) => TypeDefs(sig, t, defs)
    case Do(s) => if TypeStmt(sig, gives, t, s) then Some(t) else None
  }

  // Every way through the statement ends in a `return` with a value, a jump or no end at all.
  predicate Returns(s: Ast.Stmt)
    decreases s, 0
  {
    match s
    case Return(e) => e.Some?
    case Block(items) => ReturnsItems(items)
    case If(_, thn, els) => els.Some? && Returns(thn) && Returns(els.value)
    case _ => false
  }

  predicate ReturnsItems(items: seq<Ast.Item>)
    decreases items, 0
  {
    items != [] && (ReturnsItem(items[0]) || ReturnsItems(items[1..]))
  }

  predicate ReturnsItem(item: Ast.Item)
    decreases item, 0
  {
    item.Do? && Returns(item.s)
  }

  function ParamNames(params: seq<Ast.Param>): map<string, bool> {
    if params == [] then map[]
    else
      var n := |params| - 1;
      ParamNames(params[..n])[params[n].name := params[n].isArray]
  }

  predicate TypeFunc(sig: Sig, gives: bool, f: Ast.Func) {
    && TypeItems(sig, gives, [ParamNames(f.params), map[]], f.body)
    && (gives ==> ReturnsItems(f.body))
  }

  predicate TypeFuncs(sig: Sig) {
    forall f | f in sig.fs :: TypeFunc(sig, f in sig.gives, sig.fs[f])
  }

  // For some choice of the functions that give a value, every function passes.
  ghost predicate WellTyped(p: Ast.Program) {
    exists gives :: TypeFuncs(Sig(FuncsOf(p), gives))
  }

  // ----- the names of a state -----

  function KindsOf(layer: Layer): map<string, bool> {
    map x | x in layer :: !layer[x].cell.Scalar?
  }

  function NamesOf(frame: seq<Layer>): (t: Names)
    ensures |t| == |frame|
  {
    seq(|frame|, l requires 0 <= l < |frame| => KindsOf(frame[l]))
  }

  function View(st: State): (v: seq<Names>)
    ensures |v| == |st.frames|
  {
    seq(|st.frames|, d requires 0 <= d < |st.frames| => NamesOf(st.frames[d]))
  }

  predicate Has(v: Val, k: Kind) {
    (k.Number? ==> v.VInt?) && (k.Table? ==> v.VRef?)
  }

  lemma FindView(below: seq<Names>, t: Names, st: State, x: string)
    requires View(st) == below + [t]
    ensures BindingOf(st, x).None? <==> Find(t, x).None?
    ensures BindingOf(st, x).Some? ==> (BindingOf(st, x).value.cell.Scalar? <==> KindOf(t, x).Number?)
  {
    var frame := TopFrame(st);
    assert t == View(st)[|st.frames| - 1] == NamesOf(frame);
    forall l | 0 <= l < |frame|
      ensures frame[l].Keys == t[l].Keys
    {
      assert t[l] == KindsOf(frame[l]);
    }
    FindSameNames(frame, t, x);
  }

  // Storing a value of the same kind changes no name.
  lemma PutView(st: State, r: Ref, b: Binding)
    requires ValidRef(st, r) && b.cell.Scalar? == At(st, r).cell.Scalar?
    ensures View(Put(st, r, b)) == View(st)
  {
    var frame := st.frames[r.depth];
    var layer := frame[r.layer][r.name := b];
    assert KindsOf(layer) == KindsOf(frame[r.layer]);
    assert NamesOf(frame[r.layer := layer]) == NamesOf(frame);
  }

  lemma DeclareView(below: seq<Names>, t: Names, st: State, x: string, b: Binding)
    requires View(st) == below + [t] && t != []
    ensures Declare(st, x, b).Normal? || Declare(st, x, b) == Failed(Redeclared)
    ensures Declare(st, x, b).Normal? ==> View(Declare(st, x, b).st) == below + [Named(t, x, !b.cell.Scalar?)]
  {
    var d := |st.frames| - 1;
    var frame := st.frames[d];
    assert t == View(st)[d] == NamesOf(frame);
    var l := |frame| - 1;
    assert KindsOf(frame[l][x := b]) == KindsOf(frame[l])[x := !b.cell.Scalar?];
    assert NamesOf(frame[l := frame[l][x := b]]) == Named(t, x, !b.cell.Scalar?);
    var st' := st.(frames := st.frames[d := frame[l := frame[l][x := b]]]);
    assert View(st') == View(st)[d := Named(t, x, !b.cell.Scalar?)];
    assert (below + [t])[d := Named(t, x, !b.cell.Scalar?)] == below + [Named(t, x, !b.cell.Scalar?)];
  }

  lemma PushView(below: seq<Names>, t: Names, st: State)
    requires View(st) == below + [t]
    ensures st.frames != [] && View(PushLayer(st)) == below + [t + [map[]]]
  {
    var d := |st.frames| - 1;
    assert t == View(st)[d] == NamesOf(st.frames[d]);
    assert NamesOf(st.frames[d] + [map[]]) == t + [map[]];
    assert View(PushLayer(st)) == View(st)[d := t + [map[]]];
  }

  // The top frame consists of the layers `outer` and one more.
  ghost predicate Above(below: seq<Names>, outer: Names, st: State) {
    && |st.frames| == |below| + 1
    && View(st)[..|below|] == below
    && |View(st)[|below|]| == |outer| + 1 && View(st)[|below|][..|outer|] == outer
  }

  lemma PopView(below: seq<Names>, outer: Names, st: State)
    requires Above(below, outer, st)
    ensures View(PopLayer(st)) == below + [outer]
  {
    var d := |st.frames| - 1;
    var frame := st.frames[d];
    assert View(st)[d] == NamesOf(frame);
    assert NamesOf(frame[..|frame| - 1]) == outer;
    assert View(PopLayer(st)) == View(st)[d := outer];
  }

  lemma IsAbove(below: seq<Names>, t: Names, st: State)
    requires View(st) == below + [t] && t != []
    ensures Above(below, t[..|t| - 1], st)
  {
  }

  // ----- every step keeps the names and misuses nothing -----

  ghost predicate ExprFine(r: Result<Val>, v: seq<Names>, k: Kind) {
    match r
    case Ok(x, st) => View(st) == v && Has(x, k)
    case OutOfFuel => true
    case Fail(w) => w != Misuse
  }

  ghost predicate ArgsFine(r: Result<seq<Val>>, v: seq<Names>, params: seq<Ast.Param>) {
    match r
    case Ok(xs, st) => View(st) == v && |xs| == |params| && forall i | 0 <= i < |xs| :: Has(xs[i], ParamKind(params[i]))
    case OutOfFuel => true
    case Fail(w) => w != Misuse
  }

  ghost predicate InitFine(r: Result<seq<int>>, v: seq<Names>) {
    match r
    case Ok(_, st) => View(st) == v
    case OutOfFuel => true
    case Fail(w) => w != Misuse
  }

  predicate Gave(gives: bool, x: Val) {
    if gives then x.VInt? else true
  }

  ghost predicate StmtFine(o: Outcome, v: seq<Names>, gives: bool) {
    match o
    case Normal(st) => View(st) == v
    case Broke(st) => View(st) == v
    case Continued(st) => View(st) == v
    case Returned(x, st) => View(st) == v && Gave(gives, x)
    case Stopped => true
    case Failed(w) => w != Misuse
  }

  // In the middle of a block's items, whose own layer may have grown.
  ghost predicate ItemsFine(o: Outcome, below: seq<Names>, outer: Names, gives: bool) {
    match o
    case Normal(st) => Above(below, outer, st)
    case Broke(st) => Above(below, outer, st)
    case Continued(st) => Above(below, outer, st)
    case Returned(x, st) => Above(below, outer, st) && Gave(gives, x)
    case Stopped => true
    case Failed(w) => w != Misuse
  }

  lemma ReadElemFine(below: seq<Names>, t: Names, x: string, i: Val, st: State)
    requires View(st) == below + [t] && KindOf(t, x).Table? && i.VInt?
    ensures ExprFine(ReadElem(st, x, i), below + [t], Number)
  {
    FindView(below, t, st, x);
  }

  lemma WriteVarFine(below: seq<Names>, t: Names, x: string, v: Val, st: State, gives: bool)
    requires View(st) == below + [t] && KindOf(t, x).Number? && v.VInt?
    ensures StmtFine(WriteVar(st, x, v), below + [t], gives)
  {
    FindView(below, t, st, x);
    if BindingOf(st, x).Some? {
      PutView(st, RefTo(st, x), Binding(false, Scalar(v.i)));
    } else if x in st.globals {
      assert View(st.(globals := st.globals[x := v.i])) == View(st);
    }
  }

  lemma WriteElemFine(below: seq<Names>, t: Names, x: string, i: Val, v: Val, st: State, gives: bool)
    requires View(st) == below + [t] && KindOf(t, x).Table? && i.VInt? && v.VInt?
    ensures StmtFine(WriteElem(st, x, i, v), below + [t], gives)
  {
    FindView(below, t, st, x);
    var o := WriteElem(st, x, i, v);
    if o.Normal? {
      var r := ArrayNamed(st, x).value;
      PutView(st, r, At(st, r).(cell := Array(At(st, r).cell.es[i.i := v.i])));
    }
  }

  lemma {:induction false} BindFine(params: seq<Ast.Param>, vs: seq<Val>)
    requires |params| == |vs| && forall i | 0 <= i < |vs| :: Has(vs[i], ParamKind(params[i]))
    ensures match BindParams(params, vs)
            case Bound(layer) => KindsOf(layer) == ParamNames(params)
            case Unbound(w) => w != Misuse
  {
    if params == [] {
    } else {
      var n := |params| - 1;
      BindFine(params[..n], vs[..n]);
      var p, r := params[n], BindParams(params[..n], vs[..n]);
      if r.Bound? && p.name !in r.layer {
        var b := Binding(false, if p.isArray then Alias(vs[n].r) else Scalar(vs[n].i));
        assert KindsOf(r.layer[p.name := b]) == KindsOf(r.layer)[p.name := p.isArray];
      }
    }
  }

  // ----- expressions -----

  lemma {:induction false} ExprKeeps(sig: Sig, below: seq<Names>, t: Names, e: Ast.Expr, k: nat, st: State)
    requires TypeFuncs(sig) && View(st) == below + [t] && TypeExpr(sig, t, e).Some?
    ensures ExprFine(EvalExpr(sig.fs, k, e, st), below + [t], TypeExpr(sig, t, e).value)
    decreases k, 0, e, 1
  {
    hide View, ReadElem, Invoke, Apply, ApplyUnary, TypeFuncs;
    match e
    case Num(_) =>
    case Paren(i) => ExprKeeps(sig, below, t, i, k, st);
    case Var(x) => FindView(below, t, st, x);
    case Index(x, i) =>
      ExprKeeps(sig, below, t, i, k, st);
      var r := EvalExpr(sig.fs, k, i, st);
      if r.Ok? {
        ReadElemFine(below, t, x, r.v, r.st);
      }
    case Call(f, args) =>
      ArgsKeep(sig, below, t, args, sig.fs[f].params, k, st);
      var r := EvalArgs(sig.fs, k, args, st);
      if r.Ok? && k > 0 {
        InvokeKeeps(sig, below + [t], f, k - 1, r.v, r.st);
      }
    case Unary(_, a) => ExprKeeps(sig, below, t, a, k, st);
    case Binary(op, l, r) =>
      ExprKeeps(sig, below, t, l, k, st);
      var a := EvalExpr(sig.fs, k, l, st);
      if a.Ok? {
        ExprKeeps(sig, below, t, r, k, a.st);
      }
  }

  lemma {:induction false} ArgsKeep(sig: Sig, below: seq<Names>, t: Names, es: seq<Ast.Expr>, params: seq<Ast.Param>,
          k: nat, st: State)
    requires TypeFuncs(sig) && View(st) == below + [t] && |es| == |params| && TypeArgs(sig, t, es, params)
    ensures ArgsFine(EvalArgs(sig.fs, k, es, st), below + [t], params)
    decreases k, 0, es, 0
  {
    hide View, TypeFuncs, TypeExpr, EvalExpr;
    if es == [] {
    } else {
      ExprKeeps(sig, below, t, es[0], k, st);
      var r := EvalExpr(sig.fs, k, es[0], st);
      if r.Ok? {
        ArgsKeep(sig, below, t, es[1..], params[1..], k, r.st);
      }
    }
  }

  // A call leaves the callers' names alone and gives a value if it is taken to.
  lemma {:induction false} InvokeKeeps(sig: Sig, below: seq<Names>, f: string, k: nat, vs: seq<Val>, st: State)
    requires TypeFuncs(sig) && View(st) == below && f in sig.fs && |sig.fs[f].params| == |vs|
    requires forall i | 0 <= i < |vs| :: Has(vs[i], ParamKind(sig.fs[f].params[i]))
    ensures ExprFine(Invoke(sig.fs, k, sig.fs[f], vs, st), below, if f in sig.gives then Number else Nothing)
    decreases k, 1
  {
    hide TypeItems, ReturnsItems, ExecBlock, BindParams;
    var fn := sig.fs[f];
    assert TypeFunc(sig, f in sig.gives, fn);
    BindFine(fn.params, vs);
    var r := BindParams(fn.params, vs);
    if r.Bound? {
      var st1 := st.(frames := st.frames + [[r.layer]]);
      assert NamesOf([r.layer]) == [ParamNames(fn.params)];
      assert View(st1) == below + [[ParamNames(fn.params)]];
      assert [ParamNames(fn.params)] + [map[]] == [ParamNames(fn.params), map[]];
      BlockKeeps(sig, f in sig.gives, below, [ParamNames(fn.params)], fn.body, k, st1);
      var o := ExecBlock(sig.fs, k, fn.body, st1);
      if f in sig.gives {
        ReturnsBlock(sig.fs, k, fn.body, st1);
      }
      CallFine(o, below, [ParamNames(fn.params)], f in sig.gives);
    }
  }

  lemma CallFine(o: Outcome, below: seq<Names>, t: Names, gives: bool)
    requires StmtFine(o, below + [t], gives) && (gives ==> !o.Normal?)
    ensures ExprFine(CallResult(o), below, if gives then Number else Nothing)
  {
    if o.Normal? || o.Returned? {
      assert View(PopFrame(o.st)) == View(o.st)[..|below|];
      assert (below + [t])[..|below|] == below;
    }
  }

  // ----- declarations -----

  lemma {:induction false} NumbersKeep(sig: Sig, below: seq<Names>, t: Names, es: seq<Ast.Expr>, k: nat, st: State)
    requires TypeFuncs(sig) && View(st) == below + [t] && AllNumbers(sig, t, es)
    ensures match EvalArgs(sig.fs, k, es, st)
            case Ok(vs, st') => View(st') == below + [t] && Ints(vs).Some?
            case OutOfFuel => true
            case Fail(w) => w != Misuse
    decreases k, 0, es, 0
  {
    hide View, TypeFuncs, TypeExpr, EvalExpr;
    if es == [] {
    } else {
      assert IsNumber(sig, t, es[0]);
      ExprKeeps(sig, below, t, es[0], k, st);
      var r := EvalExpr(sig.fs, k, es[0], st);
      if r.Ok? {
        NumbersKeep(sig, below, t, es[1..], k, r.st);
        var r2 := EvalArgs(sig.fs, k, es[1..], r.st);
        if r2.Ok? {
          IntsCons(r.v, r2.v);
        }
      }
    }
  }

  lemma IntsCons(v: Val, vs: seq<Val>)
    requires v.VInt? && Ints(vs).Some?
    ensures Ints([v] + vs).Some?
  {
    forall i | 0 <= i < |[v] + vs|
      ensures ([v] + vs)[i].VInt?
    {
      assert i > 0 ==> vs[i - 1] == VInt(Ints(vs).value[i - 1]);
    }
  }

  lemma {:induction false} InitKeeps(sig: Sig, below: seq<Names>, t: Names, init: Option<Ast.Init>, n: nat, k: nat,
          st: State)
    requires TypeFuncs(sig) && View(st) == below + [t]
    requires init.Some? && init.value.List? ==> AllNumbers(sig, t, init.value.es)
    ensures InitFine(EvalInit(sig.fs, k, init, n, st), below + [t])
    decreases k, 0, init, 0
  {
    hide View, TypeFuncs, IsNumber, Ints;
    if init.Some? && init.value.List? {
      NumbersKeep(sig, below, t, Ast.Prefix(init.value.es, n), k, st);
    }
  }

  lemma {:induction false} DefKeeps(sig: Sig, gives: bool, below: seq<Names>, t: Names, isConst: bool, def: Ast.Def,
          k: nat, st: State)
    requires TypeFuncs(sig) && View(st) == below + [t] && t != [] && TypeDef(sig, t, def).Some?
    ensures StmtFine(ExecDef(sig.fs, k, isConst, def, st), below + [TypeDef(sig, t, def).value], gives)
    ensures var o := ExecDef(sig.fs, k, isConst, def, st); o.Normal? || o.Stopped? || o.Failed?
    decreases k, 0, def, 0
  {
    hide View, TypeFuncs, TypeExpr, AllNumbers, Declare, EvalInit;
    match def.size
    case None =>
      InitKeeps(sig, below, t, def.init, 1, k, st);
      var r := EvalInit(sig.fs, k, def.init, 1, st);
      if r.Ok? {
        DeclareView(below, t, r.st, def.name, Binding(isConst, Scalar(r.v[0])));
      }
    case Some(e) =>
      ExprKeeps(sig, below, t, e, k, st);
      var r := EvalExpr(sig.fs, k, e, st);
      if r.Ok? && r.v.i > 0 {
        InitKeeps(sig, below, t, def.init, r.v.i, k, r.st);
        var r2 := EvalInit(sig.fs, k, def.init, r.v.i, r.st);
        if r2.Ok? {
          DeclareView(below, t, r2.st, def.name, Binding(isConst, Array(r2.v)));
        }
      }
  }

  lemma {:induction false} DefsKeep(sig: Sig, gives: bool, below: seq<Names>, t: Names, isConst: bool,
          defs: seq<Ast.Def>, k: nat, st: State)
    requires TypeFuncs(sig) && View(st) == below + [t] && t != [] && TypeDefs(sig, t, defs).Some?
    ensures StmtFine(ExecDefs(sig.fs, k, isConst, defs, st), below + [TypeDefs(sig, t, defs).value], gives)
    ensures var o := ExecDefs(sig.fs, k, isConst, defs, st); o.Normal? || o.Stopped? || o.Failed?
    decreases k, 0, defs, 0
  {
    hide View, TypeFuncs, TypeDef, ExecDef;
    if defs == [] {
    } else {
      DefKeeps(sig, gives, below, t, isConst, defs[0], k, st);
      var o := ExecDef(sig.fs, k, isConst, defs[0], st);
      if o.Normal? {
        DefsKeep(sig, gives, below, TypeDef(sig, t, defs[0]).value, isConst, defs[1..], k, o.st);
      }
    }
  }

  // ----- statements -----

  lemma {:induction false} BlockKeeps(sig: Sig, gives: bool, below: seq<Names>, t: Names, items: seq<Ast.Item>,
          k: nat, st: State)
    requires TypeFuncs(sig) && View(st) == below + [t] && TypeItems(sig, gives, t + [map[]], items)
    ensures StmtFine(ExecBlock(sig.fs, k, items, st), below + [t], gives)
    decreases k, 0, items, 1
  {
    hide View, TypeFuncs, TypeItems, ExecItems, Above, PopLayer, PushLayer;
    PushView(below, t, st);
    ItemsKeep(sig, gives, below, t, t + [map[]], items, k, PushLayer(st));
    var o := ExecItems(sig.fs, k, items, PushLayer(st));
    if o.Normal? || o.Broke? || o.Continued? || o.Returned? {
      PopView(below, t, o.st);
    }
  }

  lemma {:induction false} ItemsKeep(sig: Sig, gives: bool, below: seq<Names>, outer: Names, t: Names,
          items: seq<Ast.Item>, k: nat, st: State)
    requires TypeFuncs(sig) && View(st) == below + [t] && |t| == |outer| + 1 && t[..|outer|] == outer
    requires TypeItems(sig, gives, t, items)
    ensures ItemsFine(ExecItems(sig.fs, k, items, st), below, outer, gives)
    decreases k, 0, items, 0
  {
    hide View, TypeFuncs, TypeItem, ExecItem, Above;
    if items == [] {
      IsAbove(below, t, st);
    } else {
      ItemKeeps(sig, gives, below, t, items[0], k, st);
      var o := ExecItem(sig.fs, k, items[0], st);
      if o.Normal? {
        ItemsKeep(sig, gives, below, outer, TypeItem(sig, gives, t, items[0]).value, items[1..], k, o.st);
      } else if o.Broke? || o.Continued? || o.Returned? {
        IsAbove(below, t, o.st);
      }
    }
  }

  // A declaration adds its names; a statement leaves them as they were, however it ends.
  lemma {:induction false} ItemKeeps(sig: Sig, gives: bool, below: seq<Names>, t: Names, item: Ast.Item, k: nat,
          st: State)
    requires TypeFuncs(sig) && View(st) == below + [t] && t != [] && TypeItem(sig, gives, t, item).Some?
    ensures var o := ExecItem(sig.fs, k, item, st);
      StmtFine(o, below + [if o.Normal? then TypeItem(sig, gives, t, item).value else t], gives)
    decreases k, 0, item, 0
  {
    hide View, TypeFuncs, TypeStmt, TypeDefs, ExecStmt, ExecDefs;
    match item
    case Decl(isConst, defs) => DefsKeep(sig, gives, below, t, isConst, defs, k, st);
    case Do(s) => StmtKeeps(sig, gives, below, t, s, k, st);
  }

  lemma {:induction false} StmtKeeps(sig: Sig, gives: bool, below: seq<Names>, t: Names, s: Ast.Stmt, k: nat, st: State)
    requires TypeFuncs(sig) && View(st) == below + [t] && TypeStmt(sig, gives, t, s)
    ensures StmtFine(ExecStmt(sig.fs, k, s, st), below + [t], gives)
    decreases k, 0, s, 2
  {
    hide View, TypeFuncs, TypeExpr, TypeItems, EvalExpr, ExecBlock, WriteVar, WriteElem;
    match s
    case Return(e) =>
      if e.Some? {
        ExprKeeps(sig, below, t, e.value, k, st);
      }
    case Assign(x, idx, e) =>
      ExprKeeps(sig, below, t, e, k, st);
      var r := EvalExpr(sig.fs, k, e, st);
      if r.Ok? {
        AssignKeeps(sig, gives, below, t, s, r.v, k, r.st);
      }
    case Eval(e) =>
      if e.Some? {
        ExprKeeps(sig, below, t, e.value, k, st);
      }
    case Block(items) => BlockKeeps(sig, gives, below, t, items, k, st);
    case If(_, _, _) => IfKeeps(sig, gives, below, t, s, k, st);
    case While(_, _) => WhileKeeps(sig, gives, below, t, s, k, st);
    case Continue =>
    case Break =>
  }

  // The rest of an assignment once its value is known.
  lemma {:induction false} AssignKeeps(sig: Sig, gives: bool, below: seq<Names>, t: Names, s: Ast.Stmt, v: Val, k: nat,
          st: State)
    requires TypeFuncs(sig) && View(st) == below + [t] && s.Assign? && TypeStmt(sig, gives, t, s) && v.VInt?
    ensures s.idx.None? ==> StmtFine(WriteVar(st, s.name, v), below + [t], gives)
    ensures s.idx.Some? ==>
      match EvalExpr(sig.fs, k, s.idx.value, st)
      case Ok(vi, st') => StmtFine(WriteElem(st', s.name, vi, v), below + [t], gives)
      case OutOfFuel => true
      case Fail(w) => w != Misuse
    decreases k, 0, s, 1
  {
    hide View, TypeFuncs, TypeExpr, EvalExpr, WriteVar, WriteElem;
    match s.idx
    case None => WriteVarFine(below, t, s.name, v, st, gives);
    case Some(i) =>
      ExprKeeps(sig, below, t, i, k, st);
      var r := EvalExpr(sig.fs, k, i, st);
      if r.Ok? {
        WriteElemFine(below, t, s.name, r.v, v, r.st, gives);
      }
  }

  lemma {:induction false} IfKeeps(sig: Sig, gives: bool, below: seq<Names>, t: Names, s: Ast.Stmt, k: nat, st: State)
    requires TypeFuncs(sig) && View(st) == below + [t] && s.If? && TypeStmt(sig, gives, t, s)
    ensures StmtFine(ExecIf(sig.fs, k, s, st), below + [t], gives)
    decreases k, 0, s, 0
  {
    hide View, TypeFuncs, TypeExpr, EvalExpr, ExecStmt;
    ExprKeeps(sig, below, t, s.cond, k, st);
    var r := EvalExpr(sig.fs, k, s.cond, st);
    if r.Ok? && r.v.i != 0 {
      StmtKeeps(sig, gives, below, t, s.thn, k, r.st);
    } else if r.Ok? && s.els.Some? {
      StmtKeeps(sig, gives, below, t, s.els.value, k, r.st);
    }
  }

  lemma {:induction false} WhileKeeps(sig: Sig, gives: bool, below: seq<Names>, t: Names, s: Ast.Stmt, k: nat,
          st: State)
    requires TypeFuncs(sig) && View(st) == below + [t] && s.While? && TypeStmt(sig, gives, t, s)
    ensures StmtFine(ExecWhile(sig.fs, k, s, st), below + [t], gives)
    decreases k, 0, s, 1
  {
    hide View, TypeFuncs, TypeExpr, EvalExpr, ExecStmt;
    ExprKeeps(sig, below, t, s.cond, k, st);
    var r := EvalExpr(sig.fs, k, s.cond, st);
    if r.Ok? && r.v.i != 0 {
      StmtKeeps(sig, gives, below, t, s.body, k, r.st);
      var o := ExecStmt(sig.fs, k, s.body, r.st);
      if k > 0 && (o.Normal? || o.Continued?) {
        WhileKeeps(sig, gives, below, t, s, k - 1, o.st);
      }
    }
  }

  // ----- giving a value -----

  lemma {:induction false} ReturnsStmt(fs: Funcs, k: nat, s: Ast.Stmt, st: State)
    requires Returns(s)
    ensures !ExecStmt(fs, k, s, st).Normal?
    decreases s, 1
  {
    hide EvalExpr, ExecBlock, ReturnsItems;
    match s
    case Return(_) =>
    case Block(items) => ReturnsBlock(fs, k, items, st);
    case If(c, thn, els) =>
      var r := EvalExpr(fs, k, c, st);
      if r.Ok? {
        ReturnsStmt(fs, k, thn, r.st);
        ReturnsStmt(fs, k, els.value, r.st);
        assert ExecElse(fs, k, els, r.st) == ExecStmt(fs, k, els.value, r.st);
      }
  }

  lemma {:induction false} ReturnsBlock(fs: Funcs, k: nat, items: seq<Ast.Item>, st: State)
    requires ReturnsItems(items)
    ensures !ExecBlock(fs, k, items, st).Normal?
    decreases items, 1
  {
    hide ExecItems;
    if st.frames != [] {
      ReturnsAll(fs, k, items, PushLayer(st));
    }
  }

  lemma {:induction false} ReturnsAll(fs: Funcs, k: nat, items: seq<Ast.Item>, st: State)
    requires ReturnsItems(items)
    ensures !ExecItems(fs, k, items, st).Normal?
    decreases items, 0
  {
    hide ReturnsItem, ExecItem;
    if ReturnsItem(items[0]) {
      ReturnsOne(fs, k, items[0], st);
    } else {
      var o := ExecItem(fs, k, items[0], st);
      if o.Normal? {
        ReturnsAll(fs, k, items[1..], o.st);
      }
    }
  }

  lemma {:induction false} ReturnsOne(fs: Funcs, k: nat, item: Ast.Item, st: State)
    requires ReturnsItem(item)
    ensures !ExecItem(fs, k, item, st).Normal?
    decreases item, 0
  {
    hide Returns, ExecStmt;
    ReturnsStmt(fs, k, item.s, st);
  }

  // ----- the main result -----

  // A well-typed program misuses no value, at any fuel.
  lemma WellTypedRuns(p: Ast.Program, k: nat)
    requires WellTyped(p)
    ensures RunMain(p, k) != Fail(Misuse)
  {
    hide TypeFuncs, Invoke;
    var gives :| TypeFuncs(Sig(FuncsOf(p), gives));
    var sig := Sig(FuncsOf(p), gives);
    var globals := GlobalsOf(p, k);
    if globals.Some? && "main" in sig.fs && sig.fs["main"].params == [] {
      var st := State(globals.value, []);
      assert View(st) == [];
      InvokeKeeps(sig, [], "main", k, [], st);
    }
  }

  // ----- programs of numbers only -----

  predicate ScalarExpr(fs: Funcs, e: Ast.Expr)
    decreases e, 1
  {
    match e
    case Num(_) => true
    case Paren(i) => ScalarExpr(fs, i)
    case Var(_) => true
    case Index(_, _) => false
    case Call(f, args) => f in fs && |fs[f].params| == |args| && ScalarAll(fs, args)
    case Unary(_, a) => ScalarExpr(fs, a)
    case Binary(_, l, r) => ScalarExpr(fs, l) && ScalarExpr(fs, r)
  }

  predicate ScalarAll(fs: Funcs, es: seq<Ast.Expr>)
    decreases es, 0
  {
    es != [] ==> ScalarExpr(fs, es[0]) && ScalarAll(fs, es[1..])
  }

  predicate ScalarDefs(fs: Funcs, defs: seq<Ast.Def>) {
    forall d | d in defs :: d.size.None? && (d.init.Some? && d.init.value.List? ==> ScalarAll(fs, d.init.value.es))
  }

  predicate ScalarStmt(fs: Funcs, s: Ast.Stmt)
    decreases s, 0
  {
    match s
    case Return(e) => e.Some? && ScalarExpr(fs, e.value)
    case Assign(_, idx, e) => idx.None? && ScalarExpr(fs, e)
    case Eval(e) => e.Some? ==> ScalarExpr(fs, e.value)
    case Block(items) => ScalarItems(fs, items)
    case If(c, thn, els) => ScalarExpr(fs, c) && ScalarStmt(fs, thn) && (els.Some? ==> ScalarStmt(fs, els.value))
    case While(c, body) => ScalarExpr(fs, c) && ScalarStmt(fs, body)
    case Continue => true
    case Break => true
  }

  predicate ScalarItems(fs: Funcs, items: seq<Ast.Item>)
    decreases items, 0
  {
    items != [] ==> ScalarItem(fs, items[0]) && ScalarItems(fs, items[1..])
  }

  predicate ScalarItem(fs: Funcs, item: Ast.Item)
    decreases item, 0
  {
    match item
    case Decl(_, defs) => ScalarDefs(fs, defs)
    case Do(s) => ScalarStmt(fs, s)
  }

  predicate ScalarFunc(fs: Funcs, f: Ast.Func) {
    (forall p | p in f.params :: !p.isArray) && ScalarItems(fs, f.body) && ReturnsItems(f.body)
  }

  // No array anywhere, every call of a function of the program with its number of arguments, and every
  // function gives a value however it is left.
  predicate ScalarProgram(p: Ast.Program) {
    var fs := FuncsOf(p);
    forall f | f in fs :: ScalarFunc(fs, fs[f])
  }

  predicate NoTables(t: Names) {
    forall l, x | 0 <= l < |t| && x in t[l] :: !t[l][x]
  }

  // Every function gives a value.
  function AllGive(fs: Funcs): Sig {
    Sig(fs, fs.Keys)
  }

  ghost predicate NoArrayParams(fs: Funcs) {
    forall f, p | f in fs && p in fs[f].params :: !p.isArray
  }

  lemma {:induction false} ScalarTyped(fs: Funcs, t: Names, e: Ast.Expr)
    requires NoArrayParams(fs) && NoTables(t) && ScalarExpr(fs, e)
    ensures IsNumber(AllGive(fs), t, e)
    decreases e, 1
  {
    match e
    case Num(_) =>
    case Paren(i) => ScalarTyped(fs, t, i);
    case Var(_) =>
    case Call(f, args) => ArgsTyped(fs, t, args, fs[f].params);
    case Unary(_, a) => ScalarTyped(fs, t, a);
    case Binary(_, l, r) =>
      ScalarTyped(fs, t, l);
      ScalarTyped(fs, t, r);
  }

  lemma {:induction false} ArgsTyped(fs: Funcs, t: Names, es: seq<Ast.Expr>, params: seq<Ast.Param>)
    requires NoArrayParams(fs) && NoTables(t) && ScalarAll(fs, es) && |es| == |params|
    requires forall p | p in params :: !p.isArray
    ensures TypeArgs(AllGive(fs), t, es, params)
    decreases es, 0
  {
    if es == [] {
    } else {
      ScalarTyped(fs, t, es[0]);
      ArgsTyped(fs, t, es[1..], params[1..]);
    }
  }

  lemma {:induction false} InitsTyped(fs: Funcs, t: Names, es: seq<Ast.Expr>)
    requires NoArrayParams(fs) && NoTables(t) && ScalarAll(fs, es)
    ensures AllNumbers(AllGive(fs), t, es)
  {
    if es == [] {
    } else {
      ScalarTyped(fs, t, es[0]);
      InitsTyped(fs, t, es[1..]);
      assert es == [es[0]] + es[1..];
    }
  }

  lemma {:induction false} DefsTyped(fs: Funcs, t: Names, defs: seq<Ast.Def>)
    requires NoArrayParams(fs) && NoTables(t) && t != [] && ScalarDefs(fs, defs)
    ensures var r := TypeDefs(AllGive(fs), t, defs); r.Some? && NoTables(r.value)
    decreases defs
  {
    if defs == [] {
    } else {
      var d := defs[0];
      assert d in defs;
      if d.init.Some? && d.init.value.List? {
        InitsTyped(fs, t, d.init.value.es);
      }
      DefsTyped(fs, Named(t, d.name, false), defs[1..]);
    }
  }

  lemma {:induction false} StmtTyped(fs: Funcs, t: Names, s: Ast.Stmt)
    requires NoArrayParams(fs) && NoTables(t) && ScalarStmt(fs, s)
    ensures TypeStmt(AllGive(fs), true, t, s)
    decreases s, 0
  {
    match s
    case Return(e) => ScalarTyped(fs, t, e.value);
    case Assign(_, _, e) => ScalarTyped(fs, t, e);
    case Eval(e) =>
      if e.Some? {
        ScalarTyped(fs, t, e.value);
      }
    case Block(items) => ItemsTyped(fs, t + [map[]], items);
    case If(c, thn, els) =>
      ScalarTyped(fs, t, c);
      StmtTyped(fs, t, thn);
      if els.Some? {
        StmtTyped(fs, t, els.value);
      }
    case While(c, body) =>
      ScalarTyped(fs, t, c);
      StmtTyped(fs, t, body);
    case Continue =>
    case Break =>
  }

  lemma {:induction false} ItemsTyped(fs: Funcs, t: Names, items: seq<Ast.Item>)
    requires NoArrayParams(fs) && NoTables(t) && t != [] && ScalarItems(fs, items)
    ensures TypeItems(AllGive(fs), true, t, items)
    decreases items, 0
  {
    if items == [] {
    } else {
      ItemTyped(fs, t, items[0]);
      ItemsTyped(fs, TypeItem(AllGive(fs), true, t, items[0]).value, items[1..]);
    }
  }

  lemma {:induction false} ItemTyped(fs: Funcs, t: Names, item: Ast.Item)
    requires NoArrayParams(fs) && NoTables(t) && t != [] && ScalarItem(fs, item)
    ensures var r := TypeItem(AllGive(fs), true, t, item); r.Some? && NoTables(r.value)
    decreases item, 0
  {
    match item
    case Decl(_, defs) => DefsTyped(fs, t, defs);
    case Do(s) => StmtTyped(fs, t, s);
  }

  lemma {:induction false} ParamsScalar(params: seq<Ast.Param>)
    requires forall p | p in params :: !p.isArray
    ensures forall x | x in ParamNames(params) :: !ParamNames(params)[x]
  {
    if params == [] {
    } else {
      ParamsScalar(params[..|params| - 1]);
    }
  }

  // Such a program is well typed.
  lemma ScalarWellTyped(p: Ast.Program)
    requires ScalarProgram(p)
    ensures WellTyped(p)
  {
    var fs := FuncsOf(p);
    assert NoArrayParams(fs) by {
      assert forall f | f in fs :: ScalarFunc(fs, fs[f]);
    }
    forall f | f in fs
      ensures TypeFunc(AllGive(fs), f in AllGive(fs).gives, fs[f])
    {
      assert ScalarFunc(fs, fs[f]);
      ParamsScalar(fs[f].params);
      ItemsTyped(fs, [ParamNames(fs[f].params), map[]], fs[f].body);
    }
    assert TypeFuncs(AllGive(fs));
  }
}
