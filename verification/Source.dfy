// What a source program means: a big-step evaluator over a stack of environments. Every
// entry into a block gets a fresh layer, so a declaration inside a loop body makes a new
// variable each time round. Arrays are passed by reference; a reference names the call
// depth, the layer and the identifier of the array it was made from.
//
// Fuel bounds only loop iterations and call depth, so every run that ends does so at some fuel.
module Source {
  import opened Wrappers
  import opened Int64
  import opened Scopes
  import Ast

  datatype Ref = Ref(depth: nat, layer: nat, name: string)

  datatype Val = VInt(i: int) | VRef(r: Ref) | VVoid

  datatype Cell = Scalar(v: int) | Array(es: seq<int>) | Alias(r: Ref)

  datatype Binding = Binding(isConst: bool, cell: Cell)

  type Layer = map<string, Binding>

  datatype State = State(globals: map<string, int>, frames: seq<seq<Layer>>)

  // `Trap` is behaviour the language leaves undefined and no compiler can foresee: an index out of
  // range, a division without a result. `Misuse` is an array used as a number or a number as an
  // array, or the value of a void call. The other reasons are the errors the code generator
  // promises to report.
  datatype Wrong = Undeclared | Redeclared | ConstStore | BadCall | StrayJump | Misuse | Trap

  datatype Result<+T> = Ok(v: T, st: State) | OutOfFuel | Fail(why: Wrong) {
    predicate IsFailure() { !Ok? }
    function PropagateFailure<U>(): Result<U>
      requires !Ok?
    { if OutOfFuel? then Result.OutOfFuel else Result.Fail(why) }
    function Extract(): (T, State)
      requires Ok?
    { (v, st) }
  }

  datatype Outcome =
    | Normal(st: State)
    | Broke(st: State)
    | Continued(st: State)
    | Returned(v: Val, st: State)
    | Stopped
    | Failed(why: Wrong)

  type Funcs = map<string, Ast.Func>

  // ----- variables -----

  function TopFrame(st: State): seq<Layer> {
    if st.frames == [] then [] else st.frames[|st.frames| - 1]
  }

  function BindingOf(st: State, x: string): Option<Binding> {
    var l :- Find(TopFrame(st), x);
    Some(TopFrame(st)[l][x])
  }

  function RefTo(st: State, x: string): (r: Ref)
    requires Find(TopFrame(st), x).Some?
  {
    Ref(|st.frames| - 1, Find(TopFrame(st), x).value, x)
  }

  predicate ValidRef(st: State, r: Ref) {
    && r.depth < |st.frames|
    && r.layer < |st.frames[r.depth]|
    && r.name in st.frames[r.depth][r.layer]
  }

  function At(st: State, r: Ref): Binding
    requires ValidRef(st, r)
  {
    st.frames[r.depth][r.layer][r.name]
  }

  function Put(st: State, r: Ref, b: Binding): State
    requires ValidRef(st, r)
  {
    var frame := st.frames[r.depth];
    var layer := frame[r.layer][r.name := b];
    st.(frames := st.frames[r.depth := frame[r.layer := layer]])
  }

  // The array a name stands for: itself, or what an array parameter was bound to.
  function ArrayNamed(st: State, x: string): Option<Ref> {
    var b :- BindingOf(st, x);
    match b.cell
    case Scalar(_) => None
    case Array(_) => Some(RefTo(st, x))
    case Alias(r) => Some(r)
  }

  function ReadVar(st: State, x: string): Result<Val> {
    match BindingOf(st, x)
    case None => if x in st.globals then Ok(VInt(st.globals[x]), st) else Fail(Undeclared)
    case Some(b) =>
      match b.cell
      case Scalar(v) => Ok(VInt(v), st)
      case Array(_) => Ok(VRef(RefTo(st, x)), st)
      case Alias(r) => Ok(VRef(r), st)
  }

  function ReadElem(st: State, x: string, i: Val): Result<Val> {
    if BindingOf(st, x).None? && x !in st.globals then Fail(Undeclared)
    else
      match (ArrayNamed(st, x), i)
      case (Some(r), VInt(k)) =>
        if ValidRef(st, r) && At(st, r).cell.Array? && 0 <= k < |At(st, r).cell.es|
        then Ok(VInt(At(st, r).cell.es[k]), st)
        else Fail(Trap)
      case _ => Fail(Misuse)
  }

  function WriteVar(st: State, x: string, v: Val): Outcome {
    match BindingOf(st, x)
    case None =>
      if x !in st.globals then Failed(Undeclared)
      else if v.VInt? then Normal(st.(globals := st.globals[x := v.i]))
      else Failed(Misuse)
    case Some(b) =>
      if b.isConst then Failed(ConstStore)
      else if b.cell.Scalar? && v.VInt? then Normal(Put(st, RefTo(st, x), Binding(false, Scalar(v.i))))
      else Failed(Misuse)
  }

  function WriteElem(st: State, x: string, i: Val, v: Val): Outcome {
    if BindingOf(st, x).None? && x !in st.globals then Failed(Undeclared)
    else if BindingOf(st, x).Some? && BindingOf(st, x).value.isConst then Failed(ConstStore)
    else
      match (ArrayNamed(st, x), i, v)
      case (Some(r), VInt(k), VInt(n)) =>
        if ValidRef(st, r) && At(st, r).cell.Array? && 0 <= k < |At(st, r).cell.es|
        then
          var b := At(st, r);
          Normal(Put(st, r, b.(cell := Array(b.cell.es[k := n]))))
        else Failed(Trap)
      case _ => Failed(Misuse)
  }

  function PushLayer(st: State): State
    requires st.frames != []
  {
    var d := |st.frames| - 1;
    st.(frames := st.frames[d := st.frames[d] + [map[]]])
  }

  function PopLayer(st: State): State {
    if st.frames == [] || TopFrame(st) == [] then st
    else
      var d := |st.frames| - 1;
      st.(frames := st.frames[d := st.frames[d][..|st.frames[d]| - 1]])
  }

  // A new variable in the top layer, which must not already have the name.
  function Declare(st: State, x: string, b: Binding): Outcome {
    if TopFrame(st) == [] then Failed(Trap)
    else
      var d, l := |st.frames| - 1, |TopFrame(st)| - 1;
      if x in st.frames[d][l] then Failed(Redeclared)
      else Normal(st.(frames := st.frames[d := st.frames[d][l := st.frames[d][l][x := b]]]))
  }

  // ----- operators -----

  function Truth(b: bool): int {
    if b then 1 else 0
  }

  // Both operands of `||` and `&&` have been evaluated by the time the operator is applied.
  function Apply(op: Ast.BinOp, a: int, b: int): Option<int> {
    match op
    case Or => Some(Truth(a != 0 || b != 0))
    case And => Some(Truth(a != 0 && b != 0))
    case Eq => Some(Truth(a == b))
    case Ne => Some(Truth(a != b))
    case Lt => Some(Truth(a < b))
    case Gt => Some(Truth(a > b))
    case Le => Some(Truth(a <= b))
    case Ge => Some(Truth(a >= b))
    case Add => Some(Wrap(a + b))
    case Sub => Some(Wrap(a - b))
    case Mul => Some(Wrap(a * b))
    case Div => if Divides(a, b) then Some(Quotient(a, b)) else None
    case Mod => if Divides(a, b) then Some(Remainder(a, b)) else None
  }

  // On words every operator gives a word, unless it divides by zero or its quotient is too large.
  lemma ApplyHasResult(op: Ast.BinOp, a: int, b: int)
    requires InRange(a) && InRange(b)
    ensures Apply(op, a, b).Some? <==> (op.Div? || op.Mod? ==> b != 0 && InRange(Quotient(a, b)))
    ensures Apply(op, a, b).Some? ==> InRange(Apply(op, a, b).value)
  {
    hide Quotient, Remainder, Divides, Wrap;
    DividesExactly(a, b);
  }

  function ApplyUnary(op: Ast.UnOp, a: int): int {
    match op
    case Pos => a
    case Neg => Wrap(0 - a)
    case Not => Truth(a == 0)
  }

  // ----- calls -----

  datatype Bound = Bound(layer: Layer) | Unbound(why: Wrong)

  // Scalars are copied into the callee's parameters; array parameters are bound to the caller's array.
  function BindParams(params: seq<Ast.Param>, vs: seq<Val>): Bound
    requires |params| == |vs|
  {
    if params == [] then Bound(map[])
    else
      var n := |params| - 1;
      match BindParams(params[..n], vs[..n])
      case Unbound(w) => Unbound(w)
      case Bound(layer) =>
        var p := params[n];
        if p.name in layer then Unbound(Redeclared)
        else if p.isArray && vs[n].VRef? then Bound(layer[p.name := Binding(false, Alias(vs[n].r))])
        else if !p.isArray && vs[n].VInt? then Bound(layer[p.name := Binding(false, Scalar(vs[n].i))])
        else Unbound(Misuse)
  }

  function PopFrame(st: State): State {
    if st.frames == [] then st else st.(frames := st.frames[..|st.frames| - 1])
  }

  function CallResult(o: Outcome): Result<Val> {
    match o
    case Normal(st) => Ok(VVoid, PopFrame(st))
    case Returned(v, st) => Ok(v, PopFrame(st))
    case Broke(_) => Fail(StrayJump)
    case Continued(_) => Fail(StrayJump)
    case Stopped => OutOfFuel
    case Failed(w) => Fail(w)
  }

  function Invoke(fs: Funcs, k: nat, f: Ast.Func, vs: seq<Val>, st: State): Result<Val>
    requires |f.params| == |vs|
    decreases k
  {
    match BindParams(f.params, vs)
    case Unbound(w) => Fail(w)
    case Bound(layer) => CallResult(ExecBlock(fs, k, f.body, st.(frames := st.frames + [[layer]])))
  }

  // ----- expressions -----

  function EvalExpr(fs: Funcs, k: nat, e: Ast.Expr, st: State): Result<Val>
    decreases k, e, 1
  {
    match e
    case Num(n) => Ok(VInt(Wrap(n)), st)
    case Paren(inner) => EvalExpr(fs, k, inner, st)
    case Var(x) => ReadVar(st, x)
    case Index(x, i) =>
      var (vi, st1) :- EvalExpr(fs, k, i, st);
      ReadElem(st1, x, vi)
    case Call(f, args) =>
      if f !in fs || |fs[f].params| != |args| then Fail(BadCall)
      else
        var (vs, st1) :- EvalArgs(fs, k, args, st);
        if k == 0 then OutOfFuel else Invoke(fs, k - 1, fs[f], vs, st1)
    case Unary(op, a) =>
      var (v, st1) :- EvalExpr(fs, k, a, st);
      CombineUnary(op, v, st1)
    case Binary(op, l, r) =>
      var (a, st1) :- EvalExpr(fs, k, l, st);
      EvalRest(fs, k, op, a, r, st1)
  }

  // The left operand of `||` and `&&` is tested before the right one is evaluated.
  function EvalRest(fs: Funcs, k: nat, op: Ast.BinOp, a: Val, r: Ast.Expr, st: State): Result<Val>
    decreases k, r, 2
  {
    if (op.Or? || op.And?) && !a.VInt? then Fail(Misuse)
    else
      var (b, st1) :- EvalExpr(fs, k, r, st);
      Combine(op, a, b, st1)
  }

  function CombineUnary(op: Ast.UnOp, v: Val, st: State): Result<Val> {
    if op.Pos? then Ok(v, st)
    else if v.VInt? then Ok(VInt(ApplyUnary(op, v.i)), st)
    else Fail(Misuse)
  }

  function Combine(op: Ast.BinOp, a: Val, b: Val, st: State): Result<Val> {
    if !a.VInt? || !b.VInt? then Fail(Misuse)
    else
      match Apply(op, a.i, b.i)
      case None => Fail(Trap)
      case Some(v) => Ok(VInt(v), st)
  }

  function EvalArgs(fs: Funcs, k: nat, es: seq<Ast.Expr>, st: State): (r: Result<seq<Val>>)
    ensures r.Ok? ==> |r.v| == |es|
    decreases k, es, 0
  {
    if es == [] then Ok([], st)
    else
      var (v, st1) :- EvalExpr(fs, k, es[0], st);
      var (vs, st2) :- EvalArgs(fs, k, es[1..], st1);
      Ok([v] + vs, st2)
  }

  // ----- declarations -----

  function Ints(vs: seq<Val>): (r: Option<seq<int>>)
    ensures r.Some? ==> |r.value| == |vs| && forall i | 0 <= i < |vs| :: vs[i] == VInt(r.value[i])
    ensures r.None? ==> exists i | 0 <= i < |vs| :: !vs[i].VInt?
  {
    if vs == [] then Some([])
    else if !vs[|vs| - 1].VInt? then None
    else
      var rest :- Ints(vs[..|vs| - 1]);
      Some(rest + [vs[|vs| - 1].i])
  }

  function Zeros(n: nat): seq<int> {
    seq(n, _ => 0)
  }

  function Wraps(codes: seq<int>): (r: seq<int>)
    ensures |r| == |codes|
  {
    seq(|codes|, i requires 0 <= i < |codes| => Wrap(codes[i]))
  }

  function EvalInit(fs: Funcs, k: nat, init: Option<Ast.Init>, n: nat, st: State): (r: Result<seq<int>>)
    ensures r.Ok? ==> |r.v| == n
    decreases k, init, 0
  {
    match init
    case None => Ok(Zeros(n), st)
    case Some(Text(codes)) =>
      var cs := Wraps(Ast.Prefix(codes, n));
      Ok(cs + Zeros(n - |cs|), st)
    case Some(List(_, es)) =>
      var (vs, st1) :- EvalArgs(fs, k, Ast.Prefix(es, n), st);
      match Ints(vs)
      case None => Fail(Misuse)
      case Some(ints) => Ok(ints + Zeros(n - |ints|), st1)
  }

  function ExecDef(fs: Funcs, k: nat, isConst: bool, def: Ast.Def, st: State): Outcome
    decreases k, def, 0
  {
    match def.size
    case None =>
      (match EvalInit(fs, k, def.init, 1, st)
       case OutOfFuel => Stopped
       case Fail(w) => Failed(w)
       case Ok(vs, st1) => Declare(st1, def.name, Binding(isConst, Scalar(vs[0]))))
    case Some(e) =>
      match EvalExpr(fs, k, e, st)
      case OutOfFuel => Stopped
      case Fail(w) => Failed(w)
      case Ok(n, st1) =>
        if !n.VInt? then Failed(Misuse)
        else if n.i <= 0 then Failed(Trap)
        else
          match EvalInit(fs, k, def.init, n.i, st1)
          case OutOfFuel => Stopped
          case Fail(w) => Failed(w)
          case Ok(vs, st2) => Declare(st2, def.name, Binding(isConst, Array(vs)))
  }

  function ExecDefs(fs: Funcs, k: nat, isConst: bool, defs: seq<Ast.Def>, st: State): Outcome
    decreases k, defs, 0
  {
    if defs == [] then Normal(st)
    else
      match ExecDef(fs, k, isConst, defs[0], st)
      case Normal(st1) => ExecDefs(fs, k, isConst, defs[1..], st1)
      case o => o
  }

  // ----- statements -----

  function Popped(o: Outcome): Outcome {
    match o
    case Normal(st) => Normal(PopLayer(st))
    case Broke(st) => Broke(PopLayer(st))
    case Continued(st) => Continued(PopLayer(st))
    case Returned(v, st) => Returned(v, PopLayer(st))
    case _ => o
  }

  function ExecBlock(fs: Funcs, k: nat, items: seq<Ast.Item>, st: State): Outcome
    decreases k, items, 1
  {
    if st.frames == [] then Failed(Trap) else Popped(ExecItems(fs, k, items, PushLayer(st)))
  }

  function ExecItems(fs: Funcs, k: nat, items: seq<Ast.Item>, st: State): Outcome
    decreases k, items, 0
  {
    if items == [] then Normal(st)
    else
      match ExecItem(fs, k, items[0], st)
      case Normal(st1) => ExecItems(fs, k, items[1..], st1)
      case o => o
  }

  function ExecItem(fs: Funcs, k: nat, item: Ast.Item, st: State): Outcome
    decreases k, item, 0
  {
    match item
    case Decl(isConst, defs) => ExecDefs(fs, k, isConst, defs, st)
    case Do(s) => ExecStmt(fs, k, s, st)
  }

  function ExecStmt(fs: Funcs, k: nat, s: Ast.Stmt, st: State): Outcome
    decreases k, s, 2
  {
    match s
    case Return(None) => Returned(VVoid, st)
    case Return(Some(e)) =>
      (match EvalExpr(fs, k, e, st)
       case OutOfFuel => Stopped
       case Fail(w) => Failed(w)
       case Ok(v, st1) => if v.VInt? then Returned(v, st1) else Failed(Misuse))
    // the right-hand side is evaluated before the index
    case Assign(x, idx, e) =>
      (match EvalExpr(fs, k, e, st)
       case OutOfFuel => Stopped
       case Fail(w) => Failed(w)
       case Ok(v, st1) =>
         match idx
         case None => WriteVar(st1, x, v)
         case Some(i) =>
           match EvalExpr(fs, k, i, st1)
           case OutOfFuel => Stopped
           case Fail(w) => Failed(w)
           case Ok(vi, st2) => WriteElem(st2, x, vi, v))
    case Eval(None) => Normal(st)
    case Eval(Some(e)) =>
      (match EvalExpr(fs, k, e, st)
       case OutOfFuel => Stopped
       case Fail(w) => Failed(w)
       case Ok(_, st1) => Normal(st1))
    case Block(items) => ExecBlock(fs, k, items, st)
    case If(_, _, _) => ExecIf(fs, k, s, st)
    case While(_, _) => ExecWhile(fs, k, s, st)
    case Continue => Continued(st)
    case Break => Broke(st)
  }

  function ExecIf(fs: Funcs, k: nat, s: Ast.Stmt, st: State): Outcome
    requires s.If?
    decreases k, s, 0
  {
    match EvalExpr(fs, k, s.cond, st)
    case OutOfFuel => Stopped
    case Fail(w) => Failed(w)
    case Ok(v, st1) =>
      if !v.VInt? then Failed(Misuse)
      else if v.i != 0 then ExecStmt(fs, k, s.thn, st1)
      else ExecElse(fs, k, s.els, st1)
  }

  function ExecElse(fs: Funcs, k: nat, els: Option<Ast.Stmt>, st: State): Outcome
    decreases k, els, 0
  {
    if els.Some? then ExecStmt(fs, k, els.value, st) else Normal(st)
  }

  function ExecWhile(fs: Funcs, k: nat, s: Ast.Stmt, st: State): Outcome
    requires s.While?
    decreases k, s, 1
  {
    match EvalExpr(fs, k, s.cond, st)
    case OutOfFuel => Stopped
    case Fail(w) => Failed(w)
    case Ok(v, st1) =>
      if !v.VInt? then Failed(Misuse)
      else if v.i == 0 then Normal(st1)
      else Repeat(fs, k, s, ExecStmt(fs, k, s.body, st1))
  }

  // What a loop does once its body has ended in `o`.
  function Repeat(fs: Funcs, k: nat, s: Ast.Stmt, o: Outcome): Outcome
    requires s.While?
    decreases k, s, 0
  {
    match o
    case Normal(st) => if k == 0 then Stopped else ExecWhile(fs, k - 1, s, st)
    case Continued(st) => if k == 0 then Stopped else ExecWhile(fs, k - 1, s, st)
    case Broke(st) => Normal(st)
    case _ => o
  }

  // ----- programs -----

  function FuncsOf(p: Ast.Program): Funcs {
    if p == [] then map[]
    else
      var fs, top := FuncsOf(p[..|p| - 1]), p[|p| - 1];
      if top.Function? then fs[top.f.name := top.f] else fs
  }

  // Global initialisers are evaluated in order, before anything is called.
  function InitGlobals(globals: map<string, int>, k: nat, defs: seq<Ast.Def>): Option<map<string, int>>
    decreases defs
  {
    if defs == [] then Some(globals)
    else
      match EvalInit(map[], k, defs[0].init, 1, State(globals, []))
      case Ok(vs, st) =>
        if defs[0].size.Some? then None else InitGlobals(st.globals[defs[0].name := vs[0]], k, defs[1..])
      case _ => None
  }

  function GlobalsOf(p: Ast.Program, k: nat): Option<map<string, int>> {
    if p == [] then Some(map[])
    else
      var globals :- GlobalsOf(p[..|p| - 1], k);
      var top := p[|p| - 1];
      if top.Globals? then InitGlobals(globals, k, top.defs) else Some(globals)
  }

  // Running a program: its `main`, with its globals initialised.
  function RunMain(p: Ast.Program, k: nat): Result<Val> {
    var fs := FuncsOf(p);
    match GlobalsOf(p, k)
    case None => Fail(Trap)
    case Some(globals) =>
      if "main" !in fs || fs["main"].params != [] then Fail(BadCall)
      else Invoke(fs, k, fs["main"], [], State(globals, []))
  }
}
