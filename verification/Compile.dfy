// Whole programs: what the compiler accepts, it translates faithfully, and the translation
// halts exactly when the program does.
module Compile {
  import opened Wrappers
  import opened Source
  import opened Target
  import opened Lowering
  import opened Growth
  import opened Matching
  import opened Progress
  import opened ControlSim
  import opened Simulation
  import opened Typing
  import Ast

  // ----- the compiled world -----

  // The environment each function was generated in.
  ghost function EnvsOf(p: Ast.Program): map<string, Env> {
    if p == [] then map[]
    else
      var envs, top := EnvsOf(p[..|p| - 1]), p[|p| - 1];
      if top.Function? && GenProgram(p[..|p| - 1]).Some?
      then
        var env := EnvOf(GenProgram(p[..|p| - 1]).value);
        envs[top.f.name := env.(funcs := env.funcs[top.f.name := |top.f.params|])]
      else envs
  }

  ghost function WorldOf(p: Ast.Program): World
    requires GenProgram(p).Some?
  {
    var u := GenProgram(p).value;
    World(u.fns, FuncsOf(p), EnvsOf(p), u.globals.Keys)
  }

  // A later definition leaves the earlier functions compiled.
  lemma FuncStays(w: World, w': World, f: string)
    requires f in w.fs && f in w.m && f in w.envs && f in w'.fs && f in w'.m && f in w'.envs
    requires w'.fs[f] == w.fs[f] && w'.m[f] == w.m[f] && w'.envs[f] == w.envs[f]
    requires w.globals <= w'.globals
    requires forall h | h in w.fs :: h in w'.fs && |w'.fs[h].params| == |w.fs[h].params|
    requires FuncOk(w, f)
    ensures FuncOk(w', f)
  {
    hide GenBody;
  }

  lemma AddGlobals(u: Unit, defs: seq<Ast.Def>)
    requires GenGlobals(u, defs).Some?
    ensures GenGlobals(u, defs).value.fns == u.fns
    ensures u.globals.Keys <= GenGlobals(u, defs).value.globals.Keys
    decreases defs
  {
    if defs == [] {
    } else {
      AddGlobals(GenGlobal(u, defs[0]).value, defs[1..]);
    }
  }

  lemma {:induction false} ProgramWorld(p: Ast.Program)
    requires GenProgram(p).Some?
    ensures WorldOk(WorldOf(p))
  {
    hide GenBody, GenGlobals;
    if p == [] {
    } else {
      var q, top := p[..|p| - 1], p[|p| - 1];
      ProgramWorld(q);
      var w, w' := WorldOf(q), WorldOf(p);
      match top {
        case Globals(_, defs) =>
          AddGlobals(GenProgram(q).value, defs);
          forall f | f in w'.fs
            ensures FuncOk(w', f)
          {
            assert FuncOk(w, f);
            FuncStays(w, w', f);
          }
        case Function(f) => AddFunction(q, f, p);
      }
    }
  }

  lemma AddFunction(q: Ast.Program, f: Ast.Func, p: Ast.Program)
    requires p != [] && p[..|p| - 1] == q && p[|p| - 1] == Ast.Function(f)
    requires GenProgram(p).Some? && GenProgram(q).Some? && WorldOk(WorldOf(q))
    ensures WorldOk(WorldOf(p))
  {
    hide GenBody, FuncOk;
    var u := GenProgram(q).value;
    var w, w' := WorldOf(q), WorldOf(p);
    var env := EnvOf(u);
    var env' := env.(funcs := env.funcs[f.name := |f.params|]);
    assert f.name !in u.fns;
    assert w'.m.Keys == w.m.Keys + {f.name} && w'.fs.Keys == w.fs.Keys + {f.name};
    assert w'.envs.Keys == w.envs.Keys + {f.name};
    forall h | h in w'.fs
      ensures FuncOk(w', h)
    {
      if h == f.name {
        forall j | j in env'.funcs
          ensures j in w'.fs && |w'.fs[j].params| == env'.funcs[j]
        {
          if j != f.name {
            assert FuncOk(w, j);
            ArityOf(w, j);
          }
        }
        NewFunction(w', f.name);
      } else {
        assert FuncOk(w, h);
        FuncStays(w, w', h);
      }
    }
  }

  lemma ArityOf(w: World, f: string)
    requires f in w.fs && f in w.m && f in w.envs && FuncOk(w, f)
    ensures w.m[f].arity == |w.fs[f].params|
  {
    hide GenBody;
  }

  lemma NewFunction(w: World, f: string)
    requires f in w.fs && f in w.m && f in w.envs && EnvOk(w, w.envs[f])
    requires GenBody(w.envs[f], w.fs[f]).Some?
    requires var g := GenBody(w.envs[f], w.fs[f]).value; w.m[f] == Fn(|w.fs[f].params|, g.slots, g.blocks)
    ensures FuncOk(w, f)
  {
    hide GenBody;
  }

  // ----- global initialisers -----

  // Outside every function an expression that yields a constant has that constant's value.
  lemma {:induction false} FoldSound(env: Env, g: Gen, e: Ast.Expr, fs: Funcs, k: nat)
    requires g.cur < |g.blocks| && g.scopes == []
    requires GenExpr(env, g, e).Some? && GenExpr(env, g, e).value.0.CInt?
    ensures EvalExpr(fs, k, e, State(env.globals, [])) == Ok(VInt(GenExpr(env, g, e).value.0.i), State(env.globals, []))
    decreases e
  {
    match e
    case Num(_) =>
    case Paren(inner) => FoldSound(env, g, inner, fs, k);
    case Var(_) =>
    case Index(_, _) => NoCellsOutside(env, g, e);
    case Call(_, _) =>
    case Unary(op, a) =>
      FoldUnary(env, g, e, fs, k);
      FoldSound(env, g, a, fs, k);
    case Binary(op, l, r) =>
      FoldBinary(env, g, e);
      FoldSound(env, g, l, fs, k);
      GenExprExtends(env, g, l);
      var (a, g1) := GenExpr(env, g, l).value;
      GenLeftExtends(g1, op, a);
      FoldSound(env, GenLeft(g1, op, a).1, r, fs, k);
  }

  lemma NoCellsOutside(env: Env, g: Gen, e: Ast.Expr)
    requires g.cur < |g.blocks| && g.scopes == [] && e.Index?
    ensures GenExpr(env, g, e).None?
  {
    if GenExpr(env, g, e.idx).Some? {
      GenExprExtends(env, g, e.idx);
    }
  }

  lemma FoldUnary(env: Env, g: Gen, e: Ast.Expr, fs: Funcs, k: nat)
    requires g.cur < |g.blocks| && e.Unary?
    requires GenExpr(env, g, e).Some? && GenExpr(env, g, e).value.0.CInt?
    ensures var o := GenExpr(env, g, e.arg).value.0;
            o.CInt? && GenExpr(env, g, e).value.0.i == ApplyUnary(e.op, o.i)
  {
  }

  // An operator folds to a constant only when its operands did.
  lemma FoldOperator(g1: Gen, g3: Gen, op: Ast.BinOp, a: Operand, b: Operand)
    requires g1.cur < |g1.blocks| && g3.cur < |g3.blocks|
    requires GenBinary(g3, op, GenLeft(g1, op, a).0, b).0.CInt?
    ensures a.CInt? && b.CInt? && Apply(op, a.i, b.i) == Some(GenBinary(g3, op, GenLeft(g1, op, a).0, b).0.i)
  {
    if op.Or? || op.And? {
      assert GenLeft(g1, op, a).0.CBool?;
    }
  }

  lemma FoldBinary(env: Env, g: Gen, e: Ast.Expr)
    requires g.cur < |g.blocks| && e.Binary?
    requires GenExpr(env, g, e).Some? && GenExpr(env, g, e).value.0.CInt?
    ensures var (a, g1) := GenExpr(env, g, e.l).value; var (a', g2) := GenLeft(g1, e.bop, a);
            var (b, g3) := GenExpr(env, g2, e.r).value;
            a.CInt? && b.CInt? && Apply(e.bop, a.i, b.i) == Some(GenExpr(env, g, e).value.0.i)
  {
    hide GenLeft, GenBinary, Apply;
    var (a, g1) := GenExpr(env, g, e.l).value;
    var (a', g2) := GenLeft(g1, e.bop, a);
    var (b, g3) := GenExpr(env, g2, e.r).value;
    FoldOperator(g1, g3, e.bop, a, b);
  }

  lemma OneArg(es: seq<Ast.Expr>, v: int, k: nat, st: State)
    requires |es| == 1 && EvalExpr(map[], k, es[0], st) == Ok(VInt(v), st)
    ensures EvalArgs(map[], k, es, st) == Ok([VInt(v)], st)
  {
    assert EvalArgs(map[], k, es[1..], st) == Ok([], st);
    assert [VInt(v)] + [] == [VInt(v)];
  }

  lemma OneInt(v: int)
    ensures Ints([VInt(v)]) == Some([v])
  {
    var vs := [VInt(v)];
    assert vs[0] == VInt(v);
    var r := Ints(vs);
    assert r.Some?;
    assert vs[0] == VInt(r.value[0]);
    assert r.value == [v];
  }

  lemma {:induction false} GlobalSound(u: Unit, def: Ast.Def, k: nat)
    requires GenGlobal(u, def).Some?
    ensures var v := GenGlobal(u, def).value.globals;
            && def.name in v && v == u.globals[def.name := v[def.name]]
            && EvalInit(map[], k, def.init, 1, State(u.globals, [])) == Ok([v[def.name]], State(u.globals, []))
  {
    var st := State(u.globals, []);
    match def.init
    case None => assert Zeros(1) == [0];
    case Some(Text(codes)) =>
      var v := GenGlobal(u, def).value.globals[def.name];
      assert EvalInit(map[], k, def.init, 1, st).v == [v];
    case Some(List(_, es)) =>
      if es != [] {
        var used := Ast.Prefix(es, 1);
        assert used == [es[0]] && used[1..] == [] && used[0] == es[0];
        assert GenArgs(EnvOf(u), EMPTY, used).value.0 == [GenExpr(EnvOf(u), EMPTY, es[0]).value.0] + [];
        FoldSound(EnvOf(u), EMPTY, es[0], map[], k);
        var v := GenExpr(EnvOf(u), EMPTY, es[0]).value.0.i;
        OneArg(used, v, k, st);
        OneInt(v);
        assert [v] + Zeros(0) == [v];
      } else {
        assert Ints([]) == Some([]);
        assert [] + Zeros(1) == [0];
      }
  }

  lemma {:induction false} GlobalsSound(u: Unit, defs: seq<Ast.Def>, k: nat)
    requires GenGlobals(u, defs).Some?
    ensures InitGlobals(u.globals, k, defs) == Some(GenGlobals(u, defs).value.globals)
    decreases defs
  {
    hide GenGlobal, EvalInit;
    if defs == [] {
    } else {
      GlobalSound(u, defs[0], k);
      NoArrays(u, defs[0]);
      GlobalsSound(GenGlobal(u, defs[0]).value, defs[1..], k);
    }
  }

  lemma NoArrays(u: Unit, def: Ast.Def)
    requires GenGlobal(u, def).Some?
    ensures def.size.None?
  {
  }

  // The module's initial globals are the values the source initialisers evaluate to.
  lemma {:induction false} InitialGlobals(p: Ast.Program, k: nat)
    requires GenProgram(p).Some?
    ensures GlobalsOf(p, k) == Some(GenProgram(p).value.globals)
  {
    hide GenGlobals, InitGlobals, GenFunc;
    if p == [] {
    } else {
      InitialGlobals(p[..|p| - 1], k);
      var top := p[|p| - 1];
      if top.Globals? {
        GlobalsSound(GenProgram(p[..|p| - 1]).value, top.defs, k);
      }
    }
  }

  // ----- whole runs -----

  predicate Bootable(u: Unit) {
    "main" in u.fns && u.fns["main"].arity == 0 && u.fns["main"].blocks != []
  }

  // Compiled without an error report, with a `main` to run.
  predicate Accepted(p: Ast.Program) {
    GenProgram(p).Some? && Bootable(GenProgram(p).value)
  }

  function UnitOf(p: Ast.Program): (u: Unit)
    requires Accepted(p)
    ensures Bootable(u)
  {
    GenProgram(p).value
  }

  // The machine about to run `main`.
  function Boot(u: Unit): Config
    requires Bootable(u)
  {
    var main := u.fns["main"];
    Running(Act("main", 0, [], map[], main.blocks[0]), [], [NewFrame(main.slots)], u.globals)
  }

  function Observed(v: Val): TVal {
    if v.VInt? then TInt(v.i) else TUndef
  }

  // How the machine ends when the source run ended with `v` in `st`.
  function Final(v: Val, st: State): Config {
    Halted(Observed(v), st.globals)
  }

  // The machine is stuck after `n` steps.
  ghost predicate SticksAfter(u: Unit, n: nat)
    requires Bootable(u)
  {
    exists d :: Reaches(u.fns, Boot(u), n, d) && Stuck(u.fns, d)
  }

  // What `n` machine steps show of a source run at fuel `k` that came to `r`.
  ghost predicate Mirrors(u: Unit, k: nat, r: Result<Val>, n: nat)
    requires Bootable(u)
  {
    match r
    case Ok(v, st) => !v.VRef? && Reaches(u.fns, Boot(u), n, Final(v, st))
    case OutOfFuel => k <= n && Endures(u.fns, Boot(u), n)
    case Fail(w) => w == Misuse || (w == Trap && SticksAfter(u, n))
  }

  // One run of the source at fuel `k` against the machine, whatever comes of it.
  lemma SimMain(p: Ast.Program, k: nat) returns (n: nat)
    requires Accepted(p)
    ensures Mirrors(UnitOf(p), k, RunMain(p, k), n)
  {
    hide GenProgram, GenBody, Reaches, Endures, Invoke;
    var u := UnitOf(p);
    var w := WorldOf(p);
    ProgramWorld(p);
    InitialGlobals(p, k);
    assert FuncOk(w, "main");
    ArityOf(w, "main");
    var st := State(u.globals, []);
    var c := Boot(u);
    assert c.frames[..0] == [];
    assert Match([], st, c.frames[..0]);
    var m, d := SimInvoke(w, "main", [], [], k, st, c);
    n := m;
    var r := Invoke(w.fs, k, w.fs["main"], [], st);
    assert RunMain(p, k) == r;
    if r.Ok? {
      var e := Halted(ReturnVal(d), d.globals);
      RunOne(w.m, d, e);
      ReachesTrans(w.m, c, m, d, 1, e);
      n := m + 1;
    }
  }

  // A program that ends, ends the same way on the machine.
  lemma CompiledHalts(p: Ast.Program, k: nat) returns (n: nat)
    requires Accepted(p) && RunMain(p, k).Ok?
    ensures Reaches(UnitOf(p).fns, Boot(UnitOf(p)), n, Final(RunMain(p, k).v, RunMain(p, k).st))
  {
    hide GenProgram, RunMain;
    n := SimMain(p, k);
  }

  // A program that traps, stops the machine.
  lemma CompiledSticks(p: Ast.Program, k: nat) returns (n: nat)
    requires Accepted(p) && RunMain(p, k) == Fail(Trap)
    ensures SticksAfter(UnitOf(p), n)
  {
    hide GenProgram, RunMain, SticksAfter;
    n := SimMain(p, k);
  }

  // A run still going at fuel `n` keeps the machine going for `n` steps: a program that runs forever
  // keeps it running forever.
  lemma CompiledDiverges(p: Ast.Program, n: nat)
    requires Accepted(p) && RunMain(p, n).OutOfFuel?
    ensures Endures(UnitOf(p).fns, Boot(UnitOf(p)), n)
  {
    hide GenProgram, RunMain, SticksAfter;
    var m := SimMain(p, n);
    EnduresLess(UnitOf(p).fns, Boot(UnitOf(p)), n, m);
  }

  // What a machine that stops in `d` shows of the source run: it halted with the result `d` carries,
  // it is stuck and the run trapped, or the run misused a value.
  ghost predicate EndsIn(m: Module, r: Result<Val>, d: Config) {
    match r
    case Ok(v, st) => d == Final(v, st)
    case OutOfFuel => false
    case Fail(w) => w == Misuse || (w == Trap && Stuck(m, d))
  }

  // A machine that stops, halted or stuck, runs a program that ends in the way it shows; any fuel above
  // the machine's step count is enough to see it.
  lemma StopsFromSource(p: Ast.Program, n: nat, d: Config, k: nat)
    requires Accepted(p) && Reaches(UnitOf(p).fns, Boot(UnitOf(p)), n, d) && Step(UnitOf(p).fns, d).None? && n < k
    ensures EndsIn(UnitOf(p).fns, RunMain(p, k), d)
  {
    hide GenProgram, RunMain;
    var u := UnitOf(p);
    var m := SimMain(p, k);
    match RunMain(p, k)
    case Ok(v, st) => EndsOnce(u.fns, Boot(u), n, d, m, Final(v, st));
    case OutOfFuel => EndsOnce(u.fns, Boot(u), n, d, m, d);
    case Fail(w) =>
      if w == Trap {
        var e :| Reaches(u.fns, Boot(u), m, e) && Stuck(u.fns, e);
        EndsOnce(u.fns, Boot(u), n, d, m, e);
      }
  }

  // An accepted program never goes wrong in a way the compiler should have reported.
  lemma AcceptedIsSafe(p: Ast.Program, k: nat)
    requires Accepted(p) && RunMain(p, k).Fail?
    ensures RunMain(p, k).why == Misuse || RunMain(p, k).why == Trap
  {
    hide GenProgram, RunMain, SticksAfter;
    var n := SimMain(p, k);
  }

  // ----- programs that misuse no value -----

  ghost predicate NeverMisuses(p: Ast.Program) {
    forall k: nat :: RunMain(p, k) != Fail(Misuse)
  }

  ghost predicate HaltsIn(u: Unit, d: Config)
    requires Bootable(u)
  {
    d.Halted? && exists n: nat :: Reaches(u.fns, Boot(u), n, d)
  }

  ghost predicate Sticks(u: Unit)
    requires Bootable(u)
  {
    exists n: nat :: SticksAfter(u, n)
  }

  ghost predicate NeverStops(u: Unit)
    requires Bootable(u)
  {
    forall n: nat :: Endures(u.fns, Boot(u), n)
  }

  ghost predicate EndsAs(p: Ast.Program, d: Config) {
    exists k: nat :: RunMain(p, k).Ok? && Final(RunMain(p, k).v, RunMain(p, k).st) == d
  }

  ghost predicate Traps(p: Ast.Program) {
    exists k: nat :: RunMain(p, k) == Fail(Trap)
  }

  ghost predicate NeverEnds(p: Ast.Program) {
    forall k: nat :: RunMain(p, k).OutOfFuel?
  }

  // The machine halts exactly when the program ends, and with its result.
  lemma HaltsTogether(p: Ast.Program, d: Config)
    requires Accepted(p) && NeverMisuses(p)
    ensures HaltsIn(UnitOf(p), d) <==> EndsAs(p, d)
  {
    hide GenProgram, RunMain, SticksAfter, Final;
    var u := UnitOf(p);
    if HaltsIn(u, d) {
      var n: nat :| Reaches(u.fns, Boot(u), n, d);
      StopsFromSource(p, n, d, n + 1);
      assert RunMain(p, n + 1).Ok?;
    }
    if EndsAs(p, d) {
      var k: nat :| RunMain(p, k).Ok? && Final(RunMain(p, k).v, RunMain(p, k).st) == d;
      var n := CompiledHalts(p, k);
      FinalHalts(RunMain(p, k).v, RunMain(p, k).st);
    }
  }

  lemma FinalHalts(v: Val, st: State)
    ensures Final(v, st).Halted?
  {
  }

  // The machine gets stuck exactly when the program traps.
  lemma SticksTogether(p: Ast.Program)
    requires Accepted(p) && NeverMisuses(p)
    ensures Sticks(UnitOf(p)) <==> Traps(p)
  {
    hide GenProgram, RunMain, Final;
    var u := UnitOf(p);
    if Sticks(u) {
      var n: nat :| SticksAfter(u, n);
      var d :| Reaches(u.fns, Boot(u), n, d) && Stuck(u.fns, d);
      StopsFromSource(p, n, d, n + 1);
      if RunMain(p, n + 1).Ok? {
        FinalHalts(RunMain(p, n + 1).v, RunMain(p, n + 1).st);
      }
      assert RunMain(p, n + 1) == Fail(Trap);
    }
    if Traps(p) {
      var k: nat :| RunMain(p, k) == Fail(Trap);
      var n := CompiledSticks(p, k);
    }
  }

  // The machine runs forever exactly when the program does.
  lemma DivergesTogether(p: Ast.Program)
    requires Accepted(p) && NeverMisuses(p)
    ensures NeverStops(UnitOf(p)) <==> NeverEnds(p)
  {
    hide GenProgram, RunMain, Final;
    var u := UnitOf(p);
    if NeverStops(u) {
      forall k: nat
        ensures RunMain(p, k).OutOfFuel?
      {
        Unstopped(p, k);
      }
    }
    if NeverEnds(p) {
      forall n: nat
        ensures Endures(u.fns, Boot(u), n)
      {
        assert RunMain(p, n).OutOfFuel?;
        CompiledDiverges(p, n);
      }
    }
  }

  // While the machine goes on, no fuel sees an end.
  lemma Unstopped(p: Ast.Program, k: nat)
    requires Accepted(p) && NeverMisuses(p) && NeverStops(UnitOf(p))
    ensures RunMain(p, k).OutOfFuel?
  {
    hide GenProgram, RunMain, Final;
    var u := UnitOf(p);
    var r := RunMain(p, k);
    if r.Ok? {
      var n := CompiledHalts(p, k);
      FinalHalts(r.v, r.st);
      assert Endures(u.fns, Boot(u), n + 1);
      EndsOnce(u.fns, Boot(u), n, Final(r.v, r.st), n + 1, Final(r.v, r.st));
    } else if r == Fail(Trap) {
      var n := CompiledSticks(p, k);
      var d :| Reaches(u.fns, Boot(u), n, d) && Stuck(u.fns, d);
      assert Endures(u.fns, Boot(u), n + 1);
      EndsOnce(u.fns, Boot(u), n, d, n + 1, d);
    } else if r.Fail? {
      AcceptedIsSafe(p, k);
    }
  }

  // A program whose types are in order and its compiled module halt together with the same result, get
  // stuck together and run forever together.
  lemma TypedExactly(p: Ast.Program, d: Config)
    requires Accepted(p) && WellTyped(p)
    ensures HaltsIn(UnitOf(p), d) <==> EndsAs(p, d)
    ensures Sticks(UnitOf(p)) <==> Traps(p)
    ensures NeverStops(UnitOf(p)) <==> NeverEnds(p)
  {
    hide GenProgram, RunMain, WellTyped;
    forall k: nat
      ensures RunMain(p, k) != Fail(Misuse)
    {
      WellTypedRuns(p, k);
    }
    HaltsTogether(p, d);
    SticksTogether(p);
    DivergesTogether(p);
  }
}
