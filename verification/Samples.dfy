// A program with a loop, from the repository's tests, through the whole development: the compiler
// accepts it, its types are in order, it counts to n and so does the compiled module, for every n.
module Samples {
  import opened Wrappers
  import opened Int64
  import opened Scopes
  import opened Source
  import opened Compile
  import opened Acceptance
  import Ast
  import C = ConstLeak
  import L = Lowering
  import T = Typing
  import Target

  // int i = 0; while (i < n) i = i + 1; return i;
  function CountMain(n: int): Ast.Func {
    Ast.Func("main", [], [
      Ast.Decl(false, [Counter()]),
      Ast.Do(Count(n)),
      Ast.Do(Ast.Return(Some(Ast.Var("i"))))])
  }

  function Counter(): Ast.Def {
    Ast.Def("i", None, Some(Ast.List(false, [Ast.Num(0)])))
  }

  function Count(n: int): Ast.Stmt {
    Ast.While(Ast.Binary(Ast.Lt, Ast.Var("i"), Ast.Num(n)), More())
  }

  function More(): Ast.Stmt {
    Ast.Assign("i", None, Ast.Binary(Ast.Add, Ast.Var("i"), Ast.Num(1)))
  }

  function CountProgram(n: int): Ast.Program {
    [Ast.Function(CountMain(n))]
  }

  lemma CountAccepted(n: int)
    ensures Accepted(CountProgram(n))
  {
    hide CheckFunc;
    var p := CountProgram(n);
    assert p[..0] == [] && CheckProgram(p[..0]) == Some(L.Env(map[], map[]));
    MainChecked(n, L.Env(map[], map[]));
    assert CheckProgram(p) == Some(L.Env(map["main" := 0], map[]));
    AcceptsExactly(p);
  }

  lemma MainChecked(n: int, env: L.Env)
    requires env == L.Env(map[], map[])
    ensures CheckFunc(env, CountMain(n))
  {
    var env1 := env.(funcs := map["main" := 0]);
    var body := CountMain(n).body;
    var vis: Visible := [map[], map[]];
    var vis1: Visible := [map[], map["i" := false]];
    assert ParamLayer(CountMain(n).params) == map[];
    assert CheckDef(env1, vis, false, Counter()) == Some(vis1) by {
      assert [Ast.Num(0)][1..] == [] && CheckAll(env1, vis, [Ast.Num(0)]);
      assert vis[1 := vis[1]["i" := false]] == vis1;
    }
    assert [Counter()][1..] == [] && CheckItem(env1, vis, false, body[0]) == Some(vis1);
    assert Known(env1, vis1, "i") by {
      assert "i" in vis1[1];
    }
    assert Find(vis1, "i") == Some(1);
    assert CheckStmt(env1, vis1, true, More());
    assert CheckExpr(env1, vis1, Count(n).cond) && CheckStmt(env1, vis1, false, Count(n));
    assert CheckItem(env1, vis1, false, body[1]) == Some(vis1);
    assert CheckItem(env1, vis1, false, body[2]) == Some(vis1);
    C.ThreeChecked(env1, vis, body, vis1);
  }

  lemma CountTyped(n: int)
    ensures T.WellTyped(CountProgram(n))
  {
    var p := CountProgram(n);
    assert p[..0] == [] && FuncsOf(p[..0]) == map[];
    assert FuncsOf(p) == map["main" := CountMain(n)];
    var sig := T.Sig(FuncsOf(p), {});
    var body := CountMain(n).body;
    var t: T.Names := [map[], map[]];
    var t1: T.Names := [map[], map["i" := false]];
    assert T.TypeDef(sig, t, Counter()) == Some(t1) by {
      assert T.AllNumbers(sig, t, [Ast.Num(0)]);
      assert T.Named(t, "i", false) == t1;
    }
    assert [Counter()][1..] == [] && T.TypeItem(sig, false, t, body[0]) == Some(t1);
    assert Find(t1, "i") == Some(1);
    assert T.TypeStmt(sig, false, t1, More());
    assert T.IsNumber(sig, t1, Ast.Var("i")) && T.IsNumber(sig, t1, Ast.Num(n));
    assert T.IsNumber(sig, t1, Count(n).cond) && T.TypeStmt(sig, false, t1, Count(n));
    assert T.TypeItem(sig, false, t1, body[1]) == Some(t1);
    assert T.TypeItem(sig, false, t1, body[2]) == Some(t1);
    C.ThreeTyped(sig, t, body, t1);
    assert T.TypeFunc(sig, false, CountMain(n));
    assert T.TypeFuncs(sig);
  }

  // `main` while its block is open and `i` holds v.
  function Stage(v: int): State {
    State(map[], [[map[], map["i" := Binding(false, Scalar(v))]]])
  }

  lemma ReadsCounter(v: int)
    ensures ReadVar(Stage(v), "i") == Ok(VInt(v), Stage(v))
  {
    assert Find(TopFrame(Stage(v)), "i") == Some(1);
  }

  lemma Advances(fs: Funcs, k: nat, v: int)
    requires 0 <= v < TWO_63 - 1
    ensures ExecStmt(fs, k, More(), Stage(v)) == Normal(Stage(v + 1))
  {
    var st := Stage(v);
    ReadsCounter(v);
    assert EvalExpr(fs, k, Ast.Var("i"), st) == Ok(VInt(v), st);
    assert EvalRest(fs, k, Ast.Add, VInt(v), Ast.Num(1), st) == Ok(VInt(v + 1), st);
    assert EvalExpr(fs, k, More().rhs, st) == Ok(VInt(v + 1), st);
    assert Find(TopFrame(st), "i") == Some(1);
    assert WriteVar(st, "i", VInt(v + 1)) == Normal(Stage(v + 1)) by {
      var b := Binding(false, Scalar(v + 1));
      assert st.frames[0][1]["i" := b] == map["i" := b];
      assert st.frames[0][1 := map["i" := b]] == Stage(v + 1).frames[0];
      assert Put(st, RefTo(st, "i"), b).frames == Stage(v + 1).frames;
    }
  }

  // The loop from any value it has reached.
  lemma {:induction false} Counts(fs: Funcs, k: nat, n: int, v: int)
    requires 0 <= v <= n < TWO_63 && n - v <= k
    ensures ExecWhile(fs, k, Count(n), Stage(v)) == Normal(Stage(n))
    decreases n - v
  {
    hide EvalExpr, ExecStmt;
    Tests(fs, k, n, v);
    if v < n {
      Advances(fs, k, v);
      Counts(fs, k - 1, n, v + 1);
    }
  }

  lemma Tests(fs: Funcs, k: nat, n: int, v: int)
    requires InRange(n)
    ensures EvalExpr(fs, k, Count(n).cond, Stage(v)) == Ok(VInt(Truth(v < n)), Stage(v))
  {
    ReadsCounter(v);
    assert EvalExpr(fs, k, Ast.Var("i"), Stage(v)) == Ok(VInt(v), Stage(v));
    assert EvalRest(fs, k, Ast.Lt, VInt(v), Ast.Num(n), Stage(v)) == Ok(VInt(Truth(v < n)), Stage(v));
  }

  lemma Declared(fs: Funcs, k: nat)
    ensures ExecItem(fs, k, Ast.Decl(false, [Counter()]), State(map[], [[map[], map[]]])) == Normal(Stage(0))
  {
    hide Invoke;
    var st := State(map[], [[map[], map[]]]);
    assert EvalExpr(fs, k, Ast.Num(0), st) == Ok(VInt(0), st);
    assert [Ast.Num(0)][1..] == [] && EvalArgs(fs, k, [], st) == Ok([], st);
    assert [VInt(0)] + [] == [VInt(0)] && EvalArgs(fs, k, [Ast.Num(0)], st) == Ok([VInt(0)], st);
    OneInt(0);
    assert [0] + Zeros(0) == [0] && EvalInit(fs, k, Counter().init, 1, st) == Ok([0], st);
    assert Declare(st, "i", Binding(false, Scalar(0))) == Normal(Stage(0)) by {
      assert st.frames[0][1 := st.frames[0][1]["i" := Binding(false, Scalar(0))]] == Stage(0).frames[0];
    }
    assert ExecDef(fs, k, false, Counter(), st) == Normal(Stage(0));
    assert [Counter()][1..] == [] && ExecDefs(fs, k, false, [], Stage(0)) == Normal(Stage(0));
  }

  lemma CountRuns(n: int, k: nat)
    requires 0 <= n < TWO_63 && n <= k
    ensures RunMain(CountProgram(n), k).Ok? && RunMain(CountProgram(n), k).v == VInt(n)
    ensures RunMain(CountProgram(n), k).st.globals == map[]
  {
    hide ExecItem, ExecItems, EvalExpr, ExecStmt, ExecWhile;
    var p := CountProgram(n);
    assert p[..0] == [] && FuncsOf(p[..0]) == map[] && GlobalsOf(p[..0], k) == Some(map[]);
    assert FuncsOf(p) == map["main" := CountMain(n)] && GlobalsOf(p, k) == Some(map[]);
    var fs, body := FuncsOf(p), CountMain(n).body;
    var st := State(map[], [[map[], map[]]]);
    Declared(fs, k);
    Counts(fs, k, n, 0);
    assert ExecItem(fs, k, body[1], Stage(0)) == Normal(Stage(n)) by {
      OnlyStmt(fs, k, n);
    }
    Gives(fs, k, n);
    C.ThreeItems(fs, k, body, st, Stage(0), Stage(n), Returned(VInt(n), Stage(n)));
    var entered := State(map[], [] + [[map[]]]);
    assert entered.frames[0] + [map[]] == [map[], map[]];
    assert PushLayer(entered).frames == st.frames;
    assert BindParams([], []) == Bound(map[]);
    assert ExecBlock(fs, k, body, entered) == Returned(VInt(n), PopLayer(Stage(n)));
  }

  lemma OnlyStmt(fs: Funcs, k: nat, n: int)
    ensures ExecItem(fs, k, Ast.Do(Count(n)), Stage(0)) == ExecWhile(fs, k, Count(n), Stage(0))
  {
    hide ExecWhile;
  }

  lemma Gives(fs: Funcs, k: nat, n: int)
    ensures ExecItem(fs, k, Ast.Do(Ast.Return(Some(Ast.Var("i")))), Stage(n)) == Returned(VInt(n), Stage(n))
  {
    ReadsCounter(n);
    assert EvalExpr(fs, k, Ast.Var("i"), Stage(n)) == Ok(VInt(n), Stage(n));
  }

  // The compiled module halts with n in hand.
  lemma CompiledCounts(n: int)
    requires 0 <= n < TWO_63
    ensures Accepted(CountProgram(n)) && T.WellTyped(CountProgram(n))
    ensures HaltsIn(UnitOf(CountProgram(n)), Target.Halted(Target.TInt(n), map[]))
  {
    hide Accepted, T.WellTyped, RunMain;
    CountAccepted(n);
    CountTyped(n);
    CountRuns(n, n);
    assert EndsAs(CountProgram(n), Target.Halted(Target.TInt(n), map[]));
    TypedExactly(CountProgram(n), Target.Halted(Target.TInt(n), map[]));
  }
}
