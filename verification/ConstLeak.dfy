// A const array is not protected from a callee: a whole program, accepted by the compiler, that
// changes one.
module ConstLeak {
  import opened Wrappers
  import opened Scopes
  import opened Source
  import opened Acceptance
  import opened Compile
  import opened Typing
  import Ast
  import L = Lowering
  import Target

  function Poke(): Ast.Func {
    Ast.Func("poke", [Ast.Param("a", true)], [Ast.Do(Ast.Assign("a", Some(Ast.Num(0)), Ast.Num(2)))])
  }

  // A callee stores through its array parameter even when the caller's array is const.
  lemma Poked(fs: Funcs, k: nat, st: State, r: Ref)
    requires ValidRef(st, r) && At(st, r).isConst && At(st, r).cell.Array? && |At(st, r).cell.es| > 0
    ensures Invoke(fs, k, Poke(), [VRef(r)], st)
         == Ok(VVoid, Put(st, r, Binding(true, Array(At(st, r).cell.es[0 := 2]))))
  {
    var f := Poke();
    var es := At(st, r).cell.es;
    assert f.params[..0] == [] && [VRef(r)][..0] == [];
    assert BindParams([], []) == Bound(map[]);
    var layer: Layer := map["a" := Binding(false, Alias(r))];
    assert BindParams(f.params, [VRef(r)]) == Bound(layer);
    var st1 := st.(frames := st.frames + [[layer]]);
    var st2 := PushLayer(st1);
    var n := |st.frames|;
    assert st2.frames[n] == [layer, map[]];
    assert TopFrame(st2)[..1] == [layer];
    assert Find(TopFrame(st2), "a") == Some(0) by {
      assert Find([layer], "a") == Some(0);
    }
    var store := f.body[0].s;
    assert ArrayNamed(st2, "a") == Some(r);
    var st3 := Put(st2, r, Binding(true, Array(es[0 := 2])));
    assert EvalExpr(fs, k, Ast.Num(2), st2) == Ok(VInt(2), st2);
    assert EvalExpr(fs, k, Ast.Num(0), st2) == Ok(VInt(0), st2);
    assert WriteElem(st2, "a", VInt(0), VInt(2)) == Normal(st3);
    assert ExecStmt(fs, k, store, st2) == Normal(st3);
    assert ExecItem(fs, k, f.body[0], st2) == Normal(st3);
    assert ExecItems(fs, k, f.body[1..], st3) == Normal(st3);
    assert ExecItems(fs, k, f.body, st2) == Normal(st3);
    assert ExecBlock(fs, k, f.body, st1) == Normal(PopLayer(st3));
    assert PopFrame(PopLayer(st3)).frames == Put(st, r, Binding(true, Array(es[0 := 2]))).frames;
  }

  // const int t[1] = {1}; poke(t); return t[0];
  function PokeMain(): Ast.Func {
    Ast.Func("main", [], [
      Ast.Decl(true, [Table()]),
      Ast.Do(Ast.Eval(Some(Ast.Call("poke", [Ast.Var("t")])))),
      Ast.Do(Ast.Return(Some(Ast.Index("t", Ast.Num(0)))))])
  }

  function Table(): Ast.Def {
    Ast.Def("t", Some(Ast.Num(1)), Some(Ast.List(true, [Ast.Num(1)])))
  }

  function PokeProgram(): Ast.Program {
    [Ast.Function(Poke()), Ast.Function(PokeMain())]
  }

  // The compiler accepts the program.
  lemma PokeAccepted()
    ensures Accepted(PokeProgram())
  {
    hide CheckFunc;
    var p := PokeProgram();
    assert p[..1] == [Ast.Function(Poke())] && p[..1][..0] == [];
    var none := L.Env(map[], map[]);
    assert CheckProgram(p[..1][..0]) == Some(none);
    PokeChecked(none);
    var one := L.Env(map["poke" := 1], map[]);
    assert CheckProgram(p[..1]) == Some(one);
    MainChecked(one);
    assert CheckProgram(p) == Some(L.Env(map["poke" := 1, "main" := 0], map[]));
    AcceptsExactly(p);
  }

  lemma PokeChecked(env: L.Env)
    requires env == L.Env(map[], map[])
    ensures CheckFunc(env, Poke())
  {
    var env1 := env.(funcs := map["poke" := 1]);
    var vis := [map["a" := false], map[]];
    assert ParamLayer(Poke().params) == map["a" := false];
    assert vis[..1] == [map["a" := false]] && Find(vis[..1], "a") == Some(0) && Find(vis, "a") == Some(0);
    assert CheckStmt(env1, vis, false, Poke().body[0].s);
    assert CheckItem(env1, vis, false, Poke().body[0]) == Some(vis);
    assert Poke().body[1..] == [] && CheckItems(env1, vis, false, Poke().body);
  }

  lemma MainChecked(env: L.Env)
    requires env == L.Env(map["poke" := 1], map[])
    ensures CheckFunc(env, PokeMain())
  {
    var env1 := env.(funcs := map["poke" := 1, "main" := 0]);
    var body := PokeMain().body;
    var vis: Visible := [map[], map[]];
    var vis1: Visible := [map[], map["t" := true]];
    assert ParamLayer(PokeMain().params) == map[];
    assert CheckDef(env1, vis, true, Table()) == Some(vis1) by {
      assert ConstOf(map[], Ast.Num(1)) == Some(1);
      assert [Ast.Num(1)][1..] == [] && CheckAll(env1, vis, [Ast.Num(1)]);
      assert vis[1 := vis[1]["t" := true]] == vis1;
    }
    assert [Table()][1..] == [] && CheckItem(env1, vis, false, body[0]) == Some(vis1);
    assert Known(env1, vis1, "t") by {
      assert "t" in vis1[1];
    }
    assert [Ast.Var("t")][1..] == [] && CheckAll(env1, vis1, [Ast.Var("t")]);
    assert CheckItem(env1, vis1, false, body[1]) == Some(vis1);
    assert CheckItem(env1, vis1, false, body[2]) == Some(vis1);
    ThreeChecked(env1, vis, body, vis1);
  }

  lemma ThreeChecked(env: L.Env, vis: Visible, items: seq<Ast.Item>, vis1: Visible)
    requires |items| == 3 && vis != [] && vis1 != [] && CheckItem(env, vis, false, items[0]) == Some(vis1)
    requires CheckItem(env, vis1, false, items[1]) == CheckItem(env, vis1, false, items[2]) == Some(vis1)
    ensures CheckItems(env, vis, false, items)
  {
    hide CheckItem;
    assert items[1..][1..] == [items[2]] && items[1..][0] == items[1] && [items[2]][1..] == [];
    assert CheckItems(env, vis1, false, []) && CheckItems(env, vis1, false, [items[2]]);
    assert CheckItems(env, vis1, false, items[1..]);
  }

  // `main` while its block is open and `t` is bound to b.
  function Stage(b: Binding): State {
    State(map[], [[map[], map["t" := b]]])
  }

  const BEFORE: Binding := Binding(true, Array([1]))
  const AFTER: Binding := Binding(true, Array([2]))

  // It returns 2, though `t` was declared const with 1 in its only cell.
  lemma PokeRuns()
    ensures RunMain(PokeProgram(), 1).Ok? && RunMain(PokeProgram(), 1).v == VInt(2)
    ensures RunMain(PokeProgram(), 1).st.globals == map[]
  {
    hide Invoke, EvalExpr;
    PokeFuncs();
    var fs := FuncsOf(PokeProgram());
    MainRuns(fs);
    assert BindParams([], []) == Bound(map[]);
  }

  lemma MainRuns(fs: Funcs)
    requires "poke" in fs && fs["poke"] == Poke()
    ensures var r := Invoke(fs, 1, PokeMain(), [], State(map[], []));
      r.Ok? && r.v == VInt(2) && r.st.globals == map[]
  {
    hide ExecItem, ExecItems;
    var body := PokeMain().body;
    var st1 := State(map[], [] + [[map[]]]);
    var st2 := PushLayer(st1);
    assert st1.frames[0] + [map[]] == [map[], map[]];
    assert st2.frames == [[map[], map[]]];
    TableDeclared(fs, st2, Stage(BEFORE));
    CallRuns(fs);
    ReturnRuns(fs);
    ThreeItems(fs, 1, body, st2, Stage(BEFORE), Stage(AFTER), Returned(VInt(2), Stage(AFTER)));
    assert BindParams([], []) == Bound(map[]);
    assert ExecBlock(fs, 1, body, st1) == Returned(VInt(2), PopLayer(Stage(AFTER)));
  }

  lemma CallRuns(fs: Funcs)
    requires "poke" in fs && fs["poke"] == Poke()
    ensures ExecItem(fs, 1, PokeMain().body[1], Stage(BEFORE)) == Normal(Stage(AFTER))
  {
    hide Invoke;
    var st, r := Stage(BEFORE), Ref(0, 1, "t");
    TableFound(st, BEFORE);
    var args := [Ast.Var("t")];
    assert EvalExpr(fs, 1, args[0], st) == Ok(VRef(r), st);
    assert args[1..] == [] && EvalArgs(fs, 1, [], st) == Ok([], st);
    assert [VRef(r)] + [] == [VRef(r)];
    assert EvalArgs(fs, 1, args, st) == Ok([VRef(r)], st);
    Poked(fs, 0, st, r);
    assert [1][0 := 2] == [2];
    PutTable();
    assert EvalExpr(fs, 1, Ast.Call("poke", args), st) == Ok(VVoid, Stage(AFTER));
  }

  lemma PutTable()
    ensures Put(Stage(BEFORE), Ref(0, 1, "t"), AFTER) == Stage(AFTER)
  {
    var frame := Stage(BEFORE).frames[0];
    assert frame[1]["t" := AFTER] == map["t" := AFTER];
    assert frame[1 := map["t" := AFTER]] == Stage(AFTER).frames[0];
  }

  lemma ReturnRuns(fs: Funcs)
    ensures ExecItem(fs, 1, PokeMain().body[2], Stage(AFTER)) == Returned(VInt(2), Stage(AFTER))
  {
    var st := Stage(AFTER);
    TableFound(st, AFTER);
    assert EvalExpr(fs, 1, Ast.Num(0), st) == Ok(VInt(0), st);
    assert ReadElem(st, "t", VInt(0)) == Ok(VInt(2), st);
    assert EvalExpr(fs, 1, Ast.Index("t", Ast.Num(0)), st) == Ok(VInt(2), st);
  }

  lemma PokeFuncs()
    ensures FuncsOf(PokeProgram()) == map["poke" := Poke(), "main" := PokeMain()]
    ensures GlobalsOf(PokeProgram(), 1) == Some(map[])
  {
    var p := PokeProgram();
    assert p[..1] == [Ast.Function(Poke())] && p[..1][..0] == [];
    assert FuncsOf(p[..1][..0]) == map[] && FuncsOf(p[..1]) == map["poke" := Poke()];
    assert GlobalsOf(p[..1][..0], 1) == Some(map[]);
    assert GlobalsOf(p[..1], 1) == Some(map[]);
  }

  lemma TableValue(fs: Funcs, st: State)
    ensures EvalInit(fs, 1, Table().init, 1, st) == Ok([1], st)
  {
    var one := Ast.Num(1);
    assert EvalExpr(fs, 1, one, st) == Ok(VInt(1), st);
    assert Ast.Prefix([one], 1) == [one] && [one][1..] == [] && [VInt(1)] + [] == [VInt(1)];
    assert EvalArgs(fs, 1, [], st) == Ok([], st);
    assert EvalArgs(fs, 1, [one], st) == Ok([VInt(1)], st);
    OneInt(1);
    assert [1] + Zeros(0) == [1];
  }

  lemma TableDeclared(fs: Funcs, st: State, st': State)
    requires st.frames == [[map[], map[]]]
    requires st' == st.(frames := [[map[], map["t" := Binding(true, Array([1]))]]])
    ensures ExecItem(fs, 1, PokeMain().body[0], st) == Normal(st')
  {
    hide EvalInit, Invoke;
    assert EvalExpr(fs, 1, Ast.Num(1), st) == Ok(VInt(1), st);
    TableValue(fs, st);
    assert Declare(st, "t", Binding(true, Array([1]))) == Normal(st') by {
      assert st.frames[0][1 := st.frames[0][1]["t" := Binding(true, Array([1]))]] == st'.frames[0];
    }
    assert ExecDef(fs, 1, true, Table(), st) == Normal(st');
    assert ExecDefs(fs, 1, true, [Table()][1..], st') == Normal(st');
  }

  lemma TableFound(st: State, b: Binding)
    requires st.frames == [[map[], map["t" := b]]]
    ensures Find(TopFrame(st), "t") == Some(1) && BindingOf(st, "t") == Some(b)
  {
  }

  lemma ThreeItems(fs: Funcs, k: nat, items: seq<Ast.Item>, st1: State, st2: State, st3: State, o: Outcome)
    requires |items| == 3 && ExecItem(fs, k, items[0], st1) == Normal(st2)
    requires ExecItem(fs, k, items[1], st2) == Normal(st3)
    requires ExecItem(fs, k, items[2], st3) == o && o.Returned?
    ensures ExecItems(fs, k, items, st1) == o
  {
    hide ExecItem;
    assert items[1..][1..] == [items[2]] && items[1..][0] == items[1];
    assert ExecItems(fs, k, [items[2]], st3) == o;
    assert ExecItems(fs, k, items[1..], st2) == o;
  }

  // ----- types -----

  lemma PokeTyped()
    ensures WellTyped(PokeProgram())
  {
    PokeFuncs();
    var sig := Sig(FuncsOf(PokeProgram()), {});
    PokeFuncTyped(sig);
    MainTyped(sig);
    assert TypeFuncs(sig);
  }

  lemma PokeFuncTyped(sig: Sig)
    ensures TypeFunc(sig, false, Poke())
  {
    var t: Names := [map["a" := true], map[]];
    assert ParamNames(Poke().params) == map["a" := true] by {
      assert Poke().params[..0] == [];
    }
    assert t[..1] == [map["a" := true]] && Find(t[..1], "a") == Some(0) && Find(t, "a") == Some(0);
    assert IsNumber(sig, t, Ast.Num(0)) && IsNumber(sig, t, Ast.Num(2));
    assert TypeItem(sig, false, t, Poke().body[0]) == Some(t);
    assert Poke().body[1..] == [] && TypeItems(sig, false, t, []);
  }

  lemma MainTyped(sig: Sig)
    requires "poke" in sig.fs && sig.fs["poke"] == Poke()
    ensures TypeFunc(sig, false, PokeMain())
  {
    var body := PokeMain().body;
    var t: Names := [map[], map[]];
    var t1: Names := [map[], map["t" := true]];
    assert IsNumber(sig, t, Ast.Num(1)) && AllNumbers(sig, t, [Ast.Num(1)]);
    assert Named(t, "t", true) == t1 && TypeDef(sig, t, Table()) == Some(t1);
    assert [Table()][1..] == [] && TypeItem(sig, false, t, body[0]) == Some(t1);
    assert Find(t1, "t") == Some(1) && TypeExpr(sig, t1, Ast.Var("t")) == Some(Kind.Table);
    assert [Ast.Var("t")][1..] == [] && TypeArgs(sig, t1, [Ast.Var("t")], Poke().params);
    assert TypeItem(sig, false, t1, body[1]) == Some(t1);
    assert IsNumber(sig, t1, Ast.Num(0)) && IsNumber(sig, t1, Ast.Index("t", Ast.Num(0)));
    assert TypeItem(sig, false, t1, body[2]) == Some(t1);
    ThreeTyped(sig, t, body, t1);
  }

  lemma ThreeTyped(sig: Sig, t: Names, items: seq<Ast.Item>, t1: Names)
    requires |items| == 3 && t != [] && t1 != [] && TypeItem(sig, false, t, items[0]) == Some(t1)
    requires TypeItem(sig, false, t1, items[1]) == TypeItem(sig, false, t1, items[2]) == Some(t1)
    ensures TypeItems(sig, false, t, items)
  {
    hide TypeItem;
    assert items[1..][1..] == [items[2]] && items[1..][0] == items[1] && [items[2]][1..] == [];
    assert TypeItems(sig, false, t1, []) && TypeItems(sig, false, t1, [items[2]]);
    assert TypeItems(sig, false, t1, items[1..]);
  }

  // The compiled module does the same: it halts with 2 in hand.
  lemma PokeCompiled()
    ensures Accepted(PokeProgram()) && HaltsIn(UnitOf(PokeProgram()), Target.Halted(Target.TInt(2), map[]))
  {
    hide Accepted, WellTyped, RunMain;
    PokeAccepted();
    PokeTyped();
    PokeRuns();
    assert EndsAs(PokeProgram(), Target.Halted(Target.TInt(2), map[]));
    TypedExactly(PokeProgram(), Target.Halted(Target.TInt(2), map[]));
  }
}
