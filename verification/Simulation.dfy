// The forward simulation. Every result of the source evaluator is matched by the machine
// running the emitted code: a value by the operand generated for it, a jump by arrival at the
// target block, a return by arrival at a return instruction with the same value. When the
// evaluator runs out of fuel `k`, the machine has made at least `k` steps. No accepted program
// ever fails for a reason the compiler should have reported, and a trap stops the machine.
module Simulation {
  import opened Wrappers
  import opened Source
  import opened Target
  import opened Lowering
  import opened Growth
  import opened Fallthrough
  import opened Matching
  import opened Progress
  import opened VarSim
  import opened OpSim
  import opened DefSim
  import opened ControlSim
  import Ast

  lemma SiteFacts(site: Site)
    requires WorldOk(site.w) && site.f in site.w.fs
    ensures SiteOk(site) && GlobalsKnown(site) && EnvOk(site.w, EnvAt(site))
  {
    assert FuncOk(site.w, site.f);
  }

  // ----- composition -----

  lemma ExprThen(site: Site, g: Gen, g1: Gen, o: Operand, h: Gen, k: nat, r: Result<Val>,
                 c: Config, n1: nat, d1: Config, n2: nat, d2: Config)
    requires SiteOk(site) && g.nextReg <= g1.nextReg
    requires Moves(site.w.m, g.nextReg, c, n1, d1)
    requires ExprDone(site, g1, o, h, k, r, d1, n2, d2)
    ensures ExprDone(site, g, o, h, k, r, c, n1 + n2, d2)
  {
    match r
    case Ok(_, _) => MovesTrans(site.w.m, g.nextReg, c, n1, d1, g1.nextReg, n2, d2);
    case OutOfFuel => EnduresAfter(site.w.m, c, n1, d1, n2);
    case Fail(w) => WrongedAfter(site.w.m, c, n1, d1, n2, d2, w);
  }

  ghost predicate ArgsDone(site: Site, g: Gen, os: seq<Operand>, h: Gen, k: nat, r: Result<seq<Val>>, c: Config,
          n: nat, d: Config)
    requires SiteOk(site)
  {
    match r
    case Ok(vs, st) =>
      && Moves(site.w.m, g.nextReg, c, n, d)
      && Here(site, h, st, d)
      && |vs| == |os|
      && forall i | 0 <= i < |os| :: ValOk(Shapes(site, h.scopes), vs[i], OpVal(d.cur, os[i]))
    case OutOfFuel => k <= n && Endures(site.w.m, c, n)
    case Fail(w) => Wronged(site.w.m, c, n, d, w)
  }

  // ----- expressions -----

  lemma {:induction false} SimExpr(site: Site, g: Gen, e: Ast.Expr, k: nat, st: State, c: Config)
    returns (n: nat, d: Config)
    requires WorldOk(site.w) && site.f in site.w.fs && SiteOk(site)
    requires Here(site, g, st, c)
    requires GenExpr(EnvAt(site), g, e).Some? && Fits(site, GenExpr(EnvAt(site), g, e).value.1)
    ensures var (o, h) := GenExpr(EnvAt(site), g, e).value;
            ExprDone(site, g, o, h, k, EvalExpr(site.w.fs, k, e, st), c, n, d)
    decreases k, 0, e, 1
  {
    SiteFacts(site);
    match e
    case Num(_) =>
      n, d := 0, c;
      MovesNone(site.w.m, g.nextReg, c);
    case Paren(inner) => n, d := SimExpr(site, g, inner, k, st, c);
    case Var(x) => n, d := SimReadVar(site, g, x, k, st, c);
    case Index(_, _) => n, d := SimIndex(site, g, e, k, st, c);
    case Call(_, _) => n, d := SimCall(site, g, e, k, st, c);
    case Unary(_, _) => n, d := SimUnaryExpr(site, g, e, k, st, c);
    case Binary(_, _, _) => n, d := SimBinaryExpr(site, g, e, k, st, c);
  }

  lemma {:induction false} SimIndex(site: Site, g: Gen, e: Ast.Expr, k: nat, st: State, c: Config)
    returns (n: nat, d: Config)
    requires WorldOk(site.w) && site.f in site.w.fs && SiteOk(site)
    requires Here(site, g, st, c) && e.Index?
    requires GenExpr(EnvAt(site), g, e).Some? && Fits(site, GenExpr(EnvAt(site), g, e).value.1)
    ensures var (o, h) := GenExpr(EnvAt(site), g, e).value;
            ExprDone(site, g, o, h, k, EvalExpr(site.w.fs, k, e, st), c, n, d)
    decreases k, 0, e, 0
  {
    hide InPlace, Reaches, Endures, ReadElem, Stuck;
    var env := EnvAt(site);
    SiteFacts(site);
    var (i, g1) := GenExpr(env, g, e.idx).value;
    var (o, h) := GetValue(env, g1, e.name, Some(i)).value;
    GenExprExtends(env, g, e.idx);
    GetValueExtends(env, g1, e.name, Some(i));
    FitsBack(site, g1, h);
    n, d := SimExpr(site, g, e.idx, k, st, c);
    var r := EvalExpr(site.w.fs, k, e.idx, st);
    if r.Ok? {
      var n2, d2 := SimReadElem(site, g1, e.name, i, r.v, k, r.st, d);
      var res := EvalExpr(site.w.fs, k, e, st);
      assert res == ReadElem(r.st, e.name, r.v);
      ExprThen(site, g, g1, o, h, k, res, c, n, d, n2, d2);
      n, d := n + n2, d2;
    }
  }

  lemma {:induction false} SimUnaryExpr(site: Site, g: Gen, e: Ast.Expr, k: nat, st: State, c: Config)
    returns (n: nat, d: Config)
    requires WorldOk(site.w) && site.f in site.w.fs && SiteOk(site)
    requires Here(site, g, st, c) && e.Unary?
    requires GenExpr(EnvAt(site), g, e).Some? && Fits(site, GenExpr(EnvAt(site), g, e).value.1)
    ensures var (o, h) := GenExpr(EnvAt(site), g, e).value;
            ExprDone(site, g, o, h, k, EvalExpr(site.w.fs, k, e, st), c, n, d)
    decreases k, 0, e, 0
  {
    hide Reaches, Endures;
    hide GenUnary, CombineUnary;
    var env := EnvAt(site);
    var (a, g1) := GenExpr(env, g, e.arg).value;
    var (o, h) := GenUnary(g1, e.op, a);
    GenExprExtends(env, g, e.arg);
    GenUnaryExtends(g1, e.op, a);
    FitsBack(site, g1, h);
    n, d := SimExpr(site, g, e.arg, k, st, c);
    var r := EvalExpr(site.w.fs, k, e.arg, st);
    if r.Ok? {
      var n2, d2 := SimUnary(site, g1, e.op, a, r.v, k, r.st, d);
      ExprThen(site, g, g1, o, h, k, CombineUnary(e.op, r.v, r.st), c, n, d, n2, d2);
      n, d := n + n2, d2;
    }
  }

  // The second operand and the operator, once the first operand is in place.
  lemma {:induction false} SimRight(site: Site, g: Gen, op: Ast.BinOp, a: Operand, x: Val, r: Ast.Expr, k: nat,
          st: State, c: Config)
    returns (n: nat, d: Config)
    requires WorldOk(site.w) && site.f in site.w.fs && SiteOk(site)
    requires Here(site, g, st, c)
    requires Ready(a, g.nextReg) && LeftOk(Shapes(site, g.scopes), op, x, OpVal(c.cur, a))
    requires GenExpr(EnvAt(site), g, r).Some?
    requires var (b, g1) := GenExpr(EnvAt(site), g, r).value; Fits(site, GenBinary(g1, op, a, b).1)
    ensures var (b, g1) := GenExpr(EnvAt(site), g, r).value; var (o, h) := GenBinary(g1, op, a, b);
            ExprDone(site, g, o, h, k, EvalRest(site.w.fs, k, op, x, r, st), c, n, d)
    decreases k, 0, r, 2
  {
    hide GenBinary, Combine, InPlace, Reaches, Endures, Match, Compute, Step, GenExpr, EvalExpr, Here, Folded;
    hide RhsVal, LeftOk;
    var env := EnvAt(site);
    var (b, g1) := GenExpr(env, g, r).value;
    var (o, h) := GenBinary(g1, op, a, b);
    GenExprExtends(env, g, r);
    GenBinaryExtends(g1, op, a, b);
    FitsBack(site, g1, h);
    n, d := SimExpr(site, g, r, k, st, c);
    var res := EvalExpr(site.w.fs, k, r, st);
    if res.Ok? {
      KeepsReady(c.cur, d.cur, g.nextReg, a);
      var n2, d2 := SimBinary(site, g1, op, a, b, x, res.v, k, res.st, d);
      ExprThen(site, g, g1, o, h, k, Combine(op, x, res.v, res.st), c, n, d, n2, d2);
      n, d := n + n2, d2;
    }
  }

  lemma {:induction false} SimRest(site: Site, g: Gen, op: Ast.BinOp, a: Operand, x: Val, r: Ast.Expr, k: nat,
          st: State, c: Config)
    returns (n: nat, d: Config)
    requires WorldOk(site.w) && site.f in site.w.fs && SiteOk(site)
    requires Here(site, g, st, c)
    requires Ready(a, g.nextReg) && ValOk(Shapes(site, g.scopes), x, OpVal(c.cur, a))
    requires var (a', g1) := GenLeft(g, op, a); GenExpr(EnvAt(site), g1, r).Some?
    requires var (a', g1) := GenLeft(g, op, a); var (b, g2) := GenExpr(EnvAt(site), g1, r).value;
             Fits(site, GenBinary(g2, op, a', b).1)
    ensures var (a', g1) := GenLeft(g, op, a); var (b, g2) := GenExpr(EnvAt(site), g1, r).value;
            var (o, h) := GenBinary(g2, op, a', b);
            ExprDone(site, g, o, h, k, EvalRest(site.w.fs, k, op, x, r, st), c, n, d)
    decreases k, 0, r, 3
  {
    hide GenBinary, Combine, InPlace, Reaches, Endures, Match, Compute, Moves, Step, GenExpr, EvalExpr, Here;
    hide Folded, RhsVal, LeftOk;
    var (a', g1) := GenLeft(g, op, a);
    var (b, g2) := GenExpr(EnvAt(site), g1, r).value;
    var (o, h) := GenBinary(g2, op, a', b);
    GenLeftExtends(g, op, a);
    GenExprExtends(EnvAt(site), g1, r);
    GenBinaryExtends(g2, op, a', b);
    FitsBack(site, g2, h);
    FitsBack(site, g1, g2);
    n, d := 0, c;
    if op.Or? || op.And? ==> x.VInt? {
      n, d := SimLeft(site, g, op, a, x, st, c);
      var n2, d2 := SimRight(site, g1, op, a', x, r, k, st, d);
      ExprThen(site, g, g1, o, h, k, EvalRest(site.w.fs, k, op, x, r, st), c, n, d, n2, d2);
      n, d := n + n2, d2;
    }
  }

  lemma {:induction false} SimBinaryExpr(site: Site, g: Gen, e: Ast.Expr, k: nat, st: State, c: Config)
    returns (n: nat, d: Config)
    requires WorldOk(site.w) && site.f in site.w.fs && SiteOk(site)
    requires Here(site, g, st, c) && e.Binary?
    requires GenExpr(EnvAt(site), g, e).Some? && Fits(site, GenExpr(EnvAt(site), g, e).value.1)
    ensures var (o, h) := GenExpr(EnvAt(site), g, e).value;
            ExprDone(site, g, o, h, k, EvalExpr(site.w.fs, k, e, st), c, n, d)
    decreases k, 0, e, 0
  {
    hide Reaches, Endures;
    hide EvalRest, GenLeft, GenBinary;
    var env := EnvAt(site);
    var op := e.bop;
    var (a, g1) := GenExpr(env, g, e.l).value;
    var (o, h) := GenExpr(env, g, e).value;
    GenExprExtends(env, g, e.l);
    RestExtends(env, g1, op, a, e.r);
    FitsBack(site, g1, h);
    n, d := SimExpr(site, g, e.l, k, st, c);
    var r := EvalExpr(site.w.fs, k, e.l, st);
    if r.Ok? {
      var n2, d2 := SimRest(site, g1, op, a, r.v, e.r, k, r.st, d);
      ExprThen(site, g, g1, o, h, k, EvalRest(site.w.fs, k, op, r.v, e.r, r.st), c, n, d, n2, d2);
      n, d := n + n2, d2;
    }
  }

  lemma RestExtends(env: Env, g: Gen, op: Ast.BinOp, a: Operand, r: Ast.Expr)
    requires g.cur < |g.blocks| && Ready(a, g.nextReg)
    requires var (a', g1) := GenLeft(g, op, a); GenExpr(env, g1, r).Some?
    ensures var (a', g1) := GenLeft(g, op, a); var (b, g2) := GenExpr(env, g1, r).value;
            Extends(g, GenBinary(g2, op, a', b).1)
  {
    var (a', g1) := GenLeft(g, op, a);
    var (b, g2) := GenExpr(env, g1, r).value;
    GenLeftExtends(g, op, a);
    GenExprExtends(env, g1, r);
    GenBinaryExtends(g2, op, a', b);
    ExtendsTrans(g, g1, g2);
    ExtendsTrans(g, g2, GenBinary(g2, op, a', b).1);
  }

  lemma {:induction false} SimArgs(site: Site, g: Gen, es: seq<Ast.Expr>, k: nat, st: State, c: Config)
    returns (n: nat, d: Config)
    requires WorldOk(site.w) && site.f in site.w.fs && SiteOk(site)
    requires Here(site, g, st, c)
    requires GenArgs(EnvAt(site), g, es).Some? && Fits(site, GenArgs(EnvAt(site), g, es).value.1)
    ensures var (os, h) := GenArgs(EnvAt(site), g, es).value;
            ArgsDone(site, g, os, h, k, EvalArgs(site.w.fs, k, es, st), c, n, d)
    decreases k, 0, es, 0
  {
    hide Reaches, Endures, Match, InPlace, Compute, Moves, Step, GenExpr, EvalExpr, Folded;
    if es == [] {
      n, d := 0, c;
      MovesNone(site.w.m, g.nextReg, c);
    } else {
      var env := EnvAt(site);
      var (o, g1) := GenExpr(env, g, es[0]).value;
      var (os, h) := GenArgs(env, g1, es[1..]).value;
      GenExprExtends(env, g, es[0]);
      GenArgsExtends(env, g1, es[1..]);
      FitsBack(site, g1, h);
      n, d := SimExpr(site, g, es[0], k, st, c);
      var r := EvalExpr(site.w.fs, k, es[0], st);
      if r.Ok? {
        var n2, d2 := SimArgs(site, g1, es[1..], k, r.st, d);
        var r2 := EvalArgs(site.w.fs, k, es[1..], r.st);
        ArgsThen(site, g, g1, o, r.v, os, h, k, r2, c, n, d, n2, d2);
        n, d := n + n2, d2;
      }
    }
  }

  lemma ArgsThen(site: Site, g: Gen, g1: Gen, o: Operand, v: Val, os: seq<Operand>, h: Gen, k: nat, r: Result<seq<Val>>,
                 c: Config, n1: nat, d1: Config, n2: nat, d2: Config)
    requires SiteOk(site) && g.nextReg <= g1.nextReg && g1.scopes == h.scopes
    requires Moves(site.w.m, g.nextReg, c, n1, d1)
    requires Ready(o, g1.nextReg) && ValOk(Shapes(site, g1.scopes), v, OpVal(d1.cur, o))
    requires ArgsDone(site, g1, os, h, k, r, d1, n2, d2)
    ensures r.Ok? ==> ArgsDone(site, g, [o] + os, h, k, Ok([v] + r.v, r.st), c, n1 + n2, d2)
    ensures !r.Ok? ==> ArgsDone(site, g, [o] + os, h, k, r, c, n1 + n2, d2)
  {
    match r
    case Ok(vs, st) =>
      MovesTrans(site.w.m, g.nextReg, c, n1, d1, g1.nextReg, n2, d2);
      KeepsReady(d1.cur, d2.cur, g1.nextReg, o);
    case OutOfFuel => EnduresAfter(site.w.m, c, n1, d1, n2);
    case Fail(w) => WrongedAfter(site.w.m, c, n1, d1, n2, d2, w);
  }
  // ----- calls -----

  // A call that has just been entered, over callers of shapes `sh`.
  ghost predicate Entered(w: World, f: string, vs: seq<Val>, sh: seq<Shape>, st: State, c: Config)
    requires f in w.m
  {
    && c.Running?
    && EntryCode(w.m[f]) == c.cur.code
    && c.cur.fname == f && c.cur.depth == |sh| && c.cur.regs == map[]
    && |c.cur.args| == |vs|
    && (forall i | 0 <= i < |vs| :: ValOk(sh, vs[i], c.cur.args[i]))
    && |c.frames| == |sh| + 1
    && c.frames[|sh|] == NewFrame(w.m[f].slots)
    && Match(sh, st, c.frames[..|sh|])
    && c.globals == st.globals
    && w.globals <= st.globals.Keys
  }

  ghost function EntryCode(fn: Fn): Code {
    if fn.blocks == [] then [] else fn.blocks[0]
  }

  // The call is about to return to callers of shapes `sh`.
  ghost predicate InvokeDone(w: World, sh: seq<Shape>, k: nat, r: Result<Val>, c: Config, n: nat, d: Config) {
    match r
    case Ok(v, st) =>
      && Reaches(w.m, c, n, d)
      && AtReturn(d)
      && c.Running? && d.stack == c.stack
      && |d.frames| == |sh| + 1
      && Match(sh, st, d.frames[..|sh|])
      && d.globals == st.globals
      && w.globals <= st.globals.Keys
      && ValOk(sh, v, ReturnVal(d))
    case OutOfFuel => k <= n && Endures(w.m, c, n)
    case Fail(why) => Wronged(w.m, c, n, d, why)
  }

  // From the call instruction into the callee.
  lemma StepEnter(site: Site, g: Gen, f: string, os: seq<Operand>, vs: seq<Val>, st: State,
          c: Config) returns (d: Config)
    requires SiteOk(site) && Here(site, g, st, c) && Fits(site, EmitCall(g, f, os).1)
    requires f in site.w.m && site.w.m[f].arity == |os| == |vs| && site.w.m[f].blocks != []
    requires forall i | 0 <= i < |os| :: ValOk(Shapes(site, g.scopes), vs[i], OpVal(c.cur, os[i]))
    ensures Reaches(site.w.m, c, 1, d)
    ensures Entered(site.w, f, vs, Shapes(site, g.scopes), st, d)
    ensures c.cur.code != []
    ensures d.stack == c.stack + [Saved(c.cur.(code := c.cur.code[1..]), g.nextReg)]
  {
    var g' := g.(nextReg := g.nextReg + 1);
    assert Here(site, g', st, c);
    NextInstr(site, g', Instr.Call(g.nextReg, f, os), st, c);
    d := Enter(site.w.m, c, f, OpVals(c.cur, os), c.cur.(code := c.cur.code[1..]), g.nextReg).value;
    RunOne(site.w.m, c, d);
    assert d.frames[..|c.frames|] == c.frames;
  }

  // From the return instruction back to the caller, `c` being where the caller made the call.
  lemma StepLeave(site: Site, g: Gen, f: string, os: seq<Operand>, v: Val, st0: State, st: State, c: Config, e: Config)
    returns (d: Config)
    requires SiteOk(site) && Here(site, g, st0, c) && Fits(site, EmitCall(g, f, os).1)
    requires AtReturn(e) && c.cur.code != []
    requires e.stack == c.stack + [Saved(c.cur.(code := c.cur.code[1..]), g.nextReg)]
    requires |e.frames| == |site.outer| + 2
    requires Match(Shapes(site, g.scopes), st, e.frames[..|e.frames| - 1])
    requires e.globals == st.globals && site.w.globals <= st.globals.Keys
    requires ValOk(Shapes(site, g.scopes), v, ReturnVal(e))
    ensures Reaches(site.w.m, e, 1, d)
    ensures d.Running? && d.stack == c.stack && d.cur.depth == c.cur.depth && Keeps(c.cur, d.cur, g.nextReg)
    ensures var (o, h) := EmitCall(g, f, os); Here(site, h, st, d) && ValOk(Shapes(site, h.scopes), v, OpVal(d.cur, o))
  {
    var g' := g.(nextReg := g.nextReg + 1);
    assert Here(site, g', st0, c);
    d := Leave(e, ReturnVal(e)).value;
    RunOne(site.w.m, e, d);
    KeepsSetReg(c.cur, g.nextReg, ReturnVal(e), c.cur.code[1..]);
    assert InPlace(site, g.scopes, st, d);
    Arrive(site, g', Instr.Call(g.nextReg, f, os), st0, c, st, d);
  }

  lemma CalleeFacts(w: World, env: Env, f: string, n: nat)
    requires WorldOk(w) && EnvOk(w, env) && f in env.funcs && env.funcs[f] == n
    ensures f in w.fs && |w.fs[f].params| == n && w.m[f].arity == n && w.m[f].blocks != []
  {
    assert FuncOk(w, f);
  }

  // A call whose arguments are in place.
  lemma {:induction false} SimTransfer(site: Site, g: Gen, f: string, os: seq<Operand>, vs: seq<Val>, k: nat,
          st: State, c: Config)
    returns (n: nat, d: Config)
    requires WorldOk(site.w) && SiteOk(site) && f in site.w.fs
    requires Here(site, g, st, c) && Fits(site, EmitCall(g, f, os).1)
    requires |site.w.fs[f].params| == |os| == |vs|
    requires f in site.w.m && site.w.m[f].arity == |os| && site.w.m[f].blocks != []
    requires forall i | 0 <= i < |os| :: ValOk(Shapes(site, g.scopes), vs[i], OpVal(c.cur, os[i]))
    ensures var (o, h) := EmitCall(g, f, os);
            ExprDone(site, g, o, h, k + 1, Invoke(site.w.fs, k, site.w.fs[f], vs, st), c, n, d)
    decreases k, 2
  {
    hide Reaches, Endures, Invoke, Entered, Match, InPlace, NewFrame;
    var sh := Shapes(site, g.scopes);
    var c1 := StepEnter(site, g, f, os, vs, st, c);
    var n2, c2 := SimInvoke(site.w, f, vs, sh, k, st, c1);
    var r := Invoke(site.w.fs, k, site.w.fs[f], vs, st);
    n, d := 1 + n2, c2;
    match r
    case Ok(v, st') =>
      assert |c2.frames| - 1 == |sh|;
      d := StepLeave(site, g, f, os, v, st, st', c, c2);
      ReachesTrans(site.w.m, c, 1, c1, n2, c2);
      ReachesTrans(site.w.m, c, 1 + n2, c2, 1, d);
      n := 1 + n2 + 1;
    case OutOfFuel => EnduresAfter(site.w.m, c, 1, c1, n2);
    case Fail(why) => WrongedAfter(site.w.m, c, 1, c1, n2, c2, why);
  }

  lemma {:induction false} SimCall(site: Site, g: Gen, e: Ast.Expr, k: nat, st: State, c: Config)
    returns (n: nat, d: Config)
    requires WorldOk(site.w) && site.f in site.w.fs && SiteOk(site)
    requires Here(site, g, st, c) && e.Call?
    requires GenExpr(EnvAt(site), g, e).Some? && Fits(site, GenExpr(EnvAt(site), g, e).value.1)
    ensures var (o, h) := GenExpr(EnvAt(site), g, e).value;
            ExprDone(site, g, o, h, k, EvalExpr(site.w.fs, k, e, st), c, n, d)
    decreases k, 0, e, 0
  {
    hide Reaches, Endures, InPlace, Invoke;
    var env := EnvAt(site);
    SiteFacts(site);
    CalleeFacts(site.w, env, e.f, |e.args|);
    var (os, g1) := GenArgs(env, g, e.args).value;
    var (o, h) := EmitCall(g1, e.f, os);
    GenArgsExtends(env, g, e.args);
    EmitExtends(g1.(nextReg := g1.nextReg + 1), Instr.Call(g1.nextReg, e.f, os));
    assert Fits(site, g1);
    n, d := SimArgs(site, g, e.args, k, st, c);
    var r := EvalArgs(site.w.fs, k, e.args, st);
    if r.Ok? {
      if k == 0 {
        n := 0;
        EnduresNone(site.w.m, c);
      } else {
        var n2, d2 := SimTransfer(site, g1, e.f, os, r.v, k - 1, r.st, d);
        ExprThen(site, g, g1, o, h, k, Invoke(site.w.fs, k - 1, site.w.fs[e.f], r.v, r.st), c, n, d, n2, d2);
        n, d := n + n2, d2;
      }
    }
  }

  // ----- entering a function -----

  lemma RefOkBelow(sh: seq<Shape>, top: Shape, r: Ref)
    requires RefOk(sh, r)
    ensures RefOk(sh + [top], r) && RefPtr(sh + [top], r) == RefPtr(sh, r)
  {
  }

  function WithFrame(st: State, layer: Layer): State {
    st.(frames := st.frames + [[layer]])
  }

  // One parameter: its argument is stored into its slot.
  lemma SimParam(site: Site, g: Gen, p: Ast.Param, n: nat, v: Val, layer: Layer, st: State, c: Config)
    returns (k: nat, d: Config)
    requires SiteOk(site) && Here(site, g, WithFrame(st, layer), c)
    requires n < |c.cur.args| && ValOk(site.outer, v, c.cur.args[n])
    requires Define(g, p.name, false, ParamKind(p), [Arg(n)]).Some?
    requires Fits(site, Define(g, p.name, false, ParamKind(p), [Arg(n)]).value)
    requires if p.isArray then v.VRef? else v.VInt?
    ensures p.name !in layer
    ensures Moves(site.w.m, g.nextReg, c, k, d)
    ensures var cell := if p.isArray then Alias(v.r) else Scalar(v.i);
            Here(site, Define(g, p.name, false, ParamKind(p), [Arg(n)]).value,
                 WithFrame(st, layer[p.name := Binding(false, cell)]), d)
  {
    hide Reaches, Endures;
    var cell := if p.isArray then Alias(v.r) else Scalar(v.i);
    var b := Binding(false, cell);
    var sh := Shapes(site, g.scopes);
    var t := |site.outer|;
    if p.isArray {
      RefOkBelow(site.outer, sh[t], v.r);
    }
    assert FrameOk(sh, t, WithFrame(st, layer).frames[t], c.frames[t]);
    k, d := SimDefineOne(site, g, p.name, false, ParamKind(p), Arg(n), c.cur.args[n], b, WithFrame(st, layer), c);
    var frames := WithFrame(st, layer).frames;
    assert frames[|st.frames|] == [layer] && [layer][0 := layer[p.name := b]] == [layer[p.name := b]];
    assert frames[|st.frames| := [layer[p.name := b]]] == WithFrame(st, layer[p.name := b]).frames;
  }

  lemma {:induction false} SimParams(site: Site, params: seq<Ast.Param>, n: nat, vs: seq<Val>, st: State, c: Config)
    returns (k: nat, d: Config)
    requires SiteOk(site) && Here(site, PushScope(EMPTY), WithFrame(st, map[]), c)
    requires n <= |params| == |vs| == |c.cur.args|
    requires forall i | 0 <= i < |vs| :: ValOk(site.outer, vs[i], c.cur.args[i])
    requires GenParams(PushScope(EMPTY), params, n).Some? && Fits(site, GenParams(PushScope(EMPTY), params, n).value)
    ensures match BindParams(params[..n], vs[..n])
            case Bound(layer) =>
              Moves(site.w.m, 0, c, k, d)
              && Here(site, GenParams(PushScope(EMPTY), params, n).value, WithFrame(st, layer), d)
            case Unbound(w) => w == Misuse
    decreases n
  {
    hide InPlace;
    hide Reaches, Endures;
    hide Define;
    k, d := 0, c;
    if n == 0 {
      MovesNone(site.w.m, 0, c);
    } else {
      var g1 := GenParams(PushScope(EMPTY), params, n - 1).value;
      var p := params[n - 1];
      var h := GenParams(PushScope(EMPTY), params, n).value;
      GenParamsExtends(PushScope(EMPTY), params, n - 1);
      DefineExtends(g1, p.name, false, ParamKind(p), [Arg(n - 1)]);
      FitsBack(site, g1, h);
      k, d := SimParams(site, params, n - 1, vs, st, c);
      assert params[..n][..n - 1] == params[..n - 1] && vs[..n][..n - 1] == vs[..n - 1];
      var r := BindParams(params[..n - 1], vs[..n - 1]);
      if r.Bound? && (if p.isArray then vs[n - 1].VRef? else vs[n - 1].VInt?) {
        var k2, d2 := SimParam(site, g1, p, n - 1, vs[n - 1], r.layer, st, d);
        MovesTrans(site.w.m, 0, c, k, d, g1.nextReg, k2, d2);
        k, d := k + k2, d2;
      } else if r.Bound? {
        ParamMisuse(site, g1, p, n, r.layer, st, d, h);
      }
    }
  }

  // A parameter given the wrong kind of value is not a clash of names.
  lemma ParamMisuse(site: Site, g: Gen, p: Ast.Param, n: nat, layer: Layer, st: State, c: Config, h: Gen)
    requires SiteOk(site) && Here(site, g, WithFrame(st, layer), c) && n > 0
    requires Define(g, p.name, false, ParamKind(p), [Arg(n - 1)]) == Some(h)
    ensures p.name !in layer
  {
    var sh := Shapes(site, g.scopes);
    var t := |site.outer|;
    assert FrameOk(sh, t, WithFrame(st, layer).frames[t], c.frames[t]);
  }

  lemma EnteredHere(w: World, f: string, vs: seq<Val>, sh: seq<Shape>, st: State, c: Config)
    requires WorldOk(w) && f in w.fs && f in w.m && f in w.envs
    requires Entered(w, f, vs, sh, st, c)
    requires Fits(Site(w, f, sh), PushScope(EMPTY))
    ensures Here(Site(w, f, sh), PushScope(EMPTY), WithFrame(st, map[]), c)
  {
    var site := Site(w, f, sh);
    EnterMatch(sh, st, c.frames[..|sh|], FnAt(site).slots);
    assert c.frames[..|sh|] + [NewFrame(FnAt(site).slots)] == c.frames;
    assert FnAt(site).blocks[0][0..] == FnAt(site).blocks[0];
    assert PushScope(EMPTY).scopes == [map[]];
  }

  // What the end of the body owes to the caller.
  lemma FinishCall(site: Site, g0: Gen, h: Gen, k: nat, o: Outcome, c: Config, n: nat, d: Config)
    requires SiteOk(site) && h.cur < |h.blocks| && Fits(site, Finish(h)) && g0.loops == []
    requires StmtDone(site, g0.scopes, [], h, k, o, c, n, d)
    requires h.scopes == g0.scopes
    requires o.Normal? ==> Open(h)
    ensures InvokeDone(site.w, site.outer, k, CallResult(o), c, n, d)
  {
    match o
    case Normal(st) =>
      NextInstr(site, h, RetVoid, st, d);
      LeaveMatch(site.outer, Shape(h.scopes, FnAt(site).slots), st, d.frames);
      assert d.frames[..|d.frames| - 1] == d.frames[..|site.outer|];
    case Returned(v, st) =>
      LeaveMatch(site.outer, Shape(g0.scopes, FnAt(site).slots), st, d.frames);
      assert d.frames[..|d.frames| - 1] == d.frames[..|site.outer|];
    case _ =>
  }

  // The stages of generating a function all fit the finished function.
  lemma BodyFacts(site: Site)
    requires WorldOk(site.w) && site.f in site.w.fs && SiteOk(site)
    ensures var fn := site.w.fs[site.f]; var g0 := PushScope(EMPTY);
            && Fits(site, g0)
            && var g1 := GenParams(g0, fn.params, |fn.params|);
               g1.Some? && Fits(site, g1.value) && Open(g1.value) && g1.value.loops == [] && g1.value.scopes != []
               && var g2 := GenBlock(EnvAt(site), g1.value, fn.body);
                  g2.Some? && Fits(site, g2.value) && Fits(site, Finish(g2.value)) && g2.value.scopes == g1.value.scopes
  {
    assert FuncOk(site.w, site.f);
    var fn := site.w.fs[site.f];
    var g0 := PushScope(EMPTY);
    var g1 := GenParams(g0, fn.params, |fn.params|).value;
    var g2 := GenBlock(EnvAt(site), g1, fn.body).value;
    GenParamsExtends(g0, fn.params, |fn.params|);
    GenBlockExtends(EnvAt(site), g1, fn.body);
    EmitExtends(g2, RetVoid);
    assert Fits(site, Finish(g2));
    FitsBack(site, g2, Finish(g2));
    FitsBack(site, g1, g2);
    FitsBack(site, g0, g1);
    StaysOpen(g0, g1);
  }

  lemma {:induction false} SimInvoke(w: World, f: string, vs: seq<Val>, sh: seq<Shape>, k: nat, st: State, c: Config)
    returns (n: nat, d: Config)
    requires WorldOk(w) && f in w.fs && f in w.m && |w.fs[f].params| == |vs|
    requires Entered(w, f, vs, sh, st, c)
    ensures InvokeDone(w, sh, k, Invoke(w.fs, k, w.fs[f], vs, st), c, n, d)
    decreases k, 1
  {
    hide BindParams, ExecBlock, Finish, Match, InPlace, Fits, Moves, Step, Extends, GenParams, GenBlock, Here;
    hide NewFrame, Reaches, Endures;
    var site := Site(w, f, sh);
    var fn := w.fs[f];
    var g0 := PushScope(EMPTY);
    BodyFacts(site);
    var g1 := GenParams(g0, fn.params, |fn.params|).value;
    var g2 := GenBlock(EnvAt(site), g1, fn.body).value;
    EnteredHere(w, f, vs, sh, st, c);
    n, d := SimParams(site, fn.params, |fn.params|, vs, st, c);
    assert fn.params[..|fn.params|] == fn.params && vs[..|vs|] == vs;
    var r := BindParams(fn.params, vs);
    if r.Bound? {
      var st1 := WithFrame(st, r.layer);
      var n2, d2 := SimBlock(site, g1, fn.body, k, st1, d);
      var o := ExecBlock(w.fs, k, fn.body, st1);
      StmtThen(site, g1.scopes, [], g2, k, o, 0, c, n, d, n2, d2);
      n, d := n + n2, d2;
      if o.Normal? {
        BlockOpen(w.fs, EnvAt(site), g1, fn.body, k, st1);
      }
      FinishCall(site, g1, g2, k, o, c, n, d);
    }
  }

  // ----- declarations -----

  ghost predicate InitDone(site: Site, g: Gen, vals: seq<Operand>, h: Gen, k: nat, r: Result<seq<int>>, c: Config,
          n: nat, d: Config)
    requires SiteOk(site)
  {
    match r
    case Ok(ints, st) =>
      && Moves(site.w.m, g.nextReg, c, n, d)
      && Here(site, h, st, d)
      && Operands(d.cur, vals, ints, h.nextReg)
    case OutOfFuel => k <= n && Endures(site.w.m, c, n)
    case Fail(w) => Wronged(site.w.m, c, n, d, w)
  }

  lemma PadOperands(a: Act, os: seq<Operand>, ints: seq<int>, n: nat, pad: nat)
    requires Operands(a, os, ints, n)
    ensures Operands(a, os + ZeroOps(pad), ints + Zeros(pad), n)
  {
  }

  lemma {:induction false} SimInit(site: Site, g: Gen, init: Option<Ast.Init>, size: nat, k: nat, st: State, c: Config)
    returns (n: nat, d: Config)
    requires WorldOk(site.w) && site.f in site.w.fs && SiteOk(site)
    requires Here(site, g, st, c)
    requires GenInit(EnvAt(site), g, init, size).Some? && Fits(site, GenInit(EnvAt(site), g, init, size).value.1)
    ensures var (vals, h) := GenInit(EnvAt(site), g, init, size).value;
            InitDone(site, g, vals, h, k, EvalInit(site.w.fs, k, init, size, st), c, n, d)
    decreases k, 0, init, 0
  {
    hide Reaches, Endures;
    n, d := 0, c;
    MovesNone(site.w.m, g.nextReg, c);
    match init
    case None => PadOperands(c.cur, [], [], g.nextReg, size);
      assert [] + ZeroOps(size) == ZeroOps(size) && [] + Zeros(size) == Zeros(size);
    case Some(Text(codes)) =>
      var used := Ast.Prefix(codes, size);
      PadOperands(c.cur, Constants(used), Wraps(used), g.nextReg, size - |used|);
    case Some(List(_, es)) =>
      var used := Ast.Prefix(es, size);
      var (os, h) := GenArgs(EnvAt(site), g, used).value;
      GenArgsExtends(EnvAt(site), g, used);
      n, d := SimArgs(site, g, used, k, st, c);
      var r := EvalArgs(site.w.fs, k, used, st);
      if r.Ok? && Ints(r.v).Some? {
        var ints := Ints(r.v).value;
        forall i | 0 <= i < |os|
          ensures Ready(os[i], h.nextReg) && OpVal(d.cur, os[i]) == TInt(ints[i])
        {
          assert ValOk(Shapes(site, h.scopes), r.v[i], OpVal(d.cur, os[i]));
          assert os[i] in os;
        }
        PadOperands(d.cur, os, ints, h.nextReg, size - |os|);
      }
  }

  lemma StoreThen(site: Site, at: Layers, loops: seq<(nat, nat)>, g: Gen, g1: Gen, h: Gen, k: nat, r: Outcome, lo: nat,
                  c: Config, n1: nat, d1: Config, n2: nat, d2: Config)
    requires SiteOk(site) && Moves(site.w.m, lo, c, n1, d1)
    requires StoreDone(site, g1, h, r, d1, n2, d2)
    ensures StmtDone(site, at, loops, h, k, r, c, n1 + n2, d2)
  {
    if r.Normal? {
      MovesWeaken(site.w.m, lo, c, n1, d1);
      MovesTrans(site.w.m, 0, c, n1, d1, g1.nextReg, n2, d2);
    } else {
      WrongedAfter(site.w.m, c, n1, d1, n2, d2, r.why);
    }
  }

  lemma {:induction false} SimScalarDef(site: Site, g: Gen, isConst: bool, def: Ast.Def, at: Layers, k: nat,
          st: State, c: Config)
    returns (n: nat, d: Config)
    requires WorldOk(site.w) && site.f in site.w.fs && SiteOk(site)
    requires Here(site, g, st, c) && def.size.None?
    requires GenDef(EnvAt(site), g, isConst, def).Some? && Fits(site, GenDef(EnvAt(site), g, isConst, def).value)
    ensures StmtDone(site, at, g.loops, GenDef(EnvAt(site), g, isConst, def).value, k,
                     ExecDef(site.w.fs, k, isConst, def, st), c, n, d)
    decreases k, 0, def, 0
  {
    hide InPlace;
    hide Reaches, Endures;
    var env := EnvAt(site);
    var (vals, g1) := GenInit(env, g, def.init, 1).value;
    var h := GenDef(env, g, isConst, def).value;
    GenInitExtends(env, g, def.init, 1);
    DefineExtends(g1, def.name, isConst, KScalar, vals);
    FitsBack(site, g1, h);
    n, d := SimInit(site, g, def.init, 1, k, st, c);
    var r := EvalInit(site.w.fs, k, def.init, 1, st);
    if r.Ok? {
      assert vals == [vals[0]];
      var b := Binding(isConst, Scalar(r.v[0]));
      var n2, d2 := SimDefineOne(site, g1, def.name, isConst, KScalar, vals[0], TInt(r.v[0]), b, r.st, d);
      StoreThen(site, at, g.loops, g, g1, h, k, Declare(r.st, def.name, b), g.nextReg, c, n, d, n2, d2);
      n, d := n + n2, d2;
    }
  }

  // The array part, once the size is known.
  lemma {:induction false} SimArrayInit(site: Site, g: Gen, isConst: bool, def: Ast.Def, size: nat, at: Layers,
          loops: seq<(nat, nat)>, k: nat, st: State, c: Config)
    returns (n: nat, d: Config)
    requires WorldOk(site.w) && site.f in site.w.fs && SiteOk(site)
    requires Here(site, g, st, c)
    requires GenInit(EnvAt(site), g, def.init, size).Some?
    requires var (vals, g1) := GenInit(EnvAt(site), g, def.init, size).value;
             var h := Define(g1, def.name, isConst, KArray(size), vals); h.Some? && Fits(site, h.value)
    ensures var (vals, g1) := GenInit(EnvAt(site), g, def.init, size).value;
            var h := Define(g1, def.name, isConst, KArray(size), vals).value;
            match EvalInit(site.w.fs, k, def.init, size, st)
            case Ok(ints, st1) =>
              StmtDone(site, at, loops, h, k, Declare(st1, def.name, Binding(isConst, Array(ints))), c, n, d)
            case OutOfFuel => StmtDone(site, at, loops, h, k, Stopped, c, n, d)
            case Fail(w) => Wronged(site.w.m, c, n, d, w)
    decreases k, 0, def.init, 1
  {
    hide Reaches, Endures;
    var (vals, g1) := GenInit(EnvAt(site), g, def.init, size).value;
    var h := Define(g1, def.name, isConst, KArray(size), vals).value;
    GenInitExtends(EnvAt(site), g, def.init, size);
    DefineExtends(g1, def.name, isConst, KArray(size), vals);
    FitsBack(site, g1, h);
    n, d := SimInit(site, g, def.init, size, k, st, c);
    var r := EvalInit(site.w.fs, k, def.init, size, st);
    if r.Ok? {
      var n2, d2 := SimDefineArray(site, g1, def.name, isConst, vals, r.v, r.st, d);
      StoreThen(site, at, loops, g, g1, h, k, Declare(r.st, def.name, Binding(isConst, Array(r.v))), g.nextReg,
                c, n, d, n2, d2);
      n, d := n + n2, d2;
    }
  }

  lemma {:induction false} SimArrayDef(site: Site, g: Gen, isConst: bool, def: Ast.Def, at: Layers, k: nat,
          st: State, c: Config)
    returns (n: nat, d: Config)
    requires WorldOk(site.w) && site.f in site.w.fs && SiteOk(site)
    requires Here(site, g, st, c) && def.size.Some?
    requires GenDef(EnvAt(site), g, isConst, def).Some? && Fits(site, GenDef(EnvAt(site), g, isConst, def).value)
    ensures StmtDone(site, at, g.loops, GenDef(EnvAt(site), g, isConst, def).value, k,
                     ExecDef(site.w.fs, k, isConst, def, st), c, n, d)
    decreases k, 0, def, 0
  {
    hide GenInit, EvalInit, Define, GenExpr, EvalExpr;
    hide Reaches, Endures;
    var env := EnvAt(site);
    var (o, g1) := GenExpr(env, g, def.size.value).value;
    var (vals, g2) := GenInit(env, g1, def.init, o.i).value;
    var h := GenDef(env, g, isConst, def).value;
    GenExprExtends(env, g, def.size.value);
    GenInitExtends(env, g1, def.init, o.i);
    DefineExtends(g2, def.name, isConst, KArray(o.i), vals);
    FitsBack(site, g2, h);
    FitsBack(site, g1, g2);
    n, d := SimExpr(site, g, def.size.value, k, st, c);
    var r := EvalExpr(site.w.fs, k, def.size.value, st);
    if r.Ok? && r.v.VInt? {
      assert r.v.i == o.i;
      var n2, d2 := SimArrayInit(site, g1, isConst, def, o.i, at, g.loops, k, r.st, d);
      var res := ExecDef(site.w.fs, k, isConst, def, st);
      StmtThen(site, at, g.loops, h, k, res, g.nextReg, c, n, d, n2, d2);
      n, d := n + n2, d2;
    }
  }

  lemma {:induction false} SimDefs(site: Site, g: Gen, isConst: bool, defs: seq<Ast.Def>, at: Layers, k: nat,
          st: State, c: Config)
    returns (n: nat, d: Config)
    requires WorldOk(site.w) && site.f in site.w.fs && SiteOk(site)
    requires Here(site, g, st, c)
    requires GenDefs(EnvAt(site), g, isConst, defs).Some? && Fits(site, GenDefs(EnvAt(site), g, isConst, defs).value)
    ensures StmtDone(site, at, g.loops, GenDefs(EnvAt(site), g, isConst, defs).value, k,
                     ExecDefs(site.w.fs, k, isConst, defs, st), c, n, d)
    decreases k, 0, defs, 0
  {
    hide Reaches, Endures;
    hide GenDef, ExecDef;
    if defs == [] {
      n, d := 0, c;
      MovesNone(site.w.m, 0, c);
    } else {
      var env := EnvAt(site);
      var def := defs[0];
      var g1 := GenDef(env, g, isConst, def).value;
      var h := GenDefs(env, g, isConst, defs).value;
      GenDefExtends(env, g, isConst, def);
      GenDefsExtends(env, g1, isConst, defs[1..]);
      FitsBack(site, g1, h);
      if def.size.None? {
        n, d := SimScalarDef(site, g, isConst, def, at, k, st, c);
      } else {
        n, d := SimArrayDef(site, g, isConst, def, at, k, st, c);
      }
      var r := ExecDef(site.w.fs, k, isConst, def, st);
      if r.Normal? {
        var n2, d2 := SimDefs(site, g1, isConst, defs[1..], at, k, r.st, d);
        StmtThen(site, at, g.loops, h, k, ExecDefs(site.w.fs, k, isConst, defs[1..], r.st), 0, c, n, d, n2, d2);
        n, d := n + n2, d2;
      }
    }
  }

  // ----- statements -----

  lemma {:induction false} SimBlock(site: Site, g: Gen, items: seq<Ast.Item>, k: nat, st: State, c: Config)
    returns (n: nat, d: Config)
    requires WorldOk(site.w) && site.f in site.w.fs && SiteOk(site)
    requires Here(site, g, st, c) && LoopsIn(g)
    requires GenBlock(EnvAt(site), g, items).Some? && Fits(site, GenBlock(EnvAt(site), g, items).value)
    ensures StmtDone(site, g.scopes, g.loops, GenBlock(EnvAt(site), g, items).value, k,
                     ExecBlock(site.w.fs, k, items, st), c, n, d)
    decreases k, 0, items, 1
  {
    var g1 := PushScope(g);
    var g2 := GenItems(EnvAt(site), g1, items).value;
    EnterBlock(site, g, st, c);
    GenItemsExtends(EnvAt(site), g1, items);
    var at;
    n, d, at := SimItems(site, g1, items, k, PushLayer(st), c);
    ExitBlock(site, g.scopes, at, g.loops, g2, k, ExecItems(site.w.fs, k, items, PushLayer(st)), c, n, d);
  }

  lemma {:induction false} SimItems(site: Site, g: Gen, items: seq<Ast.Item>, k: nat, st: State, c: Config)
    returns (n: nat, d: Config, at: Layers)
    requires WorldOk(site.w) && site.f in site.w.fs && SiteOk(site)
    requires Here(site, g, st, c) && LoopsIn(g)
    requires GenItems(EnvAt(site), g, items).Some? && Fits(site, GenItems(EnvAt(site), g, items).value)
    ensures StmtDone(site, at, g.loops, GenItems(EnvAt(site), g, items).value, k,
                     ExecItems(site.w.fs, k, items, st), c, n, d)
    ensures SameBelow(g.scopes, at)
    decreases k, 0, items, 0
  {
    hide InPlace;
    hide Reaches, Endures;
    at := g.scopes;
    if items == [] {
      n, d := 0, c;
      MovesNone(site.w.m, 0, c);
    } else {
      var env := EnvAt(site);
      var g1 := GenItem(env, g, items[0]).value;
      var h := GenItems(env, g, items).value;
      GenItemExtends(env, g, items[0]);
      GenItemsExtends(env, g1, items[1..]);
      FitsBack(site, g1, h);
      n, d := SimItem(site, g, items[0], k, st, c);
      var r := ExecItem(site.w.fs, k, items[0], st);
      if r.Normal? {
        var n2, d2;
        n2, d2, at := SimItems(site, g1, items[1..], k, r.st, d);
        StmtThen(site, at, g.loops, h, k, ExecItems(site.w.fs, k, items[1..], r.st), 0, c, n, d, n2, d2);
        n, d := n + n2, d2;
      }
    }
  }

  lemma {:induction false} SimItem(site: Site, g: Gen, item: Ast.Item, k: nat, st: State, c: Config)
    returns (n: nat, d: Config)
    requires WorldOk(site.w) && site.f in site.w.fs && SiteOk(site)
    requires Here(site, g, st, c) && LoopsIn(g)
    requires GenItem(EnvAt(site), g, item).Some? && Fits(site, GenItem(EnvAt(site), g, item).value)
    ensures StmtDone(site, g.scopes, g.loops, GenItem(EnvAt(site), g, item).value, k,
                     ExecItem(site.w.fs, k, item, st), c, n, d)
    decreases k, 0, item, 0
  {
    match item
    case Decl(isConst, defs) => n, d := SimDefs(site, g, isConst, defs, g.scopes, k, st, c);
    case Do(s) => n, d := SimStmt(site, g, s, k, st, c);
  }

  lemma {:induction false} SimStmt(site: Site, g: Gen, s: Ast.Stmt, k: nat, st: State, c: Config)
    returns (n: nat, d: Config)
    requires WorldOk(site.w) && site.f in site.w.fs && SiteOk(site)
    requires Here(site, g, st, c) && LoopsIn(g)
    requires GenStmt(EnvAt(site), g, s).Some? && Fits(site, GenStmt(EnvAt(site), g, s).value)
    ensures StmtDone(site, g.scopes, g.loops, GenStmt(EnvAt(site), g, s).value, k,
                     ExecStmt(site.w.fs, k, s, st), c, n, d)
    decreases k, 0, s, 2
  {
    match s
    case Return(_) => n, d := SimReturn(site, g, s, k, st, c);
    case Assign(_, None, _) => n, d := SimAssign(site, g, s, k, st, c);
    case Assign(_, Some(_), _) => n, d := SimAssignElem(site, g, s, k, st, c);
    case Eval(None) =>
      n, d := 0, c;
      MovesNone(site.w.m, 0, c);
    case Eval(Some(e)) =>
      n, d := SimExpr(site, g, e, k, st, c);
      if EvalExpr(site.w.fs, k, e, st).Ok? {
        MovesWeaken(site.w.m, g.nextReg, c, n, d);
      }
    case Block(items) => n, d := SimBlock(site, g, items, k, st, c);
    case If(_, _, _) => n, d := SimIf(site, g, s, k, st, c);
    case While(_, _) => n, d := SimWhile(site, g, s, k, st, c);
    case Continue =>
      d := SimBr(site, g, g.loops[|g.loops| - 1].0, st, c);
      n := 1;
    case Break =>
      d := SimBr(site, g, g.loops[|g.loops| - 1].1, st, c);
      n := 1;
  }

  lemma {:induction false} SimReturn(site: Site, g: Gen, s: Ast.Stmt, k: nat, st: State, c: Config)
    returns (n: nat, d: Config)
    requires WorldOk(site.w) && site.f in site.w.fs && SiteOk(site)
    requires Here(site, g, st, c) && s.Return?
    requires GenStmt(EnvAt(site), g, s).Some? && Fits(site, GenStmt(EnvAt(site), g, s).value)
    ensures StmtDone(site, g.scopes, g.loops, GenStmt(EnvAt(site), g, s).value, k,
                     ExecStmt(site.w.fs, k, s, st), c, n, d)
    decreases k, 0, s, 0
  {
    match s.value
    case None =>
      n, d := 0, c;
      MovesNone(site.w.m, 0, c);
      NextInstr(site, g, RetVoid, st, c);
    case Some(e) =>
      var (o, g1) := GenExpr(EnvAt(site), g, e).value;
      GenExprExtends(EnvAt(site), g, e);
      EmitExtends(g1, Ret(o));
      FitsBack(site, g1, Emit(g1, Ret(o)));
      n, d := SimExpr(site, g, e, k, st, c);
      var r := EvalExpr(site.w.fs, k, e, st);
      if r.Ok? {
        MovesWeaken(site.w.m, g.nextReg, c, n, d);
        NextInstr(site, g1, Ret(o), r.st, d);
      }
  }

  lemma {:induction false} SimAssign(site: Site, g: Gen, s: Ast.Stmt, k: nat, st: State, c: Config)
    returns (n: nat, d: Config)
    requires WorldOk(site.w) && site.f in site.w.fs && SiteOk(site)
    requires Here(site, g, st, c) && s.Assign? && s.idx.None?
    requires GenStmt(EnvAt(site), g, s).Some? && Fits(site, GenStmt(EnvAt(site), g, s).value)
    ensures StmtDone(site, g.scopes, g.loops, GenStmt(EnvAt(site), g, s).value, k,
                     ExecStmt(site.w.fs, k, s, st), c, n, d)
    decreases k, 0, s, 0
  {
    hide Reaches, Endures;
    hide SetValue, WriteVar;
    SiteFacts(site);
    var env := EnvAt(site);
    var (v, g1) := GenExpr(env, g, s.rhs).value;
    var h := SetValue(env, g1, s.name, v, None).value;
    GenExprExtends(env, g, s.rhs);
    SetValueExtends(env, g1, s.name, v, None);
    FitsBack(site, g1, h);
    n, d := SimExpr(site, g, s.rhs, k, st, c);
    var r := EvalExpr(site.w.fs, k, s.rhs, st);
    if r.Ok? {
      var n2, d2 := SimWriteVar(site, g1, s.name, v, r.v, r.st, d);
      StoreThen(site, g.scopes, g.loops, g, g1, h, k, WriteVar(r.st, s.name, r.v), g.nextReg, c, n, d, n2, d2);
      n, d := n + n2, d2;
    }
  }

  // The index of an assignment, once the value to be stored is ready.
  lemma {:induction false} SimIndexed(site: Site, g: Gen, x: string, i: Ast.Expr, o: Operand, v: Val,
          loops: seq<(nat, nat)>, k: nat, st: State, c: Config)
    returns (n: nat, d: Config)
    requires WorldOk(site.w) && site.f in site.w.fs && SiteOk(site)
    requires Here(site, g, st, c)
    requires Ready(o, g.nextReg) && ValOk(Shapes(site, g.scopes), v, OpVal(c.cur, o))
    requires GenExpr(EnvAt(site), g, i).Some?
    requires var (p, g1) := GenExpr(EnvAt(site), g, i).value;
             var h := SetValue(EnvAt(site), g1, x, o, Some(p)); h.Some? && Fits(site, h.value)
    ensures var (p, g1) := GenExpr(EnvAt(site), g, i).value;
            var h := SetValue(EnvAt(site), g1, x, o, Some(p)).value;
            match EvalExpr(site.w.fs, k, i, st)
            case Ok(vi, st1) => StmtDone(site, g.scopes, loops, h, k, WriteElem(st1, x, vi, v), c, n, d)
            case OutOfFuel => StmtDone(site, g.scopes, loops, h, k, Stopped, c, n, d)
            case Fail(w) => Wronged(site.w.m, c, n, d, w)
    decreases k, 0, i, 2
  {
    hide Reaches, Endures, SetValue, WriteElem, Match, InPlace, Compute, Step, GenExpr, EvalExpr, Here;
    SiteFacts(site);
    var env := EnvAt(site);
    var (p, g1) := GenExpr(env, g, i).value;
    var h := SetValue(env, g1, x, o, Some(p)).value;
    GenExprExtends(env, g, i);
    SetValueExtends(env, g1, x, o, Some(p));
    FitsBack(site, g1, h);
    n, d := SimExpr(site, g, i, k, st, c);
    var r := EvalExpr(site.w.fs, k, i, st);
    if r.Ok? {
      KeepsReady(c.cur, d.cur, g.nextReg, o);
      var n2, d2 := SimWriteElem(site, g1, x, p, r.v, o, v, r.st, d);
      StoreThen(site, g.scopes, loops, g, g1, h, k, WriteElem(r.st, x, r.v, v), g.nextReg, c, n, d, n2, d2);
      n, d := n + n2, d2;
    }
  }

  lemma {:induction false} SimAssignElem(site: Site, g: Gen, s: Ast.Stmt, k: nat, st: State, c: Config)
    returns (n: nat, d: Config)
    requires WorldOk(site.w) && site.f in site.w.fs && SiteOk(site)
    requires Here(site, g, st, c) && s.Assign? && s.idx.Some?
    requires GenStmt(EnvAt(site), g, s).Some? && Fits(site, GenStmt(EnvAt(site), g, s).value)
    ensures StmtDone(site, g.scopes, g.loops, GenStmt(EnvAt(site), g, s).value, k,
                     ExecStmt(site.w.fs, k, s, st), c, n, d)
    decreases k, 0, s, 0
  {
    hide Reaches, Endures;
    hide SetValue, WriteElem, GenExpr, EvalExpr;
    var env := EnvAt(site);
    var i := s.idx.value;
    var (v, g1) := GenExpr(env, g, s.rhs).value;
    var (p, g2) := GenExpr(env, g1, i).value;
    var h := SetValue(env, g2, s.name, v, Some(p)).value;
    GenExprExtends(env, g, s.rhs);
    GenExprExtends(env, g1, i);
    SetValueExtends(env, g2, s.name, v, Some(p));
    FitsBack(site, g2, h);
    FitsBack(site, g1, g2);
    n, d := SimExpr(site, g, s.rhs, k, st, c);
    var r := EvalExpr(site.w.fs, k, s.rhs, st);
    if r.Ok? {
      var n2, d2 := SimIndexed(site, g1, s.name, i, v, r.v, g.loops, k, r.st, d);
      var res := ExecStmt(site.w.fs, k, s, st);
      StmtThen(site, g.scopes, g.loops, h, k, res, g.nextReg, c, n, d, n2, d2);
      n, d := n + n2, d2;
    }
  }

  // ----- if -----

  // `g1`: the condition is ready; `g3`, `g5`: the branches have been generated.
  lemma IfStates(site: Site, g: Gen, g1: Gen, v: Operand, g3: Gen, g5: Gen)
    requires SiteOk(site) && g.cur < |g.blocks| && g.scopes != [] && SlotsBelow(g.scopes, |g.slots|) && LoopsIn(g)
    requires ExtendsPlain(g, g1)
    requires Extends(BeginThen(g1, v), g3) && g3.scopes == g.scopes
    requires Extends(BeginElse(g3, |g1.blocks|), g5) && g5.scopes == g.scopes
    requires Fits(site, EndIf(g5, |g1.blocks|))
    ensures var t := |g1.blocks|; var g2 := BeginThen(g1, v); var g4 := BeginElse(g3, t); var h := EndIf(g5, t);
            && Fits(site, g1)
            && Fresh(site, t, g2) && g2.scopes == g.scopes && g2.loops == g.loops && LoopsIn(g2)
            && Fits(site, g3) && Fits(site, Seal(g3, t + 2))
            && Fresh(site, t + 1, g4) && g4.scopes == g.scopes && g4.loops == g.loops && LoopsIn(g4)
            && Fits(site, g5) && Fits(site, Seal(g5, t + 2))
            && Fresh(site, t + 2, h) && h.scopes == g.scopes
  {
    hide Compute, IntToBoolean, Extends, Fits, Seal;
    var t := |g1.blocks|;
    IfFits(site, g, g1, v, g3, g5);
    EmptyBlocks(g1, v, g3, g5);
  }

  lemma IfFits(site: Site, g: Gen, g1: Gen, v: Operand, g3: Gen, g5: Gen)
    requires SiteOk(site) && g.cur < |g.blocks|
    requires ExtendsPlain(g, g1)
    requires Extends(BeginThen(g1, v), g3) && Extends(BeginElse(g3, |g1.blocks|), g5)
    requires Fits(site, EndIf(g5, |g1.blocks|))
    ensures var t := |g1.blocks|; var g2 := BeginThen(g1, v); var g4 := BeginElse(g3, t); var h := EndIf(g5, t);
            && Fits(site, g1) && Fits(site, g2) && Fits(site, g3) && Fits(site, Seal(g3, t + 2))
            && Fits(site, g4) && Fits(site, g5) && Fits(site, Seal(g5, t + 2))
            && g.loops == g1.loops == g2.loops == g3.loops == g4.loops
            && |g.blocks| <= |g1.blocks| <= |g2.blocks| <= |g4.blocks|
            && |g.slots| <= |g1.slots| <= |g2.slots| <= |g4.slots| <= |h.slots|
            && g.scopes == g1.scopes == g2.scopes && g4.scopes == g3.scopes && h.scopes == g5.scopes
            && g2.cur == t && g4.cur == t + 1 && h.cur == t + 2
  {
    hide Compute, IntToBoolean;
    var t := |g1.blocks|;
    var g2 := BeginThen(g1, v);
    var g4 := BeginElse(g3, t);
    BeginThenExtends(g1, v);
    SealExtends(g3, t + 2);
    SealExtends(g5, t + 2);
    assert Fits(site, Seal(g5, t + 2));
    FitsBack(site, g5, Seal(g5, t + 2));
    FitsBack(site, g4, g5);
    assert Fits(site, Seal(g3, t + 2));
    FitsBack(site, g3, Seal(g3, t + 2));
    FitsBack(site, g2, g3);
    FitsBack(site, g1, g2);
  }

  // The blocks of an `if` not yet reached are still empty.
  lemma EmptyBlocks(g1: Gen, v: Operand, g3: Gen, g5: Gen)
    requires g1.cur < |g1.blocks| && Extends(BeginThen(g1, v), g3) && Extends(BeginElse(g3, |g1.blocks|), g5)
    ensures var t := |g1.blocks|;
            && BeginThen(g1, v).blocks[t] == [] && BeginElse(g3, t).blocks[t + 1] == []
            && EndIf(g5, t).blocks[t + 2] == []
  {
    var t := |g1.blocks|;
    var g2 := BeginThen(g1, v);
    assert g2.blocks[t + 1] == [] && g2.blocks[t + 2] == [];
    assert g3.blocks[t + 1] == [] && g3.blocks[t + 2] == [];
    assert BeginElse(g3, t).blocks[t + 2] == [] && g5.blocks[t + 2] == [];
  }

  // The states an `if` passes through all fit, and its three blocks start empty.
  lemma IfFacts(site: Site, g: Gen, s: Ast.Stmt)
    requires SiteOk(site) && g.cur < |g.blocks| && g.scopes != [] && SlotsBelow(g.scopes, |g.slots|) && LoopsIn(g)
    requires s.If? && GenIf(EnvAt(site), g, s).Some? && Fits(site, GenIf(EnvAt(site), g, s).value)
    ensures GenExpr(EnvAt(site), g, s.cond).Some?
    ensures var (v, g1) := GenExpr(EnvAt(site), g, s.cond).value;
            var g3 := GenStmt(EnvAt(site), BeginThen(g1, v), s.thn);
            g3.Some? && GenElse(EnvAt(site), BeginElse(g3.value, |g1.blocks|), s.els).Some?
    ensures var env := EnvAt(site); var (v, g1) := GenExpr(env, g, s.cond).value; var t := |g1.blocks|;
            var g3 := GenStmt(env, BeginThen(g1, v), s.thn).value;
            var g5 := GenElse(env, BeginElse(g3, t), s.els).value;
            && ExtendsPlain(g, g1)
            && Extends(BeginThen(g1, v), g3) && g3.scopes == g.scopes
            && Extends(BeginElse(g3, t), g5) && g5.scopes == g.scopes
            && GenIf(env, g, s) == Some(EndIf(g5, t))
  {
    hide GenStmt, GenExpr, GenElse, Compute;
    var env := EnvAt(site);
    var (v, g1) := GenExpr(env, g, s.cond).value;
    var t := |g1.blocks|;
    var g2 := BeginThen(g1, v);
    var g3 := GenStmt(env, g2, s.thn).value;
    GenExprExtends(env, g, s.cond);
    BeginThenExtends(g1, v);
    GenStmtExtends(env, g2, s.thn);
    SealExtends(g3, t + 2);
    GenElseExtends(env, BeginElse(g3, t), s.els);
  }

  // A branch of an `if`: afterwards the merge block is next, unless control has gone elsewhere.
  lemma MergeBranch(site: Site, g: Gen, b: nat, h: Gen, loops: seq<(nat, nat)>, k: nat, r: Outcome, c: Config,
          n: nat, d: Config)
    returns (n': nat, d': Config)
    requires SiteOk(site) && g.cur < |g.blocks| && StmtDone(site, h.scopes, loops, g, k, r, c, n, d)
    requires g.scopes == h.scopes && Fits(site, Seal(g, b)) && Fresh(site, b, h)
    requires r.Normal? ==> Open(g)
    ensures StmtDone(site, h.scopes, loops, h, k, r, c, n', d')
  {
    n', d' := n, d;
    if r.Normal? {
      d' := SimSeal(site, g, b, h, r.st, d);
      n' := n + 1;
      MovesTrans(site.w.m, 0, c, n, d, 0, 1, d');
    }
  }

  lemma {:induction false} SimThen(site: Site, g: Gen, s: Ast.Stmt, b: nat, h: Gen, k: nat, st: State, c: Config)
    returns (n: nat, d: Config)
    requires WorldOk(site.w) && site.f in site.w.fs && SiteOk(site)
    requires Fresh(site, g.cur, g) && LoopsIn(g) && InPlace(site, g.scopes, st, c) && AtBlock(site, g.cur, c)
    requires GenStmt(EnvAt(site), g, s).Some? && Fits(site, GenStmt(EnvAt(site), g, s).value)
    requires Fits(site, Seal(GenStmt(EnvAt(site), g, s).value, b)) && Fresh(site, b, h) && h.scopes == g.scopes
    ensures StmtDone(site, g.scopes, g.loops, h, k, ExecStmt(site.w.fs, k, s, st), c, n, d)
    decreases k, 0, s, 3
  {
    var g1 := GenStmt(EnvAt(site), g, s).value;
    Land(site, g.cur, g, st, c);
    GenStmtExtends(EnvAt(site), g, s);
    n, d := SimStmt(site, g, s, k, st, c);
    var r := ExecStmt(site.w.fs, k, s, st);
    if r.Normal? {
      StmtOpen(site.w.fs, EnvAt(site), g, s, k, st);
    }
    n, d := MergeBranch(site, g1, b, h, g.loops, k, r, c, n, d);
  }

  lemma {:induction false} SimElse(site: Site, g: Gen, els: Option<Ast.Stmt>, b: nat, h: Gen, k: nat, st: State,
          c: Config)
    returns (n: nat, d: Config)
    requires WorldOk(site.w) && site.f in site.w.fs && SiteOk(site)
    requires Fresh(site, g.cur, g) && LoopsIn(g) && InPlace(site, g.scopes, st, c) && AtBlock(site, g.cur, c)
    requires GenElse(EnvAt(site), g, els).Some? && Fits(site, GenElse(EnvAt(site), g, els).value)
    requires Fits(site, Seal(GenElse(EnvAt(site), g, els).value, b)) && Fresh(site, b, h) && h.scopes == g.scopes
    ensures StmtDone(site, g.scopes, g.loops, h, k, ExecElse(site.w.fs, k, els, st), c, n, d)
    decreases k, 0, els, 0
  {
    match els
    case Some(s) => n, d := SimThen(site, g, s, b, h, k, st, c);
    case None =>
      Land(site, g.cur, g, st, c);
      MovesNone(site.w.m, 0, c);
      d := SimSeal(site, g, b, h, st, c);
      n := 1;
  }

  // Whichever branch the condition selected.
  lemma {:induction false} SimBranch(site: Site, g2: Gen, g4: Gen, s: Ast.Stmt, taken: bool, b: nat, h: Gen,
          k: nat, st: State, c: Config, n1: nat, d1: Config)
    returns (n: nat, d: Config)
    requires WorldOk(site.w) && site.f in site.w.fs && SiteOk(site) && s.If?
    requires Fresh(site, g2.cur, g2) && LoopsIn(g2) && Fresh(site, g4.cur, g4) && LoopsIn(g4)
    requires g2.scopes == g4.scopes == h.scopes && g2.loops == g4.loops && Fresh(site, b, h)
    requires Moves(site.w.m, 0, c, n1, d1) && InPlace(site, g2.scopes, st, d1)
    requires AtBlock(site, if taken then g2.cur else g4.cur, d1)
    requires var g3 := GenStmt(EnvAt(site), g2, s.thn);
             g3.Some? && Fits(site, g3.value) && Fits(site, Seal(g3.value, b))
    requires var g5 := GenElse(EnvAt(site), g4, s.els);
             g5.Some? && Fits(site, g5.value) && Fits(site, Seal(g5.value, b))
    ensures var r := if taken then ExecStmt(site.w.fs, k, s.thn, st) else ExecElse(site.w.fs, k, s.els, st);
            StmtDone(site, g2.scopes, g2.loops, h, k, r, c, n, d)
    decreases k, 0, s, 0
  {
    hide GenStmt, GenElse, ExecStmt, ExecElse, Reaches, Endures, InPlace;
    var n2, d2;
    if taken {
      n2, d2 := SimThen(site, g2, s.thn, b, h, k, st, d1);
    } else {
      n2, d2 := SimElse(site, g4, s.els, b, h, k, st, d1);
    }
    var r := if taken then ExecStmt(site.w.fs, k, s.thn, st) else ExecElse(site.w.fs, k, s.els, st);
    StmtThen(site, g2.scopes, g2.loops, h, k, r, 0, c, n1, d1, n2, d2);
    n, d := n1 + n2, d2;
  }

  // Evaluating a condition and branching on it; `j` is where the branch is emitted.
  lemma {:induction false} SimCondition(site: Site, g: Gen, e: Ast.Expr, j: Gen, t: nat, f: nat, k: nat, st: State,
          c: Config)
    returns (n: nat, d: Config)
    requires WorldOk(site.w) && site.f in site.w.fs && SiteOk(site)
    requires Here(site, g, st, c)
    requires GenExpr(EnvAt(site), g, e).Some?
    requires var (v, g1) := GenExpr(EnvAt(site), g, e).value; var (b, g2) := IntToBoolean(g1, v);
             && Fits(site, g1)
             && j.cur == g2.cur && |g2.blocks| <= |j.blocks| && j.blocks[..|g2.blocks|] == g2.blocks
             && j.scopes == g2.scopes && j.slots == g2.slots
             && Fits(site, Emit(j, CondBr(b, t, f)))
    requires t < |FnAt(site).blocks| && f < |FnAt(site).blocks|
    ensures match EvalExpr(site.w.fs, k, e, st)
            case OutOfFuel => k <= n && Endures(site.w.m, c, n)
            case Fail(w) => Wronged(site.w.m, c, n, d, w)
            case Ok(v, st1) =>
              v.VInt? ==> n > 0 && Moves(site.w.m, 0, c, n, d) && InPlace(site, g.scopes, st1, d)
                          && AtBlock(site, if v.i != 0 then t else f, d)
    decreases k, 0, e, 2
  {
    hide Match, InPlace, Compute, Moves, Step, Extends, GenExpr, EvalExpr, Here, Folded;
    var (v, g1) := GenExpr(EnvAt(site), g, e).value;
    GenExprExtends(EnvAt(site), g, e);
    n, d := SimExpr(site, g, e, k, st, c);
    var r := EvalExpr(site.w.fs, k, e, st);
    if r.Ok? && r.v.VInt? {
      MovesWeaken(site.w.m, g.nextReg, c, n, d);
      var n2, d2 := SimTest(site, g1, v, r.v.i, j, t, f, r.st, d);
      MovesTrans(site.w.m, 0, c, n, d, 0, n2, d2);
      n, d := n + n2, d2;
    }
  }

  // Everything the simulation of an `if` needs to know about the states it passes through.
  ghost predicate IfReady(site: Site, g: Gen, s: Ast.Stmt, v: Operand, g1: Gen, g3: Gen, g5: Gen)
    requires SiteOk(site) && g.cur < |g.blocks| && s.If?
  {
    match s
    case If(cond, thn, els) =>
      var env, t := EnvAt(site), |g1.blocks|;
      && g1.cur < t && g3.cur < |g3.blocks| && g5.cur < |g5.blocks|
      && GenExpr(env, g, cond) == Some((v, g1))
      && GenStmt(env, BeginThen(g1, v), thn) == Some(g3)
      && GenElse(env, BeginElse(g3, t), els) == Some(g5)
      && GenIf(env, g, s) == Some(EndIf(g5, t))
      && t + 2 < |FnAt(site).blocks|
      && Fits(site, g1)
      && BranchReady(site, g, t, BeginThen(g1, v)) && BranchReady(site, g, t + 1, BeginElse(g3, t))
      && Fits(site, g3) && Fits(site, Seal(g3, t + 2))
      && Fits(site, g5) && Fits(site, Seal(g5, t + 2))
      && Fresh(site, t + 2, EndIf(g5, t)) && EndIf(g5, t).scopes == g.scopes
  }

  ghost predicate BranchReady(site: Site, g: Gen, b: nat, h: Gen)
    requires SiteOk(site)
  {
    Fresh(site, b, h) && h.scopes == g.scopes && h.loops == g.loops && LoopsIn(h)
  }

  lemma IfIsReady(site: Site, g: Gen, s: Ast.Stmt, st: State, c: Config) returns (v: Operand, g1: Gen, g3: Gen, g5: Gen)
    requires SiteOk(site) && Here(site, g, st, c) && LoopsIn(g)
    requires s.If? && GenIf(EnvAt(site), g, s).Some? && Fits(site, GenIf(EnvAt(site), g, s).value)
    ensures IfReady(site, g, s, v, g1, g3, g5)
  {
    hide GenStmt, GenExpr, GenElse, GenIf, EndIf, BeginElse;
    IfFacts(site, g, s);
    var env := EnvAt(site);
    v, g1 := GenExpr(env, g, s.cond).value.0, GenExpr(env, g, s.cond).value.1;
    g3 := GenStmt(env, BeginThen(g1, v), s.thn).value;
    g5 := GenElse(env, BeginElse(g3, |g1.blocks|), s.els).value;
    IfStates(site, g, g1, v, g3, g5);
  }

  // Where the branch of an `if` is emitted.
  lemma ThenTest(site: Site, g: Gen, v: Operand)
    requires SiteOk(site) && g.cur < |g.blocks| && Fits(site, BeginThen(g, v))
    ensures var (b, g1) := IntToBoolean(g, v); var j := ThreeBlocks(g1); var t := |g.blocks|;
            && j.cur == g1.cur && |g1.blocks| <= |j.blocks| && j.blocks[..|g1.blocks|] == g1.blocks
            && j.scopes == g1.scopes && j.slots == g1.slots
            && Fits(site, Emit(j, CondBr(b, t, t + 1)))
            && t + 2 < |FnAt(site).blocks|
  {
  }

  lemma {:induction false} SimIf(site: Site, g: Gen, s: Ast.Stmt, k: nat, st: State, c: Config)
    returns (n: nat, d: Config)
    requires WorldOk(site.w) && site.f in site.w.fs && SiteOk(site)
    requires Here(site, g, st, c) && LoopsIn(g) && s.If?
    requires GenIf(EnvAt(site), g, s).Some? && Fits(site, GenIf(EnvAt(site), g, s).value)
    ensures StmtDone(site, g.scopes, g.loops, GenIf(EnvAt(site), g, s).value, k,
                     ExecIf(site.w.fs, k, s, st), c, n, d)
    decreases k, 0, s, 1
  {
    hide Reaches, Endures, BeginElse, EndIf, GenIf, GenStmt, GenExpr, GenElse, EvalExpr, ExecStmt, ExecElse;
    hide Match, InPlace, Compute, Fits, Moves, Step, Extends, Here, AtBlock;
    var v, g1, g3, g5 := IfIsReady(site, g, s, st, c);
    var t := |g1.blocks|;
    var h := EndIf(g5, t);
    ThenTest(site, g1, v);
    hide BeginThen, ThreeBlocks, IntToBoolean;
    n, d := SimCondition(site, g, s.cond, ThreeBlocks(IntToBoolean(g1, v).1), t, t + 1, k, st, c);
    var r := EvalExpr(site.w.fs, k, s.cond, st);
    if r.Ok? && r.v.VInt? {
      n, d := SimBranch(site, BeginThen(g1, v), BeginElse(g3, t), s, r.v.i != 0, t + 2, h, k, r.st, c, n, d);
    }
  }

  // ----- while -----

  // Everything the simulation of a loop needs to know about the states it passes through.
  ghost predicate WhileReady(site: Site, g: Gen, s: Ast.Stmt, v: Operand, g2: Gen, g4: Gen)
    requires SiteOk(site) && g.cur < |g.blocks| && s.While?
  {
    match s
    case While(cond, body) =>
      var env, t := EnvAt(site), |g.blocks|;
      && g2.cur == t && t + 2 < |g2.blocks| && g4.cur < |g4.blocks|
      && GenExpr(env, BeginLoop(g), cond) == Some((v, g2))
      && GenStmt(env, BeginBody(g2, v, t), body) == Some(g4)
      && GenWhile(env, g, s) == Some(EndWhile(g4, t))
      && t + 2 < |FnAt(site).blocks|
      && Fits(site, Emit(g, Br(t))) && Fits(site, g2)
      && Fresh(site, t, BeginLoop(g)) && BeginLoop(g).scopes == g.scopes
      && BranchReady(site, BeginLoop(g), t + 1, BeginBody(g2, v, t))
      && BeginLoop(g).loops == g.loops + [(t, t + 2)]
      && Fits(site, g4) && Fits(site, Seal(g4, t)) && g4.scopes == g.scopes
      && Fresh(site, t + 2, EndWhile(g4, t)) && EndWhile(g4, t).scopes == g.scopes
  }

  // `g2`: the condition is ready; `g4`: the body has been generated.
  lemma WhileStates(site: Site, g: Gen, v: Operand, g2: Gen, g4: Gen)
    requires SiteOk(site) && g.cur < |g.blocks| && g.scopes != [] && SlotsBelow(g.scopes, |g.slots|) && LoopsIn(g)
    requires ExtendsPlain(BeginLoop(g), g2)
    requires Extends(BeginBody(g2, v, |g.blocks|), g4) && g4.scopes == g.scopes
    requires Fits(site, EndWhile(g4, |g.blocks|))
    ensures var t := |g.blocks|; var g1 := BeginLoop(g); var g3 := BeginBody(g2, v, t); var h := EndWhile(g4, t);
            && Fits(site, Emit(g, Br(t))) && Fits(site, g2)
            && Fresh(site, t, g1) && g1.scopes == g.scopes
            && BranchReady(site, g1, t + 1, g3)
            && g1.loops == g.loops + [(t, t + 2)]
            && Fits(site, g4) && Fits(site, Seal(g4, t))
            && Fresh(site, t + 2, h) && h.scopes == g.scopes
  {
    hide Match, InPlace, Compute, Step, Folded, IntToBoolean;
    var t := |g.blocks|;
    var g1 := BeginLoop(g);
    var g3 := BeginBody(g2, v, t);
    BodyStep(g1, g2, v);
    SealExtends(g4, t);
    assert Fits(site, Seal(g4, t));
    FitsBack(site, g4, Seal(g4, t));
    FitsBack(site, g3, g4);
    FitsOf(site, g1, g2, g3, v);
    assert g1.blocks[t + 1] == [] && g1.blocks[t + 2] == [];
    assert g2.blocks[t + 1] == [] && g2.blocks[t + 2] == [];
    assert g3.blocks[t + 1] == [] && g3.blocks[t + 2] == [];
    assert g4.blocks[t + 2] == [];
    EmitBrFits(site, g, g1);
  }

  lemma WhileIsReady(site: Site, g: Gen, s: Ast.Stmt) returns (v: Operand, g2: Gen, g4: Gen)
    requires SiteOk(site) && g.cur < |g.blocks| && g.scopes != [] && SlotsBelow(g.scopes, |g.slots|) && LoopsIn(g)
    requires s.While? && GenWhile(EnvAt(site), g, s).Some? && Fits(site, GenWhile(EnvAt(site), g, s).value)
    ensures WhileReady(site, g, s, v, g2, g4)
  {
    hide GenStmt, GenExpr, Compute, Fits;
    var env := EnvAt(site);
    var t := |g.blocks|;
    var g1 := BeginLoop(g);
    v, g2 := GenExpr(env, g1, s.cond).value.0, GenExpr(env, g1, s.cond).value.1;
    var g3 := BeginBody(g2, v, t);
    g4 := GenStmt(env, g3, s.body).value;
    GenExprExtends(env, g1, s.cond);
    BodyStep(g1, g2, v);
    GenStmtExtends(env, g3, s.body);
    assert GenWhile(env, g, s) == Some(EndWhile(g4, t));
    WhileStates(site, g, v, g2, g4);
    assert t + 2 < |FnAt(site).blocks| by {
      InsideFn(site, EndWhile(g4, t));
    }
  }

  lemma InsideFn(site: Site, g: Gen)
    requires SiteOk(site) && Fits(site, g)
    ensures g.cur < |FnAt(site).blocks|
  {
  }

  // Where the branch of a loop is emitted.
  lemma LoopTest(site: Site, g: Gen, v: Operand, t: nat)
    requires SiteOk(site) && g.cur < |g.blocks| && t + 2 < |g.blocks| && Fits(site, BeginBody(g, v, t))
    ensures var (b, g1) := IntToBoolean(g, v);
            && g1.blocks[..|g1.blocks|] == g1.blocks
            && Fits(site, Emit(g1, CondBr(b, t + 1, t + 2)))
  {
    var (b, g1) := IntToBoolean(g, v);
    assert Emit(g1, CondBr(b, t + 1, t + 2)).blocks == BeginBody(g, v, t).blocks;
  }

  lemma BodyStep(g1: Gen, g2: Gen, v: Operand)
    requires ExtendsPlain(g1, g2) && g1.cur + 2 < |g1.blocks|
    ensures var g3 := BeginBody(g2, v, g1.cur);
            && g3.scopes == g1.scopes && g3.loops == g1.loops && |g3.blocks| == |g1.blocks|
            && (forall b | 0 <= b < |g1.blocks| && b != g1.cur :: g3.blocks[b] == g1.blocks[b])
            && g2.blocks[g1.cur] <= g3.blocks[g1.cur]
            && g2.slots == g1.slots == g3.slots
  {
    ComputeExtends(g2, ICmp(CNe, CInt(0), v));
  }

  lemma FitsOf(site: Site, g1: Gen, g2: Gen, g3: Gen, v: Operand)
    requires SiteOk(site) && Fits(site, g3)
    requires ExtendsPlain(g1, g2) && g1.cur + 2 < |g1.blocks| && g3 == BeginBody(g2, v, g1.cur)
    ensures Fits(site, g2) && Fits(site, g1)
  {
    BodyStep(g1, g2, v);
    forall b | 0 <= b < |g2.blocks|
      ensures g2.blocks[b] <= FnAt(site).blocks[b]
    {
      assert g3.blocks[b] <= FnAt(site).blocks[b];
      if b != g1.cur {
        assert g2.blocks[b] == g1.blocks[b] == g3.blocks[b];
      }
    }
    assert Fits(site, g2);
    FitsBack(site, g1, g2);
  }

  lemma EmitBrFits(site: Site, g: Gen, g1: Gen)
    requires SiteOk(site) && g.cur < |g.blocks| && g1 == BeginLoop(g) && Fits(site, g1)
    ensures Fits(site, Emit(g, Br(|g.blocks|)))
  {
    var e := Emit(g, Br(|g.blocks|));
    forall b | 0 <= b < |e.blocks|
      ensures e.blocks[b] <= FnAt(site).blocks[b]
    {
      assert g1.blocks[b] == e.blocks[b];
    }
  }

  lemma {:induction false} SimWhile(site: Site, g: Gen, s: Ast.Stmt, k: nat, st: State, c: Config)
    returns (n: nat, d: Config)
    requires WorldOk(site.w) && site.f in site.w.fs && SiteOk(site)
    requires Here(site, g, st, c) && LoopsIn(g) && s.While?
    requires GenWhile(EnvAt(site), g, s).Some? && Fits(site, GenWhile(EnvAt(site), g, s).value)
    ensures StmtDone(site, g.scopes, g.loops, GenWhile(EnvAt(site), g, s).value, k,
                     ExecWhile(site.w.fs, k, s, st), c, n, d)
    decreases k, 0, s, 1
  {
    hide InPlace, Reaches, Endures, GenWhile, ExecWhile, Match, Compute, Step, BeginLoop, EndWhile, Stuck, Wronged;
    var t := |g.blocks|;
    var h := GenWhile(EnvAt(site), g, s).value;
    var _, _, _ := WhileIsReady(site, g, s);
    var d1 := SimBr(site, g, t, st, c);
    var n2, d2 := SimLoop(site, g, s, k, st, d1);
    StmtThen(site, g.scopes, g.loops, h, k, ExecWhile(site.w.fs, k, s, st), 0, c, 1, d1, n2, d2);
    n, d := 1 + n2, d2;
  }

  // From the condition block, for any number of iterations.
  lemma {:induction false} SimLoop(site: Site, g: Gen, s: Ast.Stmt, k: nat, st: State, c: Config)
    returns (n: nat, d: Config)
    requires WorldOk(site.w) && site.f in site.w.fs && SiteOk(site)
    requires g.cur < |g.blocks| && g.scopes != [] && SlotsBelow(g.scopes, |g.slots|) && LoopsIn(g) && s.While?
    requires GenWhile(EnvAt(site), g, s).Some? && Fits(site, GenWhile(EnvAt(site), g, s).value)
    requires InPlace(site, g.scopes, st, c) && AtBlock(site, |g.blocks|, c)
    ensures StmtDone(site, g.scopes, g.loops, GenWhile(EnvAt(site), g, s).value, k,
                     ExecWhile(site.w.fs, k, s, st), c, n, d)
    decreases k, 0, s, 0
  {
    hide Reaches, Endures, InPlace, GenStmt, GenExpr, GenWhile, EvalExpr, ExecStmt, EndWhile, Match, Compute;
    hide Fits, Moves, Step, Extends, Here, AtBlock;
    var v, g2, g4 := WhileIsReady(site, g, s);
    var t := |g.blocks|;
    var g1 := BeginLoop(g);
    var h := EndWhile(g4, t);
    var j := IntToBoolean(g2, v).1;
    Land(site, t, g1, st, c);
    LoopTest(site, g2, v, t);
    hide BeginLoop, BeginBody, IntToBoolean;
    n, d := SimCondition(site, g1, s.cond, j, t + 1, t + 2, k, st, c);
    var r := EvalExpr(site.w.fs, k, s.cond, st);
    if r.Ok? && r.v.VInt? {
      n, d := SimChosen(site, g, s, k, r.v.i != 0, r.st, c, n, d);
    }
  }

  // The loop goes on or ends, as its condition says.
  lemma {:induction false} SimChosen(site: Site, g: Gen, s: Ast.Stmt, k: nat, on: bool, st: State, c: Config,
          n1: nat, d1: Config)
    returns (n: nat, d: Config)
    requires WorldOk(site.w) && site.f in site.w.fs && SiteOk(site)
    requires g.cur < |g.blocks| && g.scopes != [] && SlotsBelow(g.scopes, |g.slots|) && LoopsIn(g) && s.While?
    requires GenWhile(EnvAt(site), g, s).Some? && Fits(site, GenWhile(EnvAt(site), g, s).value)
    requires n1 > 0 && Moves(site.w.m, 0, c, n1, d1) && InPlace(site, g.scopes, st, d1)
    requires AtBlock(site, if on then |g.blocks| + 1 else |g.blocks| + 2, d1)
    ensures var r := if on then Repeat(site.w.fs, k, s, ExecStmt(site.w.fs, k, s.body, st)) else Normal(st);
            StmtDone(site, g.scopes, g.loops, GenWhile(EnvAt(site), g, s).value, k, r, c, n, d)
    decreases k, 0, s.body, 4
  {
    hide Reaches, Endures, InPlace, Repeat;
    hide GenStmt, GenExpr, GenWhile, EvalExpr, ExecStmt, EndWhile;
    var h := GenWhile(EnvAt(site), g, s).value;
    if on {
      var n2, d2 := SimBody(site, g, s, k, st, d1);
      StmtThenFuel(site, g.scopes, g.loops, h, k, Repeat(site.w.fs, k, s, ExecStmt(site.w.fs, k, s.body, st)),
                   c, n1, d1, n2, d2);
      n, d := n1 + n2, d2;
    } else {
      var _, _, _ := WhileIsReady(site, g, s);
      Land(site, |g.blocks| + 2, h, st, d1);
      n, d := n1, d1;
    }
  }

  lemma StmtThenFuel(site: Site, at: Layers, loops: seq<(nat, nat)>, h: Gen, k: nat, r: Outcome,
                     c: Config, n1: nat, d1: Config, n2: nat, d2: Config)
    requires SiteOk(site) && Moves(site.w.m, 0, c, n1, d1) && n1 > 0
    requires StmtDone(site, at, loops, h, if k == 0 then 0 else k - 1, r, d1, n2, d2)
    ensures StmtDone(site, at, loops, h, k, r, c, n1 + n2, d2)
  {
    StmtThen(site, at, loops, h, if k == 0 then 0 else k - 1, r, 0, c, n1, d1, n2, d2);
  }

  // The body and whatever iterations follow; each iteration costs at least one step.
  lemma {:induction false} SimBody(site: Site, g: Gen, s: Ast.Stmt, k: nat, st: State, c: Config)
    returns (n: nat, d: Config)
    requires WorldOk(site.w) && site.f in site.w.fs && SiteOk(site)
    requires g.cur < |g.blocks| && g.scopes != [] && SlotsBelow(g.scopes, |g.slots|) && LoopsIn(g) && s.While?
    requires GenWhile(EnvAt(site), g, s).Some? && Fits(site, GenWhile(EnvAt(site), g, s).value)
    requires InPlace(site, g.scopes, st, c) && AtBlock(site, |g.blocks| + 1, c)
    ensures StmtDone(site, g.scopes, g.loops, GenWhile(EnvAt(site), g, s).value, if k == 0 then 0 else k - 1,
                     Repeat(site.w.fs, k, s, ExecStmt(site.w.fs, k, s.body, st)), c, n, d)
    decreases k, 0, s.body, 3
  {
    hide Reaches, Endures;
    hide GenStmt, GenExpr, GenWhile, EvalExpr, ExecStmt, ExecWhile, EndWhile;
    var v, g2, g4 := WhileIsReady(site, g, s);
    var t := |g.blocks|;
    var g3 := BeginBody(g2, v, t);
    var h := EndWhile(g4, t);
    hide BeginLoop, BeginBody;
    Land(site, t + 1, g3, st, c);
    n, d := SimStmt(site, g3, s.body, k, st, c);
    var o := ExecStmt(site.w.fs, k, s.body, st);
    match o
    case Normal(st1) =>
      StmtOpen(site.w.fs, EnvAt(site), g3, s.body, k, st);
      var d1 := SimBr(site, g4, t, st1, d);
      MovesTrans(site.w.m, 0, c, n, d, 0, 1, d1);
      n, d := SimAgain(site, g, s, k, st1, c, n + 1, d1);
    case Continued(st1) => n, d := SimAgain(site, g, s, k, st1, c, n, d);
    case Broke(st1) => Land(site, t + 2, h, st1, d);
    case _ =>
  }

  // Back at the condition block with one unit of fuel less.
  lemma {:induction false} SimAgain(site: Site, g: Gen, s: Ast.Stmt, k: nat, st: State, c: Config, n1: nat, d1: Config)
    returns (n: nat, d: Config)
    requires WorldOk(site.w) && site.f in site.w.fs && SiteOk(site)
    requires g.cur < |g.blocks| && g.scopes != [] && SlotsBelow(g.scopes, |g.slots|) && LoopsIn(g) && s.While?
    requires GenWhile(EnvAt(site), g, s).Some? && Fits(site, GenWhile(EnvAt(site), g, s).value)
    requires Moves(site.w.m, 0, c, n1, d1) && InPlace(site, g.scopes, st, d1) && AtBlock(site, |g.blocks|, d1)
    ensures StmtDone(site, g.scopes, g.loops, GenWhile(EnvAt(site), g, s).value, if k == 0 then 0 else k - 1,
                     if k == 0 then Stopped else ExecWhile(site.w.fs, k - 1, s, st), c, n, d)
    decreases k, 0, s.body, 0
  {
    hide GenWhile, ExecWhile;
    var h := GenWhile(EnvAt(site), g, s).value;
    if k == 0 {
      n, d := 0, c;
      EnduresNone(site.w.m, c);
    } else {
      var n2, d2 := SimLoop(site, g, s, k - 1, st, d1);
      StmtThen(site, g.scopes, g.loops, h, k - 1, ExecWhile(site.w.fs, k - 1, s, st), 0, c, n1, d1, n2, d2);
      n, d := n1 + n2, d2;
    }
  }
}
