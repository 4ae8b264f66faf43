// How the machine advances through the code that one builder call emitted. A machine position
// is named by the code still to run, so code appended later, or slots added later, never moves it.
module Progress {
  import opened Wrappers
  import opened Source
  import opened Target
  import opened Lowering
  import opened Growth
  import opened Matching

  // A compiled program: each function's code was generated in the environment of its definition.
  datatype World = World(m: Module, fs: Funcs, envs: map<string, Env>, globals: set<string>)

  ghost predicate EnvOk(w: World, env: Env) {
    && env.globals.Keys <= w.globals
    && forall f | f in env.funcs :: f in w.fs && |w.fs[f].params| == env.funcs[f]
  }

  ghost predicate FuncOk(w: World, f: string)
    requires f in w.fs && f in w.m && f in w.envs
  {
    && EnvOk(w, w.envs[f])
    && GenBody(w.envs[f], w.fs[f]).Some?
    && var g := GenBody(w.envs[f], w.fs[f]).value;
       w.m[f] == Fn(|w.fs[f].params|, g.slots, g.blocks)
  }

  ghost predicate WorldOk(w: World) {
    && w.m.Keys == w.fs.Keys == w.envs.Keys
    && forall f {:trigger FuncOk(w, f)} | f in w.fs :: FuncOk(w, f)
  }

  // A place in a run: inside function `f`, with the callers' shapes below.
  datatype Site = Site(w: World, f: string, outer: seq<Shape>)

  ghost predicate SiteOk(site: Site) {
    site.f in site.w.m && site.f in site.w.envs
  }

  ghost function FnAt(site: Site): Fn
    requires SiteOk(site)
  {
    site.w.m[site.f]
  }

  ghost function EnvAt(site: Site): Env
    requires SiteOk(site)
  {
    site.w.envs[site.f]
  }

  ghost function Shapes(site: Site, scopes: Layers): seq<Shape>
    requires SiteOk(site)
  {
    site.outer + [Shape(scopes, FnAt(site).slots)]
  }

  // The finished function contains everything generated so far.
  ghost predicate Fits(site: Site, g: Gen)
    requires SiteOk(site)
  {
    && g.cur < |g.blocks| <= |FnAt(site).blocks|
    && (forall b | 0 <= b < |g.blocks| :: g.blocks[b] <= FnAt(site).blocks[b])
    && g.slots <= FnAt(site).slots
  }

  lemma FitsBack(site: Site, g: Gen, h: Gen)
    requires SiteOk(site) && Extends(g, h) && Fits(site, h)
    ensures Fits(site, g)
  {
    forall b | 0 <= b < |g.blocks|
      ensures g.blocks[b] <= FnAt(site).blocks[b]
    {
      assert g.blocks[b] <= h.blocks[b] <= FnAt(site).blocks[b];
    }
  }

  ghost predicate InPlace(site: Site, scopes: Layers, st: State, c: Config)
    requires SiteOk(site)
  {
    match c
    case Halted(_, _) => false
    case Running(cur, _, frames, globals) =>
      && cur.fname == site.f
      && cur.depth == |site.outer|
      && Match(Shapes(site, scopes), st, frames)
      && globals == st.globals
      && site.w.globals <= st.globals.Keys
  }

  // The machine is about to run whatever is generated next.
  ghost predicate Here(site: Site, g: Gen, st: State, c: Config)
    requires SiteOk(site)
  {
    match c
    case Halted(_, _) => false
    case Running(cur, _, _, _) =>
      && InPlace(site, g.scopes, st, c)
      && Fits(site, g)
      && cur.code == FnAt(site).blocks[g.cur][|g.blocks[g.cur]|..]
      && SlotsBelow(g.scopes, |g.slots|)
      && g.scopes != []
  }

  ghost predicate Keeps(a: Act, b: Act, n: nat) {
    && b.args == a.args
    && forall r: nat | r < n :: OpVal(b, Reg(r)) == OpVal(a, Reg(r))
  }

  // `n` steps within the same call that leave the first `lo` registers alone.
  ghost predicate Moves(m: Module, lo: nat, c: Config, n: nat, d: Config) {
    match (c, d)
    case (Running(a, stack, _, _), Running(b, stack', _, _)) =>
      && Reaches(m, c, n, d)
      && stack' == stack
      && b.depth == a.depth
      && Keeps(a, b, lo)
    case _ => false
  }

  lemma MovesTrans(m: Module, lo: nat, c: Config, a: nat, d: Config, lo': nat, b: nat, e: Config)
    requires Moves(m, lo, c, a, d) && Moves(m, lo', d, b, e) && lo <= lo'
    ensures Moves(m, lo, c, a + b, e)
  {
    ReachesTrans(m, c, a, d, b, e);
    forall r: nat | r < lo
      ensures OpVal(e.cur, Reg(r)) == OpVal(c.cur, Reg(r))
    {
      assert OpVal(d.cur, Reg(r)) == OpVal(c.cur, Reg(r));
    }
  }

  lemma MovesNone(m: Module, lo: nat, c: Config)
    requires c.Running?
    ensures Moves(m, lo, c, 0, c)
  {
  }

  // What a source failure `w` shows on the machine: a trap stops it within `n` steps, at `d`.
  ghost predicate Wronged(m: Module, c: Config, n: nat, d: Config, w: Wrong) {
    w == Misuse || (w == Trap && Reaches(m, c, n, d) && Stuck(m, d))
  }

  lemma WrongedHere(m: Module, c: Config)
    requires Stuck(m, c)
    ensures Wronged(m, c, 0, c, Trap)
  {
    hide Step;
  }

  lemma WrongedAfter(m: Module, c: Config, a: nat, d: Config, b: nat, e: Config, w: Wrong)
    requires Reaches(m, c, a, d) && Wronged(m, d, b, e, w)
    ensures Wronged(m, c, a + b, e, w)
  {
    hide Step, Stuck;
    if w == Trap {
      ReachesTrans(m, c, a, d, b, e);
    }
  }

  lemma KeepsReady(a: Act, b: Act, n: nat, o: Operand)
    requires Keeps(a, b, n) && Ready(o, n)
    ensures OpVal(b, o) == OpVal(a, o)
  {
  }

  lemma NextInstr(site: Site, g: Gen, i: Instr, st: State, c: Config)
    requires SiteOk(site) && Here(site, g, st, c) && Fits(site, Emit(g, i))
    ensures c.cur.code != [] && c.cur.code[0] == i
    ensures c.cur.code[1..] == FnAt(site).blocks[g.cur][|Emit(g, i).blocks[g.cur]|..]
  {
    var full := FnAt(site).blocks[g.cur];
    var n := |g.blocks[g.cur]|;
    assert Emit(g, i).blocks[g.cur] <= full;
    assert full[n] == Emit(g, i).blocks[g.cur][n] == i;
    assert full[n..][1..] == full[n + 1..];
  }

  lemma RunOne(m: Module, c: Config, d: Config)
    requires Step(m, c) == Some(d)
    ensures Reaches(m, c, 1, d)
  {
    assert Reaches(m, d, 0, d);
  }

  // ----- builder calls -----

  lemma ConstantVal(a: Act, rhs: Rhs)
    requires ConstantRhs(rhs)
    ensures RhsVal(a, rhs) == RhsVal(NO_ACT, rhs)
  {
  }

  // Folding gives the operand the value the instruction would have computed.
  lemma FoldedVal(a: Act, rhs: Rhs)
    requires Folded(rhs).Some?
    ensures RhsVal(a, rhs) == Some(OpVal(a, Folded(rhs).value))
  {
    ConstantVal(a, rhs);
  }

  lemma Arrive(site: Site, g: Gen, i: Instr, st: State, c: Config, st': State, d: Config)
    requires SiteOk(site) && Here(site, g, st, c) && Fits(site, Emit(g, i))
    requires InPlace(site, g.scopes, st', d) && d.cur.code == c.cur.code[1..]
    requires c.cur.code != []
    ensures Here(site, Emit(g, i), st', d)
  {
    NextInstr(site, g, i, st, c);
  }

  lemma KeepsSetReg(a: Act, n: nat, v: TVal, code: Code)
    ensures Keeps(a, SetReg(a.(code := code), n, v), n)
    ensures OpVal(SetReg(a.(code := code), n, v), Reg(n)) == v
  {
  }

  // An instruction that writes the next free register.
  lemma SimWrite(site: Site, g: Gen, i: Instr, v: TVal, st: State, c: Config) returns (d: Config)
    requires SiteOk(site) && Here(site, g, st, c) && Fits(site, Emit(g.(nextReg := g.nextReg + 1), i))
    requires c.cur.code != [] && c.cur.code[0] == i ==>
               Step(site.w.m, c) == Some(c.(cur := SetReg(c.cur.(code := c.cur.code[1..]), g.nextReg, v)))
    ensures Moves(site.w.m, g.nextReg, c, 1, d)
    ensures Here(site, Emit(g.(nextReg := g.nextReg + 1), i), st, d)
    ensures OpVal(d.cur, Reg(g.nextReg)) == v
    ensures d.frames == c.frames
  {
    var g' := g.(nextReg := g.nextReg + 1);
    assert Fits(site, Emit(g, i));
    NextInstr(site, g, i, st, c);
    d := c.(cur := SetReg(c.cur.(code := c.cur.code[1..]), g.nextReg, v));
    RunOne(site.w.m, c, d);
    KeepsSetReg(c.cur, g.nextReg, v, c.cur.code[1..]);
    Arrive(site, g, i, st, c, st, d);
  }

  lemma SimCompute(site: Site, g: Gen, rhs: Rhs, v: TVal, st: State, c: Config) returns (n: nat, d: Config)
    requires SiteOk(site) && Here(site, g, st, c) && Fits(site, Compute(g, rhs).1)
    requires RhsVal(c.cur, rhs) == Some(v)
    ensures Moves(site.w.m, g.nextReg, c, n, d)
    ensures Here(site, Compute(g, rhs).1, st, d)
    ensures OpVal(d.cur, Compute(g, rhs).0) == v
    ensures d.frames == c.frames
  {
    if Folded(rhs).Some? {
      FoldedVal(c.cur, rhs);
      MovesNone(site.w.m, g.nextReg, c);
      n, d := 0, c;
    } else {
      d := SimWrite(site, g, Set(g.nextReg, rhs), v, st, c);
      n := 1;
    }
  }

  lemma SimLoad(site: Site, g: Gen, p: Operand, v: TVal, st: State, c: Config) returns (n: nat, d: Config)
    requires SiteOk(site) && Here(site, g, st, c) && Fits(site, EmitLoad(g, p).1)
    requires ReadMem(c, OpVal(c.cur, p)) == Some(v)
    ensures Moves(site.w.m, g.nextReg, c, n, d)
    ensures Here(site, EmitLoad(g, p).1, st, d)
    ensures OpVal(d.cur, EmitLoad(g, p).0) == v
    ensures d.frames == c.frames
  {
    d := SimWrite(site, g, Load(g.nextReg, p), v, st, c);
    n := 1;
  }

  // An instruction whose operands give it no result stops the machine.
  lemma StuckSet(site: Site, g: Gen, rhs: Rhs, st: State, c: Config)
    requires SiteOk(site) && Here(site, g, st, c) && Fits(site, Compute(g, rhs).1)
    requires RhsVal(c.cur, rhs) == None
    ensures Stuck(site.w.m, c)
  {
    if Folded(rhs).Some? {
      FoldedVal(c.cur, rhs);
    }
    var g' := g.(nextReg := g.nextReg + 1);
    assert Here(site, g', st, c);
    NextInstr(site, g', Set(g.nextReg, rhs), st, c);
  }

  lemma StuckLoad(site: Site, g: Gen, p: Operand, st: State, c: Config)
    requires SiteOk(site) && Here(site, g, st, c) && Fits(site, EmitLoad(g, p).1)
    requires ReadMem(c, OpVal(c.cur, p)) == None
    ensures Stuck(site.w.m, c)
  {
    var g' := g.(nextReg := g.nextReg + 1);
    assert Here(site, g', st, c);
    NextInstr(site, g', Load(g.nextReg, p), st, c);
  }

  lemma StuckStore(site: Site, g: Gen, v: Operand, p: Operand, st: State, c: Config)
    requires SiteOk(site) && Here(site, g, st, c) && Fits(site, Emit(g, Store(v, p)))
    requires WriteMem(c, OpVal(c.cur, p), OpVal(c.cur, v)) == None
    ensures Stuck(site.w.m, c)
  {
    NextInstr(site, g, Store(v, p), st, c);
  }

  // A store whose effect on memory is `frames`, `globals`, matching the source state `st'`.
  lemma SimStore(site: Site, g: Gen, v: Operand, p: Operand, st: State, st': State, c: Config)
    returns (n: nat, d: Config)
    requires SiteOk(site) && Here(site, g, st, c) && Fits(site, Emit(g, Store(v, p)))
    requires WriteMem(c, OpVal(c.cur, p), OpVal(c.cur, v)).Some?
    requires InPlace(site, g.scopes, st', WriteMem(c, OpVal(c.cur, p), OpVal(c.cur, v)).value)
    ensures Moves(site.w.m, g.nextReg, c, n, d)
    ensures Here(site, Emit(g, Store(v, p)), st', d)
    ensures d.frames == WriteMem(c, OpVal(c.cur, p), OpVal(c.cur, v)).value.frames
  {
    NextInstr(site, g, Store(v, p), st, c);
    var next := c.cur.(code := c.cur.code[1..]);
    n, d := 1, WriteMem(c.(cur := next), OpVal(c.cur, p), OpVal(c.cur, v)).value;
    RunOne(site.w.m, c, d);
    Arrive(site, g, Store(v, p), st, c, st', d);
  }
}
