// Branches: how the machine moves between the blocks that statements create, and what running
// the code of a statement owes to each outcome of the source.
module ControlSim {
  import opened Source
  import opened Target
  import opened Lowering
  import opened Growth
  import opened Fallthrough
  import opened Matching
  import opened Progress

  ghost predicate LoopsIn(g: Gen) {
    forall i | 0 <= i < |g.loops| :: g.loops[i].0 < |g.blocks| && g.loops[i].1 < |g.blocks|
  }

  ghost predicate AtBlock(site: Site, b: nat, c: Config)
    requires SiteOk(site)
  {
    c.Running? && b < |FnAt(site).blocks| && c.cur.code == FnAt(site).blocks[b]
  }

  ghost predicate AtReturn(c: Config) {
    c.Running? && c.cur.code != [] && (c.cur.code[0].Ret? || c.cur.code[0].RetVoid?)
  }

  ghost function ReturnVal(c: Config): TVal
    requires AtReturn(c)
  {
    if c.cur.code[0].Ret? then OpVal(c.cur, c.cur.code[0].v) else TUndef
  }

  // `at` are the scopes in force where the statement stopped, `h` the state after generating it.
  ghost predicate StmtDone(site: Site, at: Layers, loops: seq<(nat, nat)>, h: Gen, k: nat, r: Outcome, c: Config,
          n: nat, d: Config)
    requires SiteOk(site)
  {
    match r
    case Normal(st) => Moves(site.w.m, 0, c, n, d) && Here(site, h, st, d)
    case Broke(st) =>
      && loops != [] && Moves(site.w.m, 0, c, n, d) && InPlace(site, at, st, d)
      && AtBlock(site, loops[|loops| - 1].1, d)
    case Continued(st) =>
      && loops != [] && Moves(site.w.m, 0, c, n, d) && InPlace(site, at, st, d)
      && AtBlock(site, loops[|loops| - 1].0, d)
    case Returned(v, st) =>
      && Moves(site.w.m, 0, c, n, d) && InPlace(site, at, st, d)
      && AtReturn(d) && !v.VRef? && ValOk([], v, ReturnVal(d))
    case Stopped => k <= n && Endures(site.w.m, c, n)
    case Failed(w) => Wronged(site.w.m, c, n, d, w)
  }

  lemma StmtThen(site: Site, at: Layers, loops: seq<(nat, nat)>, h: Gen, k: nat, r: Outcome, lo: nat,
                 c: Config, n1: nat, d1: Config, n2: nat, d2: Config)
    requires SiteOk(site) && Moves(site.w.m, lo, c, n1, d1)
    requires StmtDone(site, at, loops, h, k, r, d1, n2, d2)
    ensures StmtDone(site, at, loops, h, k, r, c, n1 + n2, d2)
  {
    MovesTrans(site.w.m, 0, c, n1, d1, 0, 0, d1) by {
      MovesNone(site.w.m, 0, d1);
    }
    match r
    case Stopped => EnduresAfter(site.w.m, c, n1, d1, n2);
    case Failed(w) => WrongedAfter(site.w.m, c, n1, d1, n2, d2, w);
    case _ => MovesTrans(site.w.m, 0, c, n1, d1, 0, n2, d2);
  }

  // Arrival at a block of which nothing but the start has been generated.
  ghost predicate Fresh(site: Site, b: nat, h: Gen)
    requires SiteOk(site)
  {
    && Fits(site, h) && h.cur == b && h.blocks[b] == []
    && h.scopes != [] && SlotsBelow(h.scopes, |h.slots|)
  }

  lemma Land(site: Site, b: nat, h: Gen, st: State, c: Config)
    requires SiteOk(site) && Fresh(site, b, h)
    requires InPlace(site, h.scopes, st, c) && AtBlock(site, b, c)
    ensures Here(site, h, st, c)
  {
  }

  // An unconditional branch.
  lemma SimBr(site: Site, g: Gen, b: nat, st: State, c: Config) returns (d: Config)
    requires SiteOk(site) && Here(site, g, st, c) && Fits(site, Emit(g, Br(b)))
    requires b < |FnAt(site).blocks|
    ensures Moves(site.w.m, 0, c, 1, d)
    ensures InPlace(site, g.scopes, st, d) && AtBlock(site, b, d)
  {
    NextInstr(site, g, Br(b), st, c);
    d := c.(cur := c.cur.(code := FnAt(site).blocks[b]));
    RunOne(site.w.m, c, d);
  }

  lemma SimCondBr(site: Site, g: Gen, o: Operand, t: nat, e: nat, x: bool, st: State, c: Config) returns (d: Config)
    requires SiteOk(site) && Here(site, g, st, c) && Fits(site, Emit(g, CondBr(o, t, e)))
    requires t < |FnAt(site).blocks| && e < |FnAt(site).blocks|
    requires OpVal(c.cur, o) == TBool(x)
    ensures Moves(site.w.m, 0, c, 1, d)
    ensures InPlace(site, g.scopes, st, d) && AtBlock(site, if x then t else e, d)
  {
    NextInstr(site, g, CondBr(o, t, e), st, c);
    d := c.(cur := c.cur.(code := FnAt(site).blocks[if x then t else e]));
    RunOne(site.w.m, c, d);
  }

  // A statement that completes never leaves the block closed, so the branch is really there.
  lemma SimSeal(site: Site, g: Gen, b: nat, h: Gen, st: State, c: Config) returns (d: Config)
    requires SiteOk(site) && Here(site, g, st, c) && Fits(site, Seal(g, b)) && Open(g)
    requires Fresh(site, b, h) && h.scopes == g.scopes
    ensures Moves(site.w.m, 0, c, 1, d)
    ensures Here(site, h, st, d)
  {
    d := SimBr(site, g, b, st, c);
    Land(site, b, h, st, d);
  }

  // The condition's value `v` is tested and one of two blocks is entered; `g` is where the
  // value is ready and `extra` fresh blocks may have been added before the branch.
  lemma SimTest(site: Site, g: Gen, v: Operand, i: int, j: Gen, t: nat, e: nat, st: State, c: Config)
    returns (n: nat, d: Config)
    requires SiteOk(site) && Here(site, g, st, c)
    requires OpVal(c.cur, v) == TInt(i)
    requires var (b, g1) := IntToBoolean(g, v);
             && j.cur == g1.cur && |g1.blocks| <= |j.blocks| && j.blocks[..|g1.blocks|] == g1.blocks
             && j.scopes == g1.scopes && j.slots == g1.slots
             && Fits(site, Emit(j, CondBr(b, t, e)))
    requires t < |FnAt(site).blocks| && e < |FnAt(site).blocks|
    ensures Moves(site.w.m, 0, c, n, d) && n > 0
    ensures InPlace(site, g.scopes, st, d) && AtBlock(site, if i != 0 then t else e, d)
  {
    var (b, g1) := IntToBoolean(g, v);
    var rhs := ICmp(CNe, CInt(0), v);
    ComputeExtends(g, rhs);
    EmitExtends(j, CondBr(b, t, e));
    FitsBack(site, j, Emit(j, CondBr(b, t, e)));
    forall k | 0 <= k < |g1.blocks|
      ensures g1.blocks[k] <= FnAt(site).blocks[k]
    {
      assert j.blocks[k] == j.blocks[..|g1.blocks|][k];
    }
    assert Fits(site, g1);
    var n1, d1 := SimCompute(site, g, rhs, TBool(i != 0), st, c);
    assert j.blocks[g1.cur] == j.blocks[..|g1.blocks|][g1.cur];
    assert Here(site, j, st, d1);
    var d2 := SimCondBr(site, j, b, t, e, i != 0, st, d1);
    MovesTrans(site.w.m, 0, c, n1, d1, 0, 1, d2) by {
      MovesWeaken(site.w.m, g.nextReg, c, n1, d1);
    }
    n, d := n1 + 1, d2;
  }

  lemma MovesWeaken(m: Module, lo: nat, c: Config, n: nat, d: Config)
    requires Moves(m, lo, c, n, d)
    ensures Moves(m, 0, c, n, d)
  {
  }

  // ----- blocks -----

  lemma EnterBlock(site: Site, g: Gen, st: State, c: Config)
    requires SiteOk(site) && Here(site, g, st, c)
    ensures st.frames != [] && Here(site, PushScope(g), PushLayer(st), c)
  {
    var sh := Shapes(site, g.scopes);
    PushMatch(sh, st, c.frames);
    assert Retop(sh, PushScope(g).scopes) == Shapes(site, PushScope(g).scopes);
  }

  lemma PopInPlace(site: Site, at: Layers, scopes: Layers, st: State, c: Config)
    requires SiteOk(site) && InPlace(site, at, st, c)
    requires at != [] && at[..|at| - 1] == scopes
    ensures InPlace(site, scopes, PopLayer(st), c)
  {
    var sh := Shapes(site, at);
    PopMatch(sh, st, c.frames);
    assert Retop(sh, scopes) == Shapes(site, scopes);
  }

  lemma SlotsBelowPop(scopes: Layers, n: nat)
    requires scopes != [] && SlotsBelow(scopes, n)
    ensures SlotsBelow(scopes[..|scopes| - 1], n)
  {
  }

  // However its items ended, a block takes its layer with it.
  lemma ExitBlock(site: Site, scopes: Layers, at: Layers, loops: seq<(nat, nat)>, h: Gen, k: nat, r: Outcome,
          c: Config, n: nat, d: Config)
    requires SiteOk(site) && StmtDone(site, at, loops, h, k, r, c, n, d)
    requires SameBelow(scopes + [map[]], at) && SameBelow(scopes + [map[]], h.scopes) && scopes != []
    ensures StmtDone(site, scopes, loops, PopScope(h), k, Popped(r), c, n, d)
  {
    assert (scopes + [map[]])[..|scopes|] == scopes;
    match r
    case Normal(st) =>
      PopInPlace(site, h.scopes, scopes, st, d);
      SlotsBelowPop(h.scopes, |h.slots|);
    case Broke(st) => PopInPlace(site, at, scopes, st, d);
    case Continued(st) => PopInPlace(site, at, scopes, st, d);
    case Returned(_, st) => PopInPlace(site, at, scopes, st, d);
    case _ =>
  }
}
