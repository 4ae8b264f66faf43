// Declarations: the slot was reserved at function entry, but each execution of the
// declaration stores a whole fresh initial value into it before the name comes into scope.
module DefSim {
  import opened Wrappers
  import opened Source
  import opened Target
  import opened Lowering
  import opened Growth
  import opened Matching
  import opened Progress
  import opened VarSim

  ghost predicate Operands(a: Act, os: seq<Operand>, ints: seq<int>, n: nat) {
    |os| == |ints| && forall i | 0 <= i < |os| :: Ready(os[i], n) && OpVal(a, os[i]) == TInt(ints[i])
  }

  lemma OperandsKept(a: Act, b: Act, os: seq<Operand>, ints: seq<int>, n: nat, m: nat)
    requires Operands(a, os, ints, n) && Keeps(a, b, n) && n <= m
    ensures Operands(b, os, ints, m)
  {
    forall i | 0 <= i < |os|
      ensures Ready(os[i], m) && OpVal(b, os[i]) == TInt(ints[i])
    {
      KeepsReady(a, b, n, os[i]);
    }
  }

  // The slot `s` of the running call: no visible name owns it.
  ghost predicate Free(site: Site, g: Gen, s: nat, c: Config)
    requires SiteOk(site)
  {
    && c.Running? && |c.frames| == |site.outer| + 1
    && SlotsBelow(g.scopes, s)
    && s < |FnAt(site).slots|
    && s < |c.frames[|site.outer|]|
  }

  ghost predicate FilledTo(site: Site, s: nat, ints: seq<int>, i: nat, c: Config) {
    && c.Running? && |c.frames| == |site.outer| + 1
    && s < |c.frames[|site.outer|]|
    && i <= |ints| == |c.frames[|site.outer|][s]|
    && forall j | 0 <= j < i :: c.frames[|site.outer|][s][j] == TInt(ints[j])
  }

  lemma FrameLength(site: Site, g: Gen, s: nat, st: State, c: Config)
    requires SiteOk(site) && Here(site, g, st, c)
    requires s < |FnAt(site).slots|
    ensures |c.frames| == |site.outer| + 1 && s < |c.frames[|site.outer|]|
    ensures |c.frames[|site.outer|][s]| == Cells(FnAt(site).slots[s])
  {
    var t := |site.outer|;
    assert FrameOk(Shapes(site, g.scopes), t, st.frames[t], c.frames[t]);
  }

  // One store into a free slot.
  lemma SimFreeStore(site: Site, g: Gen, s: nat, k: nat, o: Operand, p: Operand, v: TVal, st: State, c: Config)
    returns (n: nat, d: Config)
    requires SiteOk(site) && Here(site, g, st, c) && Fits(site, Emit(g, Store(o, p)))
    requires Free(site, g, s, c) && k < |c.frames[|site.outer|][s]|
    requires OpVal(c.cur, o) == v && OpVal(c.cur, p) == TPtr(|site.outer|, s, k)
    ensures Moves(site.w.m, g.nextReg, c, n, d)
    ensures Here(site, Emit(g, Store(o, p)), st, d)
    ensures d.Running? && d.frames == SetCell(c.frames, |site.outer|, s, k, v)
  {
    var t := |site.outer|;
    FrameLength(site, g, s, st, c);
    FreeSlot(Shapes(site, g.scopes), st, c.frames, s, c.frames[t][s][k := v]);
    n, d := SimStore(site, g, o, p, st, st, c);
  }

  // The stores of an array's initial values, cell after cell.
  lemma {:induction false} SimStoreCells(site: Site, g: Gen, s: nat, vals: seq<Operand>, ints: seq<int>, i: nat,
          st: State, c: Config)
    returns (n: nat, d: Config)
    requires SiteOk(site) && Here(site, g, st, c) && i <= |vals|
    requires Fits(site, StoreCells(g, s, vals, i))
    requires Free(site, g, s, c) && FilledTo(site, s, ints, i, c)
    requires Operands(c.cur, vals, ints, g.nextReg)
    ensures Moves(site.w.m, g.nextReg, c, n, d)
    ensures Here(site, StoreCells(g, s, vals, i), st, d)
    ensures FilledTo(site, s, ints, |ints|, d)
    decreases |vals| - i
  {
    hide Reaches, Endures;
    if i == |vals| {
      n, d := 0, c;
      MovesNone(site.w.m, g.nextReg, c);
    } else {
      var n1, d1 := SimOneCell(site, g, s, vals, ints, i, st, c);
      var (p, g1) := Compute(g, Gep(Slot(s), CInt(i)));
      var g2 := Emit(g1, Store(vals[i], p));
      ComputeExtends(g, Gep(Slot(s), CInt(i)));
      OperandsKept(c.cur, d1.cur, vals, ints, g.nextReg, g2.nextReg);
      var n2, d2 := SimStoreCells(site, g2, s, vals, ints, i + 1, st, d1);
      MovesTrans(site.w.m, g.nextReg, c, n1, d1, g2.nextReg, n2, d2);
      n, d := n1 + n2, d2;
    }
  }

  lemma SimOneCell(site: Site, g: Gen, s: nat, vals: seq<Operand>, ints: seq<int>, i: nat, st: State, c: Config)
    returns (n: nat, d: Config)
    requires SiteOk(site) && Here(site, g, st, c) && i < |vals|
    requires Fits(site, StoreCells(g, s, vals, i))
    requires Free(site, g, s, c) && FilledTo(site, s, ints, i, c)
    requires Operands(c.cur, vals, ints, g.nextReg)
    ensures var (p, g1) := Compute(g, Gep(Slot(s), CInt(i))); var g2 := Emit(g1, Store(vals[i], p));
            && Moves(site.w.m, g.nextReg, c, n, d)
            && Here(site, g2, st, d)
            && Free(site, g2, s, d) && FilledTo(site, s, ints, i + 1, d)
  {
    hide Reaches, Endures;
    var t := |site.outer|;
    var (p, g1) := Compute(g, Gep(Slot(s), CInt(i)));
    var g2 := Emit(g1, Store(vals[i], p));
    StoreCellsExtends(g2, s, vals, i + 1);
    FitsBack(site, g2, StoreCells(g, s, vals, i));
    EmitExtends(g1, Store(vals[i], p));
    FitsBack(site, g1, g2);
    var n1, d1 := SimCompute(site, g, Gep(Slot(s), CInt(i)), TPtr(t, s, i), st, c);
    KeepsReady(c.cur, d1.cur, g.nextReg, vals[i]);
    var n2, d2 := SimFreeStore(site, g1, s, i, vals[i], p, TInt(ints[i]), st, d1);
    MovesTrans(site.w.m, g.nextReg, c, n1, d1, g1.nextReg, n2, d2);
    n, d := n1 + n2, d2;
  }

  // ----- definitions -----

  // Once the slot holds the value, bringing the name into scope needs no code.
  lemma SimBind(site: Site, g: Gen, x: string, info: VarInfo, b: Binding, st: State, c: Config)
    requires SiteOk(site) && Here(site, g, st, c)
    requires Free(site, g, info.slot, c) && info.slot < |g.slots| && g.slots[info.slot] == info.kind
    requires x !in g.scopes[|g.scopes| - 1]
    requires BindOk(Shapes(site, g.scopes), |site.outer|, info, b, c.frames[|site.outer|])
    ensures Declare(st, x, b).Normal?
    ensures Here(site, Bind(g, x, info), Declare(st, x, b).st, c)
  {
    var sh := Shapes(site, g.scopes);
    DeclareMatch(sh, st, c.frames, x, b, info);
    assert Retop(sh, Bind(g, x, info).scopes) == Shapes(site, Bind(g, x, info).scopes);
  }

  lemma AllocaHere(site: Site, g: Gen, kind: Kind, st: State, c: Config)
    requires SiteOk(site) && Here(site, g, st, c) && Alloca(g, kind).slots <= FnAt(site).slots
    ensures Here(site, Alloca(g, kind), st, c)
    ensures FnAt(site).slots[|g.slots|] == kind
    ensures Free(site, Alloca(g, kind), |g.slots|, c)
    ensures |c.frames[|site.outer|][|g.slots|]| == Cells(kind)
  {
    assert FnAt(site).slots[|g.slots|] == Alloca(g, kind).slots[|g.slots|];
    FrameLength(site, g, |g.slots|, st, c);
  }

  lemma SimDefineArray(site: Site, g: Gen, x: string, isConst: bool, vals: seq<Operand>, ints: seq<int>, st: State,
          c: Config)
    returns (n: nat, d: Config)
    requires SiteOk(site) && Here(site, g, st, c)
    requires Define(g, x, isConst, KArray(|vals|), vals).Some?
    requires Fits(site, Define(g, x, isConst, KArray(|vals|), vals).value)
    requires Operands(c.cur, vals, ints, g.nextReg)
    ensures StoreDone(site, g, Define(g, x, isConst, KArray(|vals|), vals).value,
                      Declare(st, x, Binding(isConst, Array(ints))), c, n, d)
  {
    var s := |g.slots|;
    var kind := KArray(|vals|);
    var g1 := Alloca(g, kind);
    var g2 := StoreCells(g1, s, vals, 0);
    StoreCellsExtends(g1, s, vals, 0);
    assert Fits(site, g2);
    AllocaHere(site, g, kind, st, c);
    n, d := SimStoreCells(site, g1, s, vals, ints, 0, st, c);
    SimBind(site, g2, x, VarInfo(isConst, s, kind), Binding(isConst, Array(ints)), st, d);
  }

  lemma SimDefineOne(site: Site, g: Gen, x: string, isConst: bool, kind: Kind, o: Operand, v: TVal, b: Binding,
          st: State, c: Config)
    returns (n: nat, d: Config)
    requires SiteOk(site) && Here(site, g, st, c) && !kind.KArray?
    requires Define(g, x, isConst, kind, [o]).Some? && Fits(site, Define(g, x, isConst, kind, [o]).value)
    requires OpVal(c.cur, o) == v && b.isConst == isConst
    requires CellsOk(Shapes(site, g.scopes), |site.outer|, kind, b.cell, [v])
    ensures StoreDone(site, g, Define(g, x, isConst, kind, [o]).value, Declare(st, x, b), c, n, d)
  {
    var t, s := |site.outer|, |g.slots|;
    var g1 := Alloca(g, kind);
    var g2 := Emit(g1, Store(o, Slot(s)));
    EmitExtends(g1, Store(o, Slot(s)));
    assert Fits(site, g2);
    AllocaHere(site, g, kind, st, c);
    n, d := SimFreeStore(site, g1, s, 0, o, Slot(s), v, st, c);
    assert d.frames[t][s] == [v];
    SimBind(site, g2, x, VarInfo(isConst, s, kind), b, st, d);
  }
}
