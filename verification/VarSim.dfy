// Reads and writes of variables: the slot and pointer arithmetic the compiler emits reaches
// exactly the cell the source names, locally, through any chain of array parameters, or globally.
module VarSim {
  import opened Wrappers
  import opened Scopes
  import opened Source
  import opened Target
  import opened Lowering
  import opened Growth
  import opened Matching
  import opened Progress

  // What running the code of an expression owes to the source result `r`. With fuel `k`
  // exhausted the machine has made at least `k` steps.
  ghost predicate ExprDone(site: Site, g: Gen, o: Operand, h: Gen, k: nat, r: Result<Val>, c: Config, n: nat, d: Config)
    requires SiteOk(site)
  {
    match r
    case Ok(v, st) =>
      && Moves(site.w.m, g.nextReg, c, n, d)
      && Here(site, h, st, d)
      && ValOk(Shapes(site, h.scopes), v, OpVal(d.cur, o))
    case OutOfFuel => k <= n && Endures(site.w.m, c, n)
    case Fail(w) => Wronged(site.w.m, c, n, d, w)
  }

  // The same for a store or a declaration, which takes no fuel.
  ghost predicate StoreDone(site: Site, g: Gen, h: Gen, r: Outcome, c: Config, n: nat, d: Config)
    requires SiteOk(site)
  {
    && (r.Normal? || r.Failed?)
    && (r.Normal? ==> Moves(site.w.m, g.nextReg, c, n, d) && Here(site, h, r.st, d))
    && (r.Failed? ==> Wronged(site.w.m, c, n, d, r.why))
  }

  ghost predicate GlobalsKnown(site: Site)
    requires SiteOk(site)
  {
    EnvAt(site).globals.Keys <= site.w.globals
  }

  // The binding of a local name, as source and target see it.
  lemma LocalFacts(site: Site, g: Gen, st: State, c: Config, x: string, l: nat)
    requires SiteOk(site) && Here(site, g, st, c)
    requires Find(g.scopes, x) == Some(l)
    ensures var sh := Shapes(site, g.scopes); var t := |site.outer|;
            && Find(TopFrame(st), x) == Some(l)
            && RefTo(st, x) == Ref(t, l, x)
            && ValidRef(st, RefTo(st, x))
            && BindingOf(st, x) == Some(At(st, RefTo(st, x)))
            && t < |c.frames|
            && BindOk(sh, t, g.scopes[l][x], At(st, RefTo(st, x)), c.frames[t])
  {
    var sh := Shapes(site, g.scopes);
    MatchFind(sh, st, c.frames, x);
    MatchAt(sh, st, c.frames, Ref(|site.outer|, l, x));
  }

  lemma GlobalFacts(site: Site, g: Gen, st: State, c: Config, x: string)
    requires SiteOk(site) && Here(site, g, st, c) && GlobalsKnown(site)
    requires Find(g.scopes, x) == None && x in EnvAt(site).globals
    ensures BindingOf(st, x) == None && x in st.globals && x in c.globals && c.globals[x] == st.globals[x]
  {
    MatchFind(Shapes(site, g.scopes), st, c.frames, x);
  }

  lemma SimReadGlobal(site: Site, g: Gen, x: string, k: nat, st: State, c: Config) returns (n: nat, d: Config)
    requires SiteOk(site) && Here(site, g, st, c) && GlobalsKnown(site)
    requires Find(g.scopes, x) == None && x in EnvAt(site).globals && Fits(site, EmitLoad(g, Glob(x)).1)
    ensures ExprDone(site, g, EmitLoad(g, Glob(x)).0, EmitLoad(g, Glob(x)).1, k, ReadVar(st, x), c, n, d)
  {
    GlobalFacts(site, g, st, c, x);
    n, d := SimLoad(site, g, Glob(x), TInt(c.globals[x]), st, c);
  }

  // What the machine finds in the slot of a scalar or of an array parameter.
  lemma SlotFacts(site: Site, g: Gen, x: string, l: nat, st: State, c: Config)
    requires SiteOk(site) && Here(site, g, st, c)
    requires Find(g.scopes, x) == Some(l)
    ensures var info := g.scopes[l][x]; var sh := Shapes(site, g.scopes);
            && ReadVar(st, x).Ok? && ReadVar(st, x).st == st
            && var v := ReadVar(st, x).v;
               if info.kind.KArray? then ValOk(sh, v, TPtr(|site.outer|, info.slot, 0))
               else InFrames(c.frames, |site.outer|, info.slot, 0) && ValOk(sh, v, c.frames[|site.outer|][info.slot][0])
  {
    LocalFacts(site, g, st, c, x, l);
  }

  lemma SimReadLocal(site: Site, g: Gen, x: string, l: nat, k: nat, st: State, c: Config) returns (n: nat, d: Config)
    requires SiteOk(site) && Here(site, g, st, c)
    requires Find(g.scopes, x) == Some(l) && Fits(site, GetLocal(g, g.scopes[l][x], None).1)
    ensures var (o, h) := GetLocal(g, g.scopes[l][x], None);
            ExprDone(site, g, o, h, k, ReadVar(st, x), c, n, d)
  {
    SlotFacts(site, g, x, l, st, c);
    var info := g.scopes[l][x];
    var t := |site.outer|;
    if info.kind.KArray? {
      n, d := SimCompute(site, g, Gep(Slot(info.slot), CInt(0)), TPtr(t, info.slot, 0), st, c);
    } else {
      n, d := SimLoad(site, g, Slot(info.slot), c.frames[t][info.slot][0], st, c);
    }
  }

  lemma SimReadVar(site: Site, g: Gen, x: string, k: nat, st: State, c: Config) returns (n: nat, d: Config)
    requires SiteOk(site) && Here(site, g, st, c) && GlobalsKnown(site)
    requires GetValue(EnvAt(site), g, x, None).Some? && Fits(site, GetValue(EnvAt(site), g, x, None).value.1)
    ensures var (o, h) := GetValue(EnvAt(site), g, x, None).value;
            ExprDone(site, g, o, h, k, ReadVar(st, x), c, n, d)
  {
    match Find(g.scopes, x)
    case None => n, d := SimReadGlobal(site, g, x, k, st, c);
    case Some(l) => n, d := SimReadLocal(site, g, x, l, k, st, c);
  }

  // An array parameter: its slot holds the pointer, which is loaded and then advanced.
  lemma SimAliasAddr(site: Site, g: Gen, s: nat, i: Operand, j: int, rd: int, rs: nat, st: State, c: Config)
    returns (n: nat, d: Config)
    requires SiteOk(site) && Here(site, g, st, c)
    requires ReadMem(c, TPtr(|site.outer|, s, 0)) == Some(TPtr(rd, rs, 0))
    requires Ready(i, g.nextReg) && OpVal(c.cur, i) == TInt(j)
    requires var (o, g1) := EmitLoad(g, Slot(s)); Fits(site, Compute(g1, Gep(o, i)).1)
    ensures Moves(site.w.m, g.nextReg, c, n, d)
    ensures var (o, g1) := EmitLoad(g, Slot(s)); var (p, g2) := Compute(g1, Gep(o, i));
            Here(site, g2, st, d) && OpVal(d.cur, p) == TPtr(rd, rs, j)
    ensures d.frames == c.frames
  {
    hide Reaches, Endures;
    var (o, g1) := EmitLoad(g, Slot(s));
    ComputeExtends(g1, Gep(o, i));
    FitsBack(site, g1, Compute(g1, Gep(o, i)).1);
    var n1, d1 := SimLoad(site, g, Slot(s), TPtr(rd, rs, 0), st, c);
    KeepsReady(c.cur, d1.cur, g.nextReg, i);
    assert RhsVal(d1.cur, Gep(o, i)) == Some(TPtr(rd, rs, j));
    var n2, d2 := SimCompute(site, g1, Gep(o, i), TPtr(rd, rs, j), st, d1);
    MovesTrans(site.w.m, g.nextReg, c, n1, d1, g1.nextReg, n2, d2);
    n, d := n1 + n2, d2;
  }

  // Where an array name points, as the machine sees it.
  lemma ArrayFacts(site: Site, g: Gen, x: string, l: nat, st: State, c: Config)
    requires SiteOk(site) && Here(site, g, st, c)
    requires Find(g.scopes, x) == Some(l) && ArrayNamed(st, x).Some?
    ensures var r := ArrayNamed(st, x).value; var sh := Shapes(site, g.scopes); var info := g.scopes[l][x];
            && RefOk(sh, r)
            && if info.kind.KArray? then RefPtr(sh, r) == TPtr(|site.outer|, info.slot, 0)
               else ReadMem(c, TPtr(|site.outer|, info.slot, 0)) == Some(RefPtr(sh, r))
  {
    LocalFacts(site, g, st, c, x, l);
  }

  // The address of element `j` of the array that `x` stands for.
  lemma SimElemAddr(site: Site, g: Gen, x: string, l: nat, i: Operand, j: int, st: State, c: Config)
    returns (n: nat, d: Config)
    requires SiteOk(site) && Here(site, g, st, c)
    requires Find(g.scopes, x) == Some(l)
    requires ArrayNamed(st, x).Some?
    requires Ready(i, g.nextReg) && OpVal(c.cur, i) == TInt(j)
    requires Fits(site, ElemAddr(g, g.scopes[l][x], i).1)
    ensures Moves(site.w.m, g.nextReg, c, n, d)
    ensures Here(site, ElemAddr(g, g.scopes[l][x], i).1, st, d)
    ensures d.frames == c.frames
    ensures var r := ArrayNamed(st, x).value; var sh := Shapes(site, g.scopes);
            RefOk(sh, r) && OpVal(d.cur, ElemAddr(g, g.scopes[l][x], i).0) == TPtr(r.depth, RefPtr(sh, r).slot, j)
  {
    ArrayFacts(site, g, x, l, st, c);
    var info := g.scopes[l][x];
    if info.kind.KArray? {
      n, d := SimCompute(site, g, Gep(Slot(info.slot), i), TPtr(|site.outer|, info.slot, j), st, c);
    } else {
      var p := RefPtr(Shapes(site, g.scopes), ArrayNamed(st, x).value);
      n, d := SimAliasAddr(site, g, info.slot, i, j, p.depth, p.slot, st, c);
    }
  }

  // The cell an indexed name denotes, on both sides.
  lemma CellFacts(site: Site, g: Gen, x: string, l: nat, j: int, st: State, c: Config)
    requires SiteOk(site) && Here(site, g, st, c)
    requires Find(g.scopes, x) == Some(l) && ReadElem(st, x, VInt(j)).Ok?
    ensures ArrayNamed(st, x).Some?
    ensures var r := ArrayNamed(st, x).value; var sh := Shapes(site, g.scopes); var e := ReadElem(st, x, VInt(j));
            && RefOk(sh, r) && e.st == st && e.v.VInt?
            && ReadMem(c, TPtr(r.depth, RefPtr(sh, r).slot, j)) == Some(TInt(e.v.i))
  {
    ArrayFacts(site, g, x, l, st, c);
    MatchRef(Shapes(site, g.scopes), st, c.frames, ArrayNamed(st, x).value);
  }

  lemma SimReadCell(site: Site, g: Gen, x: string, l: nat, i: Operand, j: int, st: State, c: Config)
    returns (n: nat, d: Config)
    requires SiteOk(site) && Here(site, g, st, c)
    requires Find(g.scopes, x) == Some(l) && ReadElem(st, x, VInt(j)).Ok?
    requires Ready(i, g.nextReg) && OpVal(c.cur, i) == TInt(j)
    requires Fits(site, GetLocal(g, g.scopes[l][x], Some(i)).1)
    ensures var (o, h) := GetLocal(g, g.scopes[l][x], Some(i));
            && Moves(site.w.m, g.nextReg, c, n, d)
            && Here(site, h, st, d)
            && ReadElem(st, x, VInt(j)).v == VInt(ReadElem(st, x, VInt(j)).v.i)
            && OpVal(d.cur, o) == TInt(ReadElem(st, x, VInt(j)).v.i)
  {
    hide Reaches, Endures;
    var info := g.scopes[l][x];
    var (p, g1) := ElemAddr(g, info, i);
    LoadExtends(g1, p);
    FitsBack(site, g1, EmitLoad(g1, p).1);
    CellFacts(site, g, x, l, j, st, c);
    ElemAddrExtends(g, info, i);
    var n1, d1 := SimElemAddr(site, g, x, l, i, j, st, c);
    var v := TInt(ReadElem(st, x, VInt(j)).v.i);
    assert ReadMem(d1, OpVal(d1.cur, p)) == Some(v);
    var n2, d2 := SimLoad(site, g1, p, v, st, d1);
    MovesTrans(site.w.m, g.nextReg, c, n1, d1, g1.nextReg, n2, d2);
    n, d := n1 + n2, d2;
  }

  // The address of a cell the array does not have.
  lemma SimOutside(site: Site, g: Gen, x: string, l: nat, i: Operand, j: int, st: State, c: Config)
    returns (n: nat, d: Config)
    requires SiteOk(site) && Here(site, g, st, c)
    requires Find(g.scopes, x) == Some(l) && ReadElem(st, x, VInt(j)) == Fail(Trap)
    requires Ready(i, g.nextReg) && OpVal(c.cur, i) == TInt(j)
    requires Fits(site, ElemAddr(g, g.scopes[l][x], i).1)
    ensures Moves(site.w.m, g.nextReg, c, n, d)
    ensures Here(site, ElemAddr(g, g.scopes[l][x], i).1, st, d)
    ensures OpVal(d.cur, ElemAddr(g, g.scopes[l][x], i).0).TPtr?
    ensures ReadMem(d, OpVal(d.cur, ElemAddr(g, g.scopes[l][x], i).0)) == None
  {
    hide Reaches, Endures;
    ArrayFacts(site, g, x, l, st, c);
    MatchRef(Shapes(site, g.scopes), st, c.frames, ArrayNamed(st, x).value);
    n, d := SimElemAddr(site, g, x, l, i, j, st, c);
  }

  lemma SimReadOutside(site: Site, g: Gen, x: string, l: nat, i: Operand, j: int, st: State, c: Config)
    returns (n: nat, d: Config)
    requires SiteOk(site) && Here(site, g, st, c)
    requires Find(g.scopes, x) == Some(l) && ReadElem(st, x, VInt(j)) == Fail(Trap)
    requires Ready(i, g.nextReg) && OpVal(c.cur, i) == TInt(j)
    requires Fits(site, GetLocal(g, g.scopes[l][x], Some(i)).1)
    ensures Reaches(site.w.m, c, n, d) && Stuck(site.w.m, d)
  {
    hide Reaches, Endures;
    var (p, g1) := ElemAddr(g, g.scopes[l][x], i);
    LoadExtends(g1, p);
    FitsBack(site, g1, EmitLoad(g1, p).1);
    n, d := SimOutside(site, g, x, l, i, j, st, c);
    StuckLoad(site, g1, p, st, d);
  }

  lemma SimReadElem(site: Site, g: Gen, x: string, i: Operand, vi: Val, k: nat, st: State, c: Config)
    returns (n: nat, d: Config)
    requires SiteOk(site) && Here(site, g, st, c) && GlobalsKnown(site)
    requires Ready(i, g.nextReg) && ValOk(Shapes(site, g.scopes), vi, OpVal(c.cur, i))
    requires GetValue(EnvAt(site), g, x, Some(i)).Some? && Fits(site, GetValue(EnvAt(site), g, x, Some(i)).value.1)
    ensures var (o, h) := GetValue(EnvAt(site), g, x, Some(i)).value;
            ExprDone(site, g, o, h, k, ReadElem(st, x, vi), c, n, d)
  {
    n, d := 0, c;
    match Find(g.scopes, x)
    case None => GlobalFacts(site, g, st, c, x);
    case Some(l) =>
      LocalFacts(site, g, st, c, x, l);
      if ReadElem(st, x, vi).Ok? {
        CellFacts(site, g, x, l, vi.i, st, c);
        n, d := SimReadCell(site, g, x, l, i, vi.i, st, c);
      } else if ReadElem(st, x, vi).why == Trap {
        n, d := SimReadOutside(site, g, x, l, i, vi.i, st, c);
      }
  }

  // ----- writes -----

  lemma SimPut(site: Site, g: Gen, r: Ref, j: nat, v: int, o: Operand, p: Operand, st: State, c: Config)
    returns (n: nat, d: Config)
    requires SiteOk(site) && Here(site, g, st, c) && Fits(site, Emit(g, Store(o, p)))
    requires ValidRef(st, r)
    requires var cell := At(st, r).cell; (cell.Scalar? && j == 0) || (cell.Array? && j < |cell.es|)
    requires OpVal(c.cur, o) == TInt(v)
    requires var sh := Shapes(site, g.scopes);
             && r.depth < |sh| && r.layer < |sh[r.depth].scopes| && r.name in sh[r.depth].scopes[r.layer]
             && OpVal(c.cur, p) == TPtr(r.depth, sh[r.depth].scopes[r.layer][r.name].slot, j)
    ensures Moves(site.w.m, g.nextReg, c, n, d)
    ensures Here(site, Emit(g, Store(o, p)), Put(st, r, WithCell(At(st, r), j, v)), d)
  {
    PutMatch(Shapes(site, g.scopes), st, c.frames, r, j, v);
    n, d := SimStore(site, g, o, p, st, Put(st, r, WithCell(At(st, r), j, v)), c);
  }

  lemma SimWriteGlobal(site: Site, g: Gen, x: string, o: Operand, v: int, st: State, c: Config)
    returns (n: nat, d: Config)
    requires SiteOk(site) && Here(site, g, st, c) && x in st.globals
    requires Ready(o, g.nextReg) && OpVal(c.cur, o) == TInt(v)
    requires Fits(site, Emit(EmitLoad(g, Glob(x)).1, Store(o, Glob(x))))
    ensures Moves(site.w.m, g.nextReg, c, n, d)
    ensures Here(site, Emit(EmitLoad(g, Glob(x)).1, Store(o, Glob(x))), st.(globals := st.globals[x := v]), d)
  {
    var g1 := EmitLoad(g, Glob(x)).1;
    EmitExtends(g1, Store(o, Glob(x)));
    FitsBack(site, g1, Emit(g1, Store(o, Glob(x))));
    var n1, d1 := SimLoad(site, g, Glob(x), TInt(c.globals[x]), st, c);
    KeepsReady(c.cur, d1.cur, g.nextReg, o);
    var n2, d2 := SimStore(site, g1, o, Glob(x), st, st.(globals := st.globals[x := v]), d1);
    MovesTrans(site.w.m, g.nextReg, c, n1, d1, g1.nextReg, n2, d2);
    n, d := n1 + n2, d2;
  }

  // An accepted assignment never meets an undeclared name or a constant.
  lemma SimWriteVar(site: Site, g: Gen, x: string, o: Operand, v: Val, st: State, c: Config)
    returns (n: nat, d: Config)
    requires SiteOk(site) && Here(site, g, st, c) && GlobalsKnown(site)
    requires Ready(o, g.nextReg) && ValOk(Shapes(site, g.scopes), v, OpVal(c.cur, o))
    requires SetValue(EnvAt(site), g, x, o, None).Some? && Fits(site, SetValue(EnvAt(site), g, x, o, None).value)
    ensures StoreDone(site, g, SetValue(EnvAt(site), g, x, o, None).value, WriteVar(st, x, v), c, n, d)
  {
    n, d := 0, c;
    match Find(g.scopes, x)
    case None =>
      GlobalFacts(site, g, st, c, x);
      if v.VInt? {
        n, d := SimWriteGlobal(site, g, x, o, v.i, st, c);
      }
    case Some(l) =>
      LocalFacts(site, g, st, c, x, l);
      if WriteVar(st, x, v).Normal? {
        n, d := SimPut(site, g, RefTo(st, x), 0, v.i, o, Slot(g.scopes[l][x].slot), st, c);
      }
  }

  // The source cell an assignment to an element writes.
  lemma WriteFacts(site: Site, g: Gen, x: string, l: nat, j: int, v: int, st: State, c: Config)
    requires SiteOk(site) && Here(site, g, st, c)
    requires Find(g.scopes, x) == Some(l) && WriteElem(st, x, VInt(j), VInt(v)).Normal?
    ensures ArrayNamed(st, x).Some?
    ensures var r := ArrayNamed(st, x).value;
            && RefOk(Shapes(site, g.scopes), r) && ValidRef(st, r)
            && At(st, r).cell.Array? && 0 <= j < |At(st, r).cell.es|
            && WriteElem(st, x, VInt(j), VInt(v)) == Normal(Put(st, r, WithCell(At(st, r), j, v)))
  {
    ArrayFacts(site, g, x, l, st, c);
  }

  lemma SimWriteCell(site: Site, g: Gen, x: string, l: nat, i: Operand, j: int, o: Operand, v: int, st: State,
          c: Config)
    returns (n: nat, d: Config)
    requires SiteOk(site) && Here(site, g, st, c)
    requires Find(g.scopes, x) == Some(l) && WriteElem(st, x, VInt(j), VInt(v)).Normal?
    requires Ready(o, g.nextReg) && OpVal(c.cur, o) == TInt(v)
    requires Ready(i, g.nextReg) && OpVal(c.cur, i) == TInt(j)
    requires Fits(site, SetLocal(g, g.scopes[l][x], o, Some(i)))
    ensures Moves(site.w.m, g.nextReg, c, n, d)
    ensures Here(site, SetLocal(g, g.scopes[l][x], o, Some(i)), WriteElem(st, x, VInt(j), VInt(v)).st, d)
  {
    hide Reaches, Endures;
    var info := g.scopes[l][x];
    var (p, g1) := ElemAddr(g, info, i);
    EmitExtends(g1, Store(o, p));
    FitsBack(site, g1, Emit(g1, Store(o, p)));
    ElemAddrExtends(g, info, i);
    WriteFacts(site, g, x, l, j, v, st, c);
    var r := ArrayNamed(st, x).value;
    var n1, d1 := SimElemAddr(site, g, x, l, i, j, st, c);
    KeepsReady(c.cur, d1.cur, g.nextReg, o);
    var n2, d2 := SimPut(site, g1, r, j, v, o, p, st, d1);
    MovesTrans(site.w.m, g.nextReg, c, n1, d1, g1.nextReg, n2, d2);
    n, d := n1 + n2, d2;
  }

  lemma SimWriteOutside(site: Site, g: Gen, x: string, l: nat, i: Operand, j: int, o: Operand, v: int, st: State,
          c: Config)
    returns (n: nat, d: Config)
    requires SiteOk(site) && Here(site, g, st, c)
    requires Find(g.scopes, x) == Some(l) && WriteElem(st, x, VInt(j), VInt(v)) == Failed(Trap)
    requires Ready(i, g.nextReg) && OpVal(c.cur, i) == TInt(j)
    requires Fits(site, SetLocal(g, g.scopes[l][x], o, Some(i)))
    ensures Reaches(site.w.m, c, n, d) && Stuck(site.w.m, d)
  {
    hide Reaches, Endures;
    var (p, g1) := ElemAddr(g, g.scopes[l][x], i);
    EmitExtends(g1, Store(o, p));
    FitsBack(site, g1, Emit(g1, Store(o, p)));
    n, d := SimOutside(site, g, x, l, i, j, st, c);
    StuckStore(site, g1, o, p, st, d);
  }

  lemma SimWriteElem(site: Site, g: Gen, x: string, i: Operand, vi: Val, o: Operand, v: Val, st: State, c: Config)
    returns (n: nat, d: Config)
    requires SiteOk(site) && Here(site, g, st, c) && GlobalsKnown(site)
    requires Ready(o, g.nextReg) && ValOk(Shapes(site, g.scopes), v, OpVal(c.cur, o))
    requires Ready(i, g.nextReg) && ValOk(Shapes(site, g.scopes), vi, OpVal(c.cur, i))
    requires SetValue(EnvAt(site), g, x, o, Some(i)).Some? && Fits(site, SetValue(EnvAt(site), g, x, o, Some(i)).value)
    ensures StoreDone(site, g, SetValue(EnvAt(site), g, x, o, Some(i)).value, WriteElem(st, x, vi, v), c, n, d)
  {
    n, d := 0, c;
    match Find(g.scopes, x)
    case None => GlobalFacts(site, g, st, c, x);
    case Some(l) =>
      LocalFacts(site, g, st, c, x, l);
      if WriteElem(st, x, vi, v).Normal? {
        n, d := SimWriteCell(site, g, x, l, i, vi.i, o, v.i, st, c);
      } else if WriteElem(st, x, vi, v).why == Trap {
        n, d := SimWriteOutside(site, g, x, l, i, vi.i, o, v.i, st, c);
      }
  }
}
