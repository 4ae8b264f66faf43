// When a source state and a machine state agree. The compile-time scopes of every active
// call say which slot each visible name lives in; a slot that no visible name owns may hold
// anything. This is what makes one hoisted slot per declaration stand for a fresh variable
// per block entry.
module Matching {
  import opened Scopes
  import opened Source
  import opened Target
  import opened Lowering

  // The scopes of one active call at the point it has reached, and its function's slot table.
  datatype Shape = Shape(scopes: Layers, slots: seq<Kind>)

  ghost predicate RefOk(sh: seq<Shape>, r: Ref) {
    && r.depth < |sh|
    && r.layer < |sh[r.depth].scopes|
    && r.name in sh[r.depth].scopes[r.layer]
    && sh[r.depth].scopes[r.layer][r.name].kind.KArray?
  }

  ghost function RefPtr(sh: seq<Shape>, r: Ref): TVal
    requires RefOk(sh, r)
  {
    TPtr(r.depth, sh[r.depth].scopes[r.layer][r.name].slot, 0)
  }

  ghost predicate ValOk(sh: seq<Shape>, v: Val, t: TVal) {
    match v
    case VInt(i) => t == TInt(i)
    case VRef(r) => RefOk(sh, r) && t == RefPtr(sh, r)
    case VVoid => t == TUndef
  }

  ghost predicate CellsOk(sh: seq<Shape>, d: nat, kind: Kind, cell: Cell, cells: seq<TVal>) {
    match cell
    case Scalar(v) => kind == KScalar && cells == [TInt(v)]
    case Array(es) => kind == KArray(|es|) && |cells| == |es| && forall i | 0 <= i < |es| :: cells[i] == TInt(es[i])
    case Alias(r) => kind == KPtr && r.depth < d && RefOk(sh, r) && cells == [RefPtr(sh, r)]
  }

  ghost predicate BindOk(sh: seq<Shape>, d: nat, info: VarInfo, b: Binding, tf: Frame) {
    && b.isConst == info.isConst
    && info.slot < |tf|
    && CellsOk(sh, d, info.kind, b.cell, tf[info.slot])
  }

  // Every name has its own slot, of the kind the table records.
  ghost predicate ScopesOk(scopes: Layers, slots: seq<Kind>) {
    && (forall l, x | 0 <= l < |scopes| && x in scopes[l] ::
          scopes[l][x].slot < |slots| && slots[scopes[l][x].slot] == scopes[l][x].kind)
    && (forall l, x, m, y {:trigger scopes[l][x].slot, scopes[m][y].slot} |
                            0 <= l < |scopes| && x in scopes[l] && 0 <= m < |scopes| && y in scopes[m]
                            && scopes[l][x].slot == scopes[m][y].slot :: l == m && x == y)
  }

  ghost predicate FrameShaped(slots: seq<Kind>, tf: Frame) {
    |tf| == |slots| && forall s | 0 <= s < |tf| :: |tf[s]| == Cells(slots[s])
  }

  ghost predicate FrameOk(sh: seq<Shape>, d: nat, sf: seq<Layer>, tf: Frame)
    requires d < |sh|
  {
    && FrameShaped(sh[d].slots, tf)
    && ScopesOk(sh[d].scopes, sh[d].slots)
    && |sf| == |sh[d].scopes|
    && (forall l | 0 <= l < |sf| :: sf[l].Keys == sh[d].scopes[l].Keys)
    && (forall l, x {:trigger BindOk(sh, d, sh[d].scopes[l][x], sf[l][x], tf)} |
          0 <= l < |sf| && x in sf[l] && x in sh[d].scopes[l] ::
          BindOk(sh, d, sh[d].scopes[l][x], sf[l][x], tf))
  }

  ghost predicate Match(sh: seq<Shape>, st: State, frames: seq<Frame>) {
    && |st.frames| == |sh| == |frames|
    && forall d {:trigger FrameOk(sh, d, st.frames[d], frames[d])} | 0 <= d < |sh| ::
         FrameOk(sh, d, st.frames[d], frames[d])
  }

  // ----- reading -----

  lemma MatchAt(sh: seq<Shape>, st: State, frames: seq<Frame>, r: Ref)
    requires Match(sh, st, frames)
    requires r.depth < |sh| && r.layer < |sh[r.depth].scopes| && r.name in sh[r.depth].scopes[r.layer]
    ensures ValidRef(st, r)
    ensures BindOk(sh, r.depth, sh[r.depth].scopes[r.layer][r.name], At(st, r), frames[r.depth])
  {
    assert FrameOk(sh, r.depth, st.frames[r.depth], frames[r.depth]);
  }

  // A reference always names an array, and the machine's pointer reaches the same cells and no others.
  lemma MatchRef(sh: seq<Shape>, st: State, frames: seq<Frame>, r: Ref)
    requires Match(sh, st, frames) && RefOk(sh, r)
    ensures ValidRef(st, r) && At(st, r).cell.Array?
    ensures var es, p := At(st, r).cell.es, RefPtr(sh, r);
            && (forall k | 0 <= k < |es| ::
                  InFrames(frames, p.depth, p.slot, k) && frames[p.depth][p.slot][k] == TInt(es[k]))
            && (forall k | InFrames(frames, p.depth, p.slot, k) :: 0 <= k < |es|)
  {
    MatchAt(sh, st, frames, r);
  }

  lemma MatchFind(sh: seq<Shape>, st: State, frames: seq<Frame>, x: string)
    requires Match(sh, st, frames) && sh != []
    ensures Find(TopFrame(st), x) == Find(sh[|sh| - 1].scopes, x)
  {
    var d := |sh| - 1;
    assert FrameOk(sh, d, st.frames[d], frames[d]);
    FindSameNames(st.frames[d], sh[d].scopes, x);
  }

  // ----- writing one cell -----

  function WithCell(b: Binding, k: nat, n: int): Binding {
    match b.cell
    case Scalar(_) => b.(cell := Scalar(n))
    case Array(es) => if k < |es| then b.(cell := Array(es[k := n])) else b
    case Alias(_) => b
  }

  lemma PutFrame(sh: seq<Shape>, d: nat, sf: seq<Layer>, tf: Frame, l: nat, x: string, k: nat, n: int)
    requires d < |sh| && FrameOk(sh, d, sf, tf)
    requires l < |sf| && x in sf[l]
    requires (sf[l][x].cell.Scalar? && k == 0) || (sf[l][x].cell.Array? && k < |sf[l][x].cell.es|)
    ensures x in sh[d].scopes[l] && sh[d].scopes[l][x].slot < |tf| && k < |tf[sh[d].scopes[l][x].slot]|
    ensures var s := sh[d].scopes[l][x].slot;
            FrameOk(sh, d, sf[l := sf[l][x := WithCell(sf[l][x], k, n)]], tf[s := tf[s][k := TInt(n)]])
  {
    var scopes := sh[d].scopes;
    assert sf[l].Keys == scopes[l].Keys;
    assert BindOk(sh, d, scopes[l][x], sf[l][x], tf);
    var s := scopes[l][x].slot;
    var sf' := sf[l := sf[l][x := WithCell(sf[l][x], k, n)]];
    var tf' := tf[s := tf[s][k := TInt(n)]];
    forall m, y | 0 <= m < |sf'| && y in sf'[m] && y in scopes[m]
      ensures BindOk(sh, d, scopes[m][y], sf'[m][y], tf')
    {
      assert BindOk(sh, d, scopes[m][y], sf[m][y], tf);
      if scopes[m][y].slot == s {
        assert m == l && y == x;
      }
    }
  }

  lemma PutMatch(sh: seq<Shape>, st: State, frames: seq<Frame>, r: Ref, k: nat, n: int)
    requires Match(sh, st, frames) && ValidRef(st, r)
    requires var cell := At(st, r).cell; (cell.Scalar? && k == 0) || (cell.Array? && k < |cell.es|)
    ensures r.layer < |sh[r.depth].scopes| && r.name in sh[r.depth].scopes[r.layer]
    ensures var s := sh[r.depth].scopes[r.layer][r.name].slot;
            InFrames(frames, r.depth, s, k)
            && Match(sh, Put(st, r, WithCell(At(st, r), k, n)), SetCell(frames, r.depth, s, k, TInt(n)))
  {
    var d := r.depth;
    assert FrameOk(sh, d, st.frames[d], frames[d]);
    PutFrame(sh, d, st.frames[d], frames[d], r.layer, r.name, k, n);
    forall e | 0 <= e < |sh| && e != d
      ensures FrameOk(sh, e, st.frames[e], frames[e])
    {
    }
  }

  // ----- layers -----

  // Only the scopes of the top frame differ between `sh` and `sh'`.
  ghost predicate SameExceptTop(sh: seq<Shape>, sh': seq<Shape>) {
    |sh| == |sh'| > 0 && sh[..|sh| - 1] == sh'[..|sh| - 1] && sh[|sh| - 1].slots == sh'[|sh| - 1].slots
  }

  lemma CellsStable(sh: seq<Shape>, sh': seq<Shape>, d: nat, kind: Kind, cell: Cell, cells: seq<TVal>)
    requires d <= |sh| && d <= |sh'| && sh[..d] == sh'[..d]
    requires CellsOk(sh, d, kind, cell, cells)
    ensures CellsOk(sh', d, kind, cell, cells)
  {
    if cell.Alias? {
      assert sh[..d][cell.r.depth] == sh'[..d][cell.r.depth];
    }
  }

  lemma FrameStable(sh: seq<Shape>, sh': seq<Shape>, d: nat, sf: seq<Layer>, tf: Frame)
    requires d < |sh| && d < |sh'| && sh[..d] == sh'[..d] && sh[d] == sh'[d]
    requires FrameOk(sh, d, sf, tf)
    ensures FrameOk(sh', d, sf, tf)
  {
    forall l, x | 0 <= l < |sf| && x in sf[l] && x in sh[d].scopes[l]
      ensures BindOk(sh', d, sh[d].scopes[l][x], sf[l][x], tf)
    {
      assert BindOk(sh, d, sh[d].scopes[l][x], sf[l][x], tf);
      CellsStable(sh, sh', d, sh[d].scopes[l][x].kind, sf[l][x].cell, tf[sh[d].scopes[l][x].slot]);
    }
  }

  lemma BelowStable(sh: seq<Shape>, sh': seq<Shape>, st: State, frames: seq<Frame>, d: nat)
    requires Match(sh, st, frames)
    requires d < |sh'| && d < |sh| && sh[..d + 1] == sh'[..d + 1]
    ensures FrameOk(sh', d, st.frames[d], frames[d])
  {
    assert sh[..d] == sh[..d + 1][..d] == sh'[..d];
    assert sh[d] == sh[..d + 1][d] == sh'[d];
    FrameStable(sh, sh', d, st.frames[d], frames[d]);
  }

  // The top frame of `sh'` is what has to be shown when a step changes only the top of the stack.
  lemma TopMatch(sh: seq<Shape>, sh': seq<Shape>, st: State, st': State, frames: seq<Frame>, frames': seq<Frame>)
    requires Match(sh, st, frames) && SameExceptTop(sh, sh')
    requires |st'.frames| == |st.frames| && st'.frames[..|sh| - 1] == st.frames[..|sh| - 1]
    requires |frames'| == |frames| && frames'[..|sh| - 1] == frames[..|sh| - 1]
    requires FrameOk(sh', |sh| - 1, st'.frames[|sh| - 1], frames'[|sh| - 1])
    ensures Match(sh', st', frames')
  {
    var t := |sh| - 1;
    forall d | 0 <= d < t
      ensures FrameOk(sh', d, st'.frames[d], frames'[d])
    {
      assert sh[..d + 1] == sh[..t][..d + 1] == sh'[..t][..d + 1] == sh'[..d + 1];
      BelowStable(sh, sh', st, frames, d);
      assert st'.frames[d] == st'.frames[..t][d] == st.frames[d];
      assert frames'[d] == frames'[..t][d] == frames[d];
    }
  }

  ghost function Retop(sh: seq<Shape>, scopes: Layers): seq<Shape>
    requires sh != []
  {
    sh[..|sh| - 1] + [Shape(scopes, sh[|sh| - 1].slots)]
  }

  lemma RetopTop(sh: seq<Shape>, scopes: Layers)
    requires sh != []
    ensures SameExceptTop(sh, Retop(sh, scopes))
    ensures Retop(sh, scopes)[|sh| - 1] == Shape(scopes, sh[|sh| - 1].slots)
    ensures Retop(sh, scopes)[..|sh| - 1] == sh[..|sh| - 1]
  {
  }

  lemma BindStable(sh: seq<Shape>, sh': seq<Shape>, d: nat, info: VarInfo, b: Binding, tf: Frame)
    requires d <= |sh| && d <= |sh'| && sh[..d] == sh'[..d] && BindOk(sh, d, info, b, tf)
    ensures BindOk(sh', d, info, b, tf)
  {
    CellsStable(sh, sh', d, info.kind, b.cell, tf[info.slot]);
  }

  lemma PushScopesOk(scopes: Layers, slots: seq<Kind>)
    requires ScopesOk(scopes, slots)
    ensures ScopesOk(scopes + [map[]], slots)
  {
  }

  lemma PushFrameOk(sh: seq<Shape>, sh': seq<Shape>, d: nat, sf: seq<Layer>, tf: Frame)
    requires d < |sh| && d < |sh'| && sh[..d] == sh'[..d] && FrameOk(sh, d, sf, tf)
    requires sh'[d] == Shape(sh[d].scopes + [map[]], sh[d].slots)
    ensures FrameOk(sh', d, sf + [map[]], tf)
  {
    hide BindOk;
    PushScopesOk(sh[d].scopes, sh[d].slots);
    var sf', scopes' := sf + [map[]], sh'[d].scopes;
    forall l, x | 0 <= l < |sf'| && x in sf'[l] && x in scopes'[l]
      ensures BindOk(sh', d, scopes'[l][x], sf'[l][x], tf)
    {
      assert BindOk(sh, d, sh[d].scopes[l][x], sf[l][x], tf);
      BindStable(sh, sh', d, sh[d].scopes[l][x], sf[l][x], tf);
    }
  }

  lemma PushMatch(sh: seq<Shape>, st: State, frames: seq<Frame>)
    requires sh != [] && Match(sh, st, frames)
    ensures st.frames != []
    ensures Match(Retop(sh, sh[|sh| - 1].scopes + [map[]]), PushLayer(st), frames)
  {
    hide FrameOk, Retop;
    var d := |sh| - 1;
    var scopes := sh[d].scopes + [map[]];
    var sh' := Retop(sh, scopes);
    RetopTop(sh, scopes);
    assert FrameOk(sh, d, st.frames[d], frames[d]);
    PushFrameOk(sh, sh', d, st.frames[d], frames[d]);
    TopMatch(sh, sh', st, PushLayer(st), frames, frames);
  }

  lemma PopFrameOk(sh: seq<Shape>, sh': seq<Shape>, d: nat, sf: seq<Layer>, tf: Frame)
    requires d < |sh| && d < |sh'| && sh[..d] == sh'[..d] && FrameOk(sh, d, sf, tf)
    requires sh[d].scopes != [] && sh'[d] == Shape(sh[d].scopes[..|sh[d].scopes| - 1], sh[d].slots)
    ensures FrameOk(sh', d, sf[..|sf| - 1], tf)
  {
    hide BindOk;
    var sf', scopes' := sf[..|sf| - 1], sh'[d].scopes;
    forall l, x | 0 <= l < |sf'| && x in sf'[l] && x in scopes'[l]
      ensures BindOk(sh', d, scopes'[l][x], sf'[l][x], tf)
    {
      assert BindOk(sh, d, sh[d].scopes[l][x], sf[l][x], tf);
      BindStable(sh, sh', d, sh[d].scopes[l][x], sf[l][x], tf);
    }
  }

  lemma PopMatch(sh: seq<Shape>, st: State, frames: seq<Frame>)
    requires sh != [] && sh[|sh| - 1].scopes != [] && Match(sh, st, frames)
    ensures Match(Retop(sh, sh[|sh| - 1].scopes[..|sh[|sh| - 1].scopes| - 1]), PopLayer(st), frames)
  {
    var d := |sh| - 1;
    var scopes := sh[d].scopes[..|sh[d].scopes| - 1];
    var sh' := Retop(sh, scopes);
    assert FrameOk(sh, d, st.frames[d], frames[d]);
    assert |st.frames[d]| == |sh[d].scopes|;
    hide FrameOk, Retop;
    RetopTop(sh, scopes);
    PopFrameOk(sh, sh', d, st.frames[d], frames[d]);
    TopMatch(sh, sh', st, PopLayer(st), frames, frames);
  }

  // ----- declaring -----

  ghost predicate SlotsBelow(scopes: Layers, n: nat) {
    forall l, x | 0 <= l < |scopes| && x in scopes[l] :: scopes[l][x].slot < n
  }

  // Storing the initial value into the slot of a name that is not in scope disturbs no visible
  // variable, whatever the slot held before: the slot may be an earlier incarnation of the same name.
  lemma FreeSlot(sh: seq<Shape>, st: State, frames: seq<Frame>, s: nat, cells: seq<TVal>)
    requires sh != [] && Match(sh, st, frames)
    requires SlotsBelow(sh[|sh| - 1].scopes, s) && s < |sh[|sh| - 1].slots| && s < |frames[|sh| - 1]|
    requires |cells| == Cells(sh[|sh| - 1].slots[s])
    ensures Match(sh, st, frames[|sh| - 1 := frames[|sh| - 1][s := cells]])
  {
    var d := |sh| - 1;
    var tf := frames[d][s := cells];
    assert FrameOk(sh, d, st.frames[d], frames[d]);
    forall l, x | 0 <= l < |st.frames[d]| && x in st.frames[d][l] && x in sh[d].scopes[l]
      ensures BindOk(sh, d, sh[d].scopes[l][x], st.frames[d][l][x], tf)
    {
      assert BindOk(sh, d, sh[d].scopes[l][x], st.frames[d][l][x], frames[d]);
    }
    TopMatch(sh, sh, st, st, frames, frames[d := tf]);
  }

  lemma DeclareMatch(sh: seq<Shape>, st: State, frames: seq<Frame>, x: string, b: Binding, info: VarInfo)
    requires sh != [] && Match(sh, st, frames) && sh[|sh| - 1].scopes != []
    requires SlotsBelow(sh[|sh| - 1].scopes, info.slot)
    requires info.slot < |sh[|sh| - 1].slots| && sh[|sh| - 1].slots[info.slot] == info.kind
    requires BindOk(sh, |sh| - 1, info, b, frames[|sh| - 1])
    requires x !in sh[|sh| - 1].scopes[|sh[|sh| - 1].scopes| - 1]
    ensures Declare(st, x, b).Normal?
    ensures var scopes := sh[|sh| - 1].scopes; var l := |scopes| - 1;
            Match(Retop(sh, scopes[l := scopes[l][x := info]]), Declare(st, x, b).st, frames)
  {
    hide BindOk, SlotsBelow, ScopesOk, FrameShaped;
    var d := |sh| - 1;
    var n := |sh[d].scopes| - 1;
    var scopes := sh[d].scopes[n := sh[d].scopes[n][x := info]];
    var sh' := Retop(sh, scopes);
    assert FrameOk(sh, d, st.frames[d], frames[d]);
    assert st.frames[d][n].Keys == sh[d].scopes[n].Keys;
    assert |st.frames[d]| == n + 1;
    Declared(st, x, b);
    hide FrameOk, Retop, Declare;
    RetopTop(sh, scopes);
    DeclareFrameOk(sh, sh', d, st.frames[d], frames[d], x, b, info);
    TopMatch(sh, sh', st, Declare(st, x, b).st, frames, frames);
  }

  lemma Declared(st: State, x: string, b: Binding)
    requires st.frames != [] && TopFrame(st) != [] && x !in TopFrame(st)[|TopFrame(st)| - 1]
    ensures var d, n := |st.frames| - 1, |TopFrame(st)| - 1; var sf := TopFrame(st);
      Declare(st, x, b) == Normal(st.(frames := st.frames[d := sf[n := sf[n][x := b]]]))
  {
  }

  lemma DeclareFrameOk(sh: seq<Shape>, sh': seq<Shape>, d: nat, sf: seq<Layer>, tf: Frame, x: string, b: Binding,
          info: VarInfo)
    requires d < |sh| && d < |sh'| && sh[..d] == sh'[..d] && FrameOk(sh, d, sf, tf) && sh[d].scopes != []
    requires SlotsBelow(sh[d].scopes, info.slot) && info.slot < |sh[d].slots| && sh[d].slots[info.slot] == info.kind
    requires BindOk(sh, d, info, b, tf) && x !in sh[d].scopes[|sf| - 1]
    requires sh'[d] == Shape(sh[d].scopes[|sf| - 1 := sh[d].scopes[|sf| - 1][x := info]], sh[d].slots)
    ensures FrameOk(sh', d, sf[|sf| - 1 := sf[|sf| - 1][x := b]], tf)
  {
    hide BindOk;
    var n := |sf| - 1;
    var sf', scopes' := sf[n := sf[n][x := b]], sh'[d].scopes;
    BindScopesOk(sh[d].scopes, sh[d].slots, x, info);
    BindStable(sh, sh', d, info, b, tf);
    forall l, y | 0 <= l < |sf'| && y in sf'[l] && y in scopes'[l]
      ensures BindOk(sh', d, scopes'[l][y], sf'[l][y], tf)
    {
      if l != n || y != x {
        assert BindOk(sh, d, sh[d].scopes[l][y], sf[l][y], tf);
        BindStable(sh, sh', d, sh[d].scopes[l][y], sf[l][y], tf);
      }
    }
    forall l | 0 <= l < |sf'|
      ensures sf'[l].Keys == scopes'[l].Keys
    {
      assert sf[l].Keys == sh[d].scopes[l].Keys;
    }
  }

  lemma BindScopesOk(scopes: Layers, slots: seq<Kind>, x: string, info: VarInfo)
    requires scopes != [] && ScopesOk(scopes, slots) && SlotsBelow(scopes, info.slot)
    requires info.slot < |slots| && slots[info.slot] == info.kind
    requires x !in scopes[|scopes| - 1]
    ensures ScopesOk(scopes[|scopes| - 1 := scopes[|scopes| - 1][x := info]], slots)
  {
  }

  // ----- calls -----

  lemma EnterMatch(sh: seq<Shape>, st: State, frames: seq<Frame>, slots: seq<Kind>)
    requires Match(sh, st, frames)
    ensures Match(sh + [Shape([map[]], slots)], st.(frames := st.frames + [[map[]]]), frames + [NewFrame(slots)])
  {
    var sh' := sh + [Shape([map[]], slots)];
    forall d | 0 <= d < |sh|
      ensures FrameOk(sh', d, st.frames[d], frames[d])
    {
      assert sh'[..d + 1] == sh[..d + 1];
      BelowStable(sh, sh', st, frames, d);
    }
  }

  lemma LeaveMatch(sh: seq<Shape>, top: Shape, st: State, frames: seq<Frame>)
    requires Match(sh + [top], st, frames)
    ensures Match(sh, PopFrame(st), frames[..|frames| - 1])
  {
    var sh' := sh + [top];
    forall d | 0 <= d < |sh|
      ensures FrameOk(sh, d, st.frames[d], frames[d])
    {
      assert sh'[..d + 1] == sh[..d + 1];
      BelowStable(sh', sh, st, frames, d);
    }
  }
}
