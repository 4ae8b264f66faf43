// The builder's statement record: one class with a field for everything any alternative may
// need, which code generation has to take apart again by testing fields in a fixed order.
module AstBuilder {
  import opened Wrappers
  import Ast

  datatype StmtNode = StmtNode(
    isRet: bool, isContinue: bool, isBreak: bool,
    lVal: string, subIdx: Option<Ast.Expr>, expr: Option<Ast.Expr>,
    block: Option<BlockNode>, ifStmt: Option<StmtNode>, elseStmt: Option<StmtNode>, whileStmt: Option<StmtNode>)

  datatype BlockNode = BlockNode(items: seq<ItemNode>)

  datatype ItemNode = DeclNode(isConst: bool, defs: seq<Ast.Def>) | StmtItem(s: StmtNode)

  datatype FuncNode = FuncNode(name: string, params: seq<Ast.Param>, block: BlockNode)

  datatype GlobalNode = GlobalNode(isConst: bool, defs: seq<Ast.Def>)

  // A program node holds everything before its own declaration or function.
  datatype ProgNode = ProgNode(prog: Option<ProgNode>, decl: Option<GlobalNode>, func: Option<FuncNode>)

  const BLANK: StmtNode := StmtNode(false, false, false, "", None, None, None, None, None, None)

  // ----- building -----

  function StmtOf(s: Ast.Stmt): StmtNode
    decreases s, 1
  {
    match s
    case Return(e) => BLANK.(isRet := true, expr := e)
    case Assign(x, idx, e) => BLANK.(lVal := x, subIdx := idx, expr := Some(e))
    case Eval(e) => BLANK.(expr := e)
    case Block(items) => BLANK.(block := Some(BlockNode(ItemsOf(items))))
    case If(c, thn, els) => BLANK.(expr := Some(c), ifStmt := Some(StmtOf(thn)), elseStmt := ElseOf(els))
    case While(c, body) => BLANK.(expr := Some(c), whileStmt := Some(StmtOf(body)))
    case Continue => BLANK.(isContinue := true)
    case Break => BLANK.(isBreak := true)
  }

  function ElseOf(els: Option<Ast.Stmt>): Option<StmtNode>
    decreases els, 0
  {
    if els.Some? then Some(StmtOf(els.value)) else None
  }

  function ItemOf(item: Ast.Item): ItemNode
    decreases item, 0
  {
    match item
    case Decl(isConst, defs) => DeclNode(isConst, defs)
    case Do(s) => StmtItem(StmtOf(s))
  }

  function ItemsOf(items: seq<Ast.Item>): (r: seq<ItemNode>)
    ensures |r| == |items|
    decreases items, 0
  {
    if items == [] then [] else [ItemOf(items[0])] + ItemsOf(items[1..])
  }

  // The builder itself: a block's children are pushed one after the other.
  method BuildBlock(items: seq<Ast.Item>) returns (b: BlockNode)
    ensures b == BlockNode(ItemsOf(items))
    decreases items, 1
  {
    var nodes := [];
    for i := 0 to |items|
      invariant nodes + ItemsOf(items[i..]) == ItemsOf(items)
    {
      assert items[i..][1..] == items[i + 1..];
      var node := BuildItem(items[i]);
      nodes := nodes + [node];
    }
    b := BlockNode(nodes);
  }

  method BuildItem(item: Ast.Item) returns (node: ItemNode)
    ensures node == ItemOf(item)
    decreases item, 0
  {
    match item
    case Decl(isConst, defs) => node := DeclNode(isConst, defs);
    case Do(s) =>
      var n := BuildStmt(s);
      node := StmtItem(n);
  }

  method BuildStmt(s: Ast.Stmt) returns (n: StmtNode)
    ensures n == StmtOf(s)
    decreases s, 1
  {
    n := BLANK;
    match s
    case Return(e) => n := n.(isRet := true, expr := e);
    case Block(items) =>
      var b := BuildBlock(items);
      n := n.(block := Some(b));
    case Continue => n := n.(isContinue := true);
    case Break => n := n.(isBreak := true);
    case Assign(x, idx, e) => n := n.(lVal := x, subIdx := idx, expr := Some(e));
    case Eval(e) => n := n.(expr := e);
    case If(c, thn, els) =>
      var t := BuildStmt(thn);
      n := n.(expr := Some(c), ifStmt := Some(t));
      if els.Some? {
        var e := BuildStmt(els.value);
        n := n.(elseStmt := Some(e));
      }
    case While(c, body) =>
      var t := BuildStmt(body);
      n := n.(expr := Some(c), whileStmt := Some(t));
  }

  // ----- reading back -----

  // The records code generation can take apart: an `if` or a loop has its condition.
  predicate Readable(n: StmtNode)
    decreases n, 1
  {
    match n.block
    case Some(b) => AllReadable(b.items)
    case None =>
      match n.ifStmt
      case Some(t) => n.expr.Some? && Readable(t) && (n.elseStmt.Some? ==> Readable(n.elseStmt.value))
      case None => n.whileStmt.Some? ==> n.expr.Some? && Readable(n.whileStmt.value)
  }

  predicate AllReadable(items: seq<ItemNode>)
    decreases items, 0
  {
    items != [] ==> ItemReadable(items[0]) && AllReadable(items[1..])
  }

  predicate ItemReadable(item: ItemNode)
    decreases item, 0
  {
    item.StmtItem? ==> Readable(item.s)
  }

  // The alternative the tests of `codeGenStmt`, in their order, take a record for.
  function Decode(n: StmtNode): Ast.Stmt
    requires Readable(n)
    decreases n, 1
  {
    match n.block
    case Some(b) => Ast.Block(DecodeItems(b.items))
    case None =>
      match n.ifStmt
      case Some(t) => Ast.If(n.expr.value, Decode(t), DecodeElse(n.elseStmt))
      case None =>
        match n.whileStmt
        case Some(t) => Ast.While(n.expr.value, Decode(t))
        case None =>
          if n.isContinue then Ast.Continue
          else if n.isBreak then Ast.Break
          else if n.expr.None? then (if n.isRet then Ast.Return(None) else Ast.Eval(None))
          else if n.isRet then Ast.Return(n.expr)
          else if n.lVal == "" then Ast.Eval(n.expr)
          else Ast.Assign(n.lVal, n.subIdx, n.expr.value)
  }

  function DecodeElse(els: Option<StmtNode>): Option<Ast.Stmt>
    requires els.Some? ==> Readable(els.value)
    decreases els, 0
  {
    if els.Some? then Some(Decode(els.value)) else None
  }

  function DecodeItem(item: ItemNode): Ast.Item
    requires ItemReadable(item)
    decreases item, 0
  {
    match item
    case DeclNode(isConst, defs) => Ast.Decl(isConst, defs)
    case StmtItem(s) => Ast.Do(Decode(s))
  }

  function DecodeItems(items: seq<ItemNode>): (r: seq<Ast.Item>)
    requires AllReadable(items)
    ensures |r| == |items|
    decreases items, 0
  {
    if items == [] then [] else [DecodeItem(items[0])] + DecodeItems(items[1..])
  }

  // ----- round trip -----

  // The lexer gives every identifier at least one character.
  predicate Named(s: Ast.Stmt)
    decreases s, 1
  {
    match s
    case Assign(x, _, _) => x != ""
    case Block(items) => AllNamed(items)
    case If(_, thn, els) => Named(thn) && (els.Some? ==> Named(els.value))
    case While(_, body) => Named(body)
    case _ => true
  }

  predicate AllNamed(items: seq<Ast.Item>)
    decreases items, 0
  {
    items != [] ==> ItemNamed(items[0]) && AllNamed(items[1..])
  }

  predicate ItemNamed(item: Ast.Item)
    decreases item, 0
  {
    item.Do? ==> Named(item.s)
  }

  // Every statement's record can be taken apart, and yields the statement again exactly when
  // no assignment in it has an empty name.
  lemma {:induction false} DecodeBuilt(s: Ast.Stmt)
    ensures Readable(StmtOf(s))
    ensures Decode(StmtOf(s)) == s <==> Named(s)
    decreases s, 1
  {
    match s
    case Block(items) => DecodeBuiltItems(items);
    case If(_, thn, els) =>
      DecodeBuilt(thn);
      if els.Some? {
        DecodeBuilt(els.value);
      }
    case While(_, body) => DecodeBuilt(body);
    case _ =>
  }

  lemma {:induction false} DecodeBuiltItems(items: seq<Ast.Item>)
    ensures AllReadable(ItemsOf(items))
    ensures DecodeItems(ItemsOf(items)) == items <==> AllNamed(items)
    decreases items, 0
  {
    if items == [] {
    } else {
      DecodeBuiltItem(items[0]);
      DecodeBuiltItems(items[1..]);
      var nodes := ItemsOf(items);
      assert nodes[1..] == ItemsOf(items[1..]);
      var r := DecodeItems(nodes);
      assert r[0] == DecodeItem(nodes[0]) && r[1..] == DecodeItems(nodes[1..]);
      assert items == [items[0]] + items[1..];
    }
  }

  lemma {:induction false} DecodeBuiltItem(item: Ast.Item)
    ensures ItemReadable(ItemOf(item))
    ensures DecodeItem(ItemOf(item)) == item <==> ItemNamed(item)
    decreases item, 0
  {
    if item.Do? {
      DecodeBuilt(item.s);
    }
  }

  // ----- programs -----

  function FuncOf(f: Ast.Func): FuncNode {
    FuncNode(f.name, f.params, BlockNode(ItemsOf(f.body)))
  }

  function ProgOf(p: Ast.Program): ProgNode
    requires p != []
  {
    var n := |p| - 1;
    var before := if n == 0 then None else Some(ProgOf(p[..n]));
    match p[n]
    case Globals(isConst, defs) => ProgNode(before, Some(GlobalNode(isConst, defs)), None)
    case Function(f) => ProgNode(before, None, Some(FuncOf(f)))
  }

  predicate ProgReadable(n: ProgNode) {
    && (n.prog.Some? ==> ProgReadable(n.prog.value))
    && (n.func.Some? ==> AllReadable(n.func.value.block.items))
  }

  // Code generation visits what comes before, then the declaration, then the function.
  function DecodeProg(n: ProgNode): Ast.Program
    requires ProgReadable(n)
  {
    (if n.prog.Some? then DecodeProg(n.prog.value) else [])
    + (if n.decl.Some? then [Ast.Globals(n.decl.value.isConst, n.decl.value.defs)] else [])
    + (if n.func.Some? then [Ast.Function(DecodeFunc(n.func.value))] else [])
  }

  function DecodeFunc(f: FuncNode): Ast.Func
    requires AllReadable(f.block.items)
  {
    Ast.Func(f.name, f.params, DecodeItems(f.block.items))
  }

  predicate ProgNamed(p: Ast.Program) {
    forall i | 0 <= i < |p| && p[i].Function? :: AllNamed(p[i].f.body)
  }

  lemma {:induction false} DecodeBuiltProg(p: Ast.Program)
    requires p != [] && ProgNamed(p)
    ensures ProgReadable(ProgOf(p)) && DecodeProg(ProgOf(p)) == p
    decreases |p|
  {
    hide AllNamed, AllReadable, DecodeItems, ItemsOf;
    var n := |p| - 1;
    var q, top := p[..n], p[n];
    if n != 0 {
      forall i | 0 <= i < n && q[i].Function?
        ensures AllNamed(q[i].f.body)
      {
        assert q[i] == p[i];
      }
      DecodeBuiltProg(q);
    }
    assert q + [top] == p;
    if top.Function? {
      DecodeBuiltItems(top.f.body);
      assert DecodeFunc(FuncOf(top.f)) == top.f;
    }
    var node := ProgOf(p);
    assert node.prog.None? ==> q == [];
    assert DecodeProg(node) == q + [top];
  }
}
