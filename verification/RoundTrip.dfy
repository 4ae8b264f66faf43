// Reading what was shown, and showing what was read, for declarations and statements; and the
// whole front end: tokens to tree to the builder's records and back.
module RoundTrip {
  import opened Wrappers
  import opened Grammar
  import opened StmtGrammar
  import Ast
  import AstBuilder

  // ----- reading back what was shown -----

  lemma ReadShownOne(e: Ast.Expr, t: Token, rest: Tokens)
    requires Fits(e, OR) && Ends(t)
    ensures ReadExpr(OR, Show(e, Token(t, rest))) == Some((e, Token(t, rest)))
    ensures Show(e, Token(t, rest)).Token? && Begins(Show(e, Token(t, rest)).head)
  {
    ClosingStops(t, rest);
    ReadShown(e, OR, Token(t, rest));
    FirstToken(e, Token(t, rest));
  }

  lemma ReadShownInit(init: Ast.Init, t: Token, rest: Tokens)
    requires FitsInit(init) && Ends(t)
    ensures ReadInit(ShowInit(init, Token(t, rest))) == Some((init, Token(t, rest)))
  {
    hide Show, Fits, ReadExpr;
    match init
    case Text(_) =>
    case List(isArray, es) =>
      if isArray {
        ReadShownArgs(es, RBrace, Token(t, rest));
      } else {
        ReadShownOne(es[0], t, rest);
        assert es == [es[0]];
      }
  }

  // What may follow a definition.
  predicate EndsDef(t: Token) {
    t == Comma || t == Semi
  }

  lemma ReadShownSize(size: Option<Ast.Expr>, t: Token, rest: Tokens)
    requires (size.Some? ==> Fits(size.value, OR)) && Ends(t) && t != LBracket
    ensures ReadSize(ShowSize(size, Token(t, rest))) == Some((size, Token(t, rest)))
  {
    hide Show, Fits, ReadExpr;
    if size.Some? {
      ReadShownOne(size.value, RBracket, Token(t, rest));
    }
  }

  lemma ReadShownDef(isConst: bool, d: Ast.Def, t: Token, rest: Tokens)
    requires FitsDef(isConst, d) && EndsDef(t)
    ensures ReadDef(isConst, ShowDef(d, Token(t, rest))) == Some((d, Token(t, rest)))
  {
    hide Show, Fits, ReadExpr, ReadSize, ShowSize, ReadInit, ShowInit, FitsInit;
    if d.init.Some? {
      ReadShownSize(d.size, Token.Assign, ShowInit(d.init.value, Token(t, rest)));
      ReadShownInit(d.init.value, t, rest);
    } else {
      ReadShownSize(d.size, t, rest);
    }
  }

  lemma {:induction false} ReadShownDefs(isConst: bool, defs: seq<Ast.Def>, rest: Tokens)
    requires FitsDefs(isConst, defs)
    ensures ReadDefs(isConst, ShowDefs(defs, Token(Semi, rest))) == Some((defs, rest))
  {
    hide ReadDef, ShowDef, FitsDef;
    if |defs| == 1 {
      ReadShownDef(isConst, defs[0], Semi, rest);
      assert defs == [defs[0]];
    } else {
      ReadShownDef(isConst, defs[0], Comma, ShowDefs(defs[1..], Token(Semi, rest)));
      ReadShownDefs(isConst, defs[1..], rest);
      assert defs == [defs[0]] + defs[1..];
    }
  }

  lemma ReadShownLast(e: Option<Ast.Expr>, rest: Tokens)
    requires e.Some? ==> Fits(e.value, OR)
    ensures ReadLast(ShowLast(e, rest)) == Some((e, rest))
  {
    hide Show, Fits, ReadExpr;
    if e.Some? {
      ReadShownOne(e.value, Semi, rest);
    }
  }

  lemma ReadShownEval(e: Option<Ast.Expr>, rest: Tokens)
    requires e.Some? ==> Fits(e.value, OR)
    ensures ReadStmt(ShowLast(e, rest)) == Some((Ast.Eval(e), rest))
  {
    hide Show, Fits, ReadExpr, ReadIf, ReadWhile, ReadItems, ReadLast;
    if e.Some? {
      ReadShownOne(e.value, Semi, rest);
      SimpleStart(ShowLast(e, rest));
    }
  }

  lemma ReadShownAssign(x: string, idx: Option<Ast.Expr>, v: Ast.Expr, rest: Tokens)
    requires FitsStmt(Ast.Assign(x, idx, v))
    ensures ReadStmt(ShowStmt(Ast.Assign(x, idx, v), rest)) == Some((Ast.Assign(x, idx, v), rest))
  {
    var e := Target(x, idx);
    assert Fits(e, OR);
    hide Show, Fits, ReadExpr, ReadStmt;
    ReadShownOne(e, Token.Assign, Show(v, Token(Semi, rest)));
    ReadShownOne(v, Semi, rest);
    SimpleStart(ShowStmt(Ast.Assign(x, idx, v), rest));
  }

  lemma SimpleStart(ts: Tokens)
    requires ts.Token? && Begins(ts.head)
    ensures ReadStmt(ts) == ReadSimple(ts)
  {
  }

  lemma ReadShownCond(c: Ast.Expr, rest: Tokens)
    requires Fits(c, OR)
    ensures ReadCond(Token(LParen, Show(c, Token(RParen, rest)))) == Some((c, rest))
  {
    hide Show, Fits, ReadExpr;
    ReadShownOne(c, RParen, rest);
  }

  lemma {:induction false} ReadShownStmt(s: Ast.Stmt, rest: Tokens)
    requires FitsStmt(s)
    ensures ReadStmt(ShowStmt(s, rest)) == Some((s, rest))
    decreases s, 1
  {
    hide Show, Fits, ReadExpr, ShowLast, ReadLast, ReadSimple, ReadIf, ReadWhile, ShowItems, ReadItems, FitsItems;
    match s {
      case Return(e) => ReadShownLast(e, rest);
      case Assign(x, idx, e) => ReadShownAssign(x, idx, e, rest);
      case Eval(e) => ReadShownEval(e, rest);
      case Block(items) => ReadShownItems(items, rest);
      case If(c, thn, els) => ReadShownIf(c, thn, els, rest);
      case While(c, body) => ReadShownWhile(c, body, rest);
      case Continue =>
      case Break =>
    }
  }

  lemma {:induction false} ReadShownIf(c: Ast.Expr, thn: Ast.Stmt, els: Option<Ast.Stmt>, rest: Tokens)
    requires FitsStmt(Ast.If(c, thn, els))
    ensures ReadIf(ShowStmt(Ast.If(c, thn, els), rest)) == Some((Ast.If(c, thn, els), rest))
    decreases Ast.If(c, thn, els), 0
  {
    hide Show, Fits, ReadExpr, ReadCond, ReadStmt;
    var s := Ast.If(c, thn, els);
    var last := ShowElse(els, Token(End, rest));
    var body := ShowStmt(thn, last);
    IfText(c, thn, els, rest);
    hide ShowStmt, FitsStmt;
    ReadShownCond(c, Token(Then, body));
    ReadShownStmt(thn, last);
    if els.Some? {
      ReadShownStmt(els.value, Token(End, rest));
    }
  }

  lemma IfText(c: Ast.Expr, thn: Ast.Stmt, els: Option<Ast.Stmt>, rest: Tokens)
    requires FitsStmt(Ast.If(c, thn, els))
    ensures Fits(c, OR) && FitsStmt(thn) && (els.Some? ==> FitsStmt(els.value))
    ensures var body := ShowStmt(thn, ShowElse(els, Token(End, rest)));
      ShowStmt(Ast.If(c, thn, els), rest) == Token(Token.If, Token(LParen, Show(c, Token(RParen, Token(Then, body)))))
  {
  }

  lemma {:induction false} ReadShownWhile(c: Ast.Expr, body: Ast.Stmt, rest: Tokens)
    requires FitsStmt(Ast.While(c, body))
    ensures ReadWhile(ShowStmt(Ast.While(c, body), rest)) == Some((Ast.While(c, body), rest))
    decreases Ast.While(c, body), 0
  {
    hide ReadStmt, ReadCond, Show, Fits;
    ReadShownCond(c, ShowStmt(body, rest));
    ReadShownStmt(body, rest);
  }

  lemma {:induction false} ReadShownItems(items: seq<Ast.Item>, rest: Tokens)
    requires FitsItems(items)
    ensures ReadItems(ShowItems(items, Token(RBrace, rest))) == Some((items, rest))
    decreases items, 0
  {
    hide ReadItem, ShowItem, FitsItem;
    if items == [] {
    } else {
      var more := ShowItems(items[1..], Token(RBrace, rest));
      ReadShownItem(items[0], more);
      ReadShownItems(items[1..], rest);
      ItemStart(items[0], more);
      assert items == [items[0]] + items[1..];
    }
  }

  lemma {:induction false} ReadShownItem(item: Ast.Item, rest: Tokens)
    requires FitsItem(item)
    ensures ReadItem(ShowItem(item, rest)) == Some((item, rest))
    decreases item, 0
  {
    hide ReadStmt, ReadDefs, ShowStmt, ShowDefs, FitsDefs, FitsStmt;
    match item
    case Decl(isConst, defs) => ReadShownDefs(isConst, defs, rest);
    case Do(s) =>
      ReadShownStmt(s, rest);
      StmtStart(s, rest);
  }

  // The token a statement begins with is neither a closing brace nor the start of a declaration.
  lemma StmtStart(s: Ast.Stmt, rest: Tokens)
    ensures !Starts(ShowStmt(s, rest), RBrace) && !Starts(ShowStmt(s, rest), Const) && !Starts(ShowStmt(s, rest), Int)
  {
    match s {
      case Assign(x, idx, e) => FirstToken(Target(x, idx), Token(Token.Assign, Show(e, Token(Semi, rest))));
      case Eval(e) =>
        if e.Some? {
          FirstToken(e.value, Token(Semi, rest));
        }
      case _ =>
    }
  }

  lemma ItemStart(item: Ast.Item, rest: Tokens)
    ensures !Starts(ShowItem(item, rest), RBrace)
  {
    hide ShowStmt;
    if item.Do? {
      StmtStart(item.s, rest);
    }
  }

  // ----- only what the grammar derives is read -----

  lemma InitMeans(ts: Tokens)
    requires Lexed(ts) && ReadInit(ts).Some?
    ensures var (init, rest) := ReadInit(ts).value; FitsInit(init) && ShowInit(init, rest) == ts && Lexed(rest)
  {
    hide ReadArgs, ReadExpr, Fits, Show;
    if !ts.head.Quoted? {
      if ts.head == LBrace {
        ArgsMean(ts.tail, RBrace);
      } else {
        ReadMeans(OR, ts);
        var (e, rest) := ReadExpr(OR, ts).value;
        OneFits(e, rest);
      }
    }
  }

  lemma OneFits(e: Ast.Expr, rest: Tokens)
    requires Fits(e, OR)
    ensures AllFit([e]) && ShowAll([e], rest) == Show(e, rest)
  {
    assert [e][1..] == [];
  }

  lemma SizeMeans(ts: Tokens)
    requires Lexed(ts) && ReadSize(ts).Some?
    ensures var (size, rest) := ReadSize(ts).value;
      (size.Some? ==> Fits(size.value, OR)) && ShowSize(size, rest) == ts && Lexed(rest)
  {
    hide ReadExpr, Fits, Show;
    if Starts(ts, LBracket) {
      ReadMeans(OR, ts.tail);
    }
  }

  lemma DefMeans(isConst: bool, ts: Tokens)
    requires Lexed(ts) && ReadDef(isConst, ts).Some?
    ensures var (d, rest) := ReadDef(isConst, ts).value; FitsDef(isConst, d) && ShowDef(d, rest) == ts && Lexed(rest)
  {
    hide ReadSize, ReadInit, Fits, FitsInit, ShowSize, ShowInit;
    SizeMeans(ts.tail);
    var (size, rest) := ReadSize(ts.tail).value;
    if Starts(rest, Token.Assign) {
      InitMeans(rest.tail);
    }
  }

  lemma {:induction false} DefsMean(isConst: bool, ts: Tokens)
    requires Lexed(ts) && ReadDefs(isConst, ts).Some?
    ensures var (defs, rest) := ReadDefs(isConst, ts).value;
      FitsDefs(isConst, defs) && ShowDefs(defs, Token(Semi, rest)) == ts && Lexed(rest)
    decreases Length(ts)
  {
    hide ReadDef, FitsDef, ShowDef;
    DefMeans(isConst, ts);
    var (d, rest) := ReadDef(isConst, ts).value;
    if Starts(rest, Comma) {
      DefsMean(isConst, rest.tail);
      var (ds, after) := ReadDefs(isConst, rest.tail).value;
      assert ([d] + ds)[1..] == ds;
    }
  }

  lemma LastMeans(ts: Tokens)
    requires Lexed(ts) && ReadLast(ts).Some?
    ensures var (e, rest) := ReadLast(ts).value;
      (e.Some? ==> Fits(e.value, OR)) && ShowLast(e, rest) == ts && Lexed(rest)
  {
    hide ReadExpr, Fits, Show;
    if !Starts(ts, Semi) {
      ReadMeans(OR, ts);
    }
  }

  lemma SimpleMeans(ts: Tokens)
    requires Lexed(ts) && ReadSimple(ts).Some?
    ensures var (s, rest) := ReadSimple(ts).value; FitsStmt(s) && ShowStmt(s, rest) == ts && Lexed(rest)
  {
    hide ReadExpr;
    if !Starts(ts, Semi) {
      ReadMeans(OR, ts);
      var (e, rest) := ReadExpr(OR, ts).value;
      if Starts(rest, Token.Assign) {
        ReadMeans(OR, rest.tail);
      }
    }
  }

  lemma CondMeans(ts: Tokens)
    requires Lexed(ts) && ReadCond(ts).Some?
    ensures var (c, rest) := ReadCond(ts).value;
      Fits(c, OR) && Token(LParen, Show(c, Token(RParen, rest))) == ts && Lexed(rest)
  {
    hide ReadExpr, Fits, Show;
    ReadMeans(OR, ts.tail);
  }

  lemma {:induction false} StmtMeans(ts: Tokens)
    requires Lexed(ts) && ReadStmt(ts).Some?
    ensures var (s, rest) := ReadStmt(ts).value; FitsStmt(s) && ShowStmt(s, rest) == ts && Lexed(rest)
    decreases Length(ts), 1
  {
    hide ReadLast, ReadItems, ReadIf, ReadWhile, ReadSimple, Fits, Show, ShowLast, ShowItems, FitsItems;
    match ts.head {
      case Return => LastMeans(ts.tail);
      case LBrace => ItemsMean(ts.tail);
      case If => IfMeans(ts);
      case While => WhileMeans(ts);
      case Continue =>
      case Break =>
      case _ => SimpleMeans(ts);
    }
  }

  lemma {:induction false} IfMeans(ts: Tokens)
    requires Lexed(ts) && Starts(ts, Token.If) && ReadIf(ts).Some?
    ensures var (s, rest) := ReadIf(ts).value; FitsStmt(s) && ShowStmt(s, rest) == ts && Lexed(rest)
    decreases Length(ts), 0
  {
    hide ReadStmt, ReadCond, Fits, Show;
    CondMeans(ts.tail);
    var (c, rest) := ReadCond(ts.tail).value;
    StmtMeans(rest.tail);
    var (thn, mid) := ReadStmt(rest.tail).value;
    if Starts(mid, Else) {
      StmtMeans(mid.tail);
    }
  }

  lemma {:induction false} WhileMeans(ts: Tokens)
    requires Lexed(ts) && Starts(ts, Token.While) && ReadWhile(ts).Some?
    ensures var (s, rest) := ReadWhile(ts).value; FitsStmt(s) && ShowStmt(s, rest) == ts && Lexed(rest)
    decreases Length(ts), 0
  {
    hide ReadStmt, ReadCond, Fits, Show;
    CondMeans(ts.tail);
    StmtMeans(ReadCond(ts.tail).value.1);
  }

  lemma {:induction false} ItemsMean(ts: Tokens)
    requires Lexed(ts) && ReadItems(ts).Some?
    ensures var (items, rest) := ReadItems(ts).value;
      FitsItems(items) && ShowItems(items, Token(RBrace, rest)) == ts && Lexed(rest)
    decreases Length(ts), 3
  {
    hide ReadItem, FitsItem, ShowItem;
    if Starts(ts, RBrace) {
    } else {
      ItemMeans(ts);
      var (item, rest) := ReadItem(ts).value;
      ItemsMean(rest);
      var (items, after) := ReadItems(rest).value;
      assert ([item] + items)[1..] == items;
    }
  }

  lemma {:induction false} ItemMeans(ts: Tokens)
    requires Lexed(ts) && ReadItem(ts).Some?
    ensures var (item, rest) := ReadItem(ts).value; FitsItem(item) && ShowItem(item, rest) == ts && Lexed(rest)
    decreases Length(ts), 2
  {
    hide ReadStmt, ReadDefs, FitsStmt, FitsDefs, ShowStmt, ShowDefs;
    if Starts(ts, Const) {
      DefsMean(true, ts.tail.tail);
    } else if Starts(ts, Int) {
      DefsMean(false, ts.tail);
    } else {
      StmtMeans(ts);
    }
  }

  // ----- the main results -----

  // The reader accepts exactly the texts the grammar derives, with the one tree they have.
  lemma StmtLanguage(s: Ast.Stmt, ts: Tokens)
    requires Lexed(ts)
    ensures ReadStmt(ts) == Some((s, Done)) <==> FitsStmt(s) && ts == ShowStmt(s, Done)
  {
    hide ReadStmt, ShowStmt, FitsStmt;
    if FitsStmt(s) && ts == ShowStmt(s, Done) {
      ReadShownStmt(s, Done);
    }
    if ReadStmt(ts) == Some((s, Done)) {
      StmtMeans(ts);
    }
  }

  // No text has two trees, whatever may follow it: in particular every `else` has one `if`.
  lemma StmtUnambiguous(a: Ast.Stmt, b: Ast.Stmt, rest: Tokens, after: Tokens)
    requires FitsStmt(a) && FitsStmt(b) && ShowStmt(a, rest) == ShowStmt(b, after)
    ensures a == b && rest == after
  {
    ReadShownStmt(a, rest);
    ReadShownStmt(b, after);
  }

  lemma {:induction false} FitsNamed(s: Ast.Stmt)
    requires FitsStmt(s)
    ensures AstBuilder.Named(s)
    decreases s, 0
  {
    match s
    case Block(items) => ItemsNamed(items);
    case If(_, thn, els) =>
      FitsNamed(thn);
      if els.Some? {
        FitsNamed(els.value);
      }
    case While(_, body) => FitsNamed(body);
    case _ =>
  }

  lemma {:induction false} ItemsNamed(items: seq<Ast.Item>)
    requires FitsItems(items)
    ensures AstBuilder.AllNamed(items)
    decreases items, 0
  {
    if items == [] {
    } else {
      ItemNamed(items[0]);
      ItemsNamed(items[1..]);
    }
  }

  lemma {:induction false} ItemNamed(item: Ast.Item)
    requires FitsItem(item)
    ensures AstBuilder.ItemNamed(item)
    decreases item, 0
  {
    if item.Do? {
      FitsNamed(item.s);
    }
  }

  // From tokens to a tree, to the builder's record, to the alternative code generation takes: the
  // statement whose text it was.
  lemma FrontEnd(ts: Tokens)
    requires Lexed(ts) && ReadStmt(ts).Some?
    ensures var (s, rest) := ReadStmt(ts).value; var n := AstBuilder.StmtOf(s);
      AstBuilder.Readable(n) && ShowStmt(AstBuilder.Decode(n), rest) == ts
  {
    hide ReadStmt, ShowStmt, FitsStmt, AstBuilder.StmtOf, AstBuilder.Decode;
    StmtMeans(ts);
    var s := ReadStmt(ts).value.0;
    FitsNamed(s);
    AstBuilder.DecodeBuilt(s);
  }
}
