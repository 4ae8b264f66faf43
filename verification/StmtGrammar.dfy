// Declarations and statements on top of the expression grammar.
module StmtGrammar {
  import opened Wrappers
  import opened Grammar
  import Ast

  // ----- which trees the productions derive -----

  predicate FitsInit(init: Ast.Init) {
    match init
    case List(isArray, es) => AllFit(es) && (!isArray ==> |es| == 1)
    case Text(_) => true
  }

  predicate FitsDef(isConst: bool, d: Ast.Def) {
    && d.name != ""
    && (d.size.Some? ==> Fits(d.size.value, OR))
    && (if d.init.Some? then FitsInit(d.init.value) else !isConst)
  }

  predicate FitsDefs(isConst: bool, defs: seq<Ast.Def>) {
    defs != [] && FitsDef(isConst, defs[0]) && (|defs| > 1 ==> FitsDefs(isConst, defs[1..]))
  }

  predicate FitsStmt(s: Ast.Stmt)
    decreases s, 0
  {
    match s
    case Return(e) => e.Some? ==> Fits(e.value, OR)
    case Assign(x, idx, e) => x != "" && (idx.Some? ==> Fits(idx.value, OR)) && Fits(e, OR)
    case Eval(e) => e.Some? ==> Fits(e.value, OR)
    case Block(items) => FitsItems(items)
    case If(c, thn, els) => Fits(c, OR) && FitsStmt(thn) && (els.Some? ==> FitsStmt(els.value))
    case While(c, body) => Fits(c, OR) && FitsStmt(body)
    case Continue => true
    case Break => true
  }

  predicate FitsItems(items: seq<Ast.Item>)
    decreases items, 0
  {
    items != [] ==> FitsItem(items[0]) && FitsItems(items[1..])
  }

  predicate FitsItem(item: Ast.Item)
    decreases item, 0
  {
    match item
    case Decl(isConst, defs) => FitsDefs(isConst, defs)
    case Do(s) => FitsStmt(s)
  }

  // ----- their tokens -----

  function ShowInit(init: Ast.Init, rest: Tokens): Tokens {
    match init
    case List(isArray, es) => if isArray then Token(LBrace, ShowAll(es, Token(RBrace, rest))) else ShowAll(es, rest)
    case Text(codes) => Token(Quoted(codes), rest)
  }

  function ShowSize(size: Option<Ast.Expr>, rest: Tokens): Tokens {
    if size.Some? then Token(LBracket, Show(size.value, Token(RBracket, rest))) else rest
  }

  function ShowDef(d: Ast.Def, rest: Tokens): Tokens {
    Token(Name(d.name), ShowSize(d.size,
      if d.init.Some? then Token(Token.Assign, ShowInit(d.init.value, rest)) else rest))
  }

  function ShowDefs(defs: seq<Ast.Def>, rest: Tokens): Tokens {
    if defs == [] then rest
    else if |defs| == 1 then ShowDef(defs[0], rest)
    else ShowDef(defs[0], Token(Comma, ShowDefs(defs[1..], rest)))
  }

  function ShowDecl(isConst: bool, defs: seq<Ast.Def>, rest: Tokens): Tokens {
    var ts := Token(Int, ShowDefs(defs, Token(Semi, rest)));
    if isConst then Token(Const, ts) else ts
  }

  function ShowLast(e: Option<Ast.Expr>, rest: Tokens): Tokens {
    if e.Some? then Show(e.value, Token(Semi, rest)) else Token(Semi, rest)
  }

  function ShowStmt(s: Ast.Stmt, rest: Tokens): Tokens
    decreases s, 0
  {
    match s
    case Return(e) => Token(Token.Return, ShowLast(e, rest))
    case Assign(x, idx, e) => Show(Target(x, idx), Token(Token.Assign, Show(e, Token(Semi, rest))))
    case Eval(e) => ShowLast(e, rest)
    case Block(items) => Token(LBrace, ShowItems(items, Token(RBrace, rest)))
    case If(c, thn, els) =>
      var branches := ShowStmt(thn, ShowElse(els, Token(End, rest)));
      Token(Token.If, Token(LParen, Show(c, Token(RParen, Token(Then, branches)))))
    case While(c, body) => Token(Token.While, Token(LParen, Show(c, Token(RParen, ShowStmt(body, rest)))))
    case Continue => Token(Token.Continue, Token(Semi, rest))
    case Break => Token(Token.Break, Token(Semi, rest))
  }

  // lVal, as the expression it also is.
  function Target(x: string, idx: Option<Ast.Expr>): Ast.Expr {
    if idx.Some? then Ast.Index(x, idx.value) else Ast.Var(x)
  }

  function ShowElse(els: Option<Ast.Stmt>, rest: Tokens): Tokens
    decreases els, 0
  {
    if els.Some? then Token(Else, ShowStmt(els.value, rest)) else rest
  }

  function ShowItems(items: seq<Ast.Item>, rest: Tokens): Tokens
    decreases items, 0
  {
    if items == [] then rest else ShowItem(items[0], ShowItems(items[1..], rest))
  }

  function ShowItem(item: Ast.Item, rest: Tokens): Tokens
    decreases item, 0
  {
    match item
    case Decl(isConst, defs) => ShowDecl(isConst, defs, rest)
    case Do(s) => ShowStmt(s, rest)
  }

  // ----- reading declarations -----

  function ReadInit(ts: Tokens): (r: Read<Ast.Init>)
    ensures Shorter(r, ts)
  {
    if ts.Done? then None
    else if ts.head.Quoted? then Some((Ast.Text(ts.head.codes), ts.tail))
    else if ts.head == LBrace then
      var (es, rest) :- ReadArgs(ts.tail, RBrace);
      Some((Ast.List(true, es), rest))
    else
      var (e, rest) :- ReadExpr(OR, ts);
      Some((Ast.List(false, [e]), rest))
  }

  function ReadSize(ts: Tokens): (r: Read<Option<Ast.Expr>>)
    ensures r.Some? ==> Length(r.value.1) <= Length(ts)
  {
    if Starts(ts, LBracket) then
      var (e, rest) :- ReadExpr(OR, ts.tail);
      var after :- Expect(rest, RBracket);
      Some((Some(e), after))
    else Some((None, ts))
  }

  function ReadDef(isConst: bool, ts: Tokens): (r: Read<Ast.Def>)
    ensures Shorter(r, ts)
  {
    if ts.Done? || !ts.head.Name? then None
    else
      var (size, rest) :- ReadSize(ts.tail);
      if Starts(rest, Token.Assign) then
        var (init, after) :- ReadInit(rest.tail);
        Some((Ast.Def(ts.head.x, size, Some(init)), after))
      else if isConst then None
      else Some((Ast.Def(ts.head.x, size, None), rest))
  }

  function ReadDefs(isConst: bool, ts: Tokens): (r: Read<seq<Ast.Def>>)
    ensures Shorter(r, ts)
    decreases Length(ts)
  {
    var (d, rest) :- ReadDef(isConst, ts);
    if Starts(rest, Comma) then
      var (ds, after) :- ReadDefs(isConst, rest.tail);
      Some(([d] + ds, after))
    else
      var after :- Expect(rest, Semi);
      Some(([d], after))
  }

  function ReadDecl(isConst: bool, ts: Tokens): (r: Read<Ast.Item>)
    ensures Shorter(r, ts)
  {
    var rest :- Expect(ts, Int);
    var (defs, after) :- ReadDefs(isConst, rest);
    Some((Ast.Decl(isConst, defs), after))
  }

  // ----- reading statements: one token decides the alternative, except between assignment and expression -----

  function ReadStmt(ts: Tokens): (r: Read<Ast.Stmt>)
    ensures Shorter(r, ts)
    decreases Length(ts), 1
  {
    if ts.Done? then None
    else
      match ts.head
      case Return =>
        var (e, rest) :- ReadLast(ts.tail);
        Some((Ast.Return(e), rest))
      case LBrace =>
        var (items, rest) :- ReadItems(ts.tail);
        Some((Ast.Block(items), rest))
      case If => ReadIf(ts)
      case While => ReadWhile(ts)
      case Continue =>
        var rest :- Expect(ts.tail, Semi);
        Some((Ast.Continue, rest))
      case Break =>
        var rest :- Expect(ts.tail, Semi);
        Some((Ast.Break, rest))
      case _ => ReadSimple(ts)
  }

  // (exp)? ';'
  function ReadLast(ts: Tokens): (r: Read<Option<Ast.Expr>>)
    ensures Shorter(r, ts)
  {
    if Starts(ts, Semi) then Some((None, ts.tail))
    else
      var (e, rest) :- ReadExpr(OR, ts);
      var after :- Expect(rest, Semi);
      Some((Some(e), after))
  }

  // An expression, or a target if `=` follows it.
  function ReadSimple(ts: Tokens): (r: Read<Ast.Stmt>)
    ensures Shorter(r, ts)
  {
    if Starts(ts, Semi) then Some((Ast.Eval(None), ts.tail))
    else
      var (e, rest) :- ReadExpr(OR, ts);
      if Starts(rest, Token.Assign) then
        if e.Var? || e.Index? then
          var (v, last) :- ReadExpr(OR, rest.tail);
          var after :- Expect(last, Semi);
          Some((Ast.Assign(e.name, if e.Index? then Some(e.idx) else None, v), after))
        else None
      else
        var after :- Expect(rest, Semi);
        Some((Ast.Eval(Some(e)), after))
  }

  // The condition of an `if` or a loop, after its keyword.
  function ReadCond(ts: Tokens): (r: Read<Ast.Expr>)
    ensures Shorter(r, ts)
  {
    var open :- Expect(ts, LParen);
    var (c, rest) :- ReadExpr(OR, open);
    var after :- Expect(rest, RParen);
    Some((c, after))
  }

  function ReadIf(ts: Tokens): (r: Read<Ast.Stmt>)
    requires ts.Token?
    ensures Shorter(r, ts)
    decreases Length(ts), 0
  {
    var (c, rest) :- ReadCond(ts.tail);
    var open :- Expect(rest, Then);
    var (thn, mid) :- ReadStmt(open);
    if Starts(mid, Else) then
      var (els, last) :- ReadStmt(mid.tail);
      var after :- Expect(last, End);
      Some((Ast.If(c, thn, Some(els)), after))
    else
      var after :- Expect(mid, End);
      Some((Ast.If(c, thn, None), after))
  }

  function ReadWhile(ts: Tokens): (r: Read<Ast.Stmt>)
    requires ts.Token?
    ensures Shorter(r, ts)
    decreases Length(ts), 0
  {
    var (c, rest) :- ReadCond(ts.tail);
    var (body, after) :- ReadStmt(rest);
    Some((Ast.While(c, body), after))
  }

  // Up to the closing brace.
  function ReadItems(ts: Tokens): (r: Read<seq<Ast.Item>>)
    ensures Shorter(r, ts)
    decreases Length(ts), 3
  {
    if Starts(ts, RBrace) then Some(([], ts.tail))
    else
      var (item, rest) :- ReadItem(ts);
      var (items, after) :- ReadItems(rest);
      Some(([item] + items, after))
  }

  function ReadItem(ts: Tokens): (r: Read<Ast.Item>)
    ensures Shorter(r, ts)
    decreases Length(ts), 2
  {
    if Starts(ts, Const) then ReadDecl(true, ts.tail)
    else if Starts(ts, Int) then ReadDecl(false, ts)
    else
      var (s, rest) :- ReadStmt(ts);
      Some((Ast.Do(s), rest))
  }
}
