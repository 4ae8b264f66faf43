// The grammar of expressions, statements and declarations: which trees each production derives,
// the tokens they are written as, and a reader that gets the tree back.
module Grammar {
  import opened Wrappers
  import Ast

  datatype Token =
    | If | Then | Else | End | While | Continue | Break | Return | Const | Int
    | Number(n: nat) | Quoted(codes: seq<int>) | Name(x: string)
    | Assign | Less | Greater | LessEq | GreaterEq | NotEq | EqEq | AndAnd | OrOr
    | Star | Slash | Percent | Plus | Minus | Semi | Comma
    | LBrace | RBrace | LParen | RParen | LBracket | RBracket | Bang

  datatype Tokens = Done | Token(head: Token, tail: Tokens)

  function Length(ts: Tokens): nat {
    if ts.Done? then 0 else 1 + Length(ts.tail)
  }

  predicate Starts(ts: Tokens, t: Token) {
    ts.Token? && ts.head == t
  }

  // ----- the layers of the expression grammar -----

  const OR := 0
  const UNARY := 6
  const PRIMARY := 7

  // lOrExp, lAndExp, eqExp, relExp, addExp and mulExp are layers 0 to 5.
  function Layer(op: Ast.BinOp): (r: nat)
    ensures r < UNARY
  {
    match op
    case Or => 0
    case And => 1
    case Eq | Ne => 2
    case Lt | Gt | Le | Ge => 3
    case Add | Sub => 4
    case Mul | Div | Mod => 5
  }

  function OpToken(op: Ast.BinOp): Token {
    match op
    case Or => OrOr
    case And => AndAnd
    case Eq => EqEq
    case Ne => NotEq
    case Lt => Less
    case Gt => Greater
    case Le => LessEq
    case Ge => GreaterEq
    case Add => Plus
    case Sub => Minus
    case Mul => Star
    case Div => Slash
    case Mod => Percent
  }

  function OpOf(t: Token): (r: Option<Ast.BinOp>)
    ensures r.Some? ==> OpToken(r.value) == t
    ensures forall op :: OpToken(op) == t ==> r == Some(op)
  {
    match t
    case OrOr => Some(Ast.Or)
    case AndAnd => Some(Ast.And)
    case EqEq => Some(Ast.Eq)
    case NotEq => Some(Ast.Ne)
    case Less => Some(Ast.Lt)
    case Greater => Some(Ast.Gt)
    case LessEq => Some(Ast.Le)
    case GreaterEq => Some(Ast.Ge)
    case Plus => Some(Ast.Add)
    case Minus => Some(Ast.Sub)
    case Star => Some(Ast.Mul)
    case Slash => Some(Ast.Div)
    case Percent => Some(Ast.Mod)
    case _ => None
  }

  function SignToken(op: Ast.UnOp): Token {
    match op
    case Pos => Plus
    case Neg => Minus
    case Not => Bang
  }

  function SignOf(t: Token): (r: Option<Ast.UnOp>)
    ensures r.Some? ==> SignToken(r.value) == t
    ensures forall op :: SignToken(op) == t ==> r == Some(op)
  {
    match t
    case Plus => Some(Ast.Pos)
    case Minus => Some(Ast.Neg)
    case Bang => Some(Ast.Not)
    case _ => None
  }

  const LITERALS: nat := 0x8000_0000

  // The trees the production of layer n derives.
  predicate Fits(e: Ast.Expr, n: nat)
    decreases e, 0
  {
    match e
    case Num(k) => 0 <= k < LITERALS
    case Paren(i) => Fits(i, OR)
    case Var(_) => true
    case Index(_, i) => Fits(i, OR)
    case Call(_, args) => n <= UNARY && AllFit(args)
    case Unary(_, a) => n <= UNARY && Fits(a, UNARY)
    case Binary(op, l, r) => n <= Layer(op) && Fits(l, Layer(op)) && Fits(r, Layer(op) + 1)
  }

  predicate AllFit(es: seq<Ast.Expr>)
    decreases es, 1
  {
    es != [] ==> Fits(es[0], OR) && AllFit(es[1..])
  }

  // The tokens of e, in front of `rest`.
  function Show(e: Ast.Expr, rest: Tokens): Tokens
    decreases e, 0
  {
    match e
    case Num(k) => Token(Number(if k < 0 then 0 else k), rest)
    case Paren(i) => Token(LParen, Show(i, Token(RParen, rest)))
    case Var(x) => Token(Name(x), rest)
    case Index(x, i) => Token(Name(x), Token(LBracket, Show(i, Token(RBracket, rest))))
    case Call(f, args) => Token(Name(f), Token(LParen, ShowAll(args, Token(RParen, rest))))
    case Unary(op, a) => Token(SignToken(op), Show(a, rest))
    case Binary(op, l, r) => Show(l, Token(OpToken(op), Show(r, rest)))
  }

  // Expressions separated by commas.
  function ShowAll(es: seq<Ast.Expr>, rest: Tokens): Tokens
    decreases es, 1
  {
    if es == [] then rest
    else if |es| == 1 then Show(es[0], rest)
    else Show(es[0], Token(Comma, ShowAll(es[1..], rest)))
  }

  // ----- reading expressions -----

  // A number node keeps its literal in an `int`.
  function Narrow(n: nat): int {
    (n + 0x8000_0000) % 0x1_0000_0000 - 0x8000_0000
  }

  type Read<T> = Option<(T, Tokens)>

  predicate Shorter<T>(r: Read<T>, ts: Tokens) {
    r.Some? ==> Length(r.value.1) < Length(ts)
  }

  function Expect(ts: Tokens, t: Token): (r: Option<Tokens>)
    ensures r.Some? <==> Starts(ts, t)
    ensures r.Some? ==> r.value == ts.tail
  {
    if Starts(ts, t) then Some(ts.tail) else None
  }

  // An expression of layer n at the front of ts.
  function ReadExpr(n: nat, ts: Tokens): (r: Read<Ast.Expr>)
    requires n <= PRIMARY
    ensures Shorter(r, ts)
    decreases Length(ts), PRIMARY - n, 1
  {
    if n == PRIMARY then ReadPrimary(ts)
    else if n == UNARY then ReadUnary(ts)
    else
      var (e, rest) :- ReadExpr(n + 1, ts);
      ReadChain(n, e, rest)
  }

  function ReadUnary(ts: Tokens): (r: Read<Ast.Expr>)
    ensures Shorter(r, ts)
    decreases Length(ts), PRIMARY - UNARY, 0
  {
    if ts.Done? then None
    else if SignOf(ts.head).Some? then
      var (a, rest) :- ReadExpr(UNARY, ts.tail);
      Some((Ast.Unary(SignOf(ts.head).value, a), rest))
    else if ts.head.Name? && Starts(ts.tail, LParen) then
      assert Length(ts.tail.tail) < Length(ts);
      var (args, rest) :- ReadArgs(ts.tail.tail, RParen);
      Some((Ast.Call(ts.head.x, args), rest))
    else ReadPrimary(ts)
  }

  function ReadPrimary(ts: Tokens): (r: Read<Ast.Expr>)
    ensures Shorter(r, ts)
    decreases Length(ts), 0, 0
  {
    if ts.Done? then None
    else if ts.head == LParen then
      var (e, rest) :- ReadExpr(OR, ts.tail);
      var after :- Expect(rest, RParen);
      Some((Ast.Paren(e), after))
    else if ts.head.Number? then Some((Ast.Num(Narrow(ts.head.n)), ts.tail))
    else if !ts.head.Name? then None
    else if Starts(ts.tail, LBracket) then
      assert Length(ts.tail.tail) < Length(ts);
      var (i, rest) :- ReadExpr(OR, ts.tail.tail);
      var after :- Expect(rest, RBracket);
      Some((Ast.Index(ts.head.x, i), after))
    else Some((Ast.Var(ts.head.x), ts.tail))
  }

  // Left association: what has been read so far becomes the left operand.
  function ReadChain(n: nat, left: Ast.Expr, ts: Tokens): (r: Read<Ast.Expr>)
    requires n < UNARY
    ensures r.Some? ==> Length(r.value.1) <= Length(ts)
    decreases Length(ts), PRIMARY - n, 0
  {
    if Continues(ts, n) then
      var (right, rest) :- ReadExpr(n + 1, ts.tail);
      ReadChain(n, Ast.Binary(OpOf(ts.head).value, left, right), rest)
    else Some((left, ts))
  }

  // An operator of layer n comes next.
  predicate Continues(ts: Tokens, n: nat) {
    ts.Token? && OpOf(ts.head).Some? && Layer(OpOf(ts.head).value) == n
  }

  // A list, possibly empty, up to its closing token.
  function ReadArgs(ts: Tokens, close: Token): (r: Read<seq<Ast.Expr>>)
    ensures Shorter(r, ts)
    decreases Length(ts), PRIMARY + 1, 1
  {
    if Starts(ts, close) then Some(([], ts.tail)) else ReadMore(ts, close)
  }

  function ReadMore(ts: Tokens, close: Token): (r: Read<seq<Ast.Expr>>)
    ensures Shorter(r, ts)
    decreases Length(ts), PRIMARY + 1, 0
  {
    var (e, rest) :- ReadExpr(OR, ts);
    if Starts(rest, Comma) then
      var (es, after) :- ReadMore(rest.tail, close);
      Some(([e] + es, after))
    else
      var after :- Expect(rest, close);
      Some(([e], after))
  }

  // ----- reading back what was shown -----

  // What may follow an expression of layer n: nothing that would continue it.
  predicate Stops(ts: Tokens, n: nat) {
    ts.Token? ==>
      && ts.head != LParen && ts.head != LBracket
      && (OpOf(ts.head).Some? ==> Layer(OpOf(ts.head).value) < n)
  }

  lemma {:induction false} ReadShown(e: Ast.Expr, n: nat, rest: Tokens)
    requires n <= PRIMARY && Fits(e, n) && Stops(rest, n)
    ensures ReadExpr(n, Show(e, rest)) == Some((e, rest))
    decreases e, PRIMARY - n, 1
  {
    hide OpOf, OpToken, SignToken, SignOf, Narrow, Layer, ReadUnary, ReadPrimary;
    if n < UNARY {
      ReadLeft(e, n, rest);
      assert !Continues(rest, n);
    } else if n == UNARY {
      ReadShownUnary(e, rest);
    } else {
      ReadShownPrimary(e, rest);
    }
  }

  lemma {:induction false} ReadShownUnary(e: Ast.Expr, rest: Tokens)
    requires Fits(e, UNARY) && Stops(rest, UNARY)
    ensures ReadUnary(Show(e, rest)) == Some((e, rest))
    decreases e, PRIMARY - UNARY, 0
  {
    hide Layer, OpOf, OpToken, SignToken, Narrow, Stops, ReadPrimary, ReadArgs;
    if e.Unary? {
      ReadShown(e.arg, UNARY, rest);
    } else if e.Call? {
      ReadShownArgs(e.args, RParen, rest);
    } else {
      AfterName(rest, UNARY);
      ReadShownPrimary(e, rest);
    }
  }

  lemma {:induction false} ReadShownPrimary(e: Ast.Expr, rest: Tokens)
    requires Fits(e, PRIMARY) && Stops(rest, PRIMARY)
    ensures ReadPrimary(Show(e, rest)) == Some((e, rest))
    decreases e, 0, 0
  {
    hide Layer, OpOf, OpToken, SignToken, Narrow, Stops, ReadExpr;
    match e {
      case Num(k) => NarrowSmall(k);
      case Paren(i) =>
        ClosingStops(RParen, rest);
        ReadShown(i, OR, Token(RParen, rest));
      case Var(x) => AfterName(rest, PRIMARY);
      case Index(x, i) =>
        ClosingStops(RBracket, rest);
        ReadShown(i, OR, Token(RBracket, rest));
    }
  }

  lemma NarrowSmall(k: nat)
    requires k < LITERALS
    ensures Narrow(k) == k
  {
  }

  // Tokens after which no expression goes on.
  predicate Ends(t: Token) {
    t == RParen || t == RBracket || t == RBrace || t == Comma || t == Semi || t == Assign
  }

  lemma ClosingStops(t: Token, rest: Tokens)
    requires Ends(t)
    ensures Stops(Token(t, rest), OR)
  {
  }

  lemma AfterName(rest: Tokens, n: nat)
    requires Stops(rest, n)
    ensures !Starts(rest, LParen) && !Starts(rest, LBracket) && Stops(rest, PRIMARY)
  {
  }

  // Reading a left operand leaves the chain to be continued.
  lemma {:induction false} ReadLeft(e: Ast.Expr, n: nat, rest: Tokens)
    requires n < UNARY && Fits(e, n) && Stops(rest, n + 1)
    ensures ReadExpr(n, Show(e, rest)) == ReadChain(n, e, rest)
    decreases e, PRIMARY - n, 0
  {
    hide OpOf, OpToken, SignOf, SignToken, Narrow, Layer, ReadUnary, ReadPrimary, ReadChain, Stops, Continues;
    if e.Binary? && Layer(e.bop) == n {
      var right := Token(OpToken(e.bop), Show(e.r, rest));
      OperatorStops(e.bop, Show(e.r, rest));
      ReadLeft(e.l, n, right);
      ReadShown(e.r, n + 1, rest);
      ChainStep(e.bop, e.l, e.r, rest);
    } else {
      ReadShown(e, n + 1, rest);
    }
  }

  lemma ChainStep(op: Ast.BinOp, l: Ast.Expr, r: Ast.Expr, rest: Tokens)
    requires ReadExpr(Layer(op) + 1, Show(r, rest)) == Some((r, rest))
    ensures ReadChain(Layer(op), l, Token(OpToken(op), Show(r, rest)))
         == ReadChain(Layer(op), Ast.Binary(op, l, r), rest)
  {
    hide Layer, OpOf, OpToken;
  }

  lemma OperatorStops(op: Ast.BinOp, rest: Tokens)
    ensures Stops(Token(OpToken(op), rest), Layer(op) + 1)
  {
  }

  predicate Closing(t: Token) {
    t == RParen || t == RBrace
  }

  lemma {:induction false} ReadShownArgs(es: seq<Ast.Expr>, close: Token, rest: Tokens)
    requires AllFit(es) && Closing(close)
    ensures ReadArgs(ShowAll(es, Token(close, rest)), close) == Some((es, rest))
    decreases es, PRIMARY + 1, 1
  {
    if es == [] {
    } else {
      ReadShownMore(es, close, rest);
      FirstToken(es[0], if |es| == 1 then Token(close, rest) else Token(Comma, ShowAll(es[1..], Token(close, rest))));
    }
  }

  lemma {:induction false} ReadShownMore(es: seq<Ast.Expr>, close: Token, rest: Tokens)
    requires es != [] && AllFit(es) && Closing(close)
    ensures ReadMore(ShowAll(es, Token(close, rest)), close) == Some((es, rest))
    decreases es, PRIMARY + 1, 0
  {
    if |es| == 1 {
      ReadShown(es[0], OR, Token(close, rest));
      assert es == [es[0]];
    } else {
      ReadShown(es[0], OR, Token(Comma, ShowAll(es[1..], Token(close, rest))));
      ReadShownMore(es[1..], close, rest);
      assert es == [es[0]] + es[1..];
    }
  }

  // No expression begins with a token that ends one or begins another kind of statement.
  predicate Begins(t: Token) {
    t == LParen || t.Number? || t.Name? || SignOf(t).Some?
  }

  lemma {:induction false} FirstToken(e: Ast.Expr, rest: Tokens)
    ensures Show(e, rest).Token? && Begins(Show(e, rest).head)
  {
    if !e.Binary? {
    } else {
      FirstToken(e.l, Token(OpToken(e.bop), Show(e.r, rest)));
    }
  }

  // ----- only what the grammar derives is read -----

  // Tokens as the lexer makes them, with literals an `int` holds: names are not empty.
  predicate Lexed(ts: Tokens) {
    ts.Token? ==>
      && (ts.head.Number? ==> ts.head.n < LITERALS)
      && (ts.head.Name? ==> ts.head.x != "")
      && Lexed(ts.tail)
  }

  lemma {:induction false} ReadMeans(n: nat, ts: Tokens)
    requires n <= PRIMARY && Lexed(ts) && ReadExpr(n, ts).Some?
    ensures var (e, rest) := ReadExpr(n, ts).value; Fits(e, n) && Show(e, rest) == ts && Lexed(rest)
    decreases Length(ts), PRIMARY - n, 1
  {
    hide Layer, OpOf, OpToken, SignToken, SignOf, ReadUnary, ReadPrimary;
    if n < UNARY {
      ReadMeans(n + 1, ts);
      var (e, rest) := ReadExpr(n + 1, ts).value;
      ChainMeans(n, e, rest);
    } else if n == UNARY {
      UnaryMeans(ts);
    } else {
      PrimaryMeans(ts);
    }
  }

  lemma {:induction false} UnaryMeans(ts: Tokens)
    requires Lexed(ts) && ReadUnary(ts).Some?
    ensures var (e, rest) := ReadUnary(ts).value; Fits(e, UNARY) && Show(e, rest) == ts && Lexed(rest)
    decreases Length(ts), PRIMARY - UNARY, 0
  {
    hide Layer, OpOf, OpToken, SignToken, SignOf, Narrow, ReadPrimary, ReadArgs;
    if SignOf(ts.head).Some? {
      ReadMeans(UNARY, ts.tail);
    } else if ts.head.Name? && Starts(ts.tail, LParen) {
      assert Length(ts.tail.tail) < Length(ts);
      ArgsMean(ts.tail.tail, RParen);
    } else {
      PrimaryMeans(ts);
    }
  }

  lemma {:induction false} PrimaryMeans(ts: Tokens)
    requires Lexed(ts) && ReadPrimary(ts).Some?
    ensures var (e, rest) := ReadPrimary(ts).value; Fits(e, PRIMARY) && Show(e, rest) == ts && Lexed(rest)
    decreases Length(ts), 0, 0
  {
    hide Layer, OpOf, OpToken, SignToken, SignOf, Narrow, ReadExpr;
    if ts.head == LParen {
      ReadMeans(OR, ts.tail);
    } else if ts.head.Number? {
      NarrowSmall(ts.head.n);
    } else if Starts(ts.tail, LBracket) {
      assert Length(ts.tail.tail) < Length(ts);
      ReadMeans(OR, ts.tail.tail);
    }
  }

  // One operator read: what follows it, and the tree so far.
  lemma ChainReads(n: nat, left: Ast.Expr, ts: Tokens)
    requires n < UNARY && Continues(ts, n) && ReadChain(n, left, ts).Some?
    ensures ReadExpr(n + 1, ts.tail).Some?
    ensures var (right, rest) := ReadExpr(n + 1, ts.tail).value;
      ReadChain(n, left, ts) == ReadChain(n, Ast.Binary(OpOf(ts.head).value, left, right), rest)
  {
    hide Layer, OpOf, ReadExpr;
  }

  lemma ChainShows(n: nat, left: Ast.Expr, right: Ast.Expr, ts: Tokens, rest: Tokens)
    requires Continues(ts, n) && ts.tail == Show(right, rest) && Fits(left, n) && Fits(right, n + 1)
    ensures var e := Ast.Binary(OpOf(ts.head).value, left, right); Fits(e, n) && Show(e, rest) == Show(left, ts)
  {
    hide Layer, OpToken;
  }

  lemma {:induction false} ChainMeans(n: nat, left: Ast.Expr, ts: Tokens)
    requires n < UNARY && Lexed(ts) && Fits(left, n) && ReadChain(n, left, ts).Some?
    ensures var (e, rest) := ReadChain(n, left, ts).value; Fits(e, n) && Show(e, rest) == Show(left, ts) && Lexed(rest)
    decreases Length(ts), PRIMARY - n, 0
  {
    hide Layer, OpOf, OpToken, SignToken, SignOf, Fits, Show, ReadExpr;
    if Continues(ts, n) {
      ChainReads(n, left, ts);
      ReadMeans(n + 1, ts.tail);
      var (right, rest) := ReadExpr(n + 1, ts.tail).value;
      ChainShows(n, left, right, ts, rest);
      ChainMeans(n, Ast.Binary(OpOf(ts.head).value, left, right), rest);
    }
  }

  lemma {:induction false} ArgsMean(ts: Tokens, close: Token)
    requires Lexed(ts) && ReadArgs(ts, close).Some?
    ensures var (es, rest) := ReadArgs(ts, close).value;
      AllFit(es) && ShowAll(es, Token(close, rest)) == ts && Lexed(rest)
    decreases Length(ts), PRIMARY + 1, 1
  {
    if !Starts(ts, close) {
      MoreMeans(ts, close);
    }
  }

  lemma {:induction false} MoreMeans(ts: Tokens, close: Token)
    requires Lexed(ts) && ReadMore(ts, close).Some?
    ensures var (es, rest) := ReadMore(ts, close).value;
      es != [] && AllFit(es) && ShowAll(es, Token(close, rest)) == ts && Lexed(rest)
    decreases Length(ts), PRIMARY + 1, 0
  {
    ReadMeans(OR, ts);
    var (e, rest) := ReadExpr(OR, ts).value;
    if Starts(rest, Comma) {
      MoreMeans(rest.tail, close);
      var (es, after) := ReadMore(rest.tail, close).value;
      assert ([e] + es)[1..] == es;
    }
  }

  // ----- the main results for expressions -----

  // The reader accepts exactly the texts the grammar derives, with the one tree they have.
  lemma ExprLanguage(e: Ast.Expr, ts: Tokens)
    requires Lexed(ts)
    ensures ReadExpr(OR, ts) == Some((e, Done)) <==> Fits(e, OR) && ts == Show(e, Done)
  {
    if Fits(e, OR) && ts == Show(e, Done) {
      ReadShown(e, OR, Done);
    }
    if ReadExpr(OR, ts) == Some((e, Done)) {
      ReadMeans(OR, ts);
    }
  }

  lemma ExprUnambiguous(a: Ast.Expr, b: Ast.Expr)
    requires Fits(a, OR) && Fits(b, OR) && Show(a, Done) == Show(b, Done)
    ensures a == b
  {
    ReadShown(a, OR, Done);
    ReadShown(b, OR, Done);
  }

  // Larger literals are read as another number, the one that differs by a multiple of 2^32.
  lemma LiteralKept(k: nat)
    ensures Narrow(k) == k <==> k < LITERALS
    ensures -0x8000_0000 <= Narrow(k) < 0x8000_0000 && (k - Narrow(k)) % 0x1_0000_0000 == 0
  {
  }
}
