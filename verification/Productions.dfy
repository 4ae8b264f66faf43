// The expression grammar as it is written down: one predicate for each nonterminal of the grammar
// file, with the operators it lists and the nonterminals it mentions. `X(e, ts, rest)` says that X
// derives the tokens of ts in front of `rest`, with the tree e. The layered account agrees with it.
module Productions {
  import opened Wrappers
  import opened Grammar
  import Ast

  ghost predicate Exp(e: Ast.Expr, ts: Tokens, rest: Tokens)
    decreases e, 10
  {
    LOrExp(e, ts, rest)
  }

  ghost predicate LOrExp(e: Ast.Expr, ts: Tokens, rest: Tokens)
    decreases e, 9
  {
    match e
    case Binary(Or, l, r) => exists mid :: LOrExp(l, ts, Token(OrOr, mid)) && LAndExp(r, mid, rest)
    case _ => LAndExp(e, ts, rest)
  }

  ghost predicate LAndExp(e: Ast.Expr, ts: Tokens, rest: Tokens)
    decreases e, 8
  {
    match e
    case Binary(And, l, r) => exists mid :: LAndExp(l, ts, Token(AndAnd, mid)) && EqExp(r, mid, rest)
    case _ => EqExp(e, ts, rest)
  }

  ghost predicate EqExp(e: Ast.Expr, ts: Tokens, rest: Tokens)
    decreases e, 7
  {
    match e
    case Binary(Eq, l, r) => exists mid :: EqExp(l, ts, Token(EqEq, mid)) && RelExp(r, mid, rest)
    case Binary(Ne, l, r) => exists mid :: EqExp(l, ts, Token(NotEq, mid)) && RelExp(r, mid, rest)
    case _ => RelExp(e, ts, rest)
  }

  ghost predicate RelExp(e: Ast.Expr, ts: Tokens, rest: Tokens)
    decreases e, 6
  {
    match e
    case Binary(Lt, l, r) => exists mid :: RelExp(l, ts, Token(Less, mid)) && AddExp(r, mid, rest)
    case Binary(Gt, l, r) => exists mid :: RelExp(l, ts, Token(Greater, mid)) && AddExp(r, mid, rest)
    case Binary(Le, l, r) => exists mid :: RelExp(l, ts, Token(LessEq, mid)) && AddExp(r, mid, rest)
    case Binary(Ge, l, r) => exists mid :: RelExp(l, ts, Token(GreaterEq, mid)) && AddExp(r, mid, rest)
    case _ => AddExp(e, ts, rest)
  }

  ghost predicate AddExp(e: Ast.Expr, ts: Tokens, rest: Tokens)
    decreases e, 5
  {
    match e
    case Binary(Add, l, r) => exists mid :: AddExp(l, ts, Token(Plus, mid)) && MulExp(r, mid, rest)
    case Binary(Sub, l, r) => exists mid :: AddExp(l, ts, Token(Minus, mid)) && MulExp(r, mid, rest)
    case _ => MulExp(e, ts, rest)
  }

  ghost predicate MulExp(e: Ast.Expr, ts: Tokens, rest: Tokens)
    decreases e, 4
  {
    match e
    case Binary(Mul, l, r) => exists mid :: MulExp(l, ts, Token(Star, mid)) && UnaryExp(r, mid, rest)
    case Binary(Div, l, r) => exists mid :: MulExp(l, ts, Token(Slash, mid)) && UnaryExp(r, mid, rest)
    case Binary(Mod, l, r) => exists mid :: MulExp(l, ts, Token(Percent, mid)) && UnaryExp(r, mid, rest)
    case _ => UnaryExp(e, ts, rest)
  }

  ghost predicate UnaryExp(e: Ast.Expr, ts: Tokens, rest: Tokens)
    decreases e, 3
  {
    match e
    case Unary(Pos, a) => Starts(ts, Plus) && UnaryExp(a, ts.tail, rest)
    case Unary(Neg, a) => Starts(ts, Minus) && UnaryExp(a, ts.tail, rest)
    case Unary(Not, a) => Starts(ts, Bang) && UnaryExp(a, ts.tail, rest)
    case Call(f, args) =>
      && Starts(ts, Name(f)) && Starts(ts.tail, LParen)
      && if args == [] then Starts(ts.tail.tail, RParen) && ts.tail.tail.tail == rest
         else FuncRParams(args, ts.tail.tail, Token(RParen, rest))
    case _ => PrimaryExp(e, ts, rest)
  }

  ghost predicate FuncRParams(es: seq<Ast.Expr>, ts: Tokens, rest: Tokens)
    requires es != []
    decreases es, 11
  {
    if |es| == 1 then Exp(es[0], ts, rest)
    else exists mid :: Exp(es[0], ts, Token(Comma, mid)) && FuncRParams(es[1..], mid, rest)
  }

  ghost predicate PrimaryExp(e: Ast.Expr, ts: Tokens, rest: Tokens)
    decreases e, 2
  {
    match e
    case Paren(i) => Starts(ts, LParen) && Exp(i, ts.tail, Token(RParen, rest))
    case Num(k) => NumberLit(k, ts, rest)
    case _ => LVal(e, ts, rest)
  }

  // A literal that the `int` of a number node holds.
  predicate NumberLit(k: int, ts: Tokens, rest: Tokens) {
    ts.Token? && ts.head.Number? && ts.head.n == k < 0x8000_0000 && ts.tail == rest
  }

  ghost predicate LVal(e: Ast.Expr, ts: Tokens, rest: Tokens)
    decreases e, 1
  {
    match e
    case Var(x) => Starts(ts, Name(x)) && ts.tail == rest
    case Index(x, i) => Starts(ts, Name(x)) && Starts(ts.tail, LBracket) && Exp(i, ts.tail.tail, Token(RBracket, rest))
    case _ => false
  }

  // ----- each nonterminal derives what its layer fits, written as it is shown -----

  ghost predicate Written(e: Ast.Expr, n: nat, ts: Tokens, rest: Tokens) {
    Fits(e, n) && ts == Show(e, rest)
  }

  lemma {:induction false} ExpWritten(e: Ast.Expr, ts: Tokens, rest: Tokens)
    ensures Exp(e, ts, rest) <==> Written(e, OR, ts, rest)
    decreases e, 10
  {
    LOrWritten(e, ts, rest);
  }

  lemma {:induction false} LOrWritten(e: Ast.Expr, ts: Tokens, rest: Tokens)
    ensures LOrExp(e, ts, rest) <==> Written(e, 0, ts, rest)
    decreases e, 9
  {
    if e.Binary? && (e.bop.Or?) {
      var t := OpToken(e.bop);
      forall mid
        ensures LOrExp(e.l, ts, Token(t, mid)) <==> Written(e.l, 0, ts, Token(t, mid))
        ensures LAndExp(e.r, mid, rest) <==> Written(e.r, 1, mid, rest)
      {
        LOrWritten(e.l, ts, Token(t, mid));
        LAndWritten(e.r, mid, rest);
      }
      assert Written(e, 0, ts, rest) ==>
          LOrExp(e.l, ts, Token(t, Show(e.r, rest))) && LAndExp(e.r, Show(e.r, rest), rest);
    } else {
      LAndWritten(e, ts, rest);
    }
  }

  lemma {:induction false} LAndWritten(e: Ast.Expr, ts: Tokens, rest: Tokens)
    ensures LAndExp(e, ts, rest) <==> Written(e, 1, ts, rest)
    decreases e, 8
  {
    if e.Binary? && (e.bop.And?) {
      var t := OpToken(e.bop);
      forall mid
        ensures LAndExp(e.l, ts, Token(t, mid)) <==> Written(e.l, 1, ts, Token(t, mid))
        ensures EqExp(e.r, mid, rest) <==> Written(e.r, 2, mid, rest)
      {
        LAndWritten(e.l, ts, Token(t, mid));
        EqWritten(e.r, mid, rest);
      }
      assert Written(e, 1, ts, rest) ==>
          LAndExp(e.l, ts, Token(t, Show(e.r, rest))) && EqExp(e.r, Show(e.r, rest), rest);
    } else {
      EqWritten(e, ts, rest);
    }
  }

  lemma {:induction false} EqWritten(e: Ast.Expr, ts: Tokens, rest: Tokens)
    ensures EqExp(e, ts, rest) <==> Written(e, 2, ts, rest)
    decreases e, 7
  {
    if e.Binary? && (e.bop.Eq? || e.bop.Ne?) {
      var t := OpToken(e.bop);
      forall mid
        ensures EqExp(e.l, ts, Token(t, mid)) <==> Written(e.l, 2, ts, Token(t, mid))
        ensures RelExp(e.r, mid, rest) <==> Written(e.r, 3, mid, rest)
      {
        EqWritten(e.l, ts, Token(t, mid));
        RelWritten(e.r, mid, rest);
      }
      assert Written(e, 2, ts, rest) ==>
          EqExp(e.l, ts, Token(t, Show(e.r, rest))) && RelExp(e.r, Show(e.r, rest), rest);
    } else {
      RelWritten(e, ts, rest);
    }
  }

  lemma {:induction false} RelWritten(e: Ast.Expr, ts: Tokens, rest: Tokens)
    ensures RelExp(e, ts, rest) <==> Written(e, 3, ts, rest)
    decreases e, 6
  {
    if e.Binary? && (e.bop.Lt? || e.bop.Gt? || e.bop.Le? || e.bop.Ge?) {
      var t := OpToken(e.bop);
      forall mid
        ensures RelExp(e.l, ts, Token(t, mid)) <==> Written(e.l, 3, ts, Token(t, mid))
        ensures AddExp(e.r, mid, rest) <==> Written(e.r, 4, mid, rest)
      {
        RelWritten(e.l, ts, Token(t, mid));
        AddWritten(e.r, mid, rest);
      }
      assert Written(e, 3, ts, rest) ==>
          RelExp(e.l, ts, Token(t, Show(e.r, rest))) && AddExp(e.r, Show(e.r, rest), rest);
    } else {
      AddWritten(e, ts, rest);
    }
  }

  lemma {:induction false} AddWritten(e: Ast.Expr, ts: Tokens, rest: Tokens)
    ensures AddExp(e, ts, rest) <==> Written(e, 4, ts, rest)
    decreases e, 5
  {
    if e.Binary? && (e.bop.Add? || e.bop.Sub?) {
      var t := OpToken(e.bop);
      forall mid
        ensures AddExp(e.l, ts, Token(t, mid)) <==> Written(e.l, 4, ts, Token(t, mid))
        ensures MulExp(e.r, mid, rest) <==> Written(e.r, 5, mid, rest)
      {
        AddWritten(e.l, ts, Token(t, mid));
        MulWritten(e.r, mid, rest);
      }
      assert Written(e, 4, ts, rest) ==>
          AddExp(e.l, ts, Token(t, Show(e.r, rest))) && MulExp(e.r, Show(e.r, rest), rest);
    } else {
      MulWritten(e, ts, rest);
    }
  }

  lemma {:induction false} MulWritten(e: Ast.Expr, ts: Tokens, rest: Tokens)
    ensures MulExp(e, ts, rest) <==> Written(e, 5, ts, rest)
    decreases e, 4
  {
    if e.Binary? && (e.bop.Mul? || e.bop.Div? || e.bop.Mod?) {
      var t := OpToken(e.bop);
      forall mid
        ensures MulExp(e.l, ts, Token(t, mid)) <==> Written(e.l, 5, ts, Token(t, mid))
        ensures UnaryExp(e.r, mid, rest) <==> Written(e.r, 6, mid, rest)
      {
        MulWritten(e.l, ts, Token(t, mid));
        UnaryWritten(e.r, mid, rest);
      }
      assert Written(e, 5, ts, rest) ==>
          MulExp(e.l, ts, Token(t, Show(e.r, rest))) && UnaryExp(e.r, Show(e.r, rest), rest);
    } else {
      UnaryWritten(e, ts, rest);
    }
  }

  lemma {:induction false} UnaryWritten(e: Ast.Expr, ts: Tokens, rest: Tokens)
    ensures UnaryExp(e, ts, rest) <==> Written(e, UNARY, ts, rest)
    decreases e, 3
  {
    if e.Unary? {
      if ts.Token? {
        UnaryWritten(e.arg, ts.tail, rest);
      }
    } else if e.Call? {
      if e.args == [] {
        assert AllFit(e.args) && ShowAll(e.args, Token(RParen, rest)) == Token(RParen, rest);
      } else if Starts(ts, Name(e.f)) && Starts(ts.tail, LParen) {
        ParamsWritten(e.args, ts.tail.tail, Token(RParen, rest));
      }
    } else {
      PrimaryWritten(e, ts, rest);
    }
  }

  lemma {:induction false} ParamsWritten(es: seq<Ast.Expr>, ts: Tokens, rest: Tokens)
    requires es != []
    ensures FuncRParams(es, ts, rest) <==> AllFit(es) && ts == ShowAll(es, rest)
    decreases es, 11
  {
    if |es| == 1 {
      ExpWritten(es[0], ts, rest);
    } else {
      forall mid
        ensures Exp(es[0], ts, Token(Comma, mid)) <==> Written(es[0], OR, ts, Token(Comma, mid))
        ensures FuncRParams(es[1..], mid, rest) <==> AllFit(es[1..]) && mid == ShowAll(es[1..], rest)
      {
        ExpWritten(es[0], ts, Token(Comma, mid));
        ParamsWritten(es[1..], mid, rest);
      }
      var next := ShowAll(es[1..], rest);
      assert AllFit(es) && ts == ShowAll(es, rest) ==>
          Exp(es[0], ts, Token(Comma, next)) && FuncRParams(es[1..], next, rest);
    }
  }

  lemma {:induction false} PrimaryWritten(e: Ast.Expr, ts: Tokens, rest: Tokens)
    ensures PrimaryExp(e, ts, rest) <==> Written(e, PRIMARY, ts, rest)
    decreases e, 2
  {
    match e
    case Paren(i) =>
      if ts.Token? {
        ExpWritten(i, ts.tail, Token(RParen, rest));
      }
    case Index(x, i) =>
      if ts.Token? && ts.tail.Token? {
        ExpWritten(i, ts.tail.tail, Token(RBracket, rest));
      }
    case _ =>
  }

  // ----- the main result -----

  // The reader accepts exactly what the grammar's start symbol for expressions derives, with its tree.
  lemma ReadsGrammar(e: Ast.Expr, ts: Tokens)
    requires Lexed(ts)
    ensures ReadExpr(OR, ts) == Some((e, Done)) <==> Exp(e, ts, Done)
  {
    ExprLanguage(e, ts);
    ExpWritten(e, ts, Done);
  }
}
