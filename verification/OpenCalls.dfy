/** Calls that are left open: the parser takes the `(` or the `.` behind an operand for an operator and
    asks for nothing more, the printer has no sign for it, and what was accepted is printed as a text
    that is not. */
module OpenCalls {
  import opened Tokens
  import opened Ast
  import opened LexerSpec
  import opened ExprParserSpec
  import opened FormatSpec
  import opened LexerFacts
  import opened Pratt
  import opened ExprRoundTrip

  /** The tree of an expression with an open call does not start with a number. */
  lemma OpenStart(e: Expr, k: Toks)
    requires Writable(e) && !Closed(e)
    ensures Then(CstOf(e), k).Cons?
    ensures var t := Then(CstOf(e), k).head.kind; t != INT && t != DECIMAL && t != RPAREN
    ensures !CstOf(e).Prim?
  {
    FirstOf(CstOf(e), k);
  }

  lemma {:induction false} OpenUnaryFails(op: TokenType, right: Expr, k: Toks, errs: nat)
    requires (op == MINUS || op == NOT) && Writable(right) && !Closed(right)
    ensures ParsePrefix(State(Then(CstOf(Unary(op, right)), k), errs)).0.errs > errs
    decreases right, 3
  {
    hide ParseExpression;
    OpenStart(right, k);
    OpenFails(right, k, PREFIX, errs);
  }

  /** Inside the parentheses of an operation. */
  lemma {:induction false} OpenInfixFails(op: TokenType, l: Expr, r: Expr, k: Toks, errs: nat)
    requires Writable(Binary(op, l, r)) && !Closed(Binary(op, l, r)) && !(IsOpenOp(op) && Closed(l))
    ensures ParseExpression(State(Then(CstOf(l), Cons(OpToken(op), Then(CstOf(r), k))), errs), LOWEST).0.errs > errs
    decreases Binary(op, l, r), 0
  {
    hide ParseExpression, ParseInfixes;
    var rest := Then(CstOf(r), k);
    if !Closed(l) {
      OpenFails(l, Cons(OpToken(op), rest), LOWEST, errs);
    } else {
      var c, level := CstOf(l), Precedence(op);
      LexicalIsClosed(l);
      CstOfLegal(l);
      Completes(c, Cons(OpToken(op), rest), LOWEST, level - 1, errs);
      TakesOperator(Last(c), OpToken(op), rest, LOWEST, Erase(c), errs);
      OpenFails(r, k, level, errs);
    }
  }

  lemma {:induction false} OpenBinaryFails(op: TokenType, l: Expr, r: Expr, k: Toks, errs: nat)
    requires Writable(Binary(op, l, r)) && !Closed(Binary(op, l, r))
    ensures ParsePrefix(State(Then(CstOf(Binary(op, l, r)), k), errs)).0.errs > errs
    decreases Binary(op, l, r), 1
  {
    hide ParseExpression;
    var rest := Cons(OpToken(op), Then(CstOf(r), Cons(RPAREN_TOKEN, k)));
    if IsOpenOp(op) && Closed(l) {
      LexicalIsClosed(l);
      CstOfLegal(l);
      Reads(CstOf(l), rest, LOWEST, errs);
    } else {
      OpenInfixFails(op, l, r, Cons(RPAREN_TOKEN, k), errs);
    }
  }

  lemma {:induction false} OpenMoreArgsFail(prev: Token, args: seq<Expr>, done: seq<Expr>, k: Toks, errs: nat)
    requires (forall a <- args :: Writable(a)) && !(forall a <- args :: Closed(a))
    ensures ParseMoreArgs(State(Cons(prev, MoreThen(CstsOf(args), Cons(RPAREN_TOKEN, k))), errs), done).0.errs > errs
    decreases args
  {
    hide ParseExpression;
    var k1 := MoreThen(CstsOf(args[1..]), Cons(RPAREN_TOKEN, k));
    assert CstsOf(args)[0] == CstOf(args[0]) && CstsOf(args)[1..] == CstsOf(args[1..]);
    if Closed(args[0]) {
      LexicalIsClosed(args[0]);
      CstOfLegal(args[0]);
      Reads(CstOf(args[0]), k1, LOWEST, errs);
      OpenMoreArgsFail(Last(CstOf(args[0])), args[1..], done + [ReadBack(args[0])], k, errs);
    } else {
      OpenFails(args[0], k1, LOWEST, errs);
    }
  }

  lemma {:induction false} OpenCallFails(name: Token, args: seq<Expr>, k: Toks, errs: nat)
    requires (forall a <- args :: Writable(a)) && !(forall a <- args :: Closed(a))
    ensures ParseCall(State(Then(Applied(name, CstsOf(args)), k), errs), name.literal).0.errs > errs
    decreases args
  {
    hide ParseExpression, ParseMoreArgs;
    var close := Cons(RPAREN_TOKEN, k);
    var k1 := MoreThen(CstsOf(args[1..]), close);
    assert CstsOf(args)[0] == CstOf(args[0]) && CstsOf(args)[1..] == CstsOf(args[1..]);
    var st := State(Cons(LPAREN_TOKEN, Then(CstOf(args[0]), k1)), errs);
    if Closed(args[0]) {
      LexicalIsClosed(args[0]);
      CstOfLegal(args[0]);
      FirstOf(CstOf(args[0]), k1);
      assert st.Next() == State(Then(CstOf(args[0]), k1), errs) && !st.PeekIs(RPAREN);
      Reads(CstOf(args[0]), k1, LOWEST, errs);
      OpenMoreArgsFail(Last(CstOf(args[0])), args[1..], [ReadBack(args[0])], k, errs);
    } else {
      OpenStart(args[0], k1);
      assert st.Next() == State(Then(CstOf(args[0]), k1), errs) && !st.PeekIs(RPAREN);
      OpenFails(args[0], k1, LOWEST, errs);
    }
  }

  /** Reading the tokens of an expression with an open call records an error, wherever it stands. */
  lemma {:induction false} OpenFails(e: Expr, k: Toks, p: nat, errs: nat)
    requires Writable(e) && !Closed(e) && LOWEST <= p
    ensures ParseExpression(State(Then(CstOf(e), k), errs), p).0.errs > errs
    decreases e, 2
  {
    hide ParseInfixes, ParsePrefix;
    match e
    case Unary(op, right) => OpenUnaryFails(op, right, k, errs);
    case Binary(op, l, r) => OpenBinaryFails(op, l, r, k, errs);
    case Call(name, args) => OpenNamedCallFails(name, args, k, errs);
  }

  lemma {:induction false} OpenNamedCallFails(name: string, args: seq<Expr>, k: Toks, errs: nat)
    requires Writable(Call(name, args)) && !Closed(Call(name, args))
    ensures ParsePrefix(State(Then(CstOf(Call(name, args)), k), errs)).0.errs > errs
    decreases Call(name, args), 0
  {
    hide ParseCall;
    OpenCallFails(WordToken(name), args, k, errs);
  }

  /** EXACTLY.  The printed text of a writable expression is read without an error, wherever it stands
      before a delimiter that no operator follows, if and only if no call is left open in it. */
  lemma {:induction false} ReadableExactly(e: Expr, k: string, p: nat, errs: nat)
    requires Writable(e) && Delimits(k)
    requires LOWEST <= p && Precedence(StreamOf(k).Current().kind) == LOWEST
    ensures ParseExpression(State(StreamOf(FormatExpr(e) + k), errs), p).0.errs == errs <==> Closed(e)
  {
    hide ParseExpression, StreamOf;
    LexicalIsClosed(e);
    if Closed(e) {
      ReadsBack(e, k, p, errs);
    } else {
      LexExpr(e, k);
      OpenFails(e, StreamOf(k), p, errs);
    }
  }

  /** The parser takes any operator of its table behind an operand: `1(2` is accepted without an error,
      and what it is printed as is not. */
  lemma {:induction false} OpenCallIsAccepted(k: string, errs: nat)
    requires Delimits(k) && StopsExpression(StreamOf(k).Current().kind)
    ensures var e := Binary(LPAREN, Lit(LitInt, "1"), Lit(LitInt, "2"));
            && ParseExpression(State(StreamOf("1(" + ("2" + k)), errs), LOWEST) == (State(Cons(Token(INT, "2"), StreamOf(k)), errs), e)
            && FormatExpr(e) == "(1 ? 2)"
            && ParseExpression(State(StreamOf(FormatExpr(e) + k), errs), LOWEST).0.errs > errs
  {
    var left, right := Lit(LitInt, "1"), Lit(LitInt, "2");
    var e := Binary(LPAREN, left, right);
    assert IsInteger("1") && IsInteger("2");
    assert Writable(e);
    LexOpenCall(k);
    ReadOpenCall(StreamOf(k), errs);
    assert FormatExpr(left) == "1" && FormatExpr(right) == "2" && OpText(LPAREN) == "?";
    hide ParseExpression, StreamOf, FormatExpr;
    ReadableExactly(e, k, LOWEST, errs);
  }

  lemma LexOpenCall(k: string)
    requires Delimits(k)
    ensures StreamOf("1(" + ("2" + k)) == Cons(Token(INT, "1"), Cons(LPAREN_TOKEN, Cons(Token(INT, "2"), StreamOf(k))))
  {
    var s := "1(" + ("2" + k);
    LexInteger("2", k);
    LexPunctuation('(', "2" + k);
    hide StreamOf;
    assert s == "1" + ("(" + ("2" + k)) && ['('] == "(";
    DigitEndOf("1", "(" + ("2" + k));
    DigitBranch(s);
    Cut("1", "(" + ("2" + k));
    LexAs(s, Token(INT, "1"), "(" + ("2" + k));
  }

  lemma ReadOpenCall(k: Toks, errs: nat)
    requires StopsExpression(k.Current().kind)
    ensures ParseExpression(State(Cons(Token(INT, "1"), Cons(LPAREN_TOKEN, Cons(Token(INT, "2"), k))), errs), LOWEST)
         == (State(Cons(Token(INT, "2"), k), errs), Binary(LPAREN, Lit(LitInt, "1"), Lit(LitInt, "2")))
  {
    var two := State(Cons(Token(INT, "2"), k), errs);
    assert ParseExpression(two, 9) == (two, Lit(LitInt, "2"));
    var left := Lit(LitInt, "1");
    var st := State(Cons(LPAREN_TOKEN, two.toks), errs);
    assert ParseInfix(st, left) == (two, Binary(LPAREN, left, Lit(LitInt, "2")));
    assert ParseInfixes(two, LOWEST, Binary(LPAREN, left, Lit(LitInt, "2"))) == (two, Binary(LPAREN, left, Lit(LitInt, "2")));
  }
}
