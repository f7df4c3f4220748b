/** What the Pratt parser computes, as functions on the tokens that are still unread. */
module ExprParserSpec {
  import opened Tokens
  import opened Ast

  const LOWEST: nat := 1
  const PREFIX: nat := 8

  function Precedence(t: TokenType): nat {
    if t == OR then 2
    else if t == AND then 3
    else if t == EQUAL || t == NOT_EQUAL then 4
    else if t == LESS || t == LESS_EQ || t == GREATER || t == GREAT_EQ then 5
    else if t == PLUS || t == MINUS then 6
    else if t == STAR || t == SLASH || t == PERCENT then 7
    else if t == LPAREN then 9
    else if t == DOT then 10
    else LOWEST
  }

  /** The parser's state: the current token and all that follow, and how many errors it recorded. */
  datatype State = State(toks: Toks, errs: nat) {
    function Current(): Token { toks.Current() }
    function Peek(): Token { toks.Peek() }
    function Next(): (r: State)
      ensures r.Size() == if toks.End? then 0 else Size() - 1
      ensures Peek().kind != EOF ==> r.toks.Cons?
    {
      State(toks.Advance(), errs)
    }

    function Fail(): State { State(toks, errs + 1) }
    function Size(): nat { toks.Size() }
    predicate CurIs(t: TokenType) { Current().kind == t }
    predicate PeekIs(t: TokenType) { Peek().kind == t }

    /** Moves to the next token if it is as wanted, and records an error if it is not. */
    function Expect(t: TokenType): (r: (State, bool))
      ensures r.0.Size() <= Size() && errs <= r.0.errs && (r.1 <==> r.0.errs == errs)
      ensures r.1 && t != EOF ==> r.0.toks.Cons? && r.0.Size() == Size() - 1
    {
      if PeekIs(t) then (Next(), true) else (Fail(), false)
    }
  }

  predicate StopsExpression(t: TokenType) {
    t == SEMICOLON || t == COMMA || t == RBRACE || t == RPAREN
  }

  function LiteralConstructor(name: string): Option<LitKind> {
    match name
    case "ts" => Some(LitTimestamp)
    case "timestamp" => Some(LitTimestamp)
    case "date" => Some(LitDate)
    case "dur" => Some(LitDuration)
    case "duration" => Some(LitDuration)
    case "atom" => Some(LitAtom)
    case "dec" => Some(LitDecimal)
    case "decimal" => Some(LitDecimal)
    case _ => None
  }

  /** Follows `.name` steps; `None` when a dot is not followed by a name. */
  function PathTail(st: State, path: string): (r: (State, Option<string>))
    ensures r.0.Size() <= st.Size() && st.errs <= r.0.errs
    ensures r.1.None? ==> r.0.errs != st.errs
    decreases st.Size()
  {
    if !st.PeekIs(DOT) then (st, Some(path))
    else
      var dot := st.Next();
      if !IsPathToken(dot.Peek().kind) then (dot.Fail(), None)
      else var name := dot.Next(); PathTail(name, path + "." + name.Current().literal)
  }

  function PathExpression(st: State): (r: (State, Option<string>))
    ensures r.0.Size() <= st.Size() && st.errs <= r.0.errs
    ensures r.1.None? ==> r.0.errs != st.errs
  {
    if !IsPathToken(st.Current().kind) then (st.Fail(), None)
    else PathTail(st, st.Current().literal)
  }

  function ParseExpression(st: State, precedence: nat): (r: (State, Expr))
    requires precedence >= LOWEST
    ensures r.0.Size() <= st.Size() && st.errs <= r.0.errs
    ensures r.1 == Nil ==> r.0.errs != st.errs
    decreases st.Size(), 3
  {
    var (st1, prefix) := ParsePrefix(st);
    if prefix == Nil then (st1, Nil) else ParseInfixes(st1, precedence, prefix)
  }

  /** The loop that extends `left` while the next token binds tighter than `precedence`. */
  function ParseInfixes(st: State, precedence: nat, left: Expr): (r: (State, Expr))
    requires precedence >= LOWEST
    ensures r.0.Size() <= st.Size() && st.errs <= r.0.errs
    ensures left != Nil ==> r.1 != Nil
    decreases st.Size(), 2
  {
    if StopsExpression(st.Peek().kind) || precedence >= Precedence(st.Peek().kind) then (st, left)
    else
      var (st1, e) := ParseInfix(st.Next(), left);
      ParseInfixes(st1, precedence, e)
  }

  /** One binary operator, whose token is the current one, and its right operand. */
  function ParseInfix(st: State, left: Expr): (r: (State, Expr))
    requires !st.CurIs(EOF)
    ensures r.0.Size() <= st.Size() && st.errs <= r.0.errs
    ensures r.1 != Nil && (st.toks.Cons? ==> r.0.Size() < st.Size())
    decreases st.Size(), 0
  {
    var (st1, right) := ParseExpression(st.Next(), Precedence(st.Current().kind));
    (st1, Binary(st.Current().kind, left, right))
  }

  function ParsePrefix(st: State): (r: (State, Expr))
    ensures r.0.Size() <= st.Size() && st.errs <= r.0.errs
    ensures r.1 == Nil ==> r.0.errs != st.errs
    decreases st.Size(), 2
  {
    var cur := st.Current();
    if IsPathToken(cur.kind) then ParsePathOrFunction(st)
    else if cur.kind == STRING then (st, Lit(LitString, cur.literal))
    else if cur.kind == INT then (st, Lit(LitInt, cur.literal))
    else if cur.kind == DECIMAL then (st, Lit(LitDecimal, cur.literal))
    else if cur.kind == TRUE then (st, Lit(LitBool, "true"))
    else if cur.kind == FALSE then (st, Lit(LitBool, "false"))
    else if cur.kind == NULL then (st, Lit(LitNull, "null"))
    else if cur.kind == ATOM then (st, Lit(LitAtom, cur.literal))
    else if cur.kind == MINUS && st.PeekIs(INT) then
      (st.Next(), Lit(LitInt, "-" + st.Peek().literal))
    else if cur.kind == MINUS && st.PeekIs(DECIMAL) then
      (st.Next(), Lit(LitDecimal, "-" + st.Peek().literal))
    else if cur.kind == MINUS || cur.kind == NOT then
      var (st1, right) := ParseExpression(st.Next(), PREFIX);
      (st1, Unary(cur.kind, right))
    else if cur.kind == LPAREN then
      var (st1, inner) := ParseExpression(st.Next(), LOWEST);
      var (st2, closed) := st1.Expect(RPAREN);
      (st2, if closed then inner else Nil)
    else if IsBuiltin(cur.kind) then ParseCall(st, cur.literal)
    else (st.Fail(), Nil)
  }

  function ParsePathOrFunction(st: State): (r: (State, Expr))
    ensures r.0.Size() <= st.Size() && st.errs <= r.0.errs
    ensures r.1 == Nil ==> r.0.errs != st.errs
    decreases st.Size(), 1
  {
    var name := st.Current().literal;
    if st.PeekIs(LPAREN) then
      match LiteralConstructor(name)
      case Some(kind) =>
        var arg := st.Next().Next();
        (arg.Expect(RPAREN).0, Lit(kind, arg.Current().literal))
      case None => ParseCall(st, name)
    else
      match PathTail(st, name)
      case (st1, Some(path)) => (st1, Path(path))
      case (st1, None) => (st1, Nil)
  }

  function ParseCall(st: State, name: string): (r: (State, Expr))
    ensures r.0.Size() <= st.Size() && st.errs <= r.0.errs
    ensures r.1 == Nil ==> r.0.errs != st.errs
    decreases st.Size(), 0
  {
    var (st1, isCall) := st.Expect(LPAREN);
    if !isCall then (st1, Nil)
    else
      var (st2, args) := if st1.PeekIs(RPAREN) then (st1, []) else
        var (st1a, first) := ParseExpression(st1.Next(), LOWEST);
        ParseMoreArgs(st1a, [first]);
      var (st3, closed) := st2.Expect(RPAREN);
      (st3, if closed then Call(name, args) else Nil)
  }

  /** The loop over the arguments that follow a comma. */
  function ParseMoreArgs(st: State, args: seq<Expr>): (r: (State, seq<Expr>))
    ensures r.0.Size() <= st.Size() && st.errs <= r.0.errs
    decreases st.Size(), 0
  {
    if !st.PeekIs(COMMA) then (st, args)
    else
      var (st1, arg) := ParseExpression(st.Next().Next(), LOWEST);
      ParseMoreArgs(st1, args + [arg])
  }
}
