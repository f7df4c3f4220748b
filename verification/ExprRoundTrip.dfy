/** Printing an expression and reading it back: the text is lexed into the tokens of a fully
    parenthesised tree, which the parser reads as the expression with its signs folded in. */
module ExprRoundTrip {
  import opened Tokens
  import opened Ast
  import opened LexerSpec
  import opened ExprParserSpec
  import opened FormatSpec
  import opened LexerFacts
  import opened Pratt

  // ----- the expressions the printer can represent -----

  /** Path words joined by dots. */
  predicate IsPath(p: string)
    decreases |p|
  {
    var n := WordEnd(p);
    IsPathWord(p[..n]) && (n == |p| || (p[n] == '.' && IsPath(p[n + 1..])))
  }

  /** The number behind an optional sign. */
  function Unsigned(t: string): string {
    if t != "" && t[0] == '-' then t[1..] else t
  }

  /** The literals that can be read back as they were. */
  predicate PrintableLiteral(kind: LitKind, t: string) {
    LexicalLiteral(kind, t) &&
    match kind
    case LitString => IsPlain(t)
    case LitTimestamp => IsPlain(t)
    case LitDate => IsPlain(t)
    case LitDuration => IsPlain(t)
    case LitDecimal => IsDecimal(Unsigned(t))
    case _ => true
  }

  /** The literals whose text is one literal again, though maybe another one: a string may hold any
      ASCII character, and a decimal need not have a fraction. */
  predicate LexicalLiteral(kind: LitKind, t: string) {
    match kind
    case LitInt => IsInteger(Unsigned(t))
    case LitDecimal => IsInteger(Unsigned(t)) || IsDecimal(Unsigned(t))
    case LitBool => t == "true" || t == "false"
    case LitNull => t == "null"
    case LitAtom => IsWord(t)
    case _ => IsAscii(t)
  }

  /** Built-in names, and names that are not literal constructors. */
  predicate IsFunctionName(name: string) {
    && IsWord(name)
    && (IsBuiltin(LookupIdent(name)) || (IsPathToken(LookupIdent(name)) && LiteralConstructor(name).None?))
  }

  predicate Lexical(e: Expr)
    decreases e
  {
    match e
    case Nil => false
    case Path(p) => IsPath(p)
    case Lit(kind, t) => LexicalLiteral(kind, t)
    case Unary(op, right) => (op == MINUS || op == NOT) && Lexical(right)
    case Binary(op, l, r) => IsBinaryOp(op) && Lexical(l) && Lexical(r)
    case Call(name, args) => IsFunctionName(name) && forall a <- args :: Lexical(a)
  }

  /** What the parser takes for an operator, its precedence table listing it, though it is none. */
  predicate IsOpenOp(op: TokenType) {
    op == LPAREN || op == DOT
  }

  /** The printed text is one token for every token of the tree, whether or not it can be read. */
  predicate Writable(e: Expr)
    decreases e
  {
    match e
    case Nil => false
    case Path(p) => IsPath(p)
    case Lit(kind, t) => LexicalLiteral(kind, t)
    case Unary(op, right) => (op == MINUS || op == NOT) && Writable(right)
    case Binary(op, l, r) => (IsBinaryOp(op) || IsOpenOp(op)) && Writable(l) && Writable(r)
    case Call(name, args) => IsFunctionName(name) && forall a <- args :: Writable(a)
  }

  /** No call is left open: the expression holds no operator that is none. */
  predicate Closed(e: Expr)
    decreases e
  {
    match e
    case Unary(_, right) => Closed(right)
    case Binary(op, l, r) => !IsOpenOp(op) && Closed(l) && Closed(r)
    case Call(_, args) => forall a <- args :: Closed(a)
    case _ => true
  }

  lemma {:induction false} LexicalIsClosed(e: Expr)
    ensures Lexical(e) <==> Writable(e) && Closed(e)
    decreases e
  {
    match e
    case Unary(_, r) => LexicalIsClosed(r);
    case Binary(_, l, r) => LexicalIsClosed(l); LexicalIsClosed(r);
    case Call(_, args) => forall a | a in args ensures Lexical(a) <==> Writable(a) && Closed(a) { LexicalIsClosed(a); }
    case _ =>
  }

  predicate Printable(e: Expr)
    decreases e
  {
    match e
    case Nil => false
    case Path(p) => IsPath(p)
    case Lit(kind, t) => PrintableLiteral(kind, t)
    case Unary(op, right) => (op == MINUS || op == NOT) && Printable(right)
    case Binary(op, l, r) => IsBinaryOp(op) && Printable(l) && Printable(r)
    case Call(name, args) => IsFunctionName(name) && forall a <- args :: Printable(a)
  }

  lemma {:induction false} PrintableIsLexical(e: Expr)
    requires Printable(e)
    ensures Lexical(e)
    decreases e
  {
    match e
    case Path(_) =>
    case Lit(_, _) =>
    case Unary(_, r) => PrintableIsLexical(r);
    case Binary(_, l, r) => PrintableIsLexical(l); PrintableIsLexical(r);
    case Call(_, args) => forall a | a in args ensures Lexical(a) { PrintableIsLexical(a); }
  }

  // ----- what reading back changes -----

  predicate IsUnsignedNumber(e: Expr) {
    e.Lit? && (e.kind == LitInt || e.kind == LitDecimal) && Unsigned(e.text) == e.text
  }

  /** A minus sign directly before an unsigned number joins it. */
  function Signed(op: TokenType, e: Expr): Expr {
    if op == MINUS && IsUnsignedNumber(e) then Lit(e.kind, "-" + e.text) else Unary(op, e)
  }

  /** The normal form: signs are part of the numbers behind them. */
  function Norm(e: Expr): Expr
    decreases e
  {
    match e
    case Unary(op, right) => Signed(op, Norm(right))
    case Binary(op, l, r) => Binary(op, Norm(l), Norm(r))
    case Call(name, args) => Call(name, NormAll(args))
    case _ => e
  }

  function NormAll(args: seq<Expr>): (r: seq<Expr>)
    ensures |r| == |args|
    decreases args
  {
    if args == [] then [] else [Norm(args[0])] + NormAll(args[1..])
  }

  function ReadLiteral(kind: LitKind, t: string): Expr {
    match kind
    case LitDecimal => Lit(if IsInteger(Unsigned(t)) then LitInt else LitDecimal, t)
    case LitString => Lit(kind, Mangle(t))
    case LitTimestamp => Lit(kind, Mangle(t))
    case LitDate => Lit(kind, Mangle(t))
    case LitDuration => Lit(kind, Mangle(t))
    case _ => Lit(kind, t)
  }

  /** What the parser makes of a printed expression, good or bad. */
  function ReadBack(e: Expr): Expr
    decreases e
  {
    match e
    case Lit(kind, t) => ReadLiteral(kind, t)
    case Unary(op, right) => Signed(op, ReadBack(right))
    case Binary(op, l, r) => Binary(op, ReadBack(l), ReadBack(r))
    case Call(name, args) => Call(name, ReadBackAll(args))
    case _ => e
  }

  function ReadBackAll(args: seq<Expr>): (r: seq<Expr>)
    ensures |r| == |args|
    decreases args
  {
    if args == [] then [] else [ReadBack(args[0])] + ReadBackAll(args[1..])
  }

  // ----- the concrete tree of a printed expression -----

  function WordToken(w: string): Token {
    Token(LookupIdent(w), w)
  }

  function PathTokens(p: string): (ts: seq<Token>)
    ensures ts != []
    decreases |p|
  {
    var n := WordEnd(p);
    [WordToken(p[..n])] + if n == |p| then [] else PathTokens(p[n + 1..])
  }

  function ConstructorWord(kind: LitKind): string {
    match kind case LitTimestamp => "ts" case LitDate => "date" case _ => "dur"
  }

  function NumberTree(kind: TokenType, t: string): Cst {
    if Unsigned(t) == t then Prim(Token(kind, t)) else Negated(Token(kind, Unsigned(t)))
  }

  function LiteralTree(kind: LitKind, t: string): Cst {
    match kind
    case LitString => Prim(Token(STRING, Mangle(t)))
    case LitInt => NumberTree(INT, t)
    case LitDecimal => NumberTree(if IsInteger(Unsigned(t)) then INT else DECIMAL, t)
    case LitBool => Prim(WordToken(t))
    case LitNull => Prim(WordToken(t))
    case LitAtom => Prim(Token(ATOM, t))
    case _ => Constructed(Token(IDENT, ConstructorWord(kind)), Token(STRING, Mangle(t)))
  }

  /** The printer has no sign for what is no operator, and the lexer no token for what it writes instead. */
  function OpToken(op: TokenType): Token {
    Token(if IsBinaryOp(op) then op else ILLEGAL, OpText(op))
  }

  /** The tree whose tokens the printer writes; nothing is printed for `Nil`. */
  function CstOf(e: Expr): Cst
    decreases e
  {
    match e
    case Nil => Prim(EOF_TOKEN)
    case Path(p) => var ts := PathTokens(p); Dotted(ts[0], ts[1..])
    case Lit(kind, t) => LiteralTree(kind, t)
    case Unary(op, right) =>
      var c := CstOf(right);
      if op == NOT then Prefixed(Token(NOT, "!"), c)
      else if c.Prim? && (c.token.kind == INT || c.token.kind == DECIMAL) then Negated(c.token)
      else Prefixed(MINUS_TOKEN, c)
    case Binary(op, l, r) => Group(Infixed(CstOf(l), OpToken(op), CstOf(r)))
    case Call(name, args) => Applied(WordToken(name), CstsOf(args))
  }

  function CstsOf(args: seq<Expr>): (cs: seq<Cst>)
    ensures |cs| == |args|
    decreases args
  {
    if args == [] then [] else [CstOf(args[0])] + CstsOf(args[1..])
  }

  lemma KeywordLiterals()
    ensures LookupIdent("true") == TRUE && LookupIdent("false") == FALSE && LookupIdent("null") == NULL
    ensures IsName("ts") && IsName("date") && IsName("dur")
  {
    ConstructorNames();
  }

  lemma ConstructorNames()
    ensures IsName("ts") && IsName("date") && IsName("dur")
  {
  }

  lemma SplitAtDot(p: string, n: nat)
    requires n < |p| && p[n] == '.'
    ensures p == p[..n] + ("." + p[n + 1..])
  {
  }

  lemma DotTextStep(ts: seq<Token>)
    requires ts != []
    ensures DotText(ts) == "." + (ts[0].literal + DotText(ts[1..]))
  {
    assert ("." + ts[0].literal) + DotText(ts[1..]) == "." + (ts[0].literal + DotText(ts[1..]));
  }

  lemma {:induction false} PathTokensLegal(p: string)
    requires IsPath(p)
    ensures forall t <- PathTokens(p) :: IsPathToken(t.kind)
    ensures PathTokens(p)[0].literal + DotText(PathTokens(p)[1..]) == p
    decreases |p|
  {
    var n := WordEnd(p);
    if n == |p| {
      assert p[..n] + "" == p;
    } else {
      var rest := PathTokens(p[n + 1..]);
      PathTokensLegal(p[n + 1..]);
      assert PathTokens(p)[1..] == rest;
      DotTextStep(rest);
      SplitAtDot(p, n);
    }
  }

  lemma LiteralTreeLegal(kind: LitKind, t: string)
    requires LexicalLiteral(kind, t)
    ensures Legal(LiteralTree(kind, t)) && Ordinary(LiteralTree(kind, t)) && !LiteralTree(kind, t).Infixed?
    ensures Erase(LiteralTree(kind, t)) == ReadLiteral(kind, t)
  {
    KeywordLiterals();
    if kind == LitInt || kind == LitDecimal {
      assert Unsigned(t) != t ==> t == "-" + Unsigned(t);
    }
  }

  /** The tree is precedence-correct and means the normal form of the expression. */
  lemma {:induction false} CstOfLegal(e: Expr)
    requires Lexical(e)
    ensures Legal(CstOf(e)) && Ordinary(CstOf(e)) && !CstOf(e).Infixed?
    ensures Erase(CstOf(e)) == ReadBack(e)
    decreases e
  {
    match e
    case Path(p) => PathTokensLegal(p);
    case Lit(kind, t) => LiteralTreeLegal(kind, t);
    case Unary(op, right) => CstOfLegal(right); SignOf(right);
    case Binary(op, l, r) => CstOfLegal(l); CstOfLegal(r);
    case Call(name, args) => CstsOfLegal(args);
  }

  /** An unsigned number is the only tree that starts with a number, and the only one a sign joins. */
  lemma SignOf(e: Expr)
    requires Lexical(e) && Legal(CstOf(e)) && !CstOf(e).Infixed? && Erase(CstOf(e)) == ReadBack(e)
    ensures var c, n := CstOf(e), ReadBack(e);
            var number := c.Prim? && (c.token.kind == INT || c.token.kind == DECIMAL);
            && ((First(c).kind == INT || First(c).kind == DECIMAL) ==> number)
            && (number <==> IsUnsignedNumber(n))
  {
    if e.Lit? {
      LiteralTreeLegal(e.kind, e.text);
      KeywordLiterals();
    }
  }

  lemma {:induction false} CstsOfLegal(args: seq<Expr>)
    requires forall a <- args :: Lexical(a)
    ensures forall c <- CstsOf(args) :: Legal(c) && Ordinary(c)
    ensures EraseAll(CstsOf(args)) == ReadBackAll(args)
    decreases args
  {
    if args != [] {
      CstOfLegal(args[0]);
      CstsOfLegal(args[1..]);
      assert CstsOf(args)[1..] == CstsOf(args[1..]);
    }
  }

  // ----- lexing a printed expression -----

  lemma FirstDigit(t: string)
    requires IsDecimal(t) || IsInteger(t)
    ensures t != "" && IsDigit(t[0])
  {
    if !IsInteger(t) {
      var n: nat :| n < |t| && t[n] == '.' && IsInteger(t[..n]) && IsInteger(t[n + 1..]);
      assert t[..n][0] == t[0];
    }
  }

  /** A printed expression starts with no character that could change the token before it. */
  lemma FirstCharacter(e: Expr)
    requires Writable(e)
    ensures FormatExpr(e) != "" && FormatExpr(e)[0] != '=' && FormatExpr(e)[0] != '>'
    decreases e
  {
    match e
    case Path(p) => assert IsWord(p[..WordEnd(p)]);
    case Lit(kind, t) => if kind == LitDecimal || kind == LitInt { FirstDigit(Unsigned(t)); }
    case Unary(_, _) =>
    case Binary(_, _, _) =>
    case Call(name, _) =>
  }

  lemma Associate(a: string, b: string, c: string)
    ensures (a + b) + c == a + (b + c)
  {
  }

  lemma PathText(p: string, n: nat, k: string)
    requires n < |p| && p[n] == '.'
    ensures p + k == p[..n] + ("." + (p[n + 1..] + k))
  {
    SplitAtDot(p, n);
    Associate(p[..n], "." + p[n + 1..], k);
    Associate(".", p[n + 1..], k);
  }

  lemma {:induction false} LexPath(p: string, k: string)
    requires IsPath(p) && Delimits(k)
    ensures StreamOf(p + k) == Cons(PathTokens(p)[0], DotsThen(PathTokens(p)[1..], StreamOf(k)))
    decreases |p|
  {
    var n := WordEnd(p);
    if n == |p| {
      assert p == p[..n];
      LexWord(p[..n], k);
    } else {
      var rest := p[n + 1..];
      PathText(p, n, k);
      LexWord(p[..n], "." + (rest + k));
      assert ['.'] == ".";
      LexPunctuation('.', rest + k);
      LexPath(rest, k);
      assert PathTokens(p)[1..] == PathTokens(rest);
    }
  }

  lemma ConstructedText(word: string, q: string, k: string)
    ensures (word + "(" + q + ")") + k == word + ("(" + (q + (")" + k)))
  {
    Associate(word + "(" + q, ")", k);
    Associate(word + "(", q, ")" + k);
    Associate(word, "(", q + (")" + k));
  }

  lemma LexConstructed(word: string, t: string, k: string)
    requires IsName(word) && IsAscii(t)
    ensures StreamOf((word + "(" + Quote(t) + ")") + k)
         == Then(Constructed(Token(IDENT, word), Token(STRING, Mangle(t))), StreamOf(k))
  {
    ConstructedText(word, Quote(t), k);
    LexWord(word, "(" + (Quote(t) + (")" + k)));
    LexPunctuation('(', Quote(t) + (")" + k));
    LexString(t, ")" + k);
    LexPunctuation(')', k);
  }

  lemma LexSigned(t: string, kind: TokenType, k: string)
    requires (kind == INT && IsInteger(t)) || (kind == DECIMAL && IsDecimal(t))
    requires Delimits(k)
    ensures StreamOf(t + k) == Cons(Token(kind, t), StreamOf(k))
    ensures StreamOf(("-" + t) + k) == Cons(MINUS_TOKEN, Cons(Token(kind, t), StreamOf(k)))
  {
    if kind == INT { LexInteger(t, k); } else { LexDecimal(t, k); }
    Associate("-", t, k);
    if kind == DECIMAL { FirstDigit(t); }
    assert Head(t + k) == t[0] && IsDigit(t[0]);
    LexShort('-', t + k);
  }

  lemma {:induction false} LexLiteral(kind: LitKind, t: string, k: string)
    requires LexicalLiteral(kind, t) && Delimits(k)
    ensures StreamOf(FormatLiteral(kind, t) + k) == Then(LiteralTree(kind, t), StreamOf(k))
  {
    KeywordLiterals();
    hide StreamOf, LookupIdent, IsName;
    match kind
    case LitString => LexString(t, k);
    case LitInt => if Unsigned(t) != t { assert t == "-" + Unsigned(t); } LexSigned(Unsigned(t), INT, k);
    case LitDecimal =>
      if Unsigned(t) != t { assert t == "-" + Unsigned(t); }
      LexSigned(Unsigned(t), if IsInteger(Unsigned(t)) then INT else DECIMAL, k);
    case LitBool => LexWord(t, k);
    case LitNull => LexWord(t, k);
    case LitAtom => Associate(":", t, k); LexAtom(t, k);
    case LitTimestamp => LexConstructed("ts", t, k);
    case LitDate => LexConstructed("date", t, k);
    case LitDuration => LexConstructed("dur", t, k);
  }

  lemma {:induction false} LexUnary(op: TokenType, right: Expr, k: string)
    requires (op == MINUS || op == NOT) && Writable(right) && Delimits(k)
    ensures StreamOf(FormatExpr(Unary(op, right)) + k) == Then(CstOf(Unary(op, right)), StreamOf(k))
    decreases right, 3
  {
    var text := FormatExpr(right);
    var sign := if op == MINUS then "-" else "!";
    Associate(sign, text, k);
    FirstCharacter(right);
    assert Head(text + k) == text[0];
    LexShort(sign[0], text + k);
    LexExpr(right, k);
  }

  lemma BinaryText(a: string, o: string, b: string, k: string)
    ensures ("(" + a + " " + o + " " + b + ")") + k == "(" + (a + (" " + (o + (" " + (b + (")" + k))))))
  {
    var k1 := ")" + k;
    var k2 := " " + (b + k1);
    Associate("(" + a + " " + o + " " + b, ")", k);
    Associate("(" + a + " " + o + " ", b, k1);
    Associate("(" + a + " " + o, " ", b + k1);
    Associate("(" + a + " ", o, k2);
    Associate("(" + a, " ", o + k2);
    Associate("(", a, " " + (o + k2));
  }

  lemma LexNoOperator(k: string)
    ensures StreamOf("?" + k) == Cons(Token(ILLEGAL, "?"), StreamOf(k))
  {
    LexHere("?" + k);
    assert ("?" + k)[1..] == k;
  }

  lemma LexOperatorBetween(op: TokenType, b: string)
    requires IsBinaryOp(op) || IsOpenOp(op)
    ensures StreamOf(" " + (OpText(op) + (" " + b))) == Cons(OpToken(op), StreamOf(b))
  {
    LexSpace(' ', OpText(op) + (" " + b));
    if IsBinaryOp(op) { LexOperator(op, b); } else { LexNoOperator(" " + b); }
    LexSpace(' ', b);
  }

  lemma {:induction false} LexInfix(op: TokenType, l: Expr, r: Expr, k: string)
    requires (IsBinaryOp(op) || IsOpenOp(op)) && Writable(l) && Writable(r) && Delimits(k)
    ensures StreamOf(FormatExpr(l) + (" " + (OpText(op) + (" " + (FormatExpr(r) + k)))))
         == Then(Infixed(CstOf(l), OpToken(op), CstOf(r)), StreamOf(k))
    decreases Binary(op, l, r), 0
  {
    LexExpr(l, " " + (OpText(op) + (" " + (FormatExpr(r) + k))));
    LexOperatorBetween(op, FormatExpr(r) + k);
    LexExpr(r, k);
  }

  lemma {:induction false} LexBinary(op: TokenType, l: Expr, r: Expr, k: string)
    requires (IsBinaryOp(op) || IsOpenOp(op)) && Writable(l) && Writable(r)
    ensures StreamOf(FormatExpr(Binary(op, l, r)) + k) == Then(CstOf(Binary(op, l, r)), StreamOf(k))
    decreases Binary(op, l, r), 1
  {
    var k1 := ")" + k;
    BinaryText(FormatExpr(l), OpText(op), FormatExpr(r), k);
    LexPunctuation('(', FormatExpr(l) + (" " + (OpText(op) + (" " + (FormatExpr(r) + k1)))));
    LexInfix(op, l, r, k1);
    LexPunctuation(')', k);
  }

  lemma LexComma(k: string)
    ensures StreamOf(", " + k) == Cons(COMMA_TOKEN, StreamOf(k))
  {
    Associate(",", " ", k);
    assert ", " == "," + " ";
    LexPunctuation(',', " " + k);
    LexSpace(' ', k);
  }

  lemma {:induction false} LexArgs(args: seq<Expr>, k: string)
    requires args != [] && (forall a <- args :: Writable(a)) && Delimits(k)
    ensures var cs := CstsOf(args);
            StreamOf(JoinExprs(args) + k) == Then(cs[0], MoreThen(cs[1..], StreamOf(k)))
    decreases args
  {
    var cs := CstsOf(args);
    if |args| == 1 {
      LexExpr(args[0], k);
    } else {
      var a, rest := FormatExpr(args[0]), JoinExprs(args[1..]);
      Associate(a + ", ", rest, k);
      Associate(a, ", ", rest + k);
      LexExpr(args[0], ", " + (rest + k));
      LexComma(rest + k);
      LexArgs(args[1..], k);
      assert cs[1..] == CstsOf(args[1..]);
    }
  }

  lemma {:induction false} LexCall(name: string, args: seq<Expr>, k: string)
    requires Writable(Call(name, args))
    ensures StreamOf(FormatExpr(Call(name, args)) + k) == Then(CstOf(Call(name, args)), StreamOf(k))
    decreases Call(name, args), 0
  {
    var inner, k1 := JoinExprs(args), ")" + k;
    ConstructedText(name, inner, k);
    LexWord(name, "(" + (inner + k1));
    LexPunctuation('(', inner + k1);
    LexPunctuation(')', k);
    if args == [] {
      assert inner + k1 == k1;
    } else {
      LexArgs(args, k1);
    }
  }

  /** The text of a writable expression, before a delimiter, lexes into the tokens of its tree. */
  lemma {:induction false} LexExpr(e: Expr, k: string)
    requires Writable(e) && Delimits(k)
    ensures StreamOf(FormatExpr(e) + k) == Then(CstOf(e), StreamOf(k))
    decreases e, 2
  {
    match e
    case Path(p) => LexPath(p, k);
    case Lit(kind, t) => LexLiteral(kind, t, k);
    case Unary(op, right) => LexUnary(op, right, k);
    case Binary(op, l, r) => LexBinary(op, l, r, k);
    case Call(name, args) => LexCall(name, args, k);
  }

  // ----- the round trip -----

  /** Reading the text of an expression, wherever it stands before a delimiter that no operator
      follows, gives what `ReadBack` says and stops on its last token. */
  lemma ReadsBack(e: Expr, k: string, p: nat, errs: nat)
    requires Lexical(e) && Delimits(k)
    requires LOWEST <= p && Precedence(StreamOf(k).Current().kind) == LOWEST
    ensures ParseExpression(State(StreamOf(FormatExpr(e) + k), errs), p)
         == (State(Cons(Last(CstOf(e)), StreamOf(k)), errs), ReadBack(e))
  {
    LexicalIsClosed(e);
    LexExpr(e, k);
    CstOfLegal(e);
    Reads(CstOf(e), StreamOf(k), p, errs);
  }

  lemma ReadLiteralKeeps(kind: LitKind, t: string)
    requires LexicalLiteral(kind, t)
    ensures ReadLiteral(kind, t) == Lit(kind, t) <==> PrintableLiteral(kind, t)
    ensures IsUnsignedNumber(ReadLiteral(kind, t)) <==> IsUnsignedNumber(Lit(kind, t))
  {
    match kind
    case LitDecimal => NotBoth(Unsigned(t));
    case LitInt =>
    case LitBool =>
    case LitNull =>
    case LitAtom =>
    case _ => MangleKeepsPlain(t);
  }

  lemma NotBoth(t: string)
    ensures !(IsInteger(t) && IsDecimal(t))
  {
    if IsDecimal(t) {
      var n: nat :| n < |t| && t[n] == '.' && IsInteger(t[..n]) && IsInteger(t[n + 1..]);
      assert t[n] in t && !IsDigit(t[n]);
    }
  }

  /** Reading back keeps the normal form exactly when every literal can be read back. */
  lemma {:induction false} KeepsExactly(e: Expr)
    requires Lexical(e)
    ensures ReadBack(e) == Norm(e) <==> Printable(e)
    ensures IsUnsignedNumber(ReadBack(e)) <==> IsUnsignedNumber(Norm(e))
    decreases e
  {
    match e
    case Path(_) =>
    case Lit(kind, t) => ReadLiteralKeeps(kind, t);
    case Unary(op, right) => KeepsExactly(right);
    case Binary(_, l, r) => KeepsExactly(l); KeepsExactly(r);
    case Call(_, args) => KeepsAllExactly(args);
  }

  lemma {:induction false} KeepsAllExactly(args: seq<Expr>)
    requires forall a <- args :: Lexical(a)
    ensures ReadBackAll(args) == NormAll(args) <==> forall a <- args :: Printable(a)
    decreases args
  {
    if args != [] {
      KeepsExactly(args[0]);
      KeepsAllExactly(args[1..]);
      assert ReadBackAll(args)[0] == ReadBack(args[0]) && ReadBackAll(args)[1..] == ReadBackAll(args[1..]);
      assert NormAll(args)[0] == Norm(args[0]) && NormAll(args)[1..] == NormAll(args[1..]);
      assert forall a <- args :: a == args[0] || a in args[1..];
    }
  }

  /** ROUND TRIP.  The parser finds the normal form of a printed expression, and finds it in the
      text alone, exactly when the expression is printable. */
  lemma ExprRoundTrip(e: Expr, k: string, p: nat, errs: nat)
    requires Lexical(e) && Delimits(k)
    requires LOWEST <= p && Precedence(StreamOf(k).Current().kind) == LOWEST
    ensures var (st, e') := ParseExpression(State(StreamOf(FormatExpr(e) + k), errs), p);
            && st == State(Cons(Last(CstOf(e)), StreamOf(k)), errs)
            && (e' == Norm(e) <==> Printable(e))
  {
    ReadsBack(e, k, p, errs);
    KeepsExactly(e);
  }

  /** The normal form prints as the expression does, and is one. */
  lemma {:induction false} NormPrintsAlike(e: Expr)
    requires Printable(e)
    ensures FormatExpr(Norm(e)) == FormatExpr(e) && Printable(Norm(e)) && Norm(Norm(e)) == Norm(e)
    decreases e
  {
    match e
    case Path(_) =>
    case Lit(_, _) =>
    case Unary(op, right) =>
      NormPrintsAlike(right);
      var n := Norm(right);
      if op == MINUS && IsUnsignedNumber(n) { assert Unsigned("-" + n.text) == n.text; }
    case Binary(_, l, r) => NormPrintsAlike(l); NormPrintsAlike(r);
    case Call(_, args) => NormAllPrintsAlike(args);
  }

  lemma {:induction false} NormAllPrintsAlike(args: seq<Expr>)
    requires forall a <- args :: Printable(a)
    ensures JoinExprs(NormAll(args)) == JoinExprs(args) && NormAll(NormAll(args)) == NormAll(args)
    ensures forall a <- NormAll(args) :: Printable(a)
    decreases args
  {
    if args != [] {
      NormPrintsAlike(args[0]);
      NormAllPrintsAlike(args[1..]);
      assert NormAll(args)[1..] == NormAll(args[1..]);
    }
  }
}
