/** The levels of the operators, as sets of tokens, and how the parser groups by them. */
module Levels {
  import opened Tokens
  import opened Ast
  import opened ExprParserSpec
  import opened Pratt

  /** The binary operators, loosest first; operators of one set stand together. */
  const LEVELS: seq<set<TokenType>> :=
    [{OR}, {AND}, {EQUAL, NOT_EQUAL}, {LESS, LESS_EQ, GREATER, GREAT_EQ}, {PLUS, MINUS}, {STAR, SLASH, PERCENT}]

  predicate IsOperator(o: TokenType) {
    exists i :: 0 <= i < |LEVELS| && o in LEVELS[i]
  }

  /** `q` stands in a later set than `o`, and so binds tighter. */
  predicate Tighter(q: TokenType, o: TokenType) {
    exists i, j :: 0 <= i < j < |LEVELS| && o in LEVELS[i] && q in LEVELS[j]
  }

  /** What may stand behind a whole expression. */
  predicate EndsExpression(t: TokenType) {
    t in {EOF, SEMICOLON, COMMA, RPAREN, RBRACE}
  }

  lemma {:induction false} LevelIs(o: TokenType, i: nat)
    requires i < |LEVELS| && o in LEVELS[i]
    ensures Precedence(o) == i + 2
  {
  }

  lemma {:induction false} OperatorsHaveLevels(o: TokenType)
    ensures LOWEST < Precedence(o) < PREFIX <==> IsOperator(o)
  {
    if IsOperator(o) {
      var i :| 0 <= i < |LEVELS| && o in LEVELS[i];
      LevelIs(o, i);
    }
    if LOWEST < Precedence(o) < PREFIX { assert o in LEVELS[Precedence(o) - 2]; }
  }

  lemma {:induction false} TighterIsHigher(q: TokenType, o: TokenType)
    requires IsOperator(q) && IsOperator(o)
    ensures Tighter(q, o) <==> Precedence(q) > Precedence(o)
  {
    var i :| 0 <= i < |LEVELS| && o in LEVELS[i];
    var j :| 0 <= j < |LEVELS| && q in LEVELS[j];
    LevelIs(o, i);
    LevelIs(q, j);
    if Tighter(q, o) {
      var i', j' :| 0 <= i' < j' < |LEVELS| && o in LEVELS[i'] && q in LEVELS[j'];
      LevelIs(o, i');
      LevelIs(q, j');
    }
  }

  /** Trees grouped as the levels say: on the left nothing looser than the operator, on the right only
      what is tighter, and under a prefix operator a single operand. */
  predicate WellGrouped(c: Cst)
    decreases c
  {
    match c
    case Prim(t) => t.kind in {STRING, INT, DECIMAL, TRUE, FALSE, NULL, ATOM}
    case Dotted(h, names) => IsPathToken(h.kind) && forall t <- names :: IsPathToken(t.kind)
    case Negated(t) => t.kind in {INT, DECIMAL}
    case Prefixed(op, arg) =>
      && op.kind in {MINUS, NOT} && WellGrouped(arg) && !arg.Infixed?
      && (op.kind == MINUS ==> First(arg).kind !in {INT, DECIMAL})
    case Group(inner) => WellGrouped(inner)
    case Constructed(name, _) => IsPathToken(name.kind) && LiteralConstructor(name.literal).Some?
    case Applied(name, args) =>
      && (IsBuiltin(name.kind) || (IsPathToken(name.kind) && LiteralConstructor(name.literal).None?))
      && (forall a <- args :: WellGrouped(a))
    case Infixed(l, op, r) =>
      && IsOperator(op.kind) && WellGrouped(l) && WellGrouped(r)
      && (l.Infixed? ==> !Tighter(op.kind, l.op.kind))
      && (r.Infixed? ==> Tighter(r.op.kind, op.kind))
  }

  /** The precedence-correct trees are those that are grouped as the levels say. */
  lemma {:induction false} LegalByLevels(c: Cst)
    ensures WellGrouped(c) <==> Legal(c) && Ordinary(c)
    decreases c
  {
    hide Precedence, IsOperator, Tighter;
    match c
    case Prefixed(op, arg) =>
      LegalByLevels(arg);
      if arg.Infixed? { OperatorsHaveLevels(arg.op.kind); }
    case Group(inner) => LegalByLevels(inner);
    case Applied(_, args) => forall a | a in args ensures WellGrouped(a) <==> Legal(a) && Ordinary(a) { LegalByLevels(a); }
    case Infixed(l, op, r) => InfixedByLevels(l, op, r);
    case _ =>
  }

  lemma {:induction false} InfixedByLevels(l: Cst, op: Token, r: Cst)
    ensures WellGrouped(Infixed(l, op, r)) <==> Legal(Infixed(l, op, r)) && Ordinary(Infixed(l, op, r))
    decreases Infixed(l, op, r), 0
  {
    hide Precedence, IsOperator, Tighter;
    LegalByLevels(l);
    LegalByLevels(r);
    OperatorsHaveLevels(op.kind);
    if l.Infixed? {
      OperatorsHaveLevels(l.op.kind);
      if IsOperator(l.op.kind) && IsOperator(op.kind) { TighterIsHigher(op.kind, l.op.kind); }
    }
    if r.Infixed? {
      OperatorsHaveLevels(r.op.kind);
      if IsOperator(r.op.kind) && IsOperator(op.kind) { TighterIsHigher(r.op.kind, op.kind); }
    }
  }

  lemma EndsAreLoose(t: TokenType)
    requires EndsExpression(t)
    ensures Precedence(t) == LOWEST
  {
  }

  /** READING BY LEVELS.  Whatever is grouped as the levels say is what the parser makes of its tokens. */
  lemma {:induction false} ReadsByLevels(c: Cst, k: Toks, errs: nat)
    requires WellGrouped(c) && EndsExpression(k.Current().kind)
    ensures ParseExpression(State(Then(c, k), errs), LOWEST) == (State(Cons(Last(c), k), errs), Erase(c))
  {
    hide ParseExpression, Then, Erase, Legal, Ordinary, WellGrouped;
    LegalByLevels(c);
    EndsAreLoose(k.Current().kind);
    LooseBinds(c);
    Reads(c, k, LOWEST, errs);
  }

  lemma LooseBinds(c: Cst)
    requires WellGrouped(c)
    ensures Binds(c, LOWEST)
  {
    if c.Infixed? { OperatorsHaveLevels(c.op.kind); }
  }

  /** A single number or name. */
  predicate IsOperand(t: Token) {
    t.kind == INT || t.kind == IDENT
  }

  function OperandTree(t: Token): Cst {
    if t.kind == INT then Prim(t) else Dotted(t, [])
  }

  function OperandExpr(t: Token): Expr {
    if t.kind == INT then Lit(LitInt, t.literal) else Path(t.literal)
  }

  lemma OperandReads(t: Token, k: Toks)
    requires IsOperand(t)
    ensures Then(OperandTree(t), k) == Cons(t, k) && Erase(OperandTree(t)) == OperandExpr(t) && Last(OperandTree(t)) == t
    ensures WellGrouped(OperandTree(t)) && !OperandTree(t).Infixed?
  {
    assert t.literal + "" == t.literal;
  }

  /** TWO OPERATORS.  Of `a o b q c` the second operator takes `b` if and only if it binds tighter, by the levels. */
  lemma {:induction false} TwoOperators(a: Token, o: Token, b: Token, q: Token, c: Token, k: Toks, errs: nat)
    requires IsOperand(a) && IsOperand(b) && IsOperand(c) && IsOperator(o.kind) && IsOperator(q.kind) && EndsExpression(k.Current().kind)
    ensures var x, y, z := OperandExpr(a), OperandExpr(b), OperandExpr(c);
            ParseExpression(State(Cons(a, Cons(o, Cons(b, Cons(q, Cons(c, k))))), errs), LOWEST)
            == (State(Cons(c, k), errs),
                if Tighter(q.kind, o.kind) then Binary(o.kind, x, Binary(q.kind, y, z)) else Binary(q.kind, Binary(o.kind, x, y), z))
  {
    hide ParseExpression, IsOperator, Tighter, OperandTree, OperandExpr;
    var x, y, z := OperandTree(a), OperandTree(b), OperandTree(c);
    OperandReads(c, k);
    OperandReads(b, Cons(q, Cons(c, k)));
    OperandReads(a, Cons(o, Cons(b, Cons(q, Cons(c, k)))));
    var tree := if Tighter(q.kind, o.kind) then Infixed(x, o, Infixed(y, q, z)) else Infixed(Infixed(x, o, y), q, z);
    ReadsByLevels(tree, k, errs);
  }

  /** A prefix operator takes one operand: in `! a o b` the first. */
  lemma {:induction false} PrefixTakesOne(op: Token, a: Token, o: Token, b: Token, k: Toks, errs: nat)
    requires IsOperand(a) && IsOperand(b) && IsOperator(o.kind) && EndsExpression(k.Current().kind)
    requires op.kind == NOT || (op.kind == MINUS && a.kind != INT)
    ensures ParseExpression(State(Cons(op, Cons(a, Cons(o, Cons(b, k)))), errs), LOWEST)
         == (State(Cons(b, k), errs), Binary(o.kind, Unary(op.kind, OperandExpr(a)), OperandExpr(b)))
  {
    hide ParseExpression, IsOperator, Tighter, OperandExpr;
    OperandReads(b, k);
    OperandReads(a, Cons(o, Cons(b, k)));
    var tree := Infixed(Prefixed(op, OperandTree(a)), o, OperandTree(b));
    ReadsByLevels(tree, k, errs);
  }

  /** What each literal constructor makes of the token in its parentheses. */
  lemma {:induction false} ConstructorMakes(name: Token, payload: Token, k: Toks, errs: nat)
    requires name.kind == IDENT && EndsExpression(k.Current().kind)
    ensures var (st, e) := ParseExpression(State(Cons(name, Cons(LPAREN_TOKEN, Cons(payload, Cons(RPAREN_TOKEN, k)))), errs), LOWEST);
            name.literal in {"ts", "timestamp", "date", "dur", "duration", "atom", "dec", "decimal"} ==>
              && st == State(Cons(RPAREN_TOKEN, k), errs)
              && (name.literal in {"ts", "timestamp"} ==> e == Lit(LitTimestamp, payload.literal))
              && (name.literal == "date" ==> e == Lit(LitDate, payload.literal))
              && (name.literal in {"dur", "duration"} ==> e == Lit(LitDuration, payload.literal))
              && (name.literal == "atom" ==> e == Lit(LitAtom, payload.literal))
              && (name.literal in {"dec", "decimal"} ==> e == Lit(LitDecimal, payload.literal))
  {
    hide ParseExpression;
    if LiteralConstructor(name.literal).Some? { ReadsByLevels(Constructed(name, payload), k, errs); }
  }

  /** The words that are called as they are. */
  const CALLED: set<TokenType> :=
    {ALL, ANY, ALL_EQUAL, EXISTS, COUNT, SUM, MIN, MAX, COALESCE, IF, CONCAT, SUBSTRING, TRIM, ABS, CLAMP, DATE_ADD, DATE_DIFF, EXTRACT}

  /** These words, and any name that makes no literal, call what they name with what stands in the parentheses. */
  lemma {:induction false} CallIsRead(name: Token, a: Token, b: Token, k: Toks, errs: nat)
    requires name.kind in CALLED || (name.kind in {IDENT, FROM, TO} && LiteralConstructor(name.literal).None?)
    requires IsOperand(a) && IsOperand(b) && EndsExpression(k.Current().kind)
    ensures ParseExpression(State(Cons(name, Cons(LPAREN_TOKEN, Cons(a, Cons(COMMA_TOKEN, Cons(b, Cons(RPAREN_TOKEN, k)))))), errs), LOWEST)
         == (State(Cons(RPAREN_TOKEN, k), errs), Call(name.literal, [OperandExpr(a), OperandExpr(b)]))
    ensures ParseExpression(State(Cons(name, Cons(LPAREN_TOKEN, Cons(RPAREN_TOKEN, k))), errs), LOWEST)
         == (State(Cons(RPAREN_TOKEN, k), errs), Call(name.literal, []))
  {
    hide ParseExpression, OperandExpr, IsOperand;
    var end := Cons(RPAREN_TOKEN, k);
    OperandReads(b, end);
    OperandReads(a, Cons(COMMA_TOKEN, Cons(b, end)));
    var x, y := OperandTree(a), OperandTree(b);
    hide OperandTree;
    assert [x, y][1..] == [y] && [y][1..] == [];
    assert MoreThen([y], end) == Cons(COMMA_TOKEN, Then(y, end));
    assert EraseAll([x, y]) == [Erase(x)] + EraseAll([y]) && EraseAll([y]) == [Erase(y)] + EraseAll([]);
    assert EraseAll([x, y]) == [OperandExpr(a), OperandExpr(b)];
    ReadsByLevels(Applied(name, [x, y]), k, errs);
    ReadsByLevels(Applied(name, []), k, errs);
  }

  /** A path goes on behind each dot; its parts are names, `from` or `to`. */
  lemma {:induction false} PathIsRead(a: Token, b: Token, c: Token, k: Toks, errs: nat)
    requires a.kind in {IDENT, FROM, TO} && b.kind in {IDENT, FROM, TO} && c.kind in {IDENT, FROM, TO} && EndsExpression(k.Current().kind)
    ensures ParseExpression(State(Cons(a, Cons(DOT_TOKEN, Cons(b, Cons(DOT_TOKEN, Cons(c, k))))), errs), LOWEST)
         == (State(Cons(c, k), errs), Path(a.literal + "." + b.literal + "." + c.literal))
  {
    hide ParseExpression;
    assert [b, c][1..] == [c] && [c][1..] == [];
    assert DotsThen([b, c], k) == Cons(DOT_TOKEN, Cons(b, DotsThen([c], k))) && DotsThen([c], k) == Cons(DOT_TOKEN, Cons(c, k));
    assert DotText([c]) == "." + c.literal && DotText([b, c]) == "." + b.literal + DotText([c]);
    assert a.literal + ("." + b.literal + ("." + c.literal)) == a.literal + "." + b.literal + "." + c.literal;
    ReadsByLevels(Dotted(a, [b, c]), k, errs);
  }

  /** What a token of its own is. */
  lemma {:induction false} LiteralIsRead(t: Token, k: Toks, errs: nat)
    requires EndsExpression(k.Current().kind)
    ensures var (st, e) := ParseExpression(State(Cons(t, k), errs), LOWEST);
      t.kind in {STRING, INT, DECIMAL, TRUE, FALSE, NULL, ATOM} ==>
        && st == State(Cons(t, k), errs)
        && (t.kind == STRING ==> e == Lit(LitString, t.literal)) && (t.kind == INT ==> e == Lit(LitInt, t.literal))
        && (t.kind == DECIMAL ==> e == Lit(LitDecimal, t.literal)) && (t.kind == ATOM ==> e == Lit(LitAtom, t.literal))
        && (t.kind == TRUE ==> e == Lit(LitBool, "true")) && (t.kind == FALSE ==> e == Lit(LitBool, "false"))
        && (t.kind == NULL ==> e == Lit(LitNull, "null"))
    ensures t.kind in {INT, DECIMAL} ==>
      forall sign: Token | sign.kind == MINUS ::
        ParseExpression(State(Cons(sign, Cons(t, k)), errs), LOWEST)
        == (State(Cons(t, k), errs), Lit(if t.kind == INT then LitInt else LitDecimal, "-" + t.literal))
  {
    hide ParseExpression;
    if t.kind in {STRING, INT, DECIMAL, TRUE, FALSE, NULL, ATOM} { ReadsByLevels(Prim(t), k, errs); }
    if t.kind in {INT, DECIMAL} {
      forall sign: Token | sign.kind == MINUS
        ensures ParseExpression(State(Cons(sign, Cons(t, k)), errs), LOWEST)
             == (State(Cons(t, k), errs), Lit(if t.kind == INT then LitInt else LitDecimal, "-" + t.literal))
      {
        SignedNumber(sign, t, k, errs);
      }
    }
  }

  lemma {:induction false} SignedNumber(sign: Token, t: Token, k: Toks, errs: nat)
    requires sign.kind == MINUS && t.kind in {INT, DECIMAL} && EndsExpression(k.Current().kind)
    ensures ParseExpression(State(Cons(sign, Cons(t, k)), errs), LOWEST)
         == (State(Cons(t, k), errs), Lit(if t.kind == INT then LitInt else LitDecimal, "-" + t.literal))
  {
    EndsAreLoose(k.Current().kind);
  }
}
