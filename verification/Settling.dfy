/** Printing what was read back: the text is the same if all strings are plain, and shorter if not. */
module Settling {
  import opened Tokens
  import opened Ast
  import opened FormatSpec
  import opened LexerFacts
  import opened ExprRoundTrip

  /** The text that follows `now` when it is formatted again. */
  predicate Settles(now: string, next: string, plain: bool) {
    if plain then next == now else |next| < |now|
  }

  // ----- strings -----

  lemma {:induction false} QuoteBodyOfPair(a: string, b: string)
    ensures QuoteBody(a + b) == QuoteBody(a) + QuoteBody(b)
    decreases a
  {
    if a == "" {
      assert a + b == b;
    } else {
      assert (a + b)[1..] == a[1..] + b;
      QuoteBodyOfPair(a[1..], b);
      assert QuoteChar(a[0]) + QuoteBody(a[1..]) + QuoteBody(b) == QuoteChar(a[0]) + (QuoteBody(a[1..]) + QuoteBody(b));
    }
  }

  /** What is left of an escape the lexer does not know is written as it is. */
  lemma OddSettles(c: char)
    requires c as int < 128 && !IsPlainChar(c)
    ensures IsPlain(QuoteChar(c)[1..]) && QuoteBody(QuoteChar(c)[1..]) == QuoteChar(c)[1..]
  {
    var q := QuoteChar(c);
    if |q| == 2 {
      assert q[1..] == [q[1]] && q[1..][1..] == "";
      assert QuoteBody(q[1..]) == QuoteChar(q[1]) + QuoteBody("");
    } else {
      var a, b := HexDigits(c);
      assert q[1..] == ['x', a, b] && q[1..][1..] == [a, b] && [a, b][1..] == [b] && [b][1..] == "";
      assert QuoteBody([b]) == QuoteChar(b) + "" && QuoteBody([a, b]) == QuoteChar(a) + QuoteBody([b]);
      assert QuoteBody(q[1..]) == QuoteChar('x') + QuoteBody([a, b]);
    }
  }

  lemma {:induction false} MangleSettles(s: string)
    requires IsAscii(s)
    ensures IsPlain(Mangle(s)) && Settles(QuoteBody(s), QuoteBody(Mangle(s)), IsPlain(s))
  {
    if s != "" {
      var c, rest := s[0], s[1..];
      var head := if IsPlainChar(c) then [c] else QuoteChar(c)[1..];
      assert s == [c] + rest;
      MangleSettles(rest);
      QuoteBodyOfPair(head, Mangle(rest));
      PlainPair([c], rest);
      PlainPair(head, Mangle(rest));
      if IsPlainChar(c) {
        assert QuoteBody(head) == QuoteChar(c) + QuoteBody("");
      } else {
        OddSettles(c);
        assert |QuoteBody(head)| < |QuoteChar(c)|;
      }
    }
  }

  lemma PlainPair(a: string, b: string)
    ensures IsPlain(a + b) <==> IsPlain(a) && IsPlain(b)
  {
    assert forall i :: 0 <= i < |a| ==> (a + b)[i] == a[i];
    assert forall i :: 0 <= i < |b| ==> (a + b)[|a| + i] == b[i];
  }

  lemma PlainIsAscii(s: string)
    requires IsPlain(s)
    ensures IsAscii(s)
  {
  }

  lemma QuoteSettles(s: string)
    requires IsAscii(s)
    ensures IsPlain(Mangle(s)) && IsAscii(Mangle(s)) && Mangle(Mangle(s)) == Mangle(s)
    ensures Settles(Quote(s), Quote(Mangle(s)), IsPlain(s))
  {
    MangleSettles(s);
    PlainIsAscii(Mangle(s));
    MangleKeepsPlain(Mangle(s));
  }

  // ----- expressions -----

  /** Every string of the expression is plain. */
  predicate PlainExpr(e: Expr)
    decreases e
  {
    match e
    case Lit(kind, t) => kind == LitString || kind == LitTimestamp || kind == LitDate || kind == LitDuration ==> IsPlain(t)
    case Unary(_, right) => PlainExpr(right)
    case Binary(_, l, r) => PlainExpr(l) && PlainExpr(r)
    case Call(_, args) => forall a <- args :: PlainExpr(a)
    case _ => true
  }

  lemma LiteralSettles(kind: LitKind, t: string)
    requires LexicalLiteral(kind, t)
    ensures Printable(ReadLiteral(kind, t)) && ReadBack(ReadLiteral(kind, t)) == ReadLiteral(kind, t)
    ensures Settles(FormatLiteral(kind, t), FormatExpr(ReadLiteral(kind, t)), PlainExpr(Lit(kind, t)))
  {
    match kind
    case LitDecimal => NotBoth(Unsigned(t));
    case LitInt =>
    case LitBool =>
    case LitNull =>
    case LitAtom =>
    case _ => QuoteSettles(t);
  }

  /** SETTLING.  Reading a printed expression back gives one that the parser finds again, and whose
      text is the same if and only if every string of the first is plain. */
  lemma {:induction false} ExprSettles(e: Expr)
    requires Lexical(e)
    ensures Printable(ReadBack(e)) && ReadBack(ReadBack(e)) == ReadBack(e)
    ensures Settles(FormatExpr(e), FormatExpr(ReadBack(e)), PlainExpr(e))
    decreases e
  {
    match e
    case Path(_) =>
    case Lit(kind, t) => LiteralSettles(kind, t);
    case Unary(op, right) => ExprSettles(right); SignSettles(op, right);
    case Binary(_, l, r) => ExprSettles(l); ExprSettles(r);
    case Call(name, args) => ArgsSettle(args);
  }

  lemma SignSettles(op: TokenType, right: Expr)
    requires Lexical(Unary(op, right)) && Printable(ReadBack(right)) && ReadBack(ReadBack(right)) == ReadBack(right)
    ensures Printable(ReadBack(Unary(op, right))) && ReadBack(ReadBack(Unary(op, right))) == ReadBack(Unary(op, right))
    ensures FormatExpr(ReadBack(Unary(op, right))) == (if op == MINUS then "-" else "!") + FormatExpr(ReadBack(right))
  {
    var n := ReadBack(right);
    if op == MINUS && IsUnsignedNumber(n) {
      assert Unsigned("-" + n.text) == n.text;
      NotBoth(n.text);
    }
  }

  lemma {:induction false} ArgsSettle(args: seq<Expr>)
    requires forall a <- args :: Lexical(a)
    ensures (forall a <- ReadBackAll(args) :: Printable(a)) && ReadBackAll(ReadBackAll(args)) == ReadBackAll(args)
    ensures Settles(JoinExprs(args), JoinExprs(ReadBackAll(args)), forall a <- args :: PlainExpr(a))
    decreases args
  {
    if args != [] {
      ExprSettles(args[0]);
      ArgsSettle(args[1..]);
      assert ReadBackAll(args)[1..] == ReadBackAll(args[1..]);
      assert forall a <- args :: a == args[0] || a in args[1..];
    }
  }
}
