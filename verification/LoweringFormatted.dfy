/** Formatting an expression before lowering it: the printer folds signs into numbers, and the
    lowered terms differ, but their values do not, save for decimals negated twice. */
module LoweringFormatted {
  import opened Tokens
  import opened Ast
  import opened Int64
  import opened Semantics
  import opened LexerFacts
  import opened ExprRoundTrip
  import opened Lowering
  import opened LoweringMeaning
  import K = TermKinds

  /** Two terms that evaluate alike in every world, against anything. */
  ghost predicate Same(t: Term, u: Term) {
    forall w, sc :: Eval(w, sc, t) == Eval(w, sc, u)
  }

  ghost predicate SameAll(ts: seq<Term>, us: seq<Term>) {
    |ts| == |us| && forall i :: 0 <= i < |ts| ==> Same(ts[i], us[i])
  }

  lemma {:induction false} ListsAlike(w: World, sc: Scope, ts: seq<Term>, us: seq<Term>, stop: bool)
    requires SameAll(ts, us)
    ensures EvalUntil(w, sc, ts, stop) == EvalUntil(w, sc, us, stop)
    ensures EvalFirst(w, sc, ts) == EvalFirst(w, sc, us) && EvalValues(w, sc, ts) == EvalValues(w, sc, us)
    decreases ts
  {
    hide Eval;
    if ts != [] {
      assert Same(ts[0], us[0]) && Eval(w, sc, ts[0]) == Eval(w, sc, us[0]);
      assert forall i :: 0 <= i < |ts[1..]| ==> ts[1..][i] == ts[i + 1] && us[1..][i] == us[i + 1];
      ListsAlike(w, sc, ts[1..], us[1..], stop);
    }
  }

  lemma {:induction false} MembersAlike(w: World, members: seq<Semantics.Entity>, t: Term, u: Term, stop: bool)
    requires Same(t, u)
    ensures EvalMembers(w, members, t, stop) == EvalMembers(w, members, u, stop)
    decreases |members|
  {
    hide Eval;
    if members != [] {
      assert Eval(w, Bound([members[0]]), t) == Eval(w, Bound([members[0]]), u);
      MembersAlike(w, members[1..], t, u, stop);
    }
  }

  /** Operands that evaluate alike make terms that do. */
  lemma NodesAlike(kind: K.TermKind, field: string, ts: seq<Term>, us: seq<Term>)
    requires SameAll(ts, us)
    ensures Same(Term(kind, field, None, ts), Term(kind, field, None, us))
  {
    var t, u := Term(kind, field, None, ts), Term(kind, field, None, us);
    forall w, sc ensures Eval(w, sc, t) == Eval(w, sc, u) {
      NodeAlike(w, sc, t, u);
    }
  }

  lemma {:induction false} NodeAlike(w: World, sc: Scope, t: Term, u: Term)
    requires t.kind == u.kind && t.field == u.field && t.literal == u.literal && SameAll(t.args, u.args)
    ensures Eval(w, sc, t) == Eval(w, sc, u)
  {
    hide Applied, EqualResults, LessResults, ReadField, ReadExists, Reduction, Same;
    ListsAlike(w, sc, t.args, u.args, false);
    ListsAlike(w, sc, t.args, u.args, true);
    forall i | 0 <= i < |t.args| ensures Eval(w, sc, t.args[i]) == Eval(w, sc, u.args[i]) {
      SameAt(w, sc, t.args[i], u.args[i]);
    }
    if |t.args| == 1 && sc.Group? {
      MembersAlike(w, sc.members, t.args[0], u.args[0], false);
      MembersAlike(w, sc.members, t.args[0], u.args[0], true);
    }
  }

  lemma SameAt(w: World, sc: Scope, t: Term, u: Term)
    requires Same(t, u)
    ensures Eval(w, sc, t) == Eval(w, sc, u)
  {
  }

  // ----- numbers and their signs -----

  lemma {:induction false} SignedDigits(t: string)
    requires IsInteger(t)
    ensures var n: int := DigitsValue(t); ParseInt(t) == Exactly(n) && ParseInt("-" + t) == Exactly(-n)
    ensures Unsigned(t) == t && Unsigned("-" + t) == t
  {
    assert t[0] in t;
    assert ("-" + t)[1..] == t;
  }

  /** A sign folded into an unsigned number makes the same term. */
  lemma FoldedSign(mk: Maker, kind: LitKind, t: string)
    requires (kind == LitInt && IsInteger(t)) || (kind == LitDecimal && IsDecimal(t))
    requires Lower(mk, Unary(MINUS, Lit(kind, t))).Some?
    ensures Lower(mk, Lit(kind, "-" + t)) == Lower(mk, Unary(MINUS, Lit(kind, t)))
  {
    if kind == LitInt {
      SignedDigits(t);
    } else {
      FirstDigit(t);
    }
  }

  /** Minus minus a number: the formatted text holds a negated literal, the source a subtraction. */
  lemma DoubleMinus(mk: Maker, t: string)
    requires IsInteger(t) && Lower(mk, Unary(MINUS, Unary(MINUS, Lit(LitInt, t)))).Some?
    ensures Lower(mk, Unary(MINUS, Lit(LitInt, "-" + t))).Some?
    ensures Same(Lower(mk, Unary(MINUS, Unary(MINUS, Lit(LitInt, t)))).value,
                 Lower(mk, Unary(MINUS, Lit(LitInt, "-" + t))).value)
  {
    SignedDigits(t);
    var n: int := DigitsValue(t);
    var a, b := LiteralTerm(IntValue(-n)), LiteralTerm(IntValue(n));
    var sub := Node(K.SUBTRACT, [LiteralTerm(IntValue(0)), a]);
    assert Lower(mk, Unary(MINUS, Lit(LitInt, t))) == Some(a);
    assert Lower(mk, Unary(MINUS, Unary(MINUS, Lit(LitInt, t)))) == Some(sub);
    assert Lower(mk, Unary(MINUS, Lit(LitInt, "-" + t))) == Some(b);
    forall w, sc ensures Eval(w, sc, sub) == Eval(w, sc, b) {
      if Inhabited(sc) {
        SubtractNegates(w, sc, a);
        LiteralTermEval(w, sc, IntValue(-n));
        LiteralTermEval(w, sc, IntValue(n));
      } else {
        EmptyGroup(w, sc, sub);
        EmptyGroup(w, sc, b);
      }
    }
  }

  /** A decimal under two minus signs. */
  predicate IsDoubleDecimal(e: Expr) {
    && e.Unary? && e.op == MINUS && e.right.Unary? && e.right.op == MINUS
    && e.right.right.Lit? && e.right.right.kind == LitDecimal && IsUnsignedNumber(e.right.right)
  }

  /** Such a decimal that can be lowered: the constructor makes the negative one. */
  predicate LowersDoubleDecimal(mk: Maker, e: Expr) {
    IsDoubleDecimal(e) && mk(LitDecimal, "-" + e.right.right.text).Some?
  }

  predicate NoDoubleDecimal(mk: Maker, e: Expr)
    decreases e
  {
    !LowersDoubleDecimal(mk, e) &&
    match e
    case Unary(_, r) => NoDoubleDecimal(mk, r)
    case Binary(_, l, r) => NoDoubleDecimal(mk, l) && NoDoubleDecimal(mk, r)
    case Call(_, args) => forall a <- args :: NoDoubleDecimal(mk, a)
    case _ => true
  }

  lemma DoubleDecimalNorm(mk: Maker, e: Expr)
    requires LowersDoubleDecimal(mk, e) && Printable(e)
    ensures var t := e.right.right.text;
            && Lower(mk, e) == Some(Node(K.SUBTRACT, [LiteralTerm(IntValue(0)), LiteralTerm(mk(LitDecimal, "-" + t).value)]))
            && Lower(mk, Norm(e)) == (match mk(LitDecimal, t) case None => None case Some(v) => Some(LiteralTerm(v)))
  {
    var t := e.right.right.text;
    assert Printable(e.right) && Printable(e.right.right) && PrintableLiteral(LitDecimal, t);
    FirstDigit(t);
    FoldedSign(mk, LitDecimal, t);
    var signed := Lit(LitDecimal, "-" + t);
    assert FlipSign("-" + t) == t && Unsigned("-" + t) == t != "-" + t;
    assert Norm(e.right.right) == e.right.right;
    assert Norm(e.right) == signed;
    assert Norm(e) == Unary(MINUS, signed);
    assert Lower(mk, e.right) == Some(LiteralTerm(mk(LitDecimal, "-" + t).value));
  }

  /** What the constructor makes of a decimal is a decimal. */
  ghost predicate MakesDecimals(mk: Maker) {
    forall t :: mk(LitDecimal, t).Some? ==> mk(LitDecimal, t).value.kind == DecimalKind
  }

  /** Such a decimal is lowered to an operation on a number and a decimal, which always fails; once
      formatted it is a decimal literal, which does not, or it is not lowered at all.  Formatting it
      changes what it means. */
  lemma DoubleDecimalChanges(mk: Maker, w: World, sc: Scope, e: Expr)
    requires LowersDoubleDecimal(mk, e) && Printable(e) && Inhabited(sc) && MakesDecimals(mk)
    requires forall t :: mk(LitDecimal, t).Some? ==> w.valid(mk(LitDecimal, t).value)
    ensures Lower(mk, e).Some? && Eval(w, sc, Lower(mk, e).value) == Fail
    ensures var v := mk(LitDecimal, e.right.right.text);
            if v.None? then Lower(mk, Norm(e)) == None
            else Lower(mk, Norm(e)).Some? && Eval(w, sc, Lower(mk, Norm(e)).value) == Val(v.value)
  {
    hide Eval, Norm, Lower;
    DoubleDecimalNorm(mk, e);
    var t := e.right.right.text;
    var v := mk(LitDecimal, "-" + t).value;
    SubtractNegates(w, sc, LiteralTerm(v));
    LiteralTermEval(w, sc, v);
    if mk(LitDecimal, t).Some? { LiteralTermEval(w, sc, mk(LitDecimal, t).value); }
  }

  // ----- formatting keeps values -----

  lemma SameRefl(t: Term)
    ensures Same(t, t)
  {
  }

  /** FORMATTED ALIKE.  An expression that lowers still does once it has been formatted and read back,
      and its term has the same value in every world, against any entities or group. */
  lemma {:induction false} FormattingKeepsValue(mk: Maker, e: Expr)
    requires Printable(e) && NoDoubleDecimal(mk, e) && Lower(mk, e).Some?
    ensures Lower(mk, Norm(e)).Some? && Same(Lower(mk, e).value, Lower(mk, Norm(e)).value)
    decreases e, 1
  {
    hide Same, ParseInt, ParseDuration;
    match e
    case Path(_) => SameRefl(Lower(mk, e).value);
    case Lit(_, _) => SameRefl(Lower(mk, e).value);
    case Unary(op, right) => UnaryFormatted(mk, op, right);
    case Binary(op, l, r) =>
      FormattingKeepsValue(mk, l);
      FormattingKeepsValue(mk, r);
      BinaryAlike(op, Lower(mk, l).value, Lower(mk, r).value, Lower(mk, Norm(l)).value, Lower(mk, Norm(r)).value);
    case Call(name, args) => CallFormatted(mk, ShapeOf(ToLower(name)), args);
  }

  lemma BinaryAlike(op: TokenType, l: Term, r: Term, l': Term, r': Term)
    requires Same(l, l') && Same(r, r') && BinaryTerm(op, l, r).Some?
    ensures BinaryTerm(op, l', r').Some? && Same(BinaryTerm(op, l, r).value, BinaryTerm(op, l', r').value)
  {
    hide Same;
    NodesAlike(K.EQUAL, "", [l, r], [l', r']);
    NodesAlike(K.LESS, "", [l, r], [l', r']);
    NodesAlike(K.LESS, "", [r, l], [r', l']);
    if op == NOT_EQUAL {
      NodesAlike(K.NOT, "", [Node(K.EQUAL, [l, r])], [Node(K.EQUAL, [l', r'])]);
    } else if op == LESS_EQ {
      NodesAlike(K.NOT, "", [Node(K.LESS, [r, l])], [Node(K.LESS, [r', l'])]);
    } else if op == GREAT_EQ {
      NodesAlike(K.NOT, "", [Node(K.LESS, [l, r])], [Node(K.LESS, [l', r'])]);
    } else if op != EQUAL && op != LESS && op != GREATER {
      NodesAlike(BinaryTerm(op, l, r).value.kind, "", [l, r], [l', r']);
    }
  }

  lemma {:induction false} UnaryFormatted(mk: Maker, op: TokenType, right: Expr)
    requires Printable(Unary(op, right)) && NoDoubleDecimal(mk, Unary(op, right)) && Lower(mk, Unary(op, right)).Some?
    ensures Lower(mk, Norm(Unary(op, right))).Some?
    ensures Same(Lower(mk, Unary(op, right)).value, Lower(mk, Norm(Unary(op, right))).value)
    decreases right, 2
  {
    hide Same, ParseInt, ParseDuration;
    var e := Unary(op, right);
    if op == MINUS && IsNumber(right) {
      if IsUnsignedNumber(right) { FoldedSign(mk, right.kind, right.text); }
      SameRefl(Lower(mk, e).value);
    } else {
      FormattingKeepsValue(mk, right);
      var t, u := Lower(mk, right).value, Lower(mk, Norm(right)).value;
      var zero := LiteralTerm(IntValue(0));
      SameRefl(zero);
      if op == NOT {
        NodesAlike(K.NOT, "", [t], [u]);
      } else if IsNumber(Norm(right)) {
        DoubleMinus(mk, right.right.text);
      } else {
        NodesAlike(K.SUBTRACT, "", [zero, t], [zero, u]);
      }
    }
  }

  lemma {:induction false} ListFormatted(mk: Maker, es: seq<Expr>)
    requires LowerAll(mk, es).Some? && forall e <- es :: Printable(e) && NoDoubleDecimal(mk, e)
    ensures LowerAll(mk, NormAll(es)).Some? && SameAll(LowerAll(mk, es).value, LowerAll(mk, NormAll(es)).value)
    decreases es, 0
  {
    hide Same, Lower, Norm;
    if es != [] {
      assert es[0] in es;
      FormattingKeepsValue(mk, es[0]);
      ListFormatted(mk, es[1..]);
      assert NormAll(es)[0] == Norm(es[0]) && NormAll(es)[1..] == NormAll(es[1..]);
      var ts, us := LowerAll(mk, es).value, LowerAll(mk, NormAll(es)).value;
      assert ts[1..] == LowerAll(mk, es[1..]).value && us[1..] == LowerAll(mk, NormAll(es)[1..]).value;
      forall i | 0 <= i < |ts| ensures Same(ts[i], us[i]) {
        if i > 0 { assert ts[i] == ts[1..][i - 1] && us[i] == us[1..][i - 1]; }
      }
    }
  }

  lemma {:induction false} CallFormatted(mk: Maker, shape: CallShape, args: seq<Expr>)
    requires LowerCall(mk, shape, args).Some? && forall a <- args :: Printable(a) && NoDoubleDecimal(mk, a)
    ensures LowerCall(mk, shape, NormAll(args)).Some?
    ensures Same(LowerCall(mk, shape, args).value, LowerCall(mk, shape, NormAll(args)).value)
    decreases args, 2
  {
    hide Same, Lower;
    match shape
    case CountCall => SameRefl(LowerCall(mk, shape, args).value);
    case FieldCall(_) =>
      assert NormAll(args) == [args[0]];
      SameRefl(LowerCall(mk, shape, args).value);
    case QuantifierCall(one, many) =>
      ListFormatted(mk, args);
      NodesAlike(if |args| == 1 then one else many, "", LowerAll(mk, args).value, LowerAll(mk, NormAll(args)).value);
    case PlainCall(kind, _) =>
      ListFormatted(mk, args);
      NodesAlike(kind, "", LowerAll(mk, args).value, LowerAll(mk, NormAll(args)).value);
    case ExtractCall =>
      assert args[1] in args;
      FormattingKeepsValue(mk, args[1]);
      var ns := NormAll(args);
      assert ns[0] == Norm(args[0]) && ns[1] == NormAll(args[1..])[0] == Norm(args[1]);
      NodesAlike(K.DATE_EXTRACT, UnitOf(args[0]).value, [Lower(mk, args[1]).value], [Lower(mk, ns[1]).value]);
  }

  // ----- exactly when -----

  /** If the expression lowers, it still does once formatted, and to a term of the same value. */
  ghost predicate FormattedAlike(mk: Maker, e: Expr) {
    Lower(mk, e).Some? ==> Lower(mk, Norm(e)).Some? && Same(Lower(mk, e).value, Lower(mk, Norm(e)).value)
  }

  /** Every part of the expression that can be lowered keeps its value when it is formatted first. */
  ghost predicate AlikeThroughout(mk: Maker, e: Expr)
    decreases e
  {
    FormattedAlike(mk, e) &&
    match e
    case Unary(_, r) => AlikeThroughout(mk, r)
    case Binary(_, l, r) => AlikeThroughout(mk, l) && AlikeThroughout(mk, r)
    case Call(_, args) => forall a <- args :: AlikeThroughout(mk, a)
    case _ => true
  }

  lemma DoubleDecimalIsNotAlike(mk: Maker, e: Expr)
    requires LowersDoubleDecimal(mk, e) && Printable(e) && MakesDecimals(mk)
    ensures !FormattedAlike(mk, e)
  {
    hide Eval, Lower, Norm;
    var w, sc := SampleWorld(), Bound([]);
    DoubleDecimalChanges(mk, w, sc, e);
    if FormattedAlike(mk, e) { SameAt(w, sc, Lower(mk, e).value, Lower(mk, Norm(e)).value); }
  }

  /** EXACTLY.  Formatting before lowering keeps the value of every part of a printable expression if and
      only if no decimal that can be negated stands under two minus signs. */
  lemma {:induction false} AlikeExactly(mk: Maker, e: Expr)
    requires Printable(e) && MakesDecimals(mk)
    ensures AlikeThroughout(mk, e) <==> NoDoubleDecimal(mk, e)
    decreases e
  {
    hide FormattedAlike, Lower, Norm;
    if LowersDoubleDecimal(mk, e) { DoubleDecimalIsNotAlike(mk, e); }
    if NoDoubleDecimal(mk, e) { AlikeWithout(mk, e); }
    match e
    case Unary(_, r) => AlikeExactly(mk, r);
    case Binary(_, l, r) => AlikeExactly(mk, l); AlikeExactly(mk, r);
    case Call(_, args) =>
      forall a | a in args ensures AlikeThroughout(mk, a) <==> NoDoubleDecimal(mk, a) { AlikeExactly(mk, a); }
    case _ =>
  }

  lemma AlikeWithout(mk: Maker, e: Expr)
    requires Printable(e) && NoDoubleDecimal(mk, e)
    ensures FormattedAlike(mk, e)
  {
    hide Lower, Norm, Same;
    if Lower(mk, e).Some? { FormattingKeepsValue(mk, e); }
  }

  /** `-(-(5.0))`, which a constructor that makes decimals of both signs lowers either way. */
  lemma DoubleDecimalInstance(mk: Maker)
    requires MakesDecimals(mk) && mk(LitDecimal, "5.0").Some? && mk(LitDecimal, "-5.0").Some?
    ensures var e := Unary(MINUS, Unary(MINUS, Lit(LitDecimal, "5.0")));
            Printable(e) && Lower(mk, e).Some? && Lower(mk, Norm(e)).Some? && !FormattedAlike(mk, e)
  {
    hide Lower, Norm, FormattedAlike, Eval;
    var t := "5.0";
    var e := Unary(MINUS, Unary(MINUS, Lit(LitDecimal, t)));
    assert "-" + t == "-5.0";
    assert IsDecimal(t) by { assert t[1] == '.' && t[..1] == "5" && t[2..] == "0"; }
    DoubleDecimalNorm(mk, e);
    DoubleDecimalIsNotAlike(mk, e);
  }

  /** The terms themselves need not be equal: a double negation shows it. */
  lemma TermsDiffer(mk: Maker)
    ensures var e := Unary(MINUS, Unary(MINUS, Lit(LitInt, "5")));
            && Printable(e) && Lower(mk, e).Some? && Lower(mk, Norm(e)).Some?
            && Lower(mk, e) != Lower(mk, Norm(e))
  {
    assert IsInteger("5");
    SignedDigits("5");
    assert "5"[..0] == "";
    assert DigitsValue("5") == 5;
    assert Signed(MINUS, Lit(LitInt, "5")) == Lit(LitInt, "-5");
  }
}
