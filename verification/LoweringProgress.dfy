/** Which expressions lower: every one whose literals the kernel takes and whose calls have the operands
    that their names ask for, and no other. */
module LoweringProgress {
  import opened Tokens
  import opened Ast
  import opened Int64
  import opened Lowering
  import opened LexerFacts

  /** A text that says an integer of 64 bits, or a number of its units. */
  predicate SaysNumber(mk: Maker, kind: LitKind, t: string) {
    if kind == LitInt then ParseInt(t).Some? else if kind == LitDuration then ParseDuration(t).Some? else mk(kind, t).Some?
  }

  /** The calls of one operand, of two and of three, those of any number, and those of a field. */
  const SINGLE: set<string> := {"trim", "abs"}
  const DOUBLE: set<string> := {"date_add", "timestamp_add", "date_diff", "timestamp_diff"}
  const TRIPLE: set<string> := {"if", "substring", "clamp"}
  const LISTED: set<string> := {"all", "any", "coalesce", "concat"}
  const REDUCING: set<string> := {"sum", "min", "max", "all_equal", "exists"}

  predicate NamesUnit(e: Expr) {
    e.Path? || (e.Lit? && e.kind == LitString)
  }

  predicate Lowers(mk: Maker, e: Expr)
    decreases e, 1
  {
    match e
    case Nil => false
    case Path(_) => true
    case Lit(kind, t) => kind == LitBool || (kind != LitNull && SaysNumber(mk, kind, t))
    case Unary(op, right) =>
      if op == MINUS && right.Lit? && right.kind in {LitInt, LitDecimal, LitDuration}
      then SaysNumber(mk, right.kind, if right.kind == LitDecimal then FlipSign(right.text) else right.text)
      else op in {MINUS, NOT} && Lowers(mk, right)
    case Binary(op, left, right) =>
      && op in {EQUAL, NOT_EQUAL, LESS, LESS_EQ, GREATER, GREAT_EQ, AND, OR, PLUS, MINUS, STAR, SLASH, PERCENT}
      && Lowers(mk, left) && Lowers(mk, right)
    case Call(name, args) =>
      var n := ToLower(name);
      if n == "count" then args == []
      else if n in REDUCING then |args| == 1 && args[0].Path?
      else if n == "extract" then |args| == 2 && NamesUnit(args[0]) && Lowers(mk, args[1])
      else
        && ((n in SINGLE && |args| == 1) || (n in DOUBLE && |args| == 2) || (n in TRIPLE && |args| == 3) || n in LISTED)
        && LowersAll(mk, args)
  }

  predicate LowersAll(mk: Maker, es: seq<Expr>)
    decreases es, 0
  {
    es == [] || (Lowers(mk, es[0]) && LowersAll(mk, es[1..]))
  }

  /** PROGRESS.  An expression lowers exactly when nothing in it is of the wrong kind or number. */
  lemma {:induction false} LowersExactly(mk: Maker, e: Expr)
    ensures Lower(mk, e).Some? <==> Lowers(mk, e)
    decreases e, 1
  {
    hide ParseInt, ParseDuration, FlipSign, ToLower;
    match e
    case Nil =>
    case Path(_) =>
    case Lit(_, _) =>
    case Unary(_, right) => LowersExactly(mk, right);
    case Binary(op, left, right) =>
      LowersExactly(mk, left);
      LowersExactly(mk, right);
    case Call(name, args) => CallsExactly(mk, ToLower(name), name, args);
  }

  lemma {:induction false} CallsExactly(mk: Maker, n: string, name: string, args: seq<Expr>)
    requires n == ToLower(name)
    ensures Lower(mk, Call(name, args)).Some? <==> Lowers(mk, Call(name, args))
    decreases args, 2
  {
    hide ParseInt, ParseDuration, FlipSign, ToLower, LowerAll, LowersAll;
    AllExactly(mk, args);
    if |args| == 2 { LowersExactly(mk, args[1]); }
  }

  lemma {:induction false} AllExactly(mk: Maker, es: seq<Expr>)
    ensures LowerAll(mk, es).Some? <==> LowersAll(mk, es)
    decreases es, 0
  {
    hide Lower, Lowers;
    if es != [] {
      LowersExactly(mk, es[0]);
      AllExactly(mk, es[1..]);
    }
  }

  /** A sign before digits is the sign of their number, which has to fit with it. */
  lemma SignedNumbers(digits: string)
    requires IsInteger(digits)
    ensures ParseInt(digits) == ParseInt("+" + digits) == Exactly(DigitsValue(digits))
    ensures ParseInt("-" + digits) == Exactly(0 - DigitsValue(digits))
  {
    assert digits[0] in digits;
    assert ("+" + digits)[1..] == digits && ("-" + digits)[1..] == digits;
  }

  /** A number of seconds needs no unit. */
  lemma BareDuration(digits: string, n: Word)
    requires IsInteger(digits) && ParseInt(digits) == Some(n)
    ensures ParseDuration(digits) == Some(n) == ParseDuration(digits + "s")
  {
    assert digits[0] in digits && digits[|digits| - 1] in digits;
    assert TrimRight(TrimLeft(digits)) == digits;
    DurationExactlyWhenItFits(digits, 's', n);
    assert digits + ['s'] == digits + "s";
  }

  lemma {:induction false} LeftTrimmed(w: string, s: string)
    requires (forall c <- w :: IsSpace(c)) && s != "" && !IsSpace(s[0])
    ensures TrimLeft(w + s) == s
    decreases |w|
  {
    if w == "" {
      assert w + s == s;
    } else {
      assert w[0] in w && (forall c <- w[1..] :: c in w) && (w + s)[1..] == w[1..] + s;
      LeftTrimmed(w[1..], s);
    }
  }

  lemma {:induction false} RightTrimmed(s: string, w: string)
    requires (forall c <- w :: IsSpace(c)) && s != "" && !IsSpace(s[|s| - 1])
    ensures TrimRight(s + w) == s
    decreases |w|
  {
    if w == "" {
      assert s + w == s;
    } else {
      var n := |w| - 1;
      assert w[n] in w && (forall c <- w[..n] :: c in w) && (s + w)[..|s + w| - 1] == s + w[..n];
      RightTrimmed(s, w[..n]);
    }
  }

  /** White space around a duration says nothing. */
  lemma {:induction false} DurationTrimmed(v: string, s: string, w: string)
    requires (forall c <- v + w :: IsSpace(c)) && s != "" && !IsSpace(s[0]) && !IsSpace(s[|s| - 1])
    ensures ParseDuration(v + s + w) == ParseDuration(s)
  {
    assert forall c <- v :: c in v + w;
    assert forall c <- w :: c in v + w;
    assert v + s + w == v + (s + w) && (s + w)[0] == s[0];
    LeftTrimmed(v, s + w);
    RightTrimmed(s, w);
    LeftTrimmed("", s);
    RightTrimmed(s, "");
    assert "" + s == s && s + "" == s;
  }
}
