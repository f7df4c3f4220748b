/** Lowering the surface expressions into the kernel's smaller language. */
module Lowering {
  import opened Tokens
  import opened Ast
  import opened Int64
  import opened Semantics
  import opened LexerFacts
  import opened ExprRoundTrip
  import K = TermKinds

  // ----- literals -----

  function DigitValue(c: char): nat
    requires IsDigit(c)
  {
    c as int - '0' as int
  }

  function DigitsValue(s: string): nat
    requires forall c <- s :: IsDigit(c)
  {
    if s == "" then 0
    else
      var last := s[|s| - 1];
      assert last in s;
      10 * DigitsValue(s[..|s| - 1]) + DigitValue(last)
  }

  /** An optional sign and decimal digits that fit into 64 bits. */
  function ParseInt(s: string): Option<Word> {
    var digits := if s != "" && (s[0] == '-' || s[0] == '+') then s[1..] else s;
    if !IsInteger(digits) then None
    else
      var n: int := DigitsValue(digits);
      Exactly(if s[0] == '-' then -n else n)
  }

  function TrimLeft(s: string): string {
    if s != "" && IsSpace(s[0]) then TrimLeft(s[1..]) else s
  }

  function TrimRight(s: string): string {
    if s != "" && IsSpace(s[|s| - 1]) then TrimRight(s[..|s| - 1]) else s
  }

  /** Seconds per unit, and the text without its unit. */
  function DurationUnit(s: string): (int, string) {
    if s != "" && s[|s| - 1] == 'h' then (3600, s[..|s| - 1])
    else if s != "" && s[|s| - 1] == 'm' then (60, s[..|s| - 1])
    else if s != "" && s[|s| - 1] == 's' then (1, s[..|s| - 1])
    else (1, s)
  }

  /** The number of seconds, in 64 bits that wrap around. */
  function ParseDuration(text: string): Option<Word>
  {
    var s := TrimRight(TrimLeft(text));
    var (scale, digits) := DurationUnit(Unsigned(s));
    match ParseInt(digits)
    case None => None
    case Some(n) =>
      var seconds := Wrap(n * scale);
      Some(if Unsigned(s) != s then Negated(seconds) else seconds)
  }

  function Scale(unit: char): nat {
    if unit == 'h' then 3600 else if unit == 'm' then 60 else 1
  }

  /** A duration is the number its digits and its unit say if and only if that fits into 64 bits; a
      longer one is not refused, it wraps around. */
  lemma DurationExactlyWhenItFits(digits: string, unit: char, n: Word)
    requires ParseInt(digits) == Some(n) && IsInteger(digits) && (unit == 'h' || unit == 'm' || unit == 's')
    ensures ParseDuration(digits + [unit]).Some?
    ensures ParseDuration(digits + [unit]) == Some(n * Scale(unit)) <==> InRange(n * Scale(unit))
    ensures ParseDuration("-" + (digits + [unit])) == Some(-(n * Scale(unit))) <==> InRange(n * Scale(unit))
  {
    var s := digits + [unit];
    assert digits[0] in digits;
    assert s[0] == digits[0] && s[|s| - 1] == unit && s[..|s| - 1] == digits;
    var t := "-" + s;
    assert t[1..] == s && t[|t| - 1] == unit;
    assert TrimRight(TrimLeft(s)) == s && TrimRight(TrimLeft(t)) == t;
  }

  lemma FourMoreDigits(p: string, q: string)
    requires |q| == 4 && (forall c <- p :: IsDigit(c)) && (forall c <- q :: IsDigit(c))
    ensures forall c <- p + q :: IsDigit(c)
    ensures DigitsValue(p + q)
         == 10000 * DigitsValue(p) + 1000 * DigitValue(q[0]) + 100 * DigitValue(q[1]) + 10 * DigitValue(q[2]) + DigitValue(q[3])
  {
    var s := p + q;
    assert s[..|p| + 3][..|p| + 2] == s[..|p| + 2] && s[..|p| + 2][..|p| + 1] == s[..|p| + 1] && s[..|p| + 1][..|p|] == p;
    assert DigitsValue(s[..|p| + 1]) == 10 * DigitsValue(p) + DigitValue(q[0]);
    assert DigitsValue(s[..|p| + 2]) == 10 * DigitsValue(s[..|p| + 1]) + DigitValue(q[1]);
    assert DigitsValue(s[..|p| + 3]) == 10 * DigitsValue(s[..|p| + 2]) + DigitValue(q[2]);
  }

  /** Ten thousand million million hours do not fit. */
  lemma DurationInstance()
    ensures ParseDuration("10000000000000000h").Some? && ParseDuration("10000000000000000h") != Some(3600 * 10_000_000_000_000_000)
  {
    hide ParseDuration, DigitsValue;
    var d := "1" + "0000" + "0000" + "0000" + "0000";
    assert DigitsValue("1") == 1 by { OneDigit('1'); }
    FourMoreDigits("1", "0000");
    FourMoreDigits("1" + "0000", "0000");
    FourMoreDigits("1" + "0000" + "0000", "0000");
    FourMoreDigits("1" + "0000" + "0000" + "0000", "0000");
    assert d[0] == '1' && ParseInt(d) == Some(10_000_000_000_000_000);
    assert d + ['h'] == "10000000000000000h";
    DurationExactlyWhenItFits(d, 'h', 10_000_000_000_000_000);
  }

  lemma DigitsSnoc(d: string, c: char)
    requires (forall x <- d :: IsDigit(x)) && IsDigit(c)
    ensures (forall x <- d + [c] :: IsDigit(x)) && DigitsValue(d + [c]) == 10 * DigitsValue(d) + DigitValue(c)
  {
    assert (d + [c])[..|d|] == d;
  }

  lemma LeastText()
    ensures ParseInt("-9223372036854775808") == Some(MIN_INT64)
  {
    hide DigitsValue;
    LeastDigits();
    var d := "9223372036854775808";
    assert ("-" + d)[1..] == d && "-" + d == "-9223372036854775808";
  }

  lemma LeastDigits()
    ensures IsInteger("9223372036854775808") && DigitsValue("9223372036854775808") == TWO_63
  {
    hide DigitsValue;
    var d := "922" + "3372" + "0368" + "5477" + "5808";
    assert "9" + "2" == "92" && "92" + "2" == "922";
    OneDigit('9');
    DigitsSnoc("9", '2');
    DigitsSnoc("92", '2');
    FourMoreDigits("922", "3372");
    FourMoreDigits("922" + "3372", "0368");
    FourMoreDigits("922" + "3372" + "0368", "5477");
    FourMoreDigits("922" + "3372" + "0368" + "5477", "5808");
    assert d == "9223372036854775808";
  }

  lemma OneDigit(c: char)
    requires IsDigit(c)
    ensures DigitsValue([c]) == DigitValue(c)
  {
    assert [c][..0] == "";
  }

  /** The kernel's constructors for the other kinds of values, which may refuse a text. */
  type Maker = (LitKind, string) -> Option<Value>

  function MakeLiteral(mk: Maker, kind: LitKind, t: string): Option<Value> {
    match kind
    case LitInt => (match ParseInt(t) case None => None case Some(n) => Some(IntValue(n)))
    case LitDuration => (match ParseDuration(t) case None => None case Some(n) => Some(DurationValue(n)))
    case LitBool => None
    case LitNull => None
    case _ => mk(kind, t)
  }

  function FlipSign(t: string): string {
    if t != "" && t[0] == '-' then t[1..] else "-" + t
  }

  predicate IsNumber(e: Expr) {
    e.Lit? && (e.kind == LitInt || e.kind == LitDecimal || e.kind == LitDuration)
  }

  /** A number under a minus sign; the negation wraps around. */
  function MakeNegated(mk: Maker, kind: LitKind, t: string): Option<Value> {
    match kind
    case LitInt => (match ParseInt(t) case None => None case Some(n) => Some(IntValue(Negated(n))))
    case LitDecimal => mk(LitDecimal, FlipSign(t))
    case LitDuration => (match ParseDuration(t) case None => None case Some(n) => Some(DurationValue(Negated(n))))
    case _ => None
  }

  // ----- terms -----

  function LiteralTerm(v: Value): Term {
    Term(K.LITERAL, "", Some(v), [])
  }

  function FieldTerm(kind: K.TermKind, path: string): Term {
    Term(kind, path, None, [])
  }

  function Node(kind: K.TermKind, args: seq<Term>): Term {
    Term(kind, "", None, args)
  }

  /** The kernel has no truth values: they are comparisons of numbers. */
  function BoolTerm(b: bool): Term {
    Node(K.EQUAL, [LiteralTerm(IntValue(1)), LiteralTerm(IntValue(if b then 1 else 0))])
  }

  function BinaryTerm(op: TokenType, l: Term, r: Term): Option<Term> {
    if op == EQUAL then Some(Node(K.EQUAL, [l, r]))
    else if op == NOT_EQUAL then Some(Node(K.NOT, [Node(K.EQUAL, [l, r])]))
    else if op == LESS then Some(Node(K.LESS, [l, r]))
    else if op == GREATER then Some(Node(K.LESS, [r, l]))
    else if op == LESS_EQ then Some(Node(K.NOT, [Node(K.LESS, [r, l])]))
    else if op == GREAT_EQ then Some(Node(K.NOT, [Node(K.LESS, [l, r])]))
    else if op == AND then Some(Node(K.ALL, [l, r]))
    else if op == OR then Some(Node(K.ANY, [l, r]))
    else match ArithmeticKind(op) case None => None case Some(kind) => Some(Node(kind, [l, r]))
  }

  function ArithmeticKind(op: TokenType): (r: Option<K.TermKind>)
    ensures r.Some? ==> IsArithmetic(r.value)
  {
    if op == PLUS then Some(K.ADD)
    else if op == MINUS then Some(K.SUBTRACT)
    else if op == STAR then Some(K.MULTIPLY)
    else if op == SLASH then Some(K.DIVIDE)
    else if op == PERCENT then Some(K.MODULO)
    else None
  }

  function Lower1(c: char): char {
    if 'A' <= c <= 'Z' then (c as int + 32) as char else c
  }

  function ToLower(s: string): string {
    if s == "" then "" else [Lower1(s[0])] + ToLower(s[1..])
  }

  /** How a call is lowered: by the name of a field, or from its operands. */
  datatype CallShape =
    | CountCall
    | FieldCall(kind: K.TermKind)
    | QuantifierCall(one: K.TermKind, many: K.TermKind)
    | PlainCall(kind: K.TermKind, arity: Option<nat>)
    | ExtractCall
    | UnknownCall

  function ShapeOf(name: string): CallShape {
    match name
    case "count" => CountCall
    case "sum" => FieldCall(K.SUM)
    case "min" => FieldCall(K.MIN)
    case "max" => FieldCall(K.MAX)
    case "all_equal" => FieldCall(K.ALL_EQUAL)
    case "exists" => FieldCall(K.EXISTS)
    case "all" => QuantifierCall(K.ALL_MEMBERS, K.ALL)
    case "any" => QuantifierCall(K.ANY_MEMBERS, K.ANY)
    case "coalesce" => PlainCall(K.COALESCE, None)
    case "if" => PlainCall(K.IF, Some(3))
    case "concat" => PlainCall(K.CONCAT, None)
    case "substring" => PlainCall(K.SUBSTRING, Some(3))
    case "trim" => PlainCall(K.TRIM, Some(1))
    case "abs" => PlainCall(K.ABS, Some(1))
    case "clamp" => PlainCall(K.CLAMP, Some(3))
    case "date_add" => PlainCall(K.TIMESTAMP_ADD, Some(2))
    case "timestamp_add" => PlainCall(K.TIMESTAMP_ADD, Some(2))
    case "date_diff" => PlainCall(K.TIMESTAMP_DIFF, Some(2))
    case "timestamp_diff" => PlainCall(K.TIMESTAMP_DIFF, Some(2))
    case "extract" => ExtractCall
    case _ => UnknownCall
  }

  /** The unit of `extract`: a bare name or a string. */
  function UnitOf(e: Expr): Option<string> {
    match e
    case Path(p) => Some(p)
    case Lit(LitString, t) => Some(t)
    case _ => None
  }

  function Lower(mk: Maker, e: Expr): Option<Term>
    decreases e, 1
  {
    match e
    case Nil => None
    case Path(p) => Some(FieldTerm(K.FIELD, p))
    case Lit(kind, t) =>
      if kind == LitBool then Some(BoolTerm(t == "true"))
      else (match MakeLiteral(mk, kind, t) case None => None case Some(v) => Some(LiteralTerm(v)))
    case Unary(op, right) =>
      if op == MINUS && IsNumber(right) then
        match MakeNegated(mk, right.kind, right.text) case None => None case Some(v) => Some(LiteralTerm(v))
      else if op == MINUS || op == NOT then
        match Lower(mk, right)
        case None => None
        case Some(r) => Some(if op == NOT then Node(K.NOT, [r]) else Node(K.SUBTRACT, [LiteralTerm(IntValue(0)), r]))
      else None
    case Binary(op, left, right) =>
      (match (Lower(mk, left), Lower(mk, right))
       case (Some(l), Some(r)) => BinaryTerm(op, l, r)
       case _ => None)
    case Call(name, args) => LowerCall(mk, ShapeOf(ToLower(name)), args)
  }

  function LowerCall(mk: Maker, shape: CallShape, args: seq<Expr>): Option<Term>
    decreases args, 2
  {
    match shape
    case CountCall => if args != [] then None else Some(Node(K.COUNT, []))
    case FieldCall(kind) => if |args| != 1 || !args[0].Path? then None else Some(FieldTerm(kind, args[0].path))
    case QuantifierCall(one, many) =>
      (match LowerAll(mk, args) case None => None case Some(ts) => Some(Node(if |ts| == 1 then one else many, ts)))
    case PlainCall(kind, arity) =>
      if arity.Some? && |args| != arity.value then None
      else (match LowerAll(mk, args) case None => None case Some(ts) => Some(Node(kind, ts)))
    case ExtractCall =>
      if |args| != 2 || UnitOf(args[0]).None? then None
      else
        (match Lower(mk, args[1])
         case None => None
         case Some(t) => Some(Term(K.DATE_EXTRACT, UnitOf(args[0]).value, None, [t])))
    case UnknownCall => None
  }

  function LowerAll(mk: Maker, es: seq<Expr>): (r: Option<seq<Term>>)
    ensures r.Some? ==> |r.value| == |es|
    decreases es, 0
  {
    if es == [] then Some([])
    else
      match (Lower(mk, es[0]), LowerAll(mk, es[1..]))
      case (Some(t), Some(ts)) => Some([t] + ts)
      case _ => None
  }
}
