/** What a surface expression means, said without the kernel's language, and the proof that lowering
    keeps it. */
module LoweringMeaning {
  import opened Tokens
  import opened Ast
  import opened Int64
  import opened Semantics
  import opened Lowering
  import K = TermKinds

  // ----- the meaning of surface operators -----

  function Differ(a: Result, b: Result): Result {
    match (a, b)
    case (Bool(x), Bool(y)) => Bool(x != y)
    case (Val(v), Val(u)) => if v.kind == u.kind then Bool(v != u) else Fail
    case _ => Fail
  }

  predicate IsComparison(op: TokenType) {
    LESS <= op <= GREAT_EQ
  }

  /** Numbers are compared as numbers; texts and decimals by the kernel's order, read both ways. */
  function Compare(w: World, inGroup: bool, op: TokenType, a: Result, b: Result): Result
    requires IsComparison(op)
  {
    match (a, b)
    case (Val(v), Val(u)) =>
      if v.kind != u.kind then Fail
      else if IsIntegral(v.kind) then Bool(CompareInts(op, v.integer, u.integer))
      else if v.kind == DecimalKind then Bool(CompareTexts(w.decimalLess, op, v.text, u.text))
      else if v.kind == StringKind && inGroup then Bool(CompareTexts(w.textLess, op, v.text, u.text))
      else Fail
    case _ => Fail
  }

  predicate CompareInts(op: TokenType, a: int, b: int)
    requires IsComparison(op)
  {
    if op == LESS then a < b else if op == LESS_EQ then a <= b else if op == GREATER then a > b else a >= b
  }

  predicate CompareTexts(less: (string, string) -> bool, op: TokenType, a: string, b: string)
    requires IsComparison(op)
  {
    if op == LESS then less(a, b) else if op == LESS_EQ then !less(b, a)
    else if op == GREATER then less(b, a) else !less(a, b)
  }

  /** Only numbers have a negation here, and the least one has none. */
  function Negate(r: Result): Result {
    match r
    case Val(v) => if v.kind == IntKind && Negation(v.integer).Some? then Val(IntValue(Negation(v.integer).value)) else Fail
    case _ => Fail
  }

  function Both(a: Result, b: Result): Result {
    match a
    case Bool(false) => Bool(false)
    case Bool(true) => if b.Bool? then b else Fail
    case _ => Fail
  }

  function Either(a: Result, b: Result): Result {
    match a
    case Bool(true) => Bool(true)
    case Bool(false) => if b.Bool? then b else Fail
    case _ => Fail
  }

  function Made(w: World, v: Option<Value>): Result {
    match v case None => Fail case Some(x) => Literal(w, x)
  }

  /** A duration or decimal is negated where it is written. */
  function NegatedLiteral(mk: Maker, w: World, kind: LitKind, t: string): Result {
    if kind == LitDecimal then Made(w, mk(LitDecimal, FlipSign(t)))
    else
      match ParseDuration(t)
      case None => Fail
      case Some(n) => if Negation(n).Some? then Literal(w, DurationValue(Negation(n).value)) else Fail
  }

  /** The meaning of a surface expression. */
  function Meaning(mk: Maker, w: World, sc: Scope, e: Expr): Result
    decreases e, 2
  {
    if !Inhabited(sc) then Fail
    else
      match e
      case Nil => Fail
      case Path(p) => ReadField(w, sc, p)
      case Lit(kind, t) => LiteralMeaning(mk, w, kind, t)
      case Unary(op, right) =>
        if op == NOT then NotResult(Meaning(mk, w, sc, right))
        else if IsNumber(right) && right.kind != LitInt then NegatedLiteral(mk, w, right.kind, right.text)
        else Negate(Meaning(mk, w, sc, right))
      case Binary(op, l, r) => BinaryMeaning(w, sc, op, Meaning(mk, w, sc, l), Meaning(mk, w, sc, r))
      case Call(name, args) => CallMeaning(mk, w, sc, ToLower(name), args)
  }

  /** The kernel is asked about the texts that it knows how to read; `null` has no value. */
  function LiteralMeaning(mk: Maker, w: World, kind: LitKind, t: string): Result {
    match kind
    case LitBool => Bool(t == "true")
    case LitNull => Fail
    case LitInt => (match ParseInt(t) case None => Fail case Some(n) => Val(IntValue(n)))
    case LitDuration => (match ParseDuration(t) case None => Fail case Some(n) => Literal(w, DurationValue(n)))
    case _ => Made(w, mk(kind, t))
  }

  function BinaryMeaning(w: World, sc: Scope, op: TokenType, a: Result, b: Result): Result {
    if op == EQUAL then EqualResults(a, b)
    else if op == NOT_EQUAL then Differ(a, b)
    else if IsComparison(op) then Compare(w, sc.Group?, op, a, b)
    else if op == AND then Both(a, b)
    else if op == OR then Either(a, b)
    else ArithmeticMeaning(w, op, a, b)
  }

  /** What an operator computes of two integers: the exact result if it fits, save that the least one
      times -1 is taken to be the least one; and no quotient or remainder of zero. */
  function IntegerMeaning(op: TokenType, a: Word, b: Word): Option<Word> {
    if op == PLUS then Exactly(a + b)
    else if op == MINUS then Exactly(a - b)
    else if op == STAR then if a == MIN_INT64 && b == -1 then Some(MIN_INT64) else Exactly(a * b)
    else if op == SLASH then if b == 0 then None else Exactly(Truncated(a, b))
    else if op == PERCENT then if b == 0 || (a == MIN_INT64 && b == -1) then None else Exactly(a - b * Truncated(a, b))
    else None
  }

  /** Of other values an operator is the kernel's, and an integer only mixes with a duration, in a product. */
  function ArithmeticMeaning(w: World, op: TokenType, a: Result, b: Result): Result {
    if !a.Val? || !b.Val? then Fail
    else if a.v.kind == IntKind && b.v.kind == IntKind then
      match IntegerMeaning(op, a.v.integer, b.v.integer) case None => Fail case Some(n) => Val(IntValue(n))
    else if (a.v.kind == IntKind || b.v.kind == IntKind) && !(op == STAR && (a.v.kind == DurationKind || b.v.kind == DurationKind)) then Fail
    else if op == PLUS then Primitive(w, K.ADD, "", Some([a.v, b.v]))
    else if op == MINUS then Primitive(w, K.SUBTRACT, "", Some([a.v, b.v]))
    else if op == STAR then Primitive(w, K.MULTIPLY, "", Some([a.v, b.v]))
    else if op == SLASH then Primitive(w, K.DIVIDE, "", Some([a.v, b.v]))
    else if op == PERCENT then Primitive(w, K.MODULO, "", Some([a.v, b.v]))
    else Fail
  }

  /** An operation of the kernel on values that are not integers. */
  function Primitive(w: World, kind: K.TermKind, unit: string, vs: Option<seq<Value>>): Result {
    match vs
    case None => Fail
    case Some(list) => match w.prim(kind, unit, list) case None => Fail case Some(v) => Val(v)
  }

  function AbsMeaning(w: World, vs: Option<seq<Value>>): Result {
    if vs.Some? && |vs.value| == 1 && vs.value[0].kind == IntKind then
      var n: int := vs.value[0].integer;
      match Exactly(if n < 0 then -n else n) case None => Fail case Some(m) => Val(IntValue(m))
    else Primitive(w, K.ABS, "", vs)
  }

  /** The first operand, but no less than the second and no more than the third. */
  function ClampMeaning(w: World, vs: Option<seq<Value>>): Result {
    if vs.Some? && |vs.value| == 3 && IsIntegral(vs.value[0].kind) then
      var v, low, high := vs.value[0], vs.value[1], vs.value[2];
      if low.kind != v.kind || high.kind != v.kind || high.integer < low.integer then Fail
      else if v.integer < low.integer then Val(low)
      else if high.integer < v.integer then Val(high)
      else Val(v)
    else Primitive(w, K.CLAMP, "", vs)
  }

  /** A field of every member of the group, reduced. */
  function FieldMeaning(w: World, sc: Scope, kind: K.TermKind, args: seq<Expr>): Result {
    if |args| != 1 || !args[0].Path? then Fail else Reduction(w, sc, kind, args[0].path)
  }

  /** What a call means, by its name.  `all` and `any` quantify over the members of the group when they
      have one operand. */
  function CallMeaning(mk: Maker, w: World, sc: Scope, name: string, args: seq<Expr>): Result
    decreases args, 3
  {
    match name
    case "count" => if sc.Group? then Val(IntValue(Wrap(|sc.members|))) else Fail
    case "sum" => FieldMeaning(w, sc, K.SUM, args)
    case "min" => FieldMeaning(w, sc, K.MIN, args)
    case "max" => FieldMeaning(w, sc, K.MAX, args)
    case "all_equal" => FieldMeaning(w, sc, K.ALL_EQUAL, args)
    case "exists" => if |args| != 1 || !args[0].Path? then Fail else ReadExists(w, sc, args[0].path)
    case "all" =>
      if args == [] then Fail
      else if |args| == 1 then if sc.Group? then EveryMember(mk, w, sc.members, args[0], false) else Fail
      else Connect(mk, w, sc, args, false)
    case "any" =>
      if args == [] then Fail
      else if |args| == 1 then if sc.Group? then EveryMember(mk, w, sc.members, args[0], true) else Fail
      else Connect(mk, w, sc, args, true)
    case "coalesce" => FirstMeaning(mk, w, sc, args)
    case "if" =>
      if |args| != 3 then Fail
      else
        (match Meaning(mk, w, sc, args[0])
         case Bool(b) => Meaning(mk, w, sc, if b then args[1] else args[2])
         case _ => Fail)
    case "concat" => if |args| < 2 then Fail else Primitive(w, K.CONCAT, "", Meanings(mk, w, sc, args))
    case "substring" => if |args| != 3 then Fail else Primitive(w, K.SUBSTRING, "", Meanings(mk, w, sc, args))
    case "trim" => if |args| != 1 then Fail else Primitive(w, K.TRIM, "", Meanings(mk, w, sc, args))
    case "abs" => if |args| != 1 then Fail else AbsMeaning(w, Meanings(mk, w, sc, args))
    case "clamp" => if |args| != 3 then Fail else ClampMeaning(w, Meanings(mk, w, sc, args))
    case "date_add" => if |args| != 2 then Fail else Primitive(w, K.TIMESTAMP_ADD, "", Meanings(mk, w, sc, args))
    case "timestamp_add" => if |args| != 2 then Fail else Primitive(w, K.TIMESTAMP_ADD, "", Meanings(mk, w, sc, args))
    case "date_diff" => if |args| != 2 then Fail else Primitive(w, K.TIMESTAMP_DIFF, "", Meanings(mk, w, sc, args))
    case "timestamp_diff" => if |args| != 2 then Fail else Primitive(w, K.TIMESTAMP_DIFF, "", Meanings(mk, w, sc, args))
    case "extract" =>
      if |args| != 2 then Fail
      else
        (match Meaning(mk, w, sc, args[1])
         case Val(v) =>
           if args[0].Path? && args[0].path != "" then Primitive(w, K.DATE_EXTRACT, args[0].path, Some([v]))
           else if args[0].Lit? && args[0].kind == LitString && args[0].text != "" then Primitive(w, K.DATE_EXTRACT, args[0].text, Some([v]))
           else Fail
         case _ => Fail)
    case _ => Fail
  }

  /** The operands joined by `&&`, or by `||`. */
  function Connect(mk: Maker, w: World, sc: Scope, es: seq<Expr>, any: bool): Result
    decreases es, 0
  {
    if es == [] then Bool(!any)
    else
      var first, rest := Meaning(mk, w, sc, es[0]), Connect(mk, w, sc, es[1..], any);
      if any then Either(first, rest) else Both(first, rest)
  }

  function EveryMember(mk: Maker, w: World, members: seq<Semantics.Entity>, e: Expr, any: bool): Result
    decreases e, 3, |members|
  {
    if members == [] then Bool(!any)
    else
      var first, rest := Meaning(mk, w, Bound([members[0]]), e), EveryMember(mk, w, members[1..], e, any);
      if any then Either(first, rest) else Both(first, rest)
  }

  function FirstMeaning(mk: Maker, w: World, sc: Scope, es: seq<Expr>): Result
    decreases es, 0
  {
    if es == [] then Fail
    else
      var r := Meaning(mk, w, sc, es[0]);
      if r.Fail? then FirstMeaning(mk, w, sc, es[1..]) else r
  }

  function Meanings(mk: Maker, w: World, sc: Scope, es: seq<Expr>): Option<seq<Value>>
    decreases es, 0
  {
    if es == [] then Some([])
    else
      match (Meaning(mk, w, sc, es[0]), Meanings(mk, w, sc, es[1..]))
      case (Val(v), Some(vs)) => Some([v] + vs)
      case _ => None
  }

  // ----- where the lowered negation wraps -----

  /** The least number, or the least duration, which has no negation. */
  predicate IsLeast(e: Expr) {
    e.Lit? && ((e.kind == LitInt && ParseInt(e.text) == Some(MIN_INT64)) || (e.kind == LitDuration && ParseDuration(e.text) == Some(MIN_INT64)))
  }

  /** No minus sign stands directly before the least number. */
  predicate NoWrap(e: Expr)
    decreases e
  {
    match e
    case Unary(op, r) => NoWrap(r) && !(op == MINUS && IsLeast(r))
    case Binary(_, l, r) => NoWrap(l) && NoWrap(r)
    case Call(_, args) => forall a <- args :: NoWrap(a)
    case _ => true
  }

  // ----- lowering keeps the meaning -----

  lemma LiteralTermEval(w: World, sc: Scope, v: Value)
    requires Inhabited(sc)
    ensures Eval(w, sc, LiteralTerm(v)) == Literal(w, v)
  {
  }

  lemma EqualEval(w: World, sc: Scope, a: Term, b: Term)
    requires Inhabited(sc)
    ensures Eval(w, sc, Node(K.EQUAL, [a, b])) == EqualResults(Eval(w, sc, a), Eval(w, sc, b))
  {
    hide EqualResults;
    assert WellShaped(Node(K.EQUAL, [a, b]));
  }

  lemma LessEval(w: World, sc: Scope, a: Term, b: Term)
    requires Inhabited(sc)
    ensures Eval(w, sc, Node(K.LESS, [a, b])) == LessResults(w, sc.Group?, Eval(w, sc, a), Eval(w, sc, b))
  {
    hide LessResults, EqualResults, Applied, EvalUntil, EvalFirst, EvalValues, EvalMembers, ReadField, ReadExists, Reduction;
    assert WellShaped(Node(K.LESS, [a, b]));
  }

  lemma NotEval(w: World, sc: Scope, t: Term)
    requires Inhabited(sc)
    ensures Eval(w, sc, Node(K.NOT, [t])) == NotResult(Eval(w, sc, t))
  {
  }

  lemma BoolTermEval(w: World, sc: Scope, b: bool)
    requires Inhabited(sc)
    ensures Eval(w, sc, BoolTerm(b)) == Bool(b)
  {
    EqualEval(w, sc, LiteralTerm(IntValue(1)), LiteralTerm(IntValue(if b then 1 else 0)));
    LiteralTermEval(w, sc, IntValue(1));
    LiteralTermEval(w, sc, IntValue(0));
  }

  lemma UntilPair(w: World, sc: Scope, a: Term, b: Term, stop: bool)
    requires Inhabited(sc)
    ensures EvalUntil(w, sc, [a, b], stop)
         == (if stop then Either(Eval(w, sc, a), Eval(w, sc, b)) else Both(Eval(w, sc, a), Eval(w, sc, b)))
  {
    assert [a, b][1..] == [b];
    assert EvalUntil(w, sc, [b][1..], stop) == Bool(!stop);
  }

  lemma ValuesPair(w: World, sc: Scope, a: Term, b: Term)
    ensures EvalValues(w, sc, [a, b]) == Pair(Eval(w, sc, a), Eval(w, sc, b))
  {
    assert [a, b][1..] == [b] && [b][1..] == [];
    assert EvalValues(w, sc, []) == Some([]);
    if Eval(w, sc, a).Val? && Eval(w, sc, b).Val? {
      assert [Eval(w, sc, a).v] + ([Eval(w, sc, b).v] + []) == [Eval(w, sc, a).v, Eval(w, sc, b).v];
    }
  }

  function Pair(a: Result, b: Result): Option<seq<Value>> {
    if a.Val? && b.Val? then Some([a.v, b.v]) else None
  }

  lemma StrictEval(w: World, sc: Scope, t: Term)
    requires Inhabited(sc) && WellShaped(t) && IsStrict(t.kind)
    ensures Eval(w, sc, t) == Applied(w, t.kind, t.field, EvalValues(w, sc, t.args))
  {
    hide Applied;
  }

  /** The kinds that evaluate all of their operands to values. */
  predicate IsStrict(kind: K.TermKind) {
    IsArithmetic(kind) || K.ABS <= kind <= K.TRIM
  }

  lemma ArithmeticEval(w: World, sc: Scope, kind: K.TermKind, a: Term, b: Term)
    requires Inhabited(sc) && IsArithmetic(kind)
    ensures Eval(w, sc, Node(kind, [a, b])) == ArithmeticResult(w, kind, Eval(w, sc, a), Eval(w, sc, b))
  {
    StrictEval(w, sc, Node(kind, [a, b]));
    ValuesPair(w, sc, a, b);
    hide Eval, EvalValues, Arithmetic;
  }

  lemma BinaryKeeps(w: World, sc: Scope, op: TokenType, l: Term, r: Term)
    requires Inhabited(sc) && BinaryTerm(op, l, r).Some?
    ensures Eval(w, sc, BinaryTerm(op, l, r).value) == BinaryMeaning(w, sc, op, Eval(w, sc, l), Eval(w, sc, r))
  {
    hide Eval, EvalUntil;
    EqualEval(w, sc, l, r);
    LessEval(w, sc, l, r);
    LessEval(w, sc, r, l);
    NotEval(w, sc, Node(K.EQUAL, [l, r]));
    NotEval(w, sc, Node(K.LESS, [r, l]));
    NotEval(w, sc, Node(K.LESS, [l, r]));
    if op == AND || op == OR {
      UntilPair(w, sc, l, r, op == OR);
      ConnectiveEval(w, sc, [l, r]);
    } else if ArithmeticKind(op).Some? {
      ArithmeticEval(w, sc, ArithmeticKind(op).value, l, r);
      OperatorMeans(w, op, ArithmeticKind(op).value, Eval(w, sc, l), Eval(w, sc, r));
    }
  }

  lemma ConnectiveEval(w: World, sc: Scope, ts: seq<Term>)
    requires Inhabited(sc) && ts != []
    ensures Eval(w, sc, Node(K.ALL, ts)) == EvalUntil(w, sc, ts, false)
    ensures Eval(w, sc, Node(K.ANY, ts)) == EvalUntil(w, sc, ts, true)
  {
  }

  /** Subtracting from zero negates, and overflows where negation does. */
  lemma SubtractNegates(w: World, sc: Scope, t: Term)
    requires Inhabited(sc)
    ensures Eval(w, sc, Node(K.SUBTRACT, [LiteralTerm(IntValue(0)), t])) == Negate(Eval(w, sc, t))
  {
    hide Eval;
    ArithmeticEval(w, sc, K.SUBTRACT, LiteralTerm(IntValue(0)), t);
    LiteralTermEval(w, sc, IntValue(0));
    match Eval(w, sc, t) {
      case Val(v) => AddIsExact(0, v.integer);
      case _ =>
    }
  }

  lemma QuantifierEval(w: World, sc: Scope, t: Term)
    requires Inhabited(sc)
    ensures Eval(w, sc, Node(K.ALL_MEMBERS, [t])) == if sc.Group? then EvalMembers(w, sc.members, t, false) else Fail
    ensures Eval(w, sc, Node(K.ANY_MEMBERS, [t])) == if sc.Group? then EvalMembers(w, sc.members, t, true) else Fail
  {
  }

  function ChoiceOf(c: Result, a: Result, b: Result): Result {
    if !c.Bool? then Fail else if c.b then a else b
  }

  lemma ChoiceEval(w: World, sc: Scope, ts: seq<Term>)
    requires Inhabited(sc) && ts != []
    ensures Eval(w, sc, Node(K.COALESCE, ts)) == EvalFirst(w, sc, ts)
    ensures |ts| == 3 ==>
      Eval(w, sc, Node(K.IF, ts)) == ChoiceOf(Eval(w, sc, ts[0]), Eval(w, sc, ts[1]), Eval(w, sc, ts[2]))
  {
  }

  lemma {:induction false} FieldEval(w: World, sc: Scope, kind: K.TermKind, path: string)
    requires Inhabited(sc) && (kind == K.FIELD || kind == K.EXISTS || IsReduction(kind))
    ensures Eval(w, sc, FieldTerm(kind, path))
         == if kind == K.FIELD then ReadField(w, sc, path) else if kind == K.EXISTS then ReadExists(w, sc, path)
            else Reduction(w, sc, kind, path)
  {
    if path == "" {
      assert DotAt(path) == 0;
    }
  }

  // ----- what lowering makes of calls and operators, read as the surface does -----

  function ArithmeticResult(w: World, kind: K.TermKind, a: Result, b: Result): Result
    requires IsArithmetic(kind)
  {
    if !a.Val? || !b.Val? then Fail
    else match Arithmetic(w, kind, a.v, b.v) case None => Fail case Some(x) => Val(x)
  }

  lemma IntegersMean(op: TokenType, kind: K.TermKind, a: Word, b: Word)
    requires ArithmeticKind(op) == Some(kind)
    ensures IntOperation(kind, a, b) == IntegerMeaning(op, a, b)
  {
    AddIsExact(a, b);
    MulIsExactButOnce(a, b);
    DivIsExact(a, b);
    ModIsExact(a, b);
    hide AddInt64, SubInt64, MulInt64, DivInt64, ModInt64, Truncated, Exactly;
  }

  lemma OperatorMeans(w: World, op: TokenType, kind: K.TermKind, a: Result, b: Result)
    requires ArithmeticKind(op) == Some(kind)
    ensures ArithmeticResult(w, kind, a, b) == ArithmeticMeaning(w, op, a, b)
  {
    hide IntOperation, IntegerMeaning;
    if a.Val? && b.Val? && a.v.kind == IntKind && b.v.kind == IntKind { IntegersMean(op, kind, a.v.integer, b.v.integer); }
  }

  /** The meaning of a call by the term it is lowered to. */
  function ShapeMeaning(mk: Maker, w: World, sc: Scope, shape: CallShape, args: seq<Expr>): Result {
    match shape
    case CountCall => if sc.Group? then Val(IntValue(Wrap(|sc.members|))) else Fail
    case FieldCall(kind) =>
      if |args| != 1 || !args[0].Path? then Fail
      else if kind == K.EXISTS then ReadExists(w, sc, args[0].path)
      else Reduction(w, sc, kind, args[0].path)
    case QuantifierCall(one, many) =>
      if args == [] then Fail
      else if |args| == 1 then
        if sc.Group? then EveryMember(mk, w, sc.members, args[0], many == K.ANY) else Fail
      else Connect(mk, w, sc, args, many == K.ANY)
    case PlainCall(kind, arity) =>
      if !TakesArgs(kind, |args|) then Fail
      else if kind == K.IF then
        (match Meaning(mk, w, sc, args[0])
         case Bool(b) => Meaning(mk, w, sc, if b then args[1] else args[2])
         case _ => Fail)
      else if kind == K.COALESCE then FirstMeaning(mk, w, sc, args)
      else Applied(w, kind, "", Meanings(mk, w, sc, args))
    case ExtractCall =>
      if |args| != 2 || UnitOf(args[0]).GetOr("") == "" then Fail
      else
        (match Meaning(mk, w, sc, args[1])
         case Val(v) => Applied(w, K.DATE_EXTRACT, UnitOf(args[0]).value, Some([v]))
         case _ => Fail)
    case UnknownCall => Fail
  }

  lemma PrimitiveApplies(w: World, kind: K.TermKind, unit: string, vs: Option<seq<Value>>)
    ensures vs.None? || (!IsArithmetic(kind) && kind != K.ABS && kind != K.CLAMP) ==> Applied(w, kind, unit, vs) == Primitive(w, kind, unit, vs)
    ensures Applied(w, K.ABS, "", vs) == AbsMeaning(w, vs)
    ensures Applied(w, K.CLAMP, "", vs) == ClampMeaning(w, vs)
  {
  }

  /** A name means what its term does. */
  lemma NamesMean(mk: Maker, w: World, sc: Scope, name: string, args: seq<Expr>)
    requires LowerCall(mk, ShapeOf(name), args).Some?
    ensures CallMeaning(mk, w, sc, name, args) == ShapeMeaning(mk, w, sc, ShapeOf(name), args)
  {
    hide Lower, LowerAll, Applied, Primitive, AbsMeaning, ClampMeaning, Meanings, FirstMeaning, EveryMember, Connect, Reduction, ReadExists,
      Meaning;
    var vs := Meanings(mk, w, sc, args);
    PrimitiveApplies(w, K.CONCAT, "", vs);
    PrimitiveApplies(w, K.SUBSTRING, "", vs);
    PrimitiveApplies(w, K.TRIM, "", vs);
    PrimitiveApplies(w, K.TIMESTAMP_ADD, "", vs);
    PrimitiveApplies(w, K.TIMESTAMP_DIFF, "", vs);
    if ShapeOf(name).ExtractCall? && Meaning(mk, w, sc, args[1]).Val? {
      PrimitiveApplies(w, K.DATE_EXTRACT, UnitOf(args[0]).value, Some([Meaning(mk, w, sc, args[1]).v]));
    }
    if args == [] { NothingFirst(mk, w, sc); }
  }

  lemma NothingFirst(mk: Maker, w: World, sc: Scope)
    ensures FirstMeaning(mk, w, sc, []) == Fail
  {
  }

  /** MEANING PRESERVED.  Lowering keeps the meaning of an expression against any entities or group,
      as long as no minus sign stands directly before the least number. */
  lemma {:induction false} LoweringKeepsMeaning(mk: Maker, w: World, sc: Scope, e: Expr)
    requires Lower(mk, e).Some? && NoWrap(e)
    ensures Eval(w, sc, Lower(mk, e).value) == Meaning(mk, w, sc, e)
    decreases e, 2
  {
    hide Eval, Compare, EqualResults, LessResults, ParseInt, ParseDuration;
    var t := Lower(mk, e).value;
    if !Inhabited(sc) {
      EmptyGroup(w, sc, t);
    } else {
      match e
      case Path(p) => FieldEval(w, sc, K.FIELD, p);
      case Lit(kind, text) =>
        if kind == LitBool { BoolTermEval(w, sc, text == "true"); } else { LiteralTermEval(w, sc, t.literal.value); }
      case Unary(op, right) => UnaryKeeps(mk, w, sc, op, right);
      case Binary(op, l, r) =>
        LoweringKeepsMeaning(mk, w, sc, l);
        LoweringKeepsMeaning(mk, w, sc, r);
        BinaryKeeps(w, sc, op, Lower(mk, l).value, Lower(mk, r).value);
      case Call(name, args) => CallKeeps(mk, w, sc, ToLower(name), args);
    }
  }

  lemma EmptyGroup(w: World, sc: Scope, t: Term)
    requires !Inhabited(sc)
    ensures Eval(w, sc, t) == Fail
  {
  }

  lemma {:induction false} UnaryKeeps(mk: Maker, w: World, sc: Scope, op: TokenType, right: Expr)
    requires Inhabited(sc) && Lower(mk, Unary(op, right)).Some? && NoWrap(Unary(op, right))
    ensures Eval(w, sc, Lower(mk, Unary(op, right)).value) == Meaning(mk, w, sc, Unary(op, right))
    decreases right, 3
  {
    hide Eval, ParseInt, ParseDuration;
    if op == MINUS && IsNumber(right) {
      LiteralTermEval(w, sc, MakeNegated(mk, right.kind, right.text).value);
    } else {
      LoweringKeepsMeaning(mk, w, sc, right);
      var t := Lower(mk, right).value;
      if op == NOT { NotEval(w, sc, t); } else { SubtractNegates(w, sc, t); }
    }
  }

  lemma {:induction false} CallKeeps(mk: Maker, w: World, sc: Scope, name: string, args: seq<Expr>)
    requires Inhabited(sc) && LowerCall(mk, ShapeOf(name), args).Some? && forall a <- args :: NoWrap(a)
    ensures Eval(w, sc, LowerCall(mk, ShapeOf(name), args).value) == CallMeaning(mk, w, sc, name, args)
    decreases args, 5
  {
    hide Eval, ShapeOf, CallMeaning, ShapeMeaning, LowerCall;
    NamesMean(mk, w, sc, name, args);
    ShapeKeeps(mk, w, sc, ShapeOf(name), args);
  }

  lemma {:induction false} ShapeKeeps(mk: Maker, w: World, sc: Scope, shape: CallShape, args: seq<Expr>)
    requires Inhabited(sc) && LowerCall(mk, shape, args).Some? && forall a <- args :: NoWrap(a)
    requires exists name :: shape == ShapeOf(name)
    ensures Eval(w, sc, LowerCall(mk, shape, args).value) == ShapeMeaning(mk, w, sc, shape, args)
    decreases args, 4
  {
    hide Eval, Apply;
    match shape
    case CountCall => CountEval(w, sc);
    case FieldCall(kind) => FieldEval(w, sc, kind, args[0].path);
    case QuantifierCall(one, many) =>
      var ts := LowerAll(mk, args).value;
      if args == [] {
        MisshapenEval(w, sc, Node(many, ts));
      } else if |args| == 1 {
        assert args[0] in args;
        assert ts == [Lower(mk, args[0]).value];
        QuantifierEval(w, sc, ts[0]);
        if sc.Group? { MembersKeep(mk, w, sc.members, args[0], many == K.ANY); }
      } else {
        ConnectKeeps(mk, w, sc, args, many == K.ANY);
        ConnectiveEval(w, sc, ts);
      }
    case PlainCall(kind, arity) => PlainCallKeeps(mk, w, sc, kind, args);
    case ExtractCall =>
      assert args[1] in args;
      LoweringKeepsMeaning(mk, w, sc, args[1]);
      ExtractEval(w, sc, UnitOf(args[0]).value, Lower(mk, args[1]).value);
  }

  lemma CountEval(w: World, sc: Scope)
    requires Inhabited(sc)
    ensures Eval(w, sc, Node(K.COUNT, [])) == if sc.Group? then Val(IntValue(Wrap(|sc.members|))) else Fail
  {
  }

  lemma MisshapenEval(w: World, sc: Scope, t: Term)
    requires !WellShaped(t)
    ensures Eval(w, sc, t) == Fail
  {
  }

  lemma ExtractEval(w: World, sc: Scope, unit: string, t: Term)
    requires Inhabited(sc)
    ensures Eval(w, sc, Term(K.DATE_EXTRACT, unit, None, [t]))
         == if unit == "" || !Eval(w, sc, t).Val? then Fail else Applied(w, K.DATE_EXTRACT, unit, Some([Eval(w, sc, t).v]))
  {
    hide Applied;
    var e := Term(K.DATE_EXTRACT, unit, None, [t]);
    if unit == "" {
      MisshapenEval(w, sc, e);
    } else {
      StrictEval(w, sc, e);
      assert [t][1..] == [] && EvalValues(w, sc, []) == Some([]);
      if Eval(w, sc, t).Val? { assert [Eval(w, sc, t).v] + [] == [Eval(w, sc, t).v]; }
      assert EvalValues(w, sc, [t]) == if Eval(w, sc, t).Val? then Some([Eval(w, sc, t).v]) else None;
      AppliedNone(w, K.DATE_EXTRACT, unit);
    }
  }

  lemma AppliedNone(w: World, kind: K.TermKind, unit: string)
    ensures Applied(w, kind, unit, None) == Fail
  {
  }

  lemma {:induction false} PlainCallKeeps(mk: Maker, w: World, sc: Scope, kind: K.TermKind, args: seq<Expr>)
    requires Inhabited(sc) && LowerAll(mk, args).Some? && forall a <- args :: NoWrap(a)
    requires kind == K.IF || kind == K.COALESCE || (IsStrict(kind) && kind != K.DATE_EXTRACT)
    ensures Eval(w, sc, Node(kind, LowerAll(mk, args).value)) == ShapeMeaning(mk, w, sc, PlainCall(kind, None), args)
    decreases args, 3
  {
    hide Eval, Applied;
    var ts := LowerAll(mk, args).value;
    if !TakesArgs(kind, |args|) {
      MisshapenEval(w, sc, Node(kind, ts));
    } else if kind == K.IF {
      ChoiceEval(w, sc, ts);
      LowerAllAt(mk, args);
      assert args[0] in args && args[1] in args && args[2] in args;
      LoweringKeepsMeaning(mk, w, sc, args[0]);
      LoweringKeepsMeaning(mk, w, sc, args[1]);
      LoweringKeepsMeaning(mk, w, sc, args[2]);
    } else if kind == K.COALESCE {
      ChoiceEval(w, sc, ts);
      ListsKeep(mk, w, sc, args);
    } else {
      StrictEval(w, sc, Node(kind, ts));
      ListsKeep(mk, w, sc, args);
    }
  }

  lemma {:induction false} LowerAllAt(mk: Maker, es: seq<Expr>)
    requires LowerAll(mk, es).Some?
    ensures forall i :: 0 <= i < |es| ==> Lower(mk, es[i]) == Some(LowerAll(mk, es).value[i])
    decreases es
  {
    if es != [] {
      var ts := LowerAll(mk, es).value;
      LowerAllAt(mk, es[1..]);
      assert ts[1..] == LowerAll(mk, es[1..]).value;
      forall i | 0 <= i < |es| ensures Lower(mk, es[i]) == Some(ts[i]) {
        if i > 0 { assert es[i] == es[1..][i - 1] && ts[i] == ts[1..][i - 1]; }
      }
    }
  }

  lemma {:induction false} ListsKeep(mk: Maker, w: World, sc: Scope, es: seq<Expr>)
    requires LowerAll(mk, es).Some? && forall e <- es :: NoWrap(e)
    ensures EvalFirst(w, sc, LowerAll(mk, es).value) == FirstMeaning(mk, w, sc, es)
    ensures EvalValues(w, sc, LowerAll(mk, es).value) == Meanings(mk, w, sc, es)
    decreases es, 0
  {
    hide Eval, Meaning, Lower;
    if es != [] {
      assert es[0] in es;
      assert LowerAll(mk, es).value[1..] == LowerAll(mk, es[1..]).value;
      LoweringKeepsMeaning(mk, w, sc, es[0]);
      ListsKeep(mk, w, sc, es[1..]);
    }
  }

  lemma {:induction false} ConnectKeeps(mk: Maker, w: World, sc: Scope, es: seq<Expr>, any: bool)
    requires LowerAll(mk, es).Some? && forall e <- es :: NoWrap(e)
    ensures EvalUntil(w, sc, LowerAll(mk, es).value, any) == Connect(mk, w, sc, es, any)
    decreases es, 0
  {
    hide Eval, Meaning, Lower;
    if es != [] {
      assert es[0] in es;
      assert LowerAll(mk, es).value[1..] == LowerAll(mk, es[1..]).value;
      LoweringKeepsMeaning(mk, w, sc, es[0]);
      ConnectKeeps(mk, w, sc, es[1..], any);
      UntilIsTruth(w, sc, LowerAll(mk, es[1..]).value, any);
    }
  }

  lemma {:induction false} UntilIsTruth(w: World, sc: Scope, ts: seq<Term>, stop: bool)
    ensures !EvalUntil(w, sc, ts, stop).Val?
    decreases ts
  {
    hide Eval;
    if ts != [] { UntilIsTruth(w, sc, ts[1..], stop); }
  }

  lemma {:induction false} MembersKeep(mk: Maker, w: World, members: seq<Semantics.Entity>, e: Expr, any: bool)
    requires Lower(mk, e).Some? && NoWrap(e)
    ensures EvalMembers(w, members, Lower(mk, e).value, any) == EveryMember(mk, w, members, e, any)
    ensures !EvalMembers(w, members, Lower(mk, e).value, any).Val?
    decreases e, 3, |members|
  {
    hide Eval, Meaning, Lower;
    if members != [] {
      LoweringKeepsMeaning(mk, w, Bound([members[0]]), e);
      MembersKeep(mk, w, members[1..], e, any);
    }
  }

  // ----- exactly when -----

  ghost predicate Kept(mk: Maker, e: Expr) {
    Lower(mk, e).Some? ==> forall w, sc :: Eval(w, sc, Lower(mk, e).value) == Meaning(mk, w, sc, e)
  }

  /** Every part of the expression that can be lowered keeps its meaning everywhere. */
  ghost predicate KeptThroughout(mk: Maker, e: Expr)
    decreases e
  {
    Kept(mk, e) &&
    match e
    case Unary(_, r) => KeptThroughout(mk, r)
    case Binary(_, l, r) => KeptThroughout(mk, l) && KeptThroughout(mk, r)
    case Call(_, args) => forall a <- args :: KeptThroughout(mk, a)
    case _ => true
  }

  /** Some world, and a group of one. */
  function SampleWorld(): World {
    World(map[], (v: Value) => true, (a, b) => false, (a, b) => false, (k, u, vs) => None, (k, fs) => Fail)
  }

  /** The least number, negated by its spelling, is itself; subtracting it from zero would overflow. */
  lemma LeastWraps(mk: Maker, e: Expr)
    requires IsLeast(e)
    ensures !Kept(mk, Unary(MINUS, e))
  {
    hide ParseInt, ParseDuration, Eval;
    var w, sc := SampleWorld(), Bound([]);
    var t := Lower(mk, Unary(MINUS, e)).value;
    var n: int := MIN_INT64;
    assert Negation(MIN_INT64) == None && Negated(MIN_INT64) == MIN_INT64;
    LiteralTermEval(w, sc, t.literal.value);
    assert Eval(w, sc, t).Val?;
    assert Meaning(mk, w, sc, Unary(MINUS, e)) == Fail;
  }

  /** `-(-9223372036854775808)` is such an expression. */
  lemma LeastInstance(mk: Maker)
    ensures var e := Lit(LitInt, "-9223372036854775808"); IsLeast(e) && !Kept(mk, Unary(MINUS, e))
  {
    hide Eval, Lower, ParseInt, Kept;
    LeastText();
    LeastWraps(mk, Lit(LitInt, "-9223372036854775808"));
  }

  /** EXACTLY.  Lowering keeps the meaning of every part of an expression if and only if no minus
      sign stands directly before the least number. */
  lemma {:induction false} KeptExactly(mk: Maker, e: Expr)
    ensures KeptThroughout(mk, e) <==> NoWrap(e)
    decreases e
  {
    hide Eval, Meaning, Lower;
    if NoWrap(e) {
      if Lower(mk, e).Some? {
        forall w, sc ensures Eval(w, sc, Lower(mk, e).value) == Meaning(mk, w, sc, e) {
          LoweringKeepsMeaning(mk, w, sc, e);
        }
      }
      assert Kept(mk, e);
    }
    match e
    case Unary(op, r) =>
      KeptExactly(mk, r);
      if op == MINUS && IsLeast(r) { LeastWraps(mk, r); }
    case Binary(_, l, r) => KeptExactly(mk, l); KeptExactly(mk, r);
    case Call(_, args) => forall a | a in args ensures KeptThroughout(mk, a) <==> NoWrap(a) { KeptExactly(mk, a); }
    case _ =>
  }

  // ----- names -----

  lemma LetterLowers(i: nat)
    requires i < |CAPITAL_LETTERS|
    ensures i < |SMALL_LETTERS| && Lower1(CAPITAL_LETTERS[i]) == SMALL_LETTERS[i] && Lower1(SMALL_LETTERS[i]) == SMALL_LETTERS[i]
  {
  }

  lemma OtherStays(c: char)
    ensures Lower1(c) != c ==> c in CAPITAL_LETTERS
  {
    if 'A' <= c <= 'Z' { assert CAPITAL_LETTERS[(c - 'A') as int] == c; }
  }

  /** The name of a call is read without its case: capitals are the small letters in their place, and
      nothing else changes. */
  lemma {:induction false} NamesWithoutCase(name: string, i: nat)
    requires i < |name|
    ensures |ToLower(name)| == |name|
    ensures forall j :: 0 <= j < |CAPITAL_LETTERS| && name[i] == CAPITAL_LETTERS[j] ==> ToLower(name)[i] == SMALL_LETTERS[j]
    ensures name[i] !in CAPITAL_LETTERS ==> ToLower(name)[i] == name[i]
    decreases |name|
  {
    ToLowerLength(name);
    if i > 0 {
      NamesWithoutCase(name[1..], i - 1);
    } else {
      forall j: nat | j < |CAPITAL_LETTERS| ensures Lower1(CAPITAL_LETTERS[j]) == SMALL_LETTERS[j] { LetterLowers(j); }
      OtherStays(name[0]);
    }
  }

  lemma {:induction false} ToLowerLength(name: string)
    ensures |ToLower(name)| == |name|
    decreases |name|
  {
    if name != "" { ToLowerLength(name[1..]); }
  }
}
