module Semantics {
  import opened Ast
  import opened Int64
  import K = TermKinds

  datatype ValueKind = StringKind | AtomKind | IntKind | TimestampKind | DurationKind | DecimalKind | DateKind

  datatype Value = Value(kind: ValueKind, text: string, integer: Word)

  function IntValue(n: Word): Value {
    Value(IntKind, "", n)
  }

  function DurationValue(n: Word): Value {
    Value(DurationKind, "", n)
  }

  datatype Term = Term(kind: K.TermKind, field: string, literal: Option<Value>, args: seq<Term>)

  datatype Entity = Entity(kind: string, fields: map<string, Value>)

  /** What an expression is evaluated against: one or two bound entities, or a group and perhaps one
      of its members. */
  datatype Scope = Bound(entities: seq<Entity>) | Group(members: seq<Entity>, member: Option<Entity>)

  datatype Result = Fail | Bool(b: bool) | Val(v: Value)

  /** A field read: refused, or declared with a kind and present or not. */
  datatype Fetched = Refused | Found(declared: ValueKind, value: Option<Value>)

  /** The schema, and the kernel's operations on values that are not integers, which are opaque. */
  datatype World = World(
    fields: map<string, ValueKind>,
    valid: Value -> bool,
    textLess: (string, string) -> bool,
    decimalLess: (string, string) -> bool,
    prim: (K.TermKind, string, seq<Value>) -> Option<Value>,
    reduce: (K.TermKind, seq<Fetched>) -> Result
  )

  // ----- fields -----

  /** The position of the first dot, or the length. */
  function DotAt(s: string): (n: nat)
    ensures n <= |s| && (n < |s| ==> s[n] == '.') && forall i :: 0 <= i < n ==> s[i] != '.'
  {
    if s == "" || s[0] == '.' then 0 else 1 + DotAt(s[1..])
  }

  /** `kind.name`, split at its only dot. */
  function SplitFieldPath(path: string): (r: Option<(string, string)>)
    ensures r.Some? ==> path == r.value.0 + "." + r.value.1
  {
    var n := DotAt(path);
    if n == 0 || n >= |path| - 1 || '.' in path[n + 1..] then None else Some((path[..n], path[n + 1..]))
  }

  function Lookup(e: Entity, name: string): Option<Value> {
    if name in e.fields then Some(e.fields[name]) else None
  }

  /** A field of an entity under its full path; an undeclared one is refused. */
  function Stored(w: World, path: string, e: Entity, name: string): Fetched {
    if path in w.fields then Found(w.fields[path], Lookup(e, name)) else Refused
  }

  function BoundField(w: World, entities: seq<Entity>, path: string): Fetched {
    if entities == [] then Refused
    else
      match SplitFieldPath(path)
      case None => Refused
      case Some((kind, name)) =>
        if |entities| == 2 then
          var from, to := entities[0], entities[1];
          if kind == "from" then Stored(w, from.kind + "." + name, from, name)
          else if kind == "to" then Stored(w, to.kind + "." + name, to, name)
          else if from.kind == to.kind then Refused
          else if kind == from.kind then Stored(w, path, from, name)
          else if kind == to.kind then Stored(w, path, to, name)
          else Refused
        else if entities[0].kind != kind then Refused
        else Stored(w, path, entities[0], name)
  }

  /** The entities a bare path may read from; none in a group without a member. */
  function Readable(sc: Scope): seq<Entity> {
    match sc
    case Bound(entities) => entities
    case Group(_, None) => []
    case Group(_, Some(e)) => [e]
  }

  function ReadField(w: World, sc: Scope, path: string): Result {
    match BoundField(w, Readable(sc), path)
    case Found(declared, Some(v)) => if v.kind == declared then Val(v) else Fail
    case _ => Fail
  }

  function ReadExists(w: World, sc: Scope, path: string): Result {
    match BoundField(w, Readable(sc), path)
    case Found(_, value) => Bool(value.Some?)
    case Refused => Fail
  }

  /** A reduction reads its field from every member of a group. */
  function Reduction(w: World, sc: Scope, kind: K.TermKind, path: string): Result {
    if !sc.Group? || sc.members == [] || BoundField(w, [sc.members[0]], path).Refused? then Fail
    else w.reduce(kind, seq(|sc.members|, i requires 0 <= i < |sc.members| => BoundField(w, [sc.members[i]], path)))
  }

  // ----- operations on results -----

  function Literal(w: World, v: Value): Result {
    if v.kind == IntKind || w.valid(v) then Val(v) else Fail
  }

  function NotResult(r: Result): Result {
    match r case Bool(b) => Bool(!b) case _ => Fail
  }

  function EqualResults(a: Result, b: Result): Result {
    match (a, b)
    case (Bool(x), Bool(y)) => Bool(x == y)
    case (Val(v), Val(u)) => if v.kind == u.kind then Bool(v == u) else Fail
    case _ => Fail
  }

  predicate IsIntegral(k: ValueKind) {
    k == IntKind || k == DurationKind || k == TimestampKind || k == DateKind
  }

  /** Texts are ordered in a group only. */
  function LessResults(w: World, inGroup: bool, a: Result, b: Result): Result {
    match (a, b)
    case (Val(v), Val(u)) =>
      if v.kind != u.kind then Fail
      else if IsIntegral(v.kind) then Bool(v.integer < u.integer)
      else if v.kind == DecimalKind then Bool(w.decimalLess(v.text, u.text))
      else if v.kind == StringKind && inGroup then Bool(w.textLess(v.text, u.text))
      else Fail
    case _ => Fail
  }

  predicate IsArithmetic(kind: K.TermKind) {
    kind == K.ADD || K.SUBTRACT <= kind <= K.MODULO
  }

  function IntOperation(kind: K.TermKind, a: Word, b: Word): Option<Word>
    requires IsArithmetic(kind)
  {
    if kind == K.ADD then AddInt64(a, b)
    else if kind == K.SUBTRACT then SubInt64(a, b)
    else if kind == K.MULTIPLY then MulInt64(a, b)
    else if kind == K.DIVIDE then DivInt64(a, b)
    else ModInt64(a, b)
  }

  function Arithmetic(w: World, kind: K.TermKind, a: Value, b: Value): Option<Value>
    requires IsArithmetic(kind)
  {
    if a.kind == IntKind && b.kind == IntKind then
      match IntOperation(kind, a.integer, b.integer) case None => None case Some(n) => Some(IntValue(n))
    else if a.kind == IntKind || b.kind == IntKind then
      if kind == K.MULTIPLY && (a.kind == DurationKind || b.kind == DurationKind) then w.prim(kind, "", [a, b]) else None
    else w.prim(kind, "", [a, b])
  }

  /** An operation that evaluates all of its operands, none of which may be a truth value. */
  function Apply(w: World, kind: K.TermKind, unit: string, vs: seq<Value>): Option<Value> {
    if IsArithmetic(kind) && |vs| == 2 then Arithmetic(w, kind, vs[0], vs[1])
    else if kind == K.ABS && |vs| == 1 && vs[0].kind == IntKind then
      if vs[0].integer == MIN_INT64 then None else Some(IntValue(Abs(vs[0].integer)))
    else if kind == K.CLAMP && |vs| == 3 && IsIntegral(vs[0].kind) then
      if vs[0].kind != vs[1].kind || vs[0].kind != vs[2].kind || vs[2].integer < vs[1].integer then None
      else Some(if vs[0].integer < vs[1].integer then vs[1] else if vs[0].integer > vs[2].integer then vs[2] else vs[0])
    else w.prim(kind, unit, vs)
  }

  function Applied(w: World, kind: K.TermKind, unit: string, vs: Option<seq<Value>>): Result {
    match vs
    case None => Fail
    case Some(list) => match Apply(w, kind, unit, list) case None => Fail case Some(v) => Val(v)
  }

  // ----- the evaluator -----

  predicate IsReduction(kind: K.TermKind) {
    kind == K.ALL_EQUAL || K.SUM <= kind <= K.MAX
  }

  /** How many operands a kind takes; the variadic ones say how many at least. */
  predicate TakesArgs(kind: K.TermKind, n: nat) {
    if kind == K.NOT || kind == K.ABS || kind == K.TRIM || kind == K.DATE_EXTRACT || kind == K.ALL_MEMBERS || kind == K.ANY_MEMBERS then n == 1
    else if kind == K.EQUAL || kind == K.LESS || IsArithmetic(kind) || kind == K.TIMESTAMP_ADD || kind == K.TIMESTAMP_DIFF then n == 2
    else if kind == K.CLAMP || kind == K.SUBSTRING || kind == K.IF then n == 3
    else if kind == K.ALL || kind == K.ANY || kind == K.COALESCE then n >= 1
    else if kind == K.CONCAT then n >= 2
    else n == 0
  }

  predicate TakesField(kind: K.TermKind) {
    kind == K.FIELD || kind == K.EXISTS || kind == K.DATE_EXTRACT || IsReduction(kind)
  }

  predicate WellShaped(t: Term) {
    && K.LITERAL <= t.kind <= K.COALESCE
    && TakesArgs(t.kind, |t.args|)
    && (t.literal.Some? <==> t.kind == K.LITERAL)
    && (t.field != "" <==> TakesField(t.kind))
  }

  /** Nothing evaluates over an empty group. */
  predicate Inhabited(sc: Scope) {
    sc.Group? ==> sc.members != []
  }

  function Eval(w: World, sc: Scope, t: Term): Result
    decreases t, 1
  {
    if !Inhabited(sc) || !WellShaped(t) then Fail
    else if t.kind == K.LITERAL then Literal(w, t.literal.value)
    else if t.kind == K.FIELD then ReadField(w, sc, t.field)
    else if t.kind == K.EXISTS then ReadExists(w, sc, t.field)
    else if t.kind == K.NOT then NotResult(Eval(w, sc, t.args[0]))
    else if t.kind == K.ALL then EvalUntil(w, sc, t.args, false)
    else if t.kind == K.ANY then EvalUntil(w, sc, t.args, true)
    else if t.kind == K.EQUAL then EqualResults(Eval(w, sc, t.args[0]), Eval(w, sc, t.args[1]))
    else if t.kind == K.LESS then LessResults(w, sc.Group?, Eval(w, sc, t.args[0]), Eval(w, sc, t.args[1]))
    else if t.kind == K.ALL_MEMBERS then if sc.Group? then EvalMembers(w, sc.members, t.args[0], false) else Fail
    else if t.kind == K.ANY_MEMBERS then if sc.Group? then EvalMembers(w, sc.members, t.args[0], true) else Fail
    else if t.kind == K.COUNT then if sc.Group? then Val(IntValue(Wrap(|sc.members|))) else Fail
    else if IsReduction(t.kind) then Reduction(w, sc, t.kind, t.field)
    else if t.kind == K.IF then
      match Eval(w, sc, t.args[0])
      case Bool(b) => Eval(w, sc, if b then t.args[1] else t.args[2])
      case _ => Fail
    else if t.kind == K.COALESCE then EvalFirst(w, sc, t.args)
    else Applied(w, t.kind, t.field, EvalValues(w, sc, t.args))
  }

  /** Evaluates truth values from the left until one is `stop`: a conjunction or a disjunction. */
  function EvalUntil(w: World, sc: Scope, ts: seq<Term>, stop: bool): Result
    decreases ts, 0
  {
    if ts == [] then Bool(!stop)
    else
      match Eval(w, sc, ts[0])
      case Bool(b) => if b == stop then Bool(stop) else EvalUntil(w, sc, ts[1..], stop)
      case _ => Fail
  }

  function EvalMembers(w: World, members: seq<Entity>, t: Term, stop: bool): Result
    decreases t, 2, |members|
  {
    if members == [] then Bool(!stop)
    else
      match Eval(w, Bound([members[0]]), t)
      case Bool(b) => if b == stop then Bool(stop) else EvalMembers(w, members[1..], t, stop)
      case _ => Fail
  }

  /** The first operand that evaluates at all. */
  function EvalFirst(w: World, sc: Scope, ts: seq<Term>): Result
    decreases ts, 0
  {
    if ts == [] then Fail
    else
      var r := Eval(w, sc, ts[0]);
      if r.Fail? then EvalFirst(w, sc, ts[1..]) else r
  }

  function EvalValues(w: World, sc: Scope, ts: seq<Term>): (r: Option<seq<Value>>)
    ensures r.Some? ==> |r.value| == |ts|
    decreases ts, 0
  {
    if ts == [] then Some([])
    else
      match (Eval(w, sc, ts[0]), EvalValues(w, sc, ts[1..]))
      case (Val(v), Some(vs)) => Some([v] + vs)
      case _ => None
  }
}
