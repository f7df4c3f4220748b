/** Expressions, selectors and assignments on the wire. */
module Wire {
  import opened Ast
  import opened Int64
  import opened Semantics
  import K = TermKinds

  // ----- the two sides -----

  /** A typed scalar with one payload for each kind it might have. */
  datatype WireValue = WireValue(kind: string, text: Option<string>, atom: Option<string>, number: Option<Word>,
                                 timestamp: Option<string>, duration: Option<Word>, dec: Option<string>, date: Option<string>)

  datatype WireExpr = WireExpr(kind: string, field: Option<string>, literal: Option<WireValue>, args: WireArgs)

  /** The operands, if the list is there at all. */
  datatype WireArgs = NoArgs | Args(list: seq<WireExpr>)

  datatype WireCardinality = WireCardinality(kind: string, count: Option<Word>)

  datatype WireSelector = WireSelector(kind: string, where: Option<WireExpr>, groupBy: Option<WireExpr>, members: WireCardinality)

  datatype WireAssignment = WireAssignment(target: string, value: WireExpr)

  datatype WireSelectAssign = WireSelectAssign(selector: WireSelector, guard: WireExpr, assignments: seq<WireAssignment>)

  /** The kernel counts without a sign. */
  type Unsigned64 = n: nat | n < TWO_64

  datatype Cardinality = Cardinality(kind: nat, count: Unsigned64)

  datatype KernelSelector = KernelSelector(kind: string, where: Option<Term>, groupBy: Option<Term>, members: Cardinality)

  datatype KernelAssignment = KernelAssignment(target: string, value: Term)

  datatype SelectAssign = SelectAssign(selector: KernelSelector, guard: Term, assignments: seq<KernelAssignment>)

  // ----- scalars -----

  /** The kernel's constructors of textual values, which may refuse a text or normalise it. */
  type Constructor = (ValueKind, string) -> Option<Value>

  predicate IsTextual(k: ValueKind) {
    k != IntKind && k != DurationKind
  }

  /** What a constructor makes is of the kind asked for, and makes itself again. */
  ghost predicate Canonical(make: Constructor) {
    forall k, t :: IsTextual(k) && make(k, t).Some? ==> Made(make, make(k, t).value) && make(k, t).value.kind == k
  }

  /** A value the kernel's constructors can have made. */
  predicate Made(make: Constructor, v: Value) {
    if IsTextual(v.kind) then make(v.kind, v.text) == Some(v) else v.text == ""
  }

  function One<T>(o: Option<T>): nat {
    if o.Some? then 1 else 0
  }

  function Payloads(w: WireValue): nat {
    One(w.text) + One(w.atom) + One(w.number) + One(w.timestamp) + One(w.duration) + One(w.dec) + One(w.date)
  }

  function Construct(make: Constructor, k: ValueKind, payload: Option<string>): Option<Value> {
    match payload case None => None case Some(t) => make(k, t)
  }

  function ValueFromWire(make: Constructor, w: WireValue): Option<Value> {
    if Payloads(w) != 1 then None
    else if w.kind == "string" then Construct(make, StringKind, w.text)
    else if w.kind == "atom" then Construct(make, AtomKind, w.atom)
    else if w.kind == "int64" then (match w.number case None => None case Some(n) => Some(IntValue(n)))
    else if w.kind == "timestamp" then Construct(make, TimestampKind, w.timestamp)
    else if w.kind == "duration" then (match w.duration case None => None case Some(n) => Some(DurationValue(n)))
    else if w.kind == "decimal" then Construct(make, DecimalKind, w.dec)
    else if w.kind == "date" then Construct(make, DateKind, w.date)
    else None
  }

  function ValueToWire(v: Value): WireValue {
    match v.kind
    case StringKind => WireValue("string", Some(v.text), None, None, None, None, None, None)
    case AtomKind => WireValue("atom", None, Some(v.text), None, None, None, None, None)
    case IntKind => WireValue("int64", None, None, Some(v.integer), None, None, None, None)
    case TimestampKind => WireValue("timestamp", None, None, None, Some(v.text), None, None, None)
    case DurationKind => WireValue("duration", None, None, None, None, Some(v.integer), None, None)
    case DecimalKind => WireValue("decimal", None, None, None, None, None, Some(v.text), None)
    case DateKind => WireValue("date", None, None, None, None, None, None, Some(v.text))
  }

  lemma ValueRoundTrip(make: Constructor, v: Value)
    requires Made(make, v)
    ensures ValueFromWire(make, ValueToWire(v)) == Some(v)
  {
  }

  lemma ReadValueIsMade(make: Constructor, w: WireValue)
    requires Canonical(make) && ValueFromWire(make, w).Some?
    ensures Made(make, ValueFromWire(make, w).value)
  {
  }

  // ----- tokens -----

  function KindFromToken(token: string): (r: Option<K.TermKind>)
    ensures r.Some? ==> K.LITERAL <= r.value <= K.COALESCE
  {
    match token
    case "literal" => Some(K.LITERAL)
    case "field" => Some(K.FIELD)
    case "exists" => Some(K.EXISTS)
    case "not" => Some(K.NOT)
    case "all" => Some(K.ALL)
    case "any" => Some(K.ANY)
    case "equal" => Some(K.EQUAL)
    case "less" => Some(K.LESS)
    case "add" => Some(K.ADD)
    case "all_members" => Some(K.ALL_MEMBERS)
    case "any_members" => Some(K.ANY_MEMBERS)
    case "all_equal" => Some(K.ALL_EQUAL)
    case "count" => Some(K.COUNT)
    case "sum" => Some(K.SUM)
    case "min" => Some(K.MIN)
    case "max" => Some(K.MAX)
    case "subtract" => Some(K.SUBTRACT)
    case "multiply" => Some(K.MULTIPLY)
    case "divide" => Some(K.DIVIDE)
    case "modulo" => Some(K.MODULO)
    case "abs" => Some(K.ABS)
    case "clamp" => Some(K.CLAMP)
    case "timestamp_add" => Some(K.TIMESTAMP_ADD)
    case "timestamp_diff" => Some(K.TIMESTAMP_DIFF)
    case "date_extract" => Some(K.DATE_EXTRACT)
    case "concat" => Some(K.CONCAT)
    case "substring" => Some(K.SUBSTRING)
    case "trim" => Some(K.TRIM)
    case "if" => Some(K.IF)
    case "coalesce" => Some(K.COALESCE)
    case _ => None
  }

  /** The tokens in the order of their kinds. */
  const TOKENS: seq<string> := [
    "literal", "field", "exists", "not", "all", "any", "equal", "less", "add", "all_members", "any_members", "all_equal",
    "count", "sum", "min", "max", "subtract", "multiply", "divide", "modulo", "abs", "clamp", "timestamp_add",
    "timestamp_diff", "date_extract", "concat", "substring", "trim", "if", "coalesce"]

  function KindToToken(kind: K.TermKind): Option<string> {
    if K.LITERAL <= kind <= K.COALESCE then Some(TOKENS[kind - 1]) else None
  }

  lemma TokenRoundTrip(kind: K.TermKind)
    requires K.LITERAL <= kind <= K.COALESCE
    ensures KindFromToken(KindToToken(kind).value) == Some(kind)
  {
  }

  // ----- expressions -----

  function ExprFromWire(make: Constructor, w: WireExpr): Option<Term>
    decreases w
  {
    match KindFromToken(w.kind)
    case None => None
    case Some(kind) =>
      var literal := if w.literal.Some? then ValueFromWire(make, w.literal.value) else None;
      var args := if w.args.Args? then ExprsFromWire(make, w.args.list) else Some([]);
      if (w.literal.Some? && literal.None?) || args.None? then None
      else Some(Term(kind, w.field.GetOr(""), literal, args.value))
  }

  function ExprsFromWire(make: Constructor, ws: seq<WireExpr>): (r: Option<seq<Term>>)
    ensures r.Some? ==> |r.value| == |ws|
    decreases ws
  {
    if ws == [] then Some([])
    else
      match (ExprFromWire(make, ws[0]), ExprsFromWire(make, ws[1..]))
      case (Some(t), Some(ts)) => Some([t] + ts)
      case _ => None
  }

  function ExprToWire(t: Term): Option<WireExpr>
    decreases t
  {
    match KindToToken(t.kind)
    case None => None
    case Some(token) =>
      var args := ExprsToWire(t.args);
      if args.None? then None
      else Some(WireExpr(token, if t.field != "" then Some(t.field) else None,
                         if t.literal.Some? then Some(ValueToWire(t.literal.value)) else None,
                         if t.args != [] then Args(args.value) else NoArgs))
  }

  function ExprsToWire(ts: seq<Term>): (r: Option<seq<WireExpr>>)
    ensures r.Some? ==> |r.value| == |ts|
    decreases ts
  {
    if ts == [] then Some([])
    else
      match (ExprToWire(ts[0]), ExprsToWire(ts[1..]))
      case (Some(w), Some(ws)) => Some([w] + ws)
      case _ => None
  }

  /** Every node is of a kind with a token, and holds a value the kernel can have made. */
  predicate Representable(make: Constructor, t: Term)
    decreases t
  {
    && K.LITERAL <= t.kind <= K.COALESCE
    && (t.literal.Some? ==> Made(make, t.literal.value))
    && forall a <- t.args :: Representable(make, a)
  }

  lemma {:induction false} ExprRoundTrips(make: Constructor, t: Term)
    requires Representable(make, t)
    ensures ExprToWire(t).Some? && ExprFromWire(make, ExprToWire(t).value) == Some(t)
    decreases t
  {
    hide KindFromToken, KindToToken, ValueFromWire, ValueToWire, Made;
    assert KindToToken(t.kind).Some? by { HasToken(t.kind); }
    TokenRoundTrip(t.kind);
    if t.literal.Some? { ValueRoundTrip(make, t.literal.value); }
    ExprsRoundTrip(make, t.args);
  }

  lemma HasToken(kind: K.TermKind)
    ensures KindToToken(kind).Some? <==> K.LITERAL <= kind <= K.COALESCE
  {
  }

  lemma {:induction false} ExprsRoundTrip(make: Constructor, ts: seq<Term>)
    requires forall t <- ts :: Representable(make, t)
    ensures ExprsToWire(ts).Some? && ExprsFromWire(make, ExprsToWire(ts).value) == Some(ts)
    decreases ts
  {
    hide ExprToWire, ExprFromWire;
    if ts != [] {
      assert ts[0] in ts;
      ExprRoundTrips(make, ts[0]);
      ExprsRoundTrip(make, ts[1..]);
      assert ExprsToWire(ts).value[1..] == ExprsToWire(ts[1..]).value;
      assert ts == [ts[0]] + ts[1..];
    }
  }

  lemma {:induction false} ReadIsRepresentable(make: Constructor, w: WireExpr)
    requires Canonical(make) && ExprFromWire(make, w).Some?
    ensures Representable(make, ExprFromWire(make, w).value)
    decreases w
  {
    hide KindFromToken, ValueFromWire, Made, Canonical;
    if w.literal.Some? { ReadValueIsMade(make, w.literal.value); }
    if w.args.Args? { ReadAllRepresentable(make, w.args.list); }
  }

  lemma {:induction false} ReadAllRepresentable(make: Constructor, ws: seq<WireExpr>)
    requires Canonical(make) && ExprsFromWire(make, ws).Some?
    ensures forall t <- ExprsFromWire(make, ws).value :: Representable(make, t)
    decreases ws
  {
    hide ExprFromWire, Representable;
    if ws != [] {
      ReadIsRepresentable(make, ws[0]);
      ReadAllRepresentable(make, ws[1..]);
    }
  }

  // ----- selectors and assignments -----

  const ANY := 1
  const EXACTLY := 2
  const AT_LEAST := 3

  function CardinalityFromWire(w: WireCardinality): Option<Cardinality> {
    var kind := if w.kind == "any" then ANY else if w.kind == "exactly" then EXACTLY else if w.kind == "at_least" then AT_LEAST else 0;
    if kind == 0 || (w.count.Some? && w.count.value < 0) then None
    else Some(Cardinality(kind, w.count.GetOr(0)))
  }

  function CardinalityToWire(c: Cardinality): Option<WireCardinality> {
    var token := if c.kind == ANY then "any" else if c.kind == EXACTLY then "exactly" else if c.kind == AT_LEAST then "at_least" else "";
    if token == "" || c.count > MAX_INT64 then None
    else Some(WireCardinality(token, if c.count > 0 then Some(c.count) else None))
  }

  /** A count past the signed maximum is refused, not wrapped; everything else round-trips. */
  lemma CardinalityRoundTrip(c: Cardinality)
    ensures CardinalityToWire(c).Some? <==> ANY <= c.kind <= AT_LEAST && c.count <= MAX_INT64
    ensures CardinalityToWire(c).Some? ==> CardinalityFromWire(CardinalityToWire(c).value) == Some(c)
  {
  }

  function OptionalFromWire(make: Constructor, w: Option<WireExpr>): Option<Option<Term>> {
    match w
    case None => Some(None)
    case Some(e) => match ExprFromWire(make, e) case None => None case Some(t) => Some(Some(t))
  }

  function OptionalToWire(t: Option<Term>): Option<Option<WireExpr>> {
    match t
    case None => Some(None)
    case Some(e) => match ExprToWire(e) case None => None case Some(w) => Some(Some(w))
  }

  function AssignmentsFromWire(make: Constructor, ws: seq<WireAssignment>): Option<seq<KernelAssignment>> {
    if ws == [] then Some([])
    else
      match (ExprFromWire(make, ws[0].value), AssignmentsFromWire(make, ws[1..]))
      case (Some(t), Some(rest)) => Some([KernelAssignment(ws[0].target, t)] + rest)
      case _ => None
  }

  function AssignmentsToWire(xs: seq<KernelAssignment>): Option<seq<WireAssignment>> {
    if xs == [] then Some([])
    else
      match (ExprToWire(xs[0].value), AssignmentsToWire(xs[1..]))
      case (Some(w), Some(rest)) => Some([WireAssignment(xs[0].target, w)] + rest)
      case _ => None
  }

  function SelectAssignFromWire(make: Constructor, w: WireSelectAssign): Option<SelectAssign> {
    var members := CardinalityFromWire(w.selector.members);
    var where, groupBy := OptionalFromWire(make, w.selector.where), OptionalFromWire(make, w.selector.groupBy);
    var guard, assignments := ExprFromWire(make, w.guard), AssignmentsFromWire(make, w.assignments);
    if members.None? || where.None? || groupBy.None? || guard.None? || assignments.None? then None
    else Some(SelectAssign(KernelSelector(w.selector.kind, where.value, groupBy.value, members.value), guard.value, assignments.value))
  }

  function SelectAssignToWire(s: SelectAssign): Option<WireSelectAssign> {
    var members := CardinalityToWire(s.selector.members);
    var where, groupBy := OptionalToWire(s.selector.where), OptionalToWire(s.selector.groupBy);
    var guard, assignments := ExprToWire(s.guard), AssignmentsToWire(s.assignments);
    if members.None? || where.None? || groupBy.None? || guard.None? || assignments.None? then None
    else Some(WireSelectAssign(WireSelector(s.selector.kind, where.value, groupBy.value, members.value), guard.value, assignments.value))
  }

  predicate RepresentablePayload(make: Constructor, s: SelectAssign) {
    && ANY <= s.selector.members.kind <= AT_LEAST && s.selector.members.count <= MAX_INT64
    && (s.selector.where.Some? ==> Representable(make, s.selector.where.value))
    && (s.selector.groupBy.Some? ==> Representable(make, s.selector.groupBy.value))
    && Representable(make, s.guard) && forall a <- s.assignments :: Representable(make, a.value)
  }

  lemma {:induction false} AssignmentsRoundTrip(make: Constructor, xs: seq<KernelAssignment>)
    requires forall a <- xs :: Representable(make, a.value)
    ensures AssignmentsToWire(xs).Some? && AssignmentsFromWire(make, AssignmentsToWire(xs).value) == Some(xs)
    decreases xs
  {
    hide ExprToWire, ExprFromWire, Representable;
    if xs != [] {
      assert xs[0] in xs;
      ExprRoundTrips(make, xs[0].value);
      AssignmentsRoundTrip(make, xs[1..]);
      assert AssignmentsToWire(xs).value[1..] == AssignmentsToWire(xs[1..]).value;
      assert xs == [xs[0]] + xs[1..];
    }
  }

  /** ROUND TRIP.  What the kernel holds comes back from the wire as it was. */
  lemma SelectAssignRoundTrip(make: Constructor, s: SelectAssign)
    requires RepresentablePayload(make, s)
    ensures SelectAssignToWire(s).Some? && SelectAssignFromWire(make, SelectAssignToWire(s).value) == Some(s)
  {
    hide ExprToWire, ExprFromWire, Representable, CardinalityFromWire, CardinalityToWire;
    CardinalityRoundTrip(s.selector.members);
    if s.selector.where.Some? { ExprRoundTrips(make, s.selector.where.value); }
    if s.selector.groupBy.Some? { ExprRoundTrips(make, s.selector.groupBy.value); }
    ExprRoundTrips(make, s.guard);
    AssignmentsRoundTrip(make, s.assignments);
  }

  lemma {:induction false} ReadAssignmentsRepresentable(make: Constructor, ws: seq<WireAssignment>)
    requires Canonical(make) && AssignmentsFromWire(make, ws).Some?
    ensures forall a <- AssignmentsFromWire(make, ws).value :: Representable(make, a.value)
    decreases ws
  {
    hide ExprFromWire, Representable;
    if ws != [] {
      ReadIsRepresentable(make, ws[0].value);
      ReadAssignmentsRepresentable(make, ws[1..]);
    }
  }

  /** NOTHING AUTHORABLE IS UNREADABLE.  Whatever the boundary accepts it can also project, and what it
      projects it reads back as the same. */
  lemma AcceptedIsReadable(make: Constructor, w: WireSelectAssign)
    requires Canonical(make) && SelectAssignFromWire(make, w).Some?
    ensures var s := SelectAssignFromWire(make, w).value;
            SelectAssignToWire(s).Some? && SelectAssignFromWire(make, SelectAssignToWire(s).value) == Some(s)
  {
    hide ExprToWire, ExprFromWire, Representable, Canonical;
    var s := SelectAssignFromWire(make, w).value;
    if w.selector.where.Some? { ReadIsRepresentable(make, w.selector.where.value); }
    if w.selector.groupBy.Some? { ReadIsRepresentable(make, w.selector.groupBy.value); }
    ReadIsRepresentable(make, w.guard);
    ReadAssignmentsRepresentable(make, w.assignments);
    assert RepresentablePayload(make, s);
    SelectAssignRoundTrip(make, s);
  }
}
