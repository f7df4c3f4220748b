/** The canonical printer. */
module FormatSpec {
  import opened Tokens
  import opened Ast

  // ----- string literals -----

  function HexDigit(n: nat): char
    requires n < 16
  {
    if n < 10 then '0' + n as char else 'a' + (n - 10) as char
  }

  /** How the `%q` verb writes one ASCII character. */
  function QuoteChar(c: char): (s: string)
    ensures s != ""
  {
    if c == '"' then "\\\""
    else if c == '\\' then "\\\\"
    else if c == '\n' then "\\n"
    else if c == '\t' then "\\t"
    else if c == '\r' then "\\r"
    else if c == 7 as char then "\\a"
    else if c == 8 as char then "\\b"
    else if c == 12 as char then "\\f"
    else if c == 11 as char then "\\v"
    else if c < ' ' || c == 127 as char then
      "\\x" + [HexDigit(c as int / 16), HexDigit(c as int % 16)]
    else [c]
  }

  function QuoteBody(s: string): string {
    if s == "" then "" else QuoteChar(s[0]) + QuoteBody(s[1..])
  }

  function Quote(s: string): string {
    "\"" + QuoteBody(s) + "\""
  }

  // ----- expressions -----

  function OpText(op: TokenType): string {
    if op == EQUAL then "=="
    else if op == NOT_EQUAL then "!="
    else if op == LESS then "<"
    else if op == LESS_EQ then "<="
    else if op == GREATER then ">"
    else if op == GREAT_EQ then ">="
    else if op == AND then "&&"
    else if op == OR then "||"
    else if op == PLUS then "+"
    else if op == MINUS then "-"
    else if op == STAR then "*"
    else if op == SLASH then "/"
    else if op == PERCENT then "%"
    else "?"
  }

  function FormatLiteral(kind: LitKind, text: string): string {
    match kind
    case LitString => Quote(text)
    case LitTimestamp => "ts" + "(" + Quote(text) + ")"
    case LitDate => "date" + "(" + Quote(text) + ")"
    case LitDuration => "dur" + "(" + Quote(text) + ")"
    case LitAtom => ":" + text
    case _ => text
  }

  function FormatExpr(e: Expr): string
    decreases e
  {
    match e
    case Nil => ""
    case Path(p) => p
    case Lit(kind, text) => FormatLiteral(kind, text)
    case Unary(op, right) => (if op == MINUS then "-" else "!") + FormatExpr(right)
    case Binary(op, l, r) => "(" + FormatExpr(l) + " " + OpText(op) + " " + FormatExpr(r) + ")"
    case Call(name, args) => name + "(" + JoinExprs(args) + ")"
  }

  function JoinExprs(args: seq<Expr>): string
    decreases args
  {
    if args == [] then ""
    else if |args| == 1 then FormatExpr(args[0])
    else FormatExpr(args[0]) + ", " + JoinExprs(args[1..])
  }

  // ----- selectors and assignments -----

  function FormatClause(indent: string, keyword: string, e: Expr): string {
    if e == Nil then "" else indent + keyword + " " + FormatExpr(e) + "\n"
  }

  function FormatSelector(s: Selector, indent: string): string {
    indent + "select" + " " + s.kind + "\n"
    + FormatClause(indent, "where", s.where)
    + FormatClause(indent, "group_by", s.groupBy)
    + FormatClause(indent, "having", s.having)
  }

  function FormatAssignment(a: Assignment): string {
    a.target + " " + "=" + " " + FormatExpr(a.value)
  }

  function JoinAssignments(assigns: seq<Assignment>, indent: string): string {
    if assigns == [] then ""
    else if |assigns| == 1 then FormatAssignment(assigns[0])
    else FormatAssignment(assigns[0]) + "," + ("\n" + indent + "    ") + JoinAssignments(assigns[1..], indent)
  }

  function FormatAssignments(assigns: seq<Assignment>, indent: string): string {
    indent + "set" + " " + JoinAssignments(assigns, indent) + ";"
  }

  /** The assignments of an operator that has some. */
  function FormatAnyAssignments(assigns: seq<Assignment>, indent: string): string {
    if assigns == [] then "" else FormatAssignments(assigns, indent)
  }

  // ----- operators -----

  /** The printer dereferences the selectors of an operator, and the operator of a rule. */
  predicate HasSelectors(op: Operator) {
    match op
    case NilOperator => true
    case SelectAndAssign(_) => true
    case InsertEntity(n) => n.source.Some?
    case DeleteEntity(n) => n.source.Some?
    case RelateEntities(n) => n.from.Some? && n.to.Some?
    case UnrelateEntities(n) => n.from.Some? && n.to.Some?
    case MergeEntities(n) => n.source.Some?
    case SplitEntity(n) => n.source.Some?
  }

  /** `name: expression;` on a line of its own. */
  function FormatSetting(indent: string, name: string, e: Expr): string {
    if e == Nil then "" else indent + name + ":" + " " + FormatExpr(e) + ";" + "\n"
  }

  function BoolText(b: bool): string {
    if b then "true" else "false"
  }

  function FormatFlag(indent: string, name: string, b: bool): string {
    indent + name + ":" + " " + BoolText(b) + ";" + "\n"
  }

  function FormatSelect(n: SelectNode, indent: string): string {
    FormatSelector(n.selector, indent) + FormatAnyAssignments(n.assignments, indent)
  }

  function FormatInsert(n: InsertNode, indent: string): string
    requires n.source.Some?
  {
    indent + "insert" + " " + n.target + " " + "{" + "\n"
    + FormatSelector(n.source.value, indent + "  ")
    + FormatSetting(indent + "  ", "discriminator", n.discriminator)
    + indent + "}" + "\n"
    + FormatAnyAssignments(n.assignments, indent)
  }

  function FormatDelete(n: DeleteNode, indent: string): string
    requires n.source.Some?
  {
    indent + "delete" + " " + n.source.value.kind + " " + "{" + "\n"
    + FormatSelector(n.source.value, indent + "  ")
    + indent + "}" + ";"
  }

  /** `relate a to b` and `unrelate a from b` share everything but their two words. */
  function FormatLink(n: LinkNode, keyword: string, word: string, indent: string): string
    requires n.from.Some? && n.to.Some?
  {
    indent + keyword + " " + n.from.value.kind + " " + word + " " + n.to.value.kind
    + (" " + "as" + " " + n.relation + " " + "{" + "\n")
    + (indent + "  " + "from" + ":" + "\n")
    + FormatSelector(n.from.value, indent + "    ")
    + (indent + "  " + "to" + ":" + "\n")
    + FormatSelector(n.to.value, indent + "    ")
    + FormatSetting(indent + "  ", "guard", n.guard)
    + indent + "}" + ";"
  }

  /** `merge a into b {` and `split a into b {`. */
  function FormatIntoHeader(keyword: string, kind: string, target: string, indent: string): string {
    indent + keyword + " " + kind + " " + "into" + " " + target + " " + "{" + "\n"
  }

  function FormatMerge(n: MergeNode, indent: string): string
    requires n.source.Some?
  {
    FormatIntoHeader("merge", n.source.value.kind, n.target, indent)
    + FormatSelector(n.source.value, indent + "  ")
    + FormatSetting(indent + "  ", "discriminator", n.discriminator)
    + FormatFlag(indent + "  ", "retain_sources", n.retainSources)
    + FormatFlag(indent + "  ", "reanchor_relations", n.reanchorRelations)
    + indent + "}" + "\n"
    + FormatAnyAssignments(n.assignments, indent)
  }

  function FormatPartition(p: Partition, indent: string): string {
    indent + "  " + "partition" + " " + Quote(p.name) + " " + "{" + "\n"
    + FormatSetting(indent + "    ", "discriminator", p.discriminator)
    + (if p.assignments == [] then "" else FormatAssignments(p.assignments, indent + "    ") + "\n")
    + indent + "  " + "}" + "\n"
  }

  function FormatPartitions(ps: seq<Partition>, indent: string): string {
    if ps == [] then "" else FormatPartition(ps[0], indent) + FormatPartitions(ps[1..], indent)
  }

  function FormatSplit(n: SplitNode, indent: string): string
    requires n.source.Some?
  {
    FormatIntoHeader("split", n.source.value.kind, n.target, indent)
    + FormatSelector(n.source.value, indent + "  ")
    + FormatFlag(indent + "  ", "retain_source", n.retainSource)
    + FormatPartitions(n.partitions, indent)
    + indent + "}" + ";"
  }

  function FormatOperator(op: Operator, indent: string): string
    requires HasSelectors(op)
  {
    match op
    case NilOperator => ""
    case SelectAndAssign(n) => FormatSelect(n, indent)
    case InsertEntity(n) => FormatInsert(n, indent)
    case DeleteEntity(n) => FormatDelete(n, indent)
    case RelateEntities(n) => FormatLink(n, "relate", "to", indent)
    case UnrelateEntities(n) => FormatLink(n, "unrelate", "from", indent)
    case MergeEntities(n) => FormatMerge(n, indent)
    case SplitEntity(n) => FormatSplit(n, indent)
  }

  // ----- declarations -----

  function FormatStringList(items: seq<string>): string {
    if items == [] then ""
    else if |items| == 1 then Quote(items[0])
    else Quote(items[0]) + ", " + FormatStringList(items[1..])
  }

  /** An annotation's keyword and its list. */
  datatype Note = Note(keyword: string, items: seq<string>)

  /** The annotations of a rule that are not empty, in the order they are printed. */
  function NotesOf(declaredReads: seq<string>, declaredWrites: seq<string>, dependsOn: seq<string>): seq<Note> {
    (if declaredReads == [] then [] else [Note("reads", declaredReads)])
    + (if declaredWrites == [] then [] else [Note("writes", declaredWrites)])
    + (if dependsOn == [] then [] else [Note("depends_on", dependsOn)])
  }

  function FormatNote(n: Note): string {
    n.keyword + ":" + " " + "[" + FormatStringList(n.items) + "]"
  }

  function JoinNotes(notes: seq<Note>): string {
    if notes == [] then ""
    else if |notes| == 1 then FormatNote(notes[0])
    else FormatNote(notes[0]) + ", " + JoinNotes(notes[1..])
  }

  function FormatNotes(notes: seq<Note>): string {
    if notes == [] then "" else " " + "(" + JoinNotes(notes) + ")"
  }

  function FormatField(f: Field): string {
    "    " + f.name + ":" + " " + f.typeName + (if f.required then "" else " " + "optional") + ";" + "\n"
  }

  function FormatFields(fields: seq<Field>): string {
    if fields == [] then "" else FormatField(fields[0]) + FormatFields(fields[1..])
  }

  function FormatEntity(e: Entity): string {
    "  " + "entity" + " " + e.kind + " " + "{" + "\n" + FormatFields(e.fields) + "  " + "}" + "\n"
  }

  function FormatEntities(es: seq<Entity>): string {
    if es == [] then "" else FormatEntity(es[0]) + FormatEntities(es[1..])
  }

  function FormatEndpoint(name: string, kind: string): string {
    "    " + name + ":" + " " + kind + ";" + "\n"
  }

  function FormatRelation(r: Relation): string {
    "  " + "relation" + " " + r.kind + " " + "{" + "\n"
    + FormatEndpoint("from", r.fromKind) + FormatEndpoint("to", r.toKind)
    + "  " + "}" + "\n"
  }

  function FormatRelations(rs: seq<Relation>): string {
    if rs == [] then "" else FormatRelation(rs[0]) + FormatRelations(rs[1..])
  }

  function FormatRequirement(r: Requirement): string {
    "  " + "require" + " " + r.field + " " + "present" + " " + "as" + " " + r.code + ";" + "\n"
  }

  function FormatRequirements(rs: seq<Requirement>): string {
    if rs == [] then "" else FormatRequirement(rs[0]) + FormatRequirements(rs[1..])
  }

  function FormatImplies(implies: seq<string>): string {
    if implies == [] then "" else " " + "(" + FormatNote(Note("implies", implies)) + ")"
  }

  predicate Formattable(d: Decl) {
    match d
    case NilDecl => false
    case RuleDecl(_, _, _, _, op) => HasSelectors(op)
    case _ => true
  }

  function FormatDecl(d: Decl): string
    requires Formattable(d)
  {
    match d
    case SchemaDecl(entities, relations) =>
      "schema" + " " + "{" + "\n" + FormatEntities(entities) + FormatRelations(relations) + "}"
    case RuleDecl(id, rs, ws, deps, op) =>
      "rule" + " " + id + FormatNotes(NotesOf(rs, ws, deps)) + " " + "{" + "\n"
      + FormatOperator(op, "  ") + "\n" + "}"
    case CheckpointDecl(key, after) =>
      "checkpoint" + " " + key + " " + "after" + " " + after + ";"
    case ProfileDecl(key, kind, implies, reqs) =>
      "profile" + " " + key + " " + "for" + " " + "entity" + " " + kind + FormatImplies(implies)
      + " " + "{" + "\n" + FormatRequirements(reqs) + "}"
  }

  predicate FormattableAll(ds: seq<Decl>) {
    forall d <- ds :: Formattable(d)
  }

  function FormatDecls(ds: seq<Decl>): string
    requires FormattableAll(ds)
  {
    if ds == [] then ""
    else if |ds| == 1 then FormatDecl(ds[0])
    else FormatDecl(ds[0]) + "\n\n" + FormatDecls(ds[1..])
  }

  function Format(f: File): string
    requires FormattableAll(f.declarations)
  {
    FormatDecls(f.declarations) + "\n"
  }
}
