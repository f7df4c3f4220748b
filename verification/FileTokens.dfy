/** The tokens of printed declarations. */
module FileTokens {
  import opened Tokens
  import opened Ast
  import opened FormatSpec
  import opened LexerFacts
  import opened Pratt
  import opened ExprRoundTrip

  function Id(name: string): Token {
    Token(IDENT, name)
  }

  function Str(s: string): Token {
    Token(STRING, s)
  }

  const SELECT_W := Token(SELECT, "select")
  const FROM_W := Token(FROM, "from")
  const TO_W := Token(TO, "to")
  const ENTITY_W := Token(ENTITY, "entity")
  const AS_W := Token(AS, "as")
  const COLON_T := Token(COLON, ":")
  const SEMICOLON_T := Token(SEMICOLON, ";")
  const LBRACE_T := Token(LBRACE, "{")
  const RBRACE_T := Token(RBRACE, "}")
  const LBRACKET_T := Token(LBRACKET, "[")
  const RBRACKET_T := Token(RBRACKET, "]")

  // ----- well-formed nodes: what the printer writes so that it can be read -----

  predicate GoodExpr(e: Expr) {
    e == Nil || Lexical(e)
  }

  predicate GoodSelector(s: Selector) {
    IsName(s.kind) && GoodExpr(s.where) && GoodExpr(s.groupBy) && GoodExpr(s.having)
  }

  predicate GoodAssignments(assigns: seq<Assignment>) {
    forall a <- assigns :: IsPath(a.target) && Lexical(a.value)
  }

  /** A guard is printed as the `having` clause it came from. */
  predicate GoodSource(s: Option<Selector>, guard: Expr) {
    s.Some? && GoodSelector(s.value) && guard == s.value.having
  }

  predicate GoodLink(n: LinkNode) {
    && IsName(n.relation) && n.from.Some? && GoodSelector(n.from.value)
    && n.to.Some? && GoodSelector(n.to.value) && GoodExpr(n.guard)
  }

  predicate GoodPartition(p: Partition) {
    IsAscii(p.name) && GoodExpr(p.discriminator) && GoodAssignments(p.assignments)
  }

  predicate GoodOperator(op: Operator) {
    match op
    case NilOperator => false
    case SelectAndAssign(n) =>
      GoodSelector(n.selector) && n.guard == n.selector.having && GoodAssignments(n.assignments)
    case InsertEntity(n) =>
      IsName(n.target) && GoodSource(n.source, n.guard) && GoodExpr(n.discriminator) && GoodAssignments(n.assignments)
    case DeleteEntity(n) => GoodSource(n.source, n.guard)
    case RelateEntities(n) => GoodLink(n)
    case UnrelateEntities(n) => GoodLink(n)
    case MergeEntities(n) =>
      IsName(n.target) && GoodSource(n.source, n.guard) && GoodExpr(n.discriminator) && GoodAssignments(n.assignments)
    case SplitEntity(n) =>
      IsName(n.target) && GoodSource(n.source, n.guard) && forall p <- n.partitions :: GoodPartition(p)
  }

  predicate AsciiAll(items: seq<string>) {
    forall s <- items :: IsAscii(s)
  }

  predicate GoodEntity(e: Entity) {
    IsName(e.kind) && forall f <- e.fields :: IsName(f.name) && IsName(f.typeName)
  }

  predicate GoodRelation(r: Relation) {
    IsName(r.kind) && IsName(r.fromKind) && IsName(r.toKind)
  }

  predicate GoodRequirement(r: Requirement) {
    IsPath(r.field) && IsName(r.code)
  }

  predicate GoodDecl(d: Decl) {
    match d
    case NilDecl => false
    case SchemaDecl(es, rs) => (forall e <- es :: GoodEntity(e)) && (forall r <- rs :: GoodRelation(r))
    case RuleDecl(id, rs, ws, deps, op) =>
      IsName(id) && AsciiAll(rs) && AsciiAll(ws) && AsciiAll(deps) && GoodOperator(op)
    case CheckpointDecl(key, after) => IsName(key) && IsName(after)
    case ProfileDecl(key, kind, implies, reqs) =>
      IsName(key) && IsName(kind) && AsciiAll(implies) && forall r <- reqs :: GoodRequirement(r)
  }

  predicate GoodFile(f: File) {
    forall d <- f.declarations :: GoodDecl(d)
  }

  // ----- written nodes: the printed text is known token by token, whether or not it can be read.  Calls may
  // be left open, and relations may lack a name or an end. -----

  predicate WrittenExpr(e: Expr) {
    e == Nil || Writable(e)
  }

  predicate WrittenSelector(s: Selector) {
    IsName(s.kind) && WrittenExpr(s.where) && WrittenExpr(s.groupBy) && WrittenExpr(s.having)
  }

  predicate WrittenAssignments(assigns: seq<Assignment>) {
    forall a <- assigns :: IsPath(a.target) && Writable(a.value)
  }

  predicate WrittenSource(s: Option<Selector>, guard: Expr) {
    s.Some? && WrittenSelector(s.value) && guard == s.value.having
  }

  predicate WrittenLink(n: LinkNode) {
    && (n.relation == "" || IsWord(n.relation)) && n.from.Some? && WrittenSelector(n.from.value)
    && n.to.Some? && WrittenSelector(n.to.value) && WrittenExpr(n.guard)
  }

  predicate WrittenPartition(p: Partition) {
    IsAscii(p.name) && WrittenExpr(p.discriminator) && WrittenAssignments(p.assignments)
  }

  predicate WrittenOperator(op: Operator) {
    match op
    case NilOperator => false
    case SelectAndAssign(n) =>
      WrittenSelector(n.selector) && n.guard == n.selector.having && WrittenAssignments(n.assignments)
    case InsertEntity(n) =>
      IsName(n.target) && WrittenSource(n.source, n.guard) && WrittenExpr(n.discriminator) && WrittenAssignments(n.assignments)
    case DeleteEntity(n) => WrittenSource(n.source, n.guard)
    case RelateEntities(n) => WrittenLink(n)
    case UnrelateEntities(n) => WrittenLink(n)
    case MergeEntities(n) =>
      IsName(n.target) && WrittenSource(n.source, n.guard) && WrittenExpr(n.discriminator) && WrittenAssignments(n.assignments)
    case SplitEntity(n) =>
      IsName(n.target) && WrittenSource(n.source, n.guard) && forall p <- n.partitions :: WrittenPartition(p)
  }

  predicate WrittenRelation(r: Relation) {
    IsName(r.kind) && (r.fromKind == "" || IsName(r.fromKind)) && (r.toKind == "" || IsName(r.toKind))
  }

  predicate WrittenDecl(d: Decl) {
    match d
    case NilDecl => false
    case SchemaDecl(es, rs) => (forall e <- es :: GoodEntity(e)) && (forall r <- rs :: WrittenRelation(r))
    case RuleDecl(id, rs, ws, deps, op) =>
      IsName(id) && AsciiAll(rs) && AsciiAll(ws) && AsciiAll(deps) && WrittenOperator(op)
    case CheckpointDecl(key, after) => IsName(key) && IsName(after)
    case ProfileDecl(key, kind, implies, reqs) =>
      IsName(key) && IsName(kind) && AsciiAll(implies) && forall r <- reqs :: GoodRequirement(r)
  }

  predicate WrittenFile(f: File) {
    forall d <- f.declarations :: WrittenDecl(d)
  }

  // ----- what the parser makes of printed nodes -----

  function MangleAll(items: seq<string>): (r: seq<string>)
    ensures |r| == |items|
  {
    if items == [] then [] else [Mangle(items[0])] + MangleAll(items[1..])
  }

  function BackSelector(s: Selector): Selector {
    Selector(s.kind, ReadBack(s.where), ReadBack(s.groupBy), ReadBack(s.having))
  }

  function BackAssignments(assigns: seq<Assignment>): (r: seq<Assignment>)
    ensures |r| == |assigns|
  {
    if assigns == [] then []
    else [Assignment(assigns[0].target, ReadBack(assigns[0].value))] + BackAssignments(assigns[1..])
  }

  function BackSource(s: Option<Selector>): Option<Selector> {
    match s case None => None case Some(v) => Some(BackSelector(v))
  }

  function BackLink(n: LinkNode): LinkNode {
    LinkNode(n.relation, BackSource(n.from), BackSource(n.to), ReadBack(n.guard))
  }

  function BackPartition(p: Partition): Partition {
    Partition(Mangle(p.name), ReadBack(p.discriminator), BackAssignments(p.assignments))
  }

  function BackPartitions(ps: seq<Partition>): seq<Partition> {
    if ps == [] then [] else [BackPartition(ps[0])] + BackPartitions(ps[1..])
  }

  function BackOperator(op: Operator): Operator {
    match op
    case NilOperator => NilOperator
    case SelectAndAssign(n) =>
      SelectAndAssign(SelectNode(BackSelector(n.selector), ReadBack(n.guard), BackAssignments(n.assignments)))
    case InsertEntity(n) =>
      InsertEntity(InsertNode(n.target, BackSource(n.source), ReadBack(n.discriminator), ReadBack(n.guard), BackAssignments(n.assignments)))
    case DeleteEntity(n) => DeleteEntity(DeleteNode(BackSource(n.source), ReadBack(n.guard)))
    case RelateEntities(n) => RelateEntities(BackLink(n))
    case UnrelateEntities(n) => UnrelateEntities(BackLink(n))
    case MergeEntities(n) =>
      MergeEntities(MergeNode(n.target, BackSource(n.source), ReadBack(n.discriminator), ReadBack(n.guard),
                              n.retainSources, n.reanchorRelations, BackAssignments(n.assignments)))
    case SplitEntity(n) =>
      SplitEntity(SplitNode(n.target, BackSource(n.source), ReadBack(n.guard), n.retainSource, BackPartitions(n.partitions)))
  }

  function BackDecl(d: Decl): Decl {
    match d
    case RuleDecl(id, rs, ws, deps, op) => RuleDecl(id, MangleAll(rs), MangleAll(ws), MangleAll(deps), BackOperator(op))
    case ProfileDecl(key, kind, implies, reqs) => ProfileDecl(key, kind, MangleAll(implies), reqs)
    case _ => d
  }

  function BackDecls(ds: seq<Decl>): (r: seq<Decl>)
    ensures |r| == |ds|
  {
    if ds == [] then [] else [BackDecl(ds[0])] + BackDecls(ds[1..])
  }

  function BackFile(f: File): File {
    File(BackDecls(f.declarations))
  }

  // ----- token streams, each followed by `k` -----

  function ExprThen(e: Expr, k: Toks): Toks {
    Then(CstOf(e), k)
  }

  /** A name that may be missing, and may be a keyword. */
  function NameThen(name: string, k: Toks): Toks {
    if name == "" then k else Cons(WordToken(name), k)
  }

  function PathThen(p: string, k: Toks): Toks {
    Cons(PathTokens(p)[0], DotsThen(PathTokens(p)[1..], k))
  }

  function ClauseThen(keyword: Token, e: Expr, k: Toks): Toks {
    if e == Nil then k else Cons(keyword, ExprThen(e, k))
  }

  /** A selector without its keyword. */
  function SelectorThen(s: Selector, k: Toks): Toks {
    Cons(Id(s.kind), ClauseThen(Token(WHERE, "where"), s.where,
         ClauseThen(Token(GROUP_BY, "group_by"), s.groupBy, ClauseThen(Token(HAVING, "having"), s.having, k))))
  }

  function AssignsThen(assigns: seq<Assignment>, k: Toks): Toks
    requires assigns != []
  {
    PathThen(assigns[0].target, Cons(Token(ASSIGN, "="), ExprThen(assigns[0].value,
      if |assigns| == 1 then Cons(SEMICOLON_T, k) else Cons(COMMA_TOKEN, AssignsThen(assigns[1..], k)))))
  }

  function SetThen(assigns: seq<Assignment>, k: Toks): Toks {
    if assigns == [] then k else Cons(Token(SET, "set"), AssignsThen(assigns, k))
  }

  function SettingThen(keyword: Token, e: Expr, k: Toks): Toks {
    if e == Nil then k else Cons(keyword, Cons(COLON_T, ExprThen(e, Cons(SEMICOLON_T, k))))
  }

  function BoolToken(b: bool): Token {
    if b then Token(TRUE, "true") else Token(FALSE, "false")
  }

  function FlagThen(keyword: Token, b: bool, k: Toks): Toks {
    Cons(keyword, Cons(COLON_T, Cons(BoolToken(b), Cons(SEMICOLON_T, k))))
  }

  function SourceThen(s: Selector, k: Toks): Toks {
    Cons(SELECT_W, SelectorThen(s, k))
  }

  function DiscriminatorThen(e: Expr, k: Toks): Toks {
    SettingThen(Token(DISCRIMINATOR, "discriminator"), e, k)
  }

  function InsertThen(n: InsertNode, k: Toks): Toks
    requires n.source.Some?
  {
    Cons(Token(INSERT, "insert"), Cons(Id(n.target), Cons(LBRACE_T,
      SourceThen(n.source.value, DiscriminatorThen(n.discriminator, Cons(RBRACE_T, SetThen(n.assignments, k)))))))
  }

  function DeleteThen(n: DeleteNode, k: Toks): Toks
    requires n.source.Some?
  {
    Cons(Token(DELETE, "delete"), Cons(Id(n.source.value.kind), Cons(LBRACE_T,
      SourceThen(n.source.value, Cons(RBRACE_T, Cons(SEMICOLON_T, k))))))
  }

  function EndpointsThen(n: LinkNode, k: Toks): Toks
    requires n.from.Some? && n.to.Some?
  {
    Cons(FROM_W, Cons(COLON_T, SourceThen(n.from.value,
      Cons(TO_W, Cons(COLON_T, SourceThen(n.to.value, SettingThen(Token(GUARD, "guard"), n.guard, k)))))))
  }

  function LinkThen(n: LinkNode, keyword: Token, word: Token, k: Toks): Toks
    requires n.from.Some? && n.to.Some?
  {
    Cons(keyword, Cons(Id(n.from.value.kind), Cons(word, Cons(Id(n.to.value.kind), Cons(AS_W, NameThen(n.relation,
      Cons(LBRACE_T, EndpointsThen(n, Cons(RBRACE_T, Cons(SEMICOLON_T, k))))))))))
  }

  function IntoThen(keyword: Token, kind: string, target: string, k: Toks): Toks {
    Cons(keyword, Cons(Id(kind), Cons(Token(INTO, "into"), Cons(Id(target), Cons(LBRACE_T, k)))))
  }

  function MergeThen(n: MergeNode, k: Toks): Toks
    requires n.source.Some?
  {
    IntoThen(Token(MERGE, "merge"), n.source.value.kind, n.target,
      SourceThen(n.source.value, DiscriminatorThen(n.discriminator,
        FlagThen(Token(RETAIN_SOURCES, "retain_sources"), n.retainSources,
          FlagThen(Token(REANCHOR_RELATIONS, "reanchor_relations"), n.reanchorRelations,
            Cons(RBRACE_T, SetThen(n.assignments, k)))))))
  }

  function PartitionThen(p: Partition, k: Toks): Toks {
    Cons(Token(PARTITION, "partition"), Cons(Str(Mangle(p.name)), Cons(LBRACE_T,
      DiscriminatorThen(p.discriminator, SetThen(p.assignments, Cons(RBRACE_T, k))))))
  }

  function PartitionsThen(ps: seq<Partition>, k: Toks): Toks {
    if ps == [] then k else PartitionThen(ps[0], PartitionsThen(ps[1..], k))
  }

  function SplitThen(n: SplitNode, k: Toks): Toks
    requires n.source.Some?
  {
    IntoThen(Token(SPLIT, "split"), n.source.value.kind, n.target,
      SourceThen(n.source.value, FlagThen(Token(RETAIN_SOURCE, "retain_source"), n.retainSource,
        PartitionsThen(n.partitions, Cons(RBRACE_T, Cons(SEMICOLON_T, k))))))
  }

  function OperatorThen(op: Operator, k: Toks): Toks
    requires HasSelectors(op)
  {
    match op
    case NilOperator => k
    case SelectAndAssign(n) => SourceThen(n.selector, SetThen(n.assignments, k))
    case InsertEntity(n) => InsertThen(n, k)
    case DeleteEntity(n) => DeleteThen(n, k)
    case RelateEntities(n) => LinkThen(n, Token(RELATE, "relate"), TO_W, k)
    case UnrelateEntities(n) => LinkThen(n, Token(UNRELATE, "unrelate"), FROM_W, k)
    case MergeEntities(n) => MergeThen(n, k)
    case SplitEntity(n) => SplitThen(n, k)
  }

  function ItemsThen(items: seq<string>, k: Toks): Toks {
    if items == [] then k
    else Cons(Str(Mangle(items[0])), if |items| == 1 then k else Cons(COMMA_TOKEN, ItemsThen(items[1..], k)))
  }

  function NoteThen(n: Note, k: Toks): Toks {
    Cons(Token(LookupIdent(n.keyword), n.keyword), Cons(COLON_T, Cons(LBRACKET_T, ItemsThen(n.items, Cons(RBRACKET_T, k)))))
  }

  function NotesThen(notes: seq<Note>, k: Toks): Toks {
    if notes == [] then k
    else NoteThen(notes[0], if |notes| == 1 then k else Cons(COMMA_TOKEN, NotesThen(notes[1..], k)))
  }

  function AnnotationsThen(notes: seq<Note>, k: Toks): Toks {
    if notes == [] then k else Cons(LPAREN_TOKEN, NotesThen(notes, Cons(RPAREN_TOKEN, k)))
  }

  function FieldThen(f: Field, k: Toks): Toks {
    Cons(Id(f.name), Cons(COLON_T, Cons(Id(f.typeName),
      if f.required then Cons(SEMICOLON_T, k) else Cons(Token(OPTIONAL, "optional"), Cons(SEMICOLON_T, k)))))
  }

  function FieldsThen(fields: seq<Field>, k: Toks): Toks {
    if fields == [] then k else FieldThen(fields[0], FieldsThen(fields[1..], k))
  }

  function EntityThen(e: Entity, k: Toks): Toks {
    Cons(ENTITY_W, Cons(Id(e.kind), Cons(LBRACE_T, FieldsThen(e.fields, Cons(RBRACE_T, k)))))
  }

  function EntitiesThen(es: seq<Entity>, k: Toks): Toks {
    if es == [] then k else EntityThen(es[0], EntitiesThen(es[1..], k))
  }

  function EndpointThen(word: Token, kind: string, k: Toks): Toks {
    Cons(word, Cons(COLON_T, NameThen(kind, Cons(SEMICOLON_T, k))))
  }

  function RelationThen(r: Relation, k: Toks): Toks {
    Cons(Token(RELATION, "relation"), Cons(Id(r.kind), Cons(LBRACE_T,
      EndpointThen(FROM_W, r.fromKind, EndpointThen(TO_W, r.toKind, Cons(RBRACE_T, k))))))
  }

  function RelationsThen(rs: seq<Relation>, k: Toks): Toks {
    if rs == [] then k else RelationThen(rs[0], RelationsThen(rs[1..], k))
  }

  function RequirementThen(r: Requirement, k: Toks): Toks {
    Cons(Token(REQUIRE, "require"), PathThen(r.field,
      Cons(Token(PRESENT, "present"), Cons(AS_W, Cons(Id(r.code), Cons(SEMICOLON_T, k))))))
  }

  function RequirementsThen(rs: seq<Requirement>, k: Toks): Toks {
    if rs == [] then k else RequirementThen(rs[0], RequirementsThen(rs[1..], k))
  }

  function ImpliesThen(implies: seq<string>, k: Toks): Toks {
    if implies == [] then k else Cons(LPAREN_TOKEN, NoteThen(Note("implies", implies), Cons(RPAREN_TOKEN, k)))
  }

  function DeclThen(d: Decl, k: Toks): Toks
    requires Formattable(d)
  {
    match d
    case SchemaDecl(es, rs) =>
      Cons(Token(SCHEMA, "schema"), Cons(LBRACE_T, EntitiesThen(es, RelationsThen(rs, Cons(RBRACE_T, k)))))
    case RuleDecl(id, rs, ws, deps, op) =>
      Cons(Token(RULE, "rule"), Cons(Id(id), AnnotationsThen(NotesOf(rs, ws, deps),
        Cons(LBRACE_T, OperatorThen(op, Cons(RBRACE_T, k))))))
    case CheckpointDecl(key, after) =>
      Cons(Token(CHECKPOINT, "checkpoint"), Cons(Id(key), Cons(Token(AFTER, "after"), Cons(Id(after), Cons(SEMICOLON_T, k)))))
    case ProfileDecl(key, kind, implies, reqs) =>
      Cons(Token(PROFILE, "profile"), Cons(Id(key), Cons(Token(FOR, "for"), Cons(ENTITY_W, Cons(Id(kind),
        ImpliesThen(implies, Cons(LBRACE_T, RequirementsThen(reqs, Cons(RBRACE_T, k)))))))))
  }

  function DeclsThen(ds: seq<Decl>, k: Toks): Toks
    requires FormattableAll(ds)
  {
    if ds == [] then k else DeclThen(ds[0], DeclsThen(ds[1..], k))
  }

  lemma WrittenIsFormattable(d: Decl)
    requires WrittenDecl(d)
    ensures Formattable(d)
  {
  }
}
