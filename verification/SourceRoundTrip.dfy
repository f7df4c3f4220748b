/** Formatting any source text whose contents can be printed so that they can be read. */
module SourceRoundTrip {
  import opened Tokens
  import opened Ast
  import opened LexerSpec
  import opened FileParserSpec
  import opened FormatSpec
  import opened LexerFacts
  import opened ExprRoundTrip
  import opened FileTokens
  import opened Contents
  import opened NormalForms
  import opened ClosedFiles
  import opened FileRoundTrip
  import opened ParserOutput

  // ----- contents that are written as contents of their kind: strings are ASCII, decimals are digits, atoms
  // and the names of relations are words -----

  predicate CleanLiteral(kind: LitKind, t: string) {
    match kind
    case LitDecimal => IsInteger(Unsigned(t)) || IsDecimal(Unsigned(t))
    case LitAtom => IsWord(t)
    case LitInt => true
    case LitBool => true
    case LitNull => true
    case _ => IsAscii(t)
  }

  predicate CleanExpr(e: Expr)
    decreases e
  {
    match e
    case Nil => true
    case Path(_) => true
    case Lit(kind, t) => CleanLiteral(kind, t)
    case Unary(_, right) => CleanExpr(right)
    case Binary(_, l, r) => CleanExpr(l) && CleanExpr(r)
    case Call(_, args) => forall a <- args :: CleanExpr(a)
  }

  predicate CleanSelector(s: Selector) {
    CleanExpr(s.where) && CleanExpr(s.groupBy) && CleanExpr(s.having)
  }

  predicate CleanSource(s: Option<Selector>) {
    s.Some? ==> CleanSelector(s.value)
  }

  predicate CleanAssignments(assigns: seq<Assignment>) {
    forall a <- assigns :: CleanExpr(a.value)
  }

  predicate CleanLink(n: LinkNode) {
    (n.relation == "" || IsWord(n.relation)) && CleanSource(n.from) && CleanSource(n.to) && CleanExpr(n.guard)
  }

  predicate CleanPartition(p: Partition) {
    IsAscii(p.name) && CleanExpr(p.discriminator) && CleanAssignments(p.assignments)
  }

  predicate CleanOperator(op: Operator) {
    match op
    case NilOperator => true
    case SelectAndAssign(n) => CleanSelector(n.selector) && CleanAssignments(n.assignments)
    case InsertEntity(n) => CleanSource(n.source) && CleanExpr(n.discriminator) && CleanAssignments(n.assignments)
    case DeleteEntity(n) => CleanSource(n.source)
    case RelateEntities(n) => CleanLink(n)
    case UnrelateEntities(n) => CleanLink(n)
    case MergeEntities(n) => CleanSource(n.source) && CleanExpr(n.discriminator) && CleanAssignments(n.assignments)
    case SplitEntity(n) => CleanSource(n.source) && forall p <- n.partitions :: CleanPartition(p)
  }

  predicate CleanDecl(d: Decl) {
    match d
    case NilDecl => true
    case SchemaDecl(_, _) => true
    case RuleDecl(_, rs, ws, deps, op) => AsciiAll(rs) && AsciiAll(ws) && AsciiAll(deps) && CleanOperator(op)
    case CheckpointDecl(_, _) => true
    case ProfileDecl(_, _, implies, _) => AsciiAll(implies)
  }

  predicate CleanFile(f: File) {
    forall d <- f.declarations :: CleanDecl(d)
  }

  // ----- what the parser leaves open of what can be written -----

  lemma {:induction false} WrittenTree(e: Expr)
    requires ShapedTree(e)
    ensures Writable(e) <==> CleanExpr(e)
    decreases e
  {
    match e
    case Path(_) =>
    case Lit(kind, t) => WrittenLiteral(kind, t);
    case Unary(_, right) => WrittenTree(right);
    case Binary(op, l, r) => WrittenTree(l); WrittenTree(r);
    case Call(_, args) => forall a | a in args ensures Writable(a) <==> CleanExpr(a) { WrittenTree(a); }
  }

  lemma WrittenLiteral(kind: LitKind, t: string)
    requires ShapedLiteral(kind, t)
    ensures LexicalLiteral(kind, t) <==> CleanLiteral(kind, t)
  {
  }

  lemma WrittenExprIsClean(e: Expr)
    requires ShapedExpr(e)
    ensures WrittenExpr(e) <==> CleanExpr(e)
  {
    if e != Nil { WrittenTree(e); }
  }

  lemma WrittenSelectorIsClean(s: Selector)
    requires ShapedSelector(s)
    ensures WrittenSelector(s) <==> CleanSelector(s)
  {
    WrittenExprIsClean(s.where);
    WrittenExprIsClean(s.groupBy);
    WrittenExprIsClean(s.having);
  }

  lemma WrittenAssignmentsAreClean(assigns: seq<Assignment>)
    requires ShapedAssignments(assigns)
    ensures WrittenAssignments(assigns) <==> CleanAssignments(assigns)
  {
    forall a | a in assigns ensures Writable(a.value) <==> CleanExpr(a.value) {
      assert ShapedAssignment(a);
      WrittenTree(a.value);
    }
  }

  lemma WrittenPartitionIsClean(p: Partition)
    requires ShapedPartition(p)
    ensures WrittenPartition(p) <==> CleanPartition(p)
  {
    WrittenExprIsClean(p.discriminator);
    WrittenAssignmentsAreClean(p.assignments);
  }

  lemma WrittenLinkIsClean(n: LinkNode)
    requires ShapedLink(n) && n.from.Some? && n.to.Some?
    ensures WrittenLink(n) <==> CleanLink(n)
  {
    WrittenSelectorIsClean(n.from.value);
    WrittenSelectorIsClean(n.to.value);
    WrittenExprIsClean(n.guard);
  }

  lemma WrittenSourceIsClean(s: Option<Selector>, guard: Expr)
    requires ShapedSource(s, guard) && s.Some?
    ensures WrittenSource(s, guard) <==> CleanSource(s)
  {
    WrittenSelectorIsClean(s.value);
  }

  lemma WrittenOperatorIsClean(op: Operator)
    requires ShapedOperator(op) && HasSelectors(op)
    ensures WrittenOperator(op) <==> CleanOperator(op)
  {
    hide ShapedSelector, ShapedExpr, ShapedAssignments, ShapedPartition, ShapedLink, ShapedSource,
      WrittenSelector, WrittenExpr, WrittenAssignments, WrittenPartition, WrittenLink, WrittenSource,
      CleanSelector, CleanExpr, CleanAssignments, CleanPartition, CleanLink, CleanSource;
    match op
    case SelectAndAssign(n) => WrittenSelectorIsClean(n.selector); WrittenAssignmentsAreClean(n.assignments);
    case InsertEntity(n) =>
      WrittenSourceIsClean(n.source, n.guard);
      WrittenExprIsClean(n.discriminator);
      WrittenAssignmentsAreClean(n.assignments);
    case DeleteEntity(n) => WrittenSourceIsClean(n.source, n.guard);
    case RelateEntities(n) => WrittenLinkIsClean(n);
    case UnrelateEntities(n) => WrittenLinkIsClean(n);
    case MergeEntities(n) =>
      WrittenSourceIsClean(n.source, n.guard);
      WrittenExprIsClean(n.discriminator);
      WrittenAssignmentsAreClean(n.assignments);
    case SplitEntity(n) =>
      WrittenSourceIsClean(n.source, n.guard);
      forall p | p in n.partitions ensures WrittenPartition(p) <==> CleanPartition(p) { WrittenPartitionIsClean(p); }
  }

  lemma WrittenDeclIsClean(d: Decl)
    requires ShapedDecl(d) && Formattable(d)
    ensures WrittenDecl(d) <==> CleanDecl(d)
  {
    hide ShapedOperator, WrittenOperator, CleanOperator, AsciiAll, IsName, GoodEntity, GoodRequirement;
    match d
    case RuleDecl(_, _, _, _, op) => WrittenOperatorIsClean(op);
    case SchemaDecl(es, rs) => assert forall r <- rs :: WrittenRelation(r) == ShapedRelation(r);
    case _ =>
  }

  /** The file an accepted source holds. */
  function FileOf(src: string): File
    requires FormatSource(src).Text?
  {
    ParseTokens(StreamOf(src)).value
  }

  /** An accepted source holds a file that can be written token by token if and only if its contents are
      clean. */
  lemma AcceptedIsWritten(src: string)
    requires FormatSource(src).Text?
    ensures WrittenFile(FileOf(src)) <==> CleanFile(FileOf(src))
  {
    hide ParseTokens, StreamOf, Format, ShapedDecl, WrittenDecl, CleanDecl, Formattable;
    ParsedIsShaped(src);
    var ds := FileOf(src).declarations;
    forall d | d in ds ensures WrittenDecl(d) <==> CleanDecl(d) {
      assert Formattable(d);
      WrittenDeclIsClean(d);
    }
  }

  /** SOURCE IDEMPOTENCE.  For every accepted source with clean contents: its formatted text is accepted
      if and only if no call is left open and every name is there; formatting that text changes nothing
      if and only if moreover the strings are plain; the file in it is the one the source held, signs
      folded in, if and only if moreover its decimals have a fraction; and formatting a third time changes
      nothing in any case. */
  lemma {:induction false} SourceIsIdempotent(src: string)
    requires FormatSource(src).Text? && CleanFile(FileOf(src))
    ensures var cs, again := FileContents(FileOf(src)), FormatSource(FormatSource(src).text);
            && (again.Text? <==> AllClosed(cs))
            && (again == FormatSource(src) <==> AllClosed(cs) && AllPlain(cs))
            && (again.Text? ==> (FileOf(FormatSource(src).text) == NormFile(FileOf(src)) <==> AllExact(cs)))
            && (again.Text? ==> FormatSource(again.text) == again)
  {
    hide ParseTokens, StreamOf, Format, GoodFile, WrittenFile, CleanFile, NormFile, AllPlain, AllExact, AllClosed;
    AcceptedIsWritten(src);
    FileRoundTrip.FileRoundTrip(FileOf(src));
    FormatIsIdempotent(FileOf(src));
    FileClosed(FileOf(src));
    if GoodFile(FileOf(src)) { FileReadsBack(FileOf(src)); }
  }
}
