/** What a file holds in its expressions, its string lists and the names that may be missing. */
module Contents {
  import opened Tokens
  import opened Ast
  import opened LexerFacts
  import opened ExprRoundTrip
  import opened Settling

  /** An expression, a quoted string, or a name that the parser does not insist on. */
  datatype Content = Shown(e: Expr) | Quoted(s: string) | Named(name: string)

  predicate PlainContent(c: Content) {
    match c case Shown(e) => PlainExpr(e) case Quoted(s) => IsPlain(s) case Named(_) => true
  }

  predicate AllPlain(cs: seq<Content>) {
    forall c <- cs :: PlainContent(c)
  }

  /** Strings are plain and decimals have a fraction. */
  predicate ExactContent(c: Content) {
    match c case Shown(e) => e == Nil || Printable(e) case Quoted(s) => IsPlain(s) case Named(_) => true
  }

  predicate AllExact(cs: seq<Content>) {
    forall c <- cs :: ExactContent(c)
  }

  /** No call is left open, and no name is missing or a keyword. */
  predicate ClosedContent(c: Content) {
    match c case Shown(e) => Closed(e) case Quoted(_) => true case Named(name) => IsName(name)
  }

  predicate AllClosed(cs: seq<Content>) {
    forall c <- cs :: ClosedContent(c)
  }

  function SelectorContents(s: Selector): seq<Content> {
    [Shown(s.where), Shown(s.groupBy), Shown(s.having)]
  }

  function SourceContents(s: Option<Selector>): seq<Content> {
    match s case None => [] case Some(v) => SelectorContents(v)
  }

  function AssignmentContents(assigns: seq<Assignment>): seq<Content> {
    if assigns == [] then [] else [Shown(assigns[0].value)] + AssignmentContents(assigns[1..])
  }

  function LinkContents(n: LinkNode): seq<Content> {
    SourceContents(n.from) + SourceContents(n.to) + [Shown(n.guard), Named(n.relation)]
  }

  function PartitionContents(p: Partition): seq<Content> {
    [Quoted(p.name), Shown(p.discriminator)] + AssignmentContents(p.assignments)
  }

  function PartitionsContents(ps: seq<Partition>): seq<Content> {
    if ps == [] then [] else PartitionContents(ps[0]) + PartitionsContents(ps[1..])
  }

  function OperatorContents(op: Operator): seq<Content> {
    match op
    case NilOperator => []
    case SelectAndAssign(n) => SelectorContents(n.selector) + AssignmentContents(n.assignments)
    case InsertEntity(n) => SourceContents(n.source) + [Shown(n.discriminator)] + AssignmentContents(n.assignments)
    case DeleteEntity(n) => SourceContents(n.source)
    case RelateEntities(n) => LinkContents(n)
    case UnrelateEntities(n) => LinkContents(n)
    case MergeEntities(n) => SourceContents(n.source) + [Shown(n.discriminator)] + AssignmentContents(n.assignments)
    case SplitEntity(n) => SourceContents(n.source) + PartitionsContents(n.partitions)
  }

  function ItemContents(items: seq<string>): seq<Content> {
    if items == [] then [] else [Quoted(items[0])] + ItemContents(items[1..])
  }

  function RelationContents(rs: seq<Relation>): seq<Content> {
    if rs == [] then [] else [Named(rs[0].fromKind), Named(rs[0].toKind)] + RelationContents(rs[1..])
  }

  function DeclContents(d: Decl): seq<Content> {
    match d
    case SchemaDecl(_, rs) => RelationContents(rs)
    case RuleDecl(_, rs, ws, deps, op) => ItemContents(rs) + ItemContents(ws) + ItemContents(deps) + OperatorContents(op)
    case ProfileDecl(_, _, implies, _) => ItemContents(implies)
    case _ => []
  }

  function DeclsContents(ds: seq<Decl>): seq<Content> {
    if ds == [] then [] else DeclContents(ds[0]) + DeclsContents(ds[1..])
  }

  function FileContents(f: File): seq<Content> {
    DeclsContents(f.declarations)
  }

  lemma PlainParts(a: seq<Content>, b: seq<Content>)
    ensures AllPlain(a + b) <==> AllPlain(a) && AllPlain(b)
    ensures AllExact(a + b) <==> AllExact(a) && AllExact(b)
    ensures AllClosed(a + b) <==> AllClosed(a) && AllClosed(b)
  {
    hide PlainContent, ExactContent, ClosedContent;
    assert forall c <- a :: c in a + b;
    assert forall c <- b :: c in a + b;
  }

  lemma PlainCons(c: Content, rest: seq<Content>)
    ensures AllPlain([c] + rest) <==> PlainContent(c) && AllPlain(rest)
    ensures AllExact([c] + rest) <==> ExactContent(c) && AllExact(rest)
    ensures AllClosed([c] + rest) <==> ClosedContent(c) && AllClosed(rest)
  {
    hide PlainContent, ExactContent, ClosedContent;
    PlainParts([c], rest);
    assert c in [c];
  }

  lemma TwoContents(c: Content, d: Content)
    ensures AllPlain([c, d]) <==> PlainContent(c) && PlainContent(d)
    ensures AllExact([c, d]) <==> ExactContent(c) && ExactContent(d)
    ensures AllClosed([c, d]) <==> ClosedContent(c) && ClosedContent(d)
  {
    hide PlainContent, ExactContent, ClosedContent;
    assert c in [c, d] && d in [c, d];
  }

  lemma NothingIsPlain()
    ensures AllPlain([]) && AllExact([]) && AllClosed([])
  {
  }

  /** Names are written as they are. */
  lemma {:induction false} RelationsArePlain(rs: seq<Relation>)
    ensures AllPlain(RelationContents(rs)) && AllExact(RelationContents(rs))
    decreases rs
  {
    if rs != [] {
      RelationsArePlain(rs[1..]);
      PlainParts([Named(rs[0].fromKind), Named(rs[0].toKind)], RelationContents(rs[1..]));
    }
  }
}
