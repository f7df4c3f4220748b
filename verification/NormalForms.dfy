/** The normal form of a file, its signs folded in, and when reading back finds it. */
module NormalForms {
  import opened Tokens
  import opened Ast
  import opened LexerFacts
  import opened ExprRoundTrip
  import opened FileTokens
  import opened Contents

  function NormSelector(s: Selector): Selector {
    Selector(s.kind, Norm(s.where), Norm(s.groupBy), Norm(s.having))
  }

  function NormSource(s: Option<Selector>): Option<Selector> {
    match s case None => None case Some(v) => Some(NormSelector(v))
  }

  function NormAssignments(assigns: seq<Assignment>): (r: seq<Assignment>)
    ensures |r| == |assigns|
  {
    if assigns == [] then []
    else [Assignment(assigns[0].target, Norm(assigns[0].value))] + NormAssignments(assigns[1..])
  }

  function NormLink(n: LinkNode): LinkNode {
    LinkNode(n.relation, NormSource(n.from), NormSource(n.to), Norm(n.guard))
  }

  function NormPartition(p: Partition): Partition {
    Partition(p.name, Norm(p.discriminator), NormAssignments(p.assignments))
  }

  function NormPartitions(ps: seq<Partition>): (r: seq<Partition>)
    ensures |r| == |ps|
  {
    if ps == [] then [] else [NormPartition(ps[0])] + NormPartitions(ps[1..])
  }

  function NormOperator(op: Operator): Operator {
    match op
    case NilOperator => NilOperator
    case SelectAndAssign(n) =>
      SelectAndAssign(SelectNode(NormSelector(n.selector), Norm(n.guard), NormAssignments(n.assignments)))
    case InsertEntity(n) =>
      InsertEntity(InsertNode(n.target, NormSource(n.source), Norm(n.discriminator), Norm(n.guard), NormAssignments(n.assignments)))
    case DeleteEntity(n) => DeleteEntity(DeleteNode(NormSource(n.source), Norm(n.guard)))
    case RelateEntities(n) => RelateEntities(NormLink(n))
    case UnrelateEntities(n) => UnrelateEntities(NormLink(n))
    case MergeEntities(n) =>
      MergeEntities(MergeNode(n.target, NormSource(n.source), Norm(n.discriminator), Norm(n.guard),
                              n.retainSources, n.reanchorRelations, NormAssignments(n.assignments)))
    case SplitEntity(n) =>
      SplitEntity(SplitNode(n.target, NormSource(n.source), Norm(n.guard), n.retainSource, NormPartitions(n.partitions)))
  }

  function NormDecl(d: Decl): Decl {
    match d
    case RuleDecl(id, rs, ws, deps, op) => RuleDecl(id, rs, ws, deps, NormOperator(op))
    case _ => d
  }

  function NormDecls(ds: seq<Decl>): (r: seq<Decl>)
    ensures |r| == |ds|
  {
    if ds == [] then [] else [NormDecl(ds[0])] + NormDecls(ds[1..])
  }

  function NormFile(f: File): File {
    File(NormDecls(f.declarations))
  }

  // ----- reading back finds the normal form exactly when the contents are exact -----

  lemma ExprExactly(e: Expr)
    requires GoodExpr(e)
    ensures ReadBack(e) == Norm(e) <==> ExactContent(Shown(e))
  {
    if e != Nil { KeepsExactly(e); }
  }

  lemma SelectorExactly(s: Selector)
    requires GoodSelector(s)
    ensures BackSelector(s) == NormSelector(s) <==> AllExact(SelectorContents(s))
  {
    hide ReadBack, Norm, GoodExpr, ExactContent;
    ExprExactly(s.where);
    ExprExactly(s.groupBy);
    ExprExactly(s.having);
    assert AllExact(SelectorContents(s)) <==>
           ExactContent(Shown(s.where)) && ExactContent(Shown(s.groupBy)) && ExactContent(Shown(s.having));
  }

  lemma {:induction false} AssignmentsExactly(assigns: seq<Assignment>)
    requires GoodAssignments(assigns)
    ensures BackAssignments(assigns) == NormAssignments(assigns) <==> AllExact(AssignmentContents(assigns))
    decreases assigns
  {
    hide ReadBack, Norm, Lexical, IsPath, AllExact;
    NothingIsPlain();
    if assigns != [] {
      var v := assigns[0].value;
      assert GoodExpr(v);
      ExprExactly(v);
      AssignmentsExactly(assigns[1..]);
      PlainCons(Shown(v), AssignmentContents(assigns[1..]));
      assert BackAssignments(assigns)[0].value == ReadBack(v) && BackAssignments(assigns)[1..] == BackAssignments(assigns[1..]);
      assert NormAssignments(assigns)[0].value == Norm(v) && NormAssignments(assigns)[1..] == NormAssignments(assigns[1..]);
    }
  }

  lemma SourceExactly(s: Option<Selector>, guard: Expr)
    requires GoodSource(s, guard)
    ensures BackSource(s) == NormSource(s) <==> AllExact(SourceContents(s))
    ensures BackSource(s) == NormSource(s) ==> ReadBack(guard) == Norm(guard)
  {
    hide ReadBack, Norm, AllExact, GoodExpr;
    SelectorExactly(s.value);
  }

  lemma NamesAreExact(name: string)
    ensures ExactContent(Named(name))
  {
  }

  lemma LinkExactly(n: LinkNode)
    requires GoodLink(n)
    ensures BackLink(n) == NormLink(n) <==> AllExact(LinkContents(n))
  {
    hide ReadBack, Norm, AllExact, GoodExpr, ExactContent;
    SelectorExactly(n.from.value);
    SelectorExactly(n.to.value);
    ExprExactly(n.guard);
    PlainParts(SourceContents(n.from) + SourceContents(n.to), [Shown(n.guard), Named(n.relation)]);
    PlainParts(SourceContents(n.from), SourceContents(n.to));
    TwoContents(Shown(n.guard), Named(n.relation));
    NamesAreExact(n.relation);
  }

  lemma PartitionExactly(p: Partition)
    requires GoodPartition(p)
    ensures BackPartition(p) == NormPartition(p) <==> AllExact(PartitionContents(p))
  {
    hide ReadBack, Norm, AllExact, GoodExpr, GoodAssignments, Mangle, IsPlain, IsAscii, BackAssignments, NormAssignments, AssignmentContents;
    MangleKeepsPlain(p.name);
    ExprExactly(p.discriminator);
    AssignmentsExactly(p.assignments);
    var rest := AssignmentContents(p.assignments);
    PlainCons(Quoted(p.name), [Shown(p.discriminator)] + rest);
    PlainCons(Shown(p.discriminator), rest);
    assert PartitionContents(p) == [Quoted(p.name)] + ([Shown(p.discriminator)] + rest);
  }

  lemma {:induction false} PartitionsExactly(ps: seq<Partition>)
    requires forall p <- ps :: GoodPartition(p)
    ensures BackPartitions(ps) == NormPartitions(ps) <==> AllExact(PartitionsContents(ps))
    decreases ps
  {
    hide BackPartition, NormPartition, AllExact, GoodPartition, PartitionContents;
    NothingIsPlain();
    if ps != [] {
      PartitionExactly(ps[0]);
      PartitionsExactly(ps[1..]);
      PlainParts(PartitionContents(ps[0]), PartitionsContents(ps[1..]));
      assert BackPartitions(ps)[0] == BackPartition(ps[0]) && BackPartitions(ps)[1..] == BackPartitions(ps[1..]);
      assert NormPartitions(ps)[0] == NormPartition(ps[0]) && NormPartitions(ps)[1..] == NormPartitions(ps[1..]);
    }
  }

  /** The parts of the operators that have a selector in their braces. */
  lemma BodyExactly(s: Option<Selector>, guard: Expr, e: Expr, assigns: seq<Assignment>)
    requires GoodSource(s, guard) && GoodExpr(e) && GoodAssignments(assigns)
    ensures && BackSource(s) == NormSource(s) && ReadBack(guard) == Norm(guard) && ReadBack(e) == Norm(e)
            && BackAssignments(assigns) == NormAssignments(assigns)
            <==> AllExact(SourceContents(s) + [Shown(e)] + AssignmentContents(assigns))
  {
    hide ReadBack, Norm, AllExact, GoodExpr, GoodAssignments, ExactContent, BackAssignments, NormAssignments, SourceContents;
    SourceExactly(s, guard);
    ExprExactly(e);
    AssignmentsExactly(assigns);
    NothingIsPlain();
    PlainParts(SourceContents(s) + [Shown(e)], AssignmentContents(assigns));
    PlainParts(SourceContents(s), [Shown(e)]);
    PlainCons(Shown(e), []);
    assert [Shown(e)] + [] == [Shown(e)];
  }

  lemma OperatorExactly(op: Operator)
    requires GoodOperator(op)
    ensures BackOperator(op) == NormOperator(op) <==> AllExact(OperatorContents(op))
  {
    hide ReadBack, Norm, AllExact, GoodExpr, GoodAssignments, GoodSelector, GoodPartition, GoodLink, BackAssignments, NormAssignments,
      BackPartitions, NormPartitions, BackLink, NormLink, SourceContents, LinkContents, PartitionsContents, AssignmentContents,
      BackSource, NormSource;
    match op
    case SelectAndAssign(n) =>
      SelectorExactly(n.selector);
      AssignmentsExactly(n.assignments);
      PlainParts(SelectorContents(n.selector), AssignmentContents(n.assignments));
    case InsertEntity(n) => BodyExactly(n.source, n.guard, n.discriminator, n.assignments);
    case DeleteEntity(n) => SourceExactly(n.source, n.guard);
    case RelateEntities(n) => LinkExactly(n);
    case UnrelateEntities(n) => LinkExactly(n);
    case MergeEntities(n) => BodyExactly(n.source, n.guard, n.discriminator, n.assignments);
    case SplitEntity(n) =>
      SourceExactly(n.source, n.guard);
      PartitionsExactly(n.partitions);
      PlainParts(SourceContents(n.source), PartitionsContents(n.partitions));
  }

  lemma ItemContentsStep(items: seq<string>)
    ensures ItemContents(items) == if items == [] then [] else [Quoted(items[0])] + ItemContents(items[1..])
  {
  }

  lemma {:induction false} ItemsExactly(items: seq<string>)
    requires AsciiAll(items)
    ensures MangleAll(items) == items <==> AllExact(ItemContents(items))
    decreases items
  {
    hide Mangle, IsPlain, IsAscii, AllExact, ItemContents;
    NothingIsPlain();
    ItemContentsStep(items);
    if items != [] {
      MangleKeepsPlain(items[0]);
      ItemsExactly(items[1..]);
      PlainCons(Quoted(items[0]), ItemContents(items[1..]));
      assert MangleAll(items)[0] == Mangle(items[0]) && MangleAll(items)[1..] == MangleAll(items[1..]);
      assert items == [items[0]] + items[1..];
    }
  }

  lemma DeclExactly(d: Decl)
    requires GoodDecl(d)
    ensures BackDecl(d) == NormDecl(d) <==> AllExact(DeclContents(d))
  {
    hide AllExact, AsciiAll, MangleAll, ItemContents, GoodOperator, BackOperator, NormOperator, OperatorContents, IsName, GoodRequirement;
    NothingIsPlain();
    match d
    case RuleDecl(_, rs, ws, deps, op) =>
      ItemsExactly(rs);
      ItemsExactly(ws);
      ItemsExactly(deps);
      OperatorExactly(op);
      PlainParts(ItemContents(rs) + ItemContents(ws) + ItemContents(deps), OperatorContents(op));
      PlainParts(ItemContents(rs) + ItemContents(ws), ItemContents(deps));
      PlainParts(ItemContents(rs), ItemContents(ws));
    case ProfileDecl(_, _, implies, _) => ItemsExactly(implies);
    case SchemaDecl(_, rs) => RelationsArePlain(rs);
    case _ =>
  }

  lemma {:induction false} DeclsExactly(ds: seq<Decl>)
    requires forall d <- ds :: GoodDecl(d)
    ensures BackDecls(ds) == NormDecls(ds) <==> AllExact(DeclsContents(ds))
    decreases ds
  {
    hide GoodDecl, BackDecl, NormDecl, AllExact, DeclContents;
    NothingIsPlain();
    if ds != [] {
      DeclExactly(ds[0]);
      DeclsExactly(ds[1..]);
      PlainParts(DeclContents(ds[0]), DeclsContents(ds[1..]));
      assert BackDecls(ds)[0] == BackDecl(ds[0]) && BackDecls(ds)[1..] == BackDecls(ds[1..]);
      assert NormDecls(ds)[0] == NormDecl(ds[0]) && NormDecls(ds)[1..] == NormDecls(ds[1..]);
    }
  }
}
