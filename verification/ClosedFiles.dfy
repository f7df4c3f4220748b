/** A written node can be read if and only if nothing in it is left open. */
module ClosedFiles {
  import opened Tokens
  import opened Ast
  import opened ExprRoundTrip
  import opened FileTokens
  import opened Contents

  lemma ExprClosed(e: Expr)
    ensures GoodExpr(e) <==> WrittenExpr(e) && ClosedContent(Shown(e))
  {
    LexicalIsClosed(e);
  }

  lemma SelectorClosed(s: Selector)
    ensures GoodSelector(s) <==> WrittenSelector(s) && AllClosed(SelectorContents(s))
  {
    hide GoodExpr, WrittenExpr, ClosedContent;
    ExprClosed(s.where);
    ExprClosed(s.groupBy);
    ExprClosed(s.having);
    assert AllClosed(SelectorContents(s)) <==>
           ClosedContent(Shown(s.where)) && ClosedContent(Shown(s.groupBy)) && ClosedContent(Shown(s.having));
  }

  lemma {:induction false} AssignmentsClosed(assigns: seq<Assignment>)
    ensures GoodAssignments(assigns) <==> WrittenAssignments(assigns) && AllClosed(AssignmentContents(assigns))
    decreases assigns
  {
    hide Lexical, Writable, IsPath, ClosedContent, AllClosed;
    NothingIsPlain();
    if assigns != [] {
      var a := assigns[0];
      LexicalIsClosed(a.value);
      AssignmentsClosed(assigns[1..]);
      PlainCons(Shown(a.value), AssignmentContents(assigns[1..]));
      ShownIsClosed(a.value);
      assert forall x <- assigns :: x == a || x in assigns[1..];
      assert forall x <- assigns[1..] :: x in assigns;
    }
  }

  lemma ShownIsClosed(e: Expr)
    ensures ClosedContent(Shown(e)) <==> Closed(e)
  {
  }

  lemma SourceClosed(s: Option<Selector>, guard: Expr)
    ensures GoodSource(s, guard) <==> WrittenSource(s, guard) && AllClosed(SourceContents(s))
  {
    hide GoodSelector, WrittenSelector, AllClosed, SelectorContents;
    if s.Some? { SelectorClosed(s.value); }
  }

  lemma LinkClosed(n: LinkNode)
    ensures GoodLink(n) <==> WrittenLink(n) && AllClosed(LinkContents(n))
  {
    hide GoodSelector, WrittenSelector, GoodExpr, WrittenExpr, AllClosed, SelectorContents;
    if n.from.Some? && n.to.Some? {
      SelectorClosed(n.from.value);
      SelectorClosed(n.to.value);
      ExprClosed(n.guard);
      PlainParts(SourceContents(n.from) + SourceContents(n.to), [Shown(n.guard), Named(n.relation)]);
      PlainParts(SourceContents(n.from), SourceContents(n.to));
      TwoContents(Shown(n.guard), Named(n.relation));
    }
  }

  lemma PartitionClosed(p: Partition)
    ensures GoodPartition(p) <==> WrittenPartition(p) && AllClosed(PartitionContents(p))
  {
    hide GoodExpr, WrittenExpr, GoodAssignments, WrittenAssignments, AllClosed;
    ExprClosed(p.discriminator);
    AssignmentsClosed(p.assignments);
    PlainParts([Quoted(p.name), Shown(p.discriminator)], AssignmentContents(p.assignments));
    TwoContents(Quoted(p.name), Shown(p.discriminator));
  }

  lemma {:induction false} PartitionsClosed(ps: seq<Partition>)
    ensures (forall p <- ps :: GoodPartition(p)) <==> (forall p <- ps :: WrittenPartition(p)) && AllClosed(PartitionsContents(ps))
    decreases ps
  {
    hide GoodPartition, WrittenPartition, PartitionContents, AllClosed;
    NothingIsPlain();
    if ps != [] {
      PartitionClosed(ps[0]);
      PartitionsClosed(ps[1..]);
      PlainParts(PartitionContents(ps[0]), PartitionsContents(ps[1..]));
      assert forall p <- ps :: p == ps[0] || p in ps[1..];
      assert forall p <- ps[1..] :: p in ps;
    }
  }

  /** The parts of the operators that have a selector in their braces. */
  lemma BodyClosed(s: Option<Selector>, guard: Expr, e: Expr, assigns: seq<Assignment>)
    ensures GoodSource(s, guard) && GoodExpr(e) && GoodAssignments(assigns)
            <==> WrittenSource(s, guard) && WrittenExpr(e) && WrittenAssignments(assigns)
                 && AllClosed(SourceContents(s) + [Shown(e)] + AssignmentContents(assigns))
  {
    hide GoodSource, WrittenSource, GoodExpr, WrittenExpr, GoodAssignments, WrittenAssignments, AllClosed, SourceContents,
      AssignmentContents, ClosedContent;
    SourceClosed(s, guard);
    ExprClosed(e);
    AssignmentsClosed(assigns);
    NothingIsPlain();
    PlainParts(SourceContents(s) + [Shown(e)], AssignmentContents(assigns));
    PlainParts(SourceContents(s), [Shown(e)]);
    PlainCons(Shown(e), []);
    assert [Shown(e)] + [] == [Shown(e)];
  }

  lemma OperatorClosed(op: Operator)
    ensures GoodOperator(op) <==> WrittenOperator(op) && AllClosed(OperatorContents(op))
  {
    hide GoodSource, WrittenSource, GoodSelector, WrittenSelector, GoodExpr, WrittenExpr, GoodAssignments, WrittenAssignments,
      GoodPartition, WrittenPartition, GoodLink, WrittenLink, AllClosed, SourceContents, SelectorContents, AssignmentContents,
      PartitionsContents, LinkContents, IsName;
    match op
    case NilOperator =>
    case SelectAndAssign(n) =>
      SelectorClosed(n.selector);
      AssignmentsClosed(n.assignments);
      PlainParts(SelectorContents(n.selector), AssignmentContents(n.assignments));
    case InsertEntity(n) => BodyClosed(n.source, n.guard, n.discriminator, n.assignments);
    case DeleteEntity(n) => SourceClosed(n.source, n.guard);
    case RelateEntities(n) => LinkClosed(n);
    case UnrelateEntities(n) => LinkClosed(n);
    case MergeEntities(n) => BodyClosed(n.source, n.guard, n.discriminator, n.assignments);
    case SplitEntity(n) =>
      SourceClosed(n.source, n.guard);
      PartitionsClosed(n.partitions);
      PlainParts(SourceContents(n.source), PartitionsContents(n.partitions));
  }

  lemma RelationClosed(r: Relation)
    ensures GoodRelation(r) <==> WrittenRelation(r) && AllClosed([Named(r.fromKind), Named(r.toKind)])
  {
    hide IsName, AllClosed;
    TwoContents(Named(r.fromKind), Named(r.toKind));
  }

  lemma {:induction false} RelationsClosed(rs: seq<Relation>)
    ensures (forall r <- rs :: GoodRelation(r)) <==> (forall r <- rs :: WrittenRelation(r)) && AllClosed(RelationContents(rs))
    decreases rs
  {
    hide GoodRelation, WrittenRelation, AllClosed;
    NothingIsPlain();
    if rs != [] {
      RelationClosed(rs[0]);
      RelationsClosed(rs[1..]);
      PlainParts([Named(rs[0].fromKind), Named(rs[0].toKind)], RelationContents(rs[1..]));
      assert forall r <- rs :: r == rs[0] || r in rs[1..];
      assert forall r <- rs[1..] :: r in rs;
    }
  }

  lemma {:induction false} ItemsAreClosed(items: seq<string>)
    ensures AllClosed(ItemContents(items))
    decreases items
  {
    NothingIsPlain();
    if items != [] {
      ItemsAreClosed(items[1..]);
      PlainCons(Quoted(items[0]), ItemContents(items[1..]));
    }
  }

  lemma DeclClosed(d: Decl)
    ensures GoodDecl(d) <==> WrittenDecl(d) && AllClosed(DeclContents(d))
  {
    hide AllClosed, GoodOperator, WrittenOperator, OperatorContents, IsName, AsciiAll, GoodRequirement, GoodRelation, WrittenRelation,
      RelationContents, ItemContents, GoodEntity;
    NothingIsPlain();
    match d
    case NilDecl =>
    case SchemaDecl(_, rs) => RelationsClosed(rs);
    case RuleDecl(_, rs, ws, deps, op) =>
      ItemsAreClosed(rs);
      ItemsAreClosed(ws);
      ItemsAreClosed(deps);
      OperatorClosed(op);
      PlainParts(ItemContents(rs) + ItemContents(ws) + ItemContents(deps), OperatorContents(op));
      PlainParts(ItemContents(rs) + ItemContents(ws), ItemContents(deps));
      PlainParts(ItemContents(rs), ItemContents(ws));
    case CheckpointDecl(_, _) =>
    case ProfileDecl(_, _, implies, _) => ItemsAreClosed(implies);
  }

  lemma {:induction false} DeclsClosed(ds: seq<Decl>)
    ensures (forall d <- ds :: GoodDecl(d)) <==> (forall d <- ds :: WrittenDecl(d)) && AllClosed(DeclsContents(ds))
    decreases ds
  {
    hide GoodDecl, WrittenDecl, DeclContents, AllClosed;
    NothingIsPlain();
    if ds != [] {
      DeclClosed(ds[0]);
      DeclsClosed(ds[1..]);
      PlainParts(DeclContents(ds[0]), DeclsContents(ds[1..]));
      assert forall d <- ds :: d == ds[0] || d in ds[1..];
      assert forall d <- ds[1..] :: d in ds;
    }
  }

  /** A file can be read back if and only if it can be written and nothing in it is left open. */
  lemma FileClosed(f: File)
    ensures GoodFile(f) <==> WrittenFile(f) && AllClosed(FileContents(f))
  {
    hide GoodDecl, WrittenDecl, AllClosed;
    DeclsClosed(f.declarations);
  }
}
