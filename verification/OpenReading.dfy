/** The parser records an error in the tokens of every written node in which something is left open:
    it reads what stands before the first such place back, and forgets no error after it. */
module OpenReading {
  import opened Tokens
  import opened Ast
  import opened ExprParserSpec
  import opened FileParserSpec
  import opened FormatSpec
  import opened LexerFacts
  import opened ExprRoundTrip
  import opened OpenCalls
  import opened FileTokens
  import opened FileReading

  /** The run ends in a panic or with a new error. */
  predicate Fails<T>(o: Outcome<T>, errs: nat) {
    o.Done? ==> o.st.errs > errs
  }

  lemma OpenExpr(e: Expr, k: Toks, errs: nat)
    requires Writable(e) && !Lexical(e)
    ensures ParseExpression(State(ExprThen(e, k), errs), LOWEST).0.errs > errs
  {
    hide ParseExpression;
    LexicalIsClosed(e);
    OpenFails(e, k, LOWEST, errs);
  }

  lemma OpenClause(t: Token, keyword: Token, e: Expr, k: Toks, errs: nat)
    requires WrittenExpr(e) && !GoodExpr(e)
    ensures ParseClause(State(Cons(t, ClauseThen(keyword, e, k)), errs), keyword.kind).0.errs > errs
  {
    hide ParseExpression, ExprThen, Lexical, Writable;
    OpenExpr(e, k, errs);
  }

  lemma OpenSelector(t: Token, s: Selector, k: Toks, errs: nat)
    requires WrittenSelector(s) && !GoodSelector(s) && EndsSelector(k)
    ensures ParseSelector(State(Cons(t, SelectorThen(s, k)), errs)).0.errs > errs
  {
    hide ParseExpression, ExprThen, ReadBack, Lexical, Writable;
    var k3 := ClauseThen(Token(HAVING, "having"), s.having, k);
    var k2 := ClauseThen(Token(GROUP_BY, "group_by"), s.groupBy, k3);
    if !GoodExpr(s.where) {
      OpenClause(Id(s.kind), Token(WHERE, "where"), s.where, k2, errs);
    } else {
      var t1 := ReadsClause(Id(s.kind), Token(WHERE, "where"), s.where, k2, errs);
      if !GoodExpr(s.groupBy) {
        OpenClause(t1, Token(GROUP_BY, "group_by"), s.groupBy, k3, errs);
      } else {
        var t2 := ReadsClause(t1, Token(GROUP_BY, "group_by"), s.groupBy, k3, errs);
        OpenClause(t2, Token(HAVING, "having"), s.having, k, errs);
      }
    }
  }

  lemma {:induction false} OpenAssignments(assigns: seq<Assignment>, done: seq<Assignment>, k: Toks, errs: nat)
    requires WrittenAssignments(assigns) && !GoodAssignments(assigns)
    ensures ParseAssignmentList(State(AssignsThen(assigns, k), errs), done).0.errs > errs
    decreases assigns
  {
    hide ParseExpression, PathExpression, ExprThen, ReadBack, Lexical, Writable;
    var a := assigns[0];
    var last := |assigns| == 1;
    var k2 := if last then Cons(SEMICOLON_T, k) else Cons(COMMA_TOKEN, AssignsThen(assigns[1..], k));
    var t1 := ReadsPath(a.target, Cons(Token(ASSIGN, "="), ExprThen(a.value, k2)), errs);
    if !Lexical(a.value) {
      OpenExpr(a.value, k2, errs);
    } else {
      assert !last;
      var t2 := ReadsExpr(a.value, k2, errs);
      OpenAssignments(assigns[1..], done + [Assignment(a.target, ReadBack(a.value))], k, errs);
    }
  }

  lemma OpenTrailingSet(t: Token, assigns: seq<Assignment>, k: Toks, errs: nat)
    requires WrittenAssignments(assigns) && !GoodAssignments(assigns)
    ensures ParseTrailingSet(State(Cons(t, SetThen(assigns, k)), errs)).0.errs > errs
  {
    hide ParseAssignmentList, AssignsThen, Lexical, Writable, IsPath;
    OpenAssignments(assigns, [], k, errs);
  }

  lemma OpenColonExpr(t: Token, e: Expr, k: Toks, errs: nat)
    requires WrittenExpr(e) && !GoodExpr(e)
    ensures ParseColonExpression(State(Cons(t, Cons(COLON_T, ExprThen(e, k))), errs)).0.errs > errs
  {
    hide ParseExpression, ExprThen, Lexical, Writable;
    OpenExpr(e, k, errs);
  }

  // ----- operators -----

  lemma OpenSelect(n: SelectNode, k: Toks, errs: nat)
    requires WrittenOperator(SelectAndAssign(n)) && !GoodOperator(SelectAndAssign(n)) && EndsSelector(k) && k.Current().kind != SET
    ensures Fails(ParseSelectAndAssign(State(SourceThen(n.selector, SetThen(n.assignments, k)), errs)), errs)
  {
    hide ParseSelector, ParseTrailingSet, GoodSelector, WrittenSelector, GoodAssignments, WrittenAssignments;
    if !GoodSelector(n.selector) {
      OpenSelector(SELECT_W, n.selector, SetThen(n.assignments, k), errs);
    } else {
      var t1 := ReadsSelector(SELECT_W, n.selector, SetThen(n.assignments, k), errs);
      OpenTrailingSet(t1, n.assignments, k, errs);
    }
  }

  lemma OpenInsertBody(s: Selector, e: Expr, k: Toks, node: InsertNode, errs: nat)
    requires WrittenSelector(s) && WrittenExpr(e) && !(GoodSelector(s) && GoodExpr(e))
    ensures Fails(InsertBody(State(SourceThen(s, DiscriminatorThen(e, Cons(RBRACE_T, k))), errs), node), errs)
  {
    hide ParseSelector, ParseColonExpression, GoodSelector, WrittenSelector, GoodExpr, WrittenExpr, ExprThen;
    var k1 := DiscriminatorThen(e, Cons(RBRACE_T, k));
    if !GoodSelector(s) {
      OpenSelector(SELECT_W, s, k1, errs);
    } else {
      var t := ReadsSelector(SELECT_W, s, k1, errs);
      AfterSelector(t, k1, errs);
      NilIsGood();
      OpenColonExpr(Token(DISCRIMINATOR, "discriminator"), e, Cons(SEMICOLON_T, Cons(RBRACE_T, k)), errs);
    }
  }

  lemma NilIsGood()
    ensures GoodExpr(Nil)
  {
  }

  lemma OpenInsert(n: InsertNode, k: Toks, errs: nat)
    requires WrittenOperator(InsertEntity(n)) && !GoodOperator(InsertEntity(n)) && k.Current().kind != SET
    ensures Fails(ParseInsertEntity(State(InsertThen(n, k), errs)), errs)
  {
    hide InsertBody, ParseTrailingSet, SourceThen, DiscriminatorThen, GoodSelector, WrittenSelector, GoodExpr, WrittenExpr,
      GoodAssignments, WrittenAssignments, IsName;
    var node := InsertNode(n.target, None, Nil, Nil, []);
    if GoodSelector(n.source.value) && GoodExpr(n.discriminator) {
      ReadsInsertBody(n.source.value, n.discriminator, SetThen(n.assignments, k), node, errs);
      OpenTrailingSet(RBRACE_T, n.assignments, k, errs);
    } else {
      OpenInsertBody(n.source.value, n.discriminator, SetThen(n.assignments, k), node, errs);
    }
  }

  lemma OpenDelete(n: DeleteNode, k: Toks, errs: nat)
    requires WrittenOperator(DeleteEntity(n)) && !GoodOperator(DeleteEntity(n))
    ensures Fails(ParseDeleteEntity(State(DeleteThen(n, k), errs)), errs)
  {
    hide ParseSelector, GoodSelector, WrittenSelector;
    OpenSelector(SELECT_W, n.source.value, Cons(RBRACE_T, Cons(SEMICOLON_T, k)), errs);
  }

  lemma OpenFromPart(s: Selector, k: Toks, node: LinkNode, errs: nat)
    requires WrittenSelector(s) && !GoodSelector(s) && EndsSelector(k)
    ensures LinkBody(State(Cons(FROM_W, Cons(COLON_T, SourceThen(s, k))), errs), node).0.errs > errs
    ensures LinkBody(State(Cons(TO_W, Cons(COLON_T, SourceThen(s, k))), errs), node).0.errs > errs
  {
    hide ParseSelector, SelectorThen, GoodSelector, WrittenSelector;
    OpenSelector(SELECT_W, s, k, errs);
  }

  lemma OpenEndpoints(n: LinkNode, k: Toks, errs: nat)
    requires WrittenLink(n) && !(GoodSelector(n.from.value) && GoodSelector(n.to.value) && GoodExpr(n.guard))
    ensures LinkBody(State(EndpointsThen(n, Cons(RBRACE_T, k)), errs), LinkNode(n.relation, None, None, Nil)).0.errs > errs
  {
    hide LinkBody, SelectorThen, GoodSelector, WrittenSelector, GoodExpr, WrittenExpr, ExprThen, ReadBack, BackSelector;
    var k2 := SettingThen(Token(GUARD, "guard"), n.guard, Cons(RBRACE_T, k));
    var k1 := Cons(TO_W, Cons(COLON_T, SourceThen(n.to.value, k2)));
    var node := LinkNode(n.relation, None, None, Nil);
    if !GoodSelector(n.from.value) {
      OpenFromPart(n.from.value, k1, node, errs);
    } else {
      var node1 := node.(from := Some(BackSelector(n.from.value)));
      ReadsFromPart(n.from.value, k1, node, errs);
      if !GoodSelector(n.to.value) {
        OpenFromPart(n.to.value, k2, node1, errs);
      } else {
        ReadsToPart(n.to.value, k2, node1, errs);
        NilIsGood();
        OpenGuard(n.guard, k, node1.(to := Some(BackSelector(n.to.value))), errs);
      }
    }
  }

  lemma OpenGuard(e: Expr, k: Toks, node: LinkNode, errs: nat)
    requires WrittenExpr(e) && !GoodExpr(e)
    ensures LinkBody(State(SettingThen(Token(GUARD, "guard"), e, Cons(RBRACE_T, k)), errs), node).0.errs > errs
  {
    hide ParseColonExpression, GoodExpr, WrittenExpr, ExprThen;
    NilIsGood();
    OpenColonExpr(Token(GUARD, "guard"), e, Cons(SEMICOLON_T, Cons(RBRACE_T, k)), errs);
  }

  lemma WordsAreNoStrings(w: string)
    ensures LookupIdent(w) != STRING
  {
  }

  /** A relation that lacks its name, or whose name is a keyword. */
  lemma OpenLinkHeader(n: LinkNode, keyword: Token, word: Token, k: Toks, errs: nat)
    requires WrittenLink(n) && !IsName(n.relation)
    ensures ParseLinkHeader(State(LinkThen(n, keyword, word, k), errs), word.kind).0.errs > errs
  {
    hide EndpointsThen, WrittenSelector, WrittenExpr, LookupIdent, IsWord;
    WordsAreNoStrings(n.relation);
  }

  lemma OpenLink(n: LinkNode, keyword: Token, word: Token, k: Toks, errs: nat)
    requires WrittenLink(n) && !GoodLink(n)
    ensures ParseLink(State(LinkThen(n, keyword, word, k), errs), word.kind).0.errs > errs
  {
    hide LinkBody, GoodSelector, WrittenSelector, GoodExpr, WrittenExpr, LookupIdent;
    if !IsName(n.relation) {
      hide ParseLinkHeader, LinkThen;
      OpenLinkHeader(n, keyword, word, k, errs);
    } else {
      var body := EndpointsThen(n, Cons(RBRACE_T, Cons(SEMICOLON_T, k)));
      hide EndpointsThen;
      assert ParseLinkHeader(State(LinkThen(n, keyword, word, k), errs), word.kind) == (State(body, errs), Some(n.relation));
      OpenEndpoints(n, Cons(SEMICOLON_T, k), errs);
    }
  }

  lemma OpenMergeSource(s: Selector, k: Toks, node: MergeNode, errs: nat)
    requires WrittenSelector(s) && !GoodSelector(s) && EndsSelector(k)
    ensures Fails(MergeBody(State(SourceThen(s, k), errs), node), errs)
  {
    hide ParseSelector, SelectorThen, GoodSelector, WrittenSelector;
    OpenSelector(SELECT_W, s, k, errs);
  }

  lemma OpenMergeDiscriminator(e: Expr, k: Toks, node: MergeNode, errs: nat)
    requires WrittenExpr(e) && !GoodExpr(e)
    ensures Fails(MergeBody(State(DiscriminatorThen(e, k), errs), node), errs)
  {
    hide ParseColonExpression, GoodExpr, WrittenExpr, ExprThen;
    NilIsGood();
    OpenColonExpr(Token(DISCRIMINATOR, "discriminator"), e, Cons(SEMICOLON_T, k), errs);
  }

  lemma OpenMergeBody(n: MergeNode, k: Toks, errs: nat)
    requires WrittenOperator(MergeEntities(n)) && !(GoodSelector(n.source.value) && GoodExpr(n.discriminator))
    ensures Fails(MergeBody(State(SourceThen(n.source.value, DiscriminatorThen(n.discriminator, MergeFlagsThen(n, k))), errs),
                            MergeNode(n.target, None, Nil, Nil, false, false, [])), errs)
  {
    hide MergeBody, SelectorThen, ExprThen, GoodSelector, WrittenSelector, GoodExpr, WrittenExpr, ReadBack, BackSelector;
    var k2 := MergeFlagsThen(n, k);
    var k1 := DiscriminatorThen(n.discriminator, k2);
    var node := MergeNode(n.target, None, Nil, Nil, false, false, []);
    var s := n.source.value;
    if !GoodSelector(s) {
      OpenMergeSource(s, k1, node, errs);
    } else {
      ReadsMergeSource(s, k1, node, errs);
      OpenMergeDiscriminator(n.discriminator, k2, node.(source := Some(BackSelector(s)), guard := ReadBack(s.having)), errs);
    }
  }

  lemma OpenMerge(n: MergeNode, k: Toks, errs: nat)
    requires WrittenOperator(MergeEntities(n)) && !GoodOperator(MergeEntities(n)) && k.Current().kind != SET
    ensures Fails(ParseMergeEntities(State(MergeThen(n, k), errs)), errs)
  {
    hide ParseIntoHeader, MergeBody, ParseTrailingSet, SourceThen, DiscriminatorThen, FlagThen, GoodSelector, WrittenSelector,
      GoodExpr, WrittenExpr, GoodAssignments, WrittenAssignments, ReadBack, BackSource;
    var k1 := SetThen(n.assignments, k);
    ReadsInto(Token(MERGE, "merge"), n.source.value.kind, n.target,
              SourceThen(n.source.value, DiscriminatorThen(n.discriminator, MergeFlagsThen(n, k1))), errs);
    if GoodSelector(n.source.value) && GoodExpr(n.discriminator) {
      MergeBodyReads(n, k1, errs);
      OpenTrailingSet(RBRACE_T, n.assignments, k, errs);
    } else {
      OpenMergeBody(n, k1, errs);
    }
  }

  /** The body of a merge does not depend on the assignments behind it. */
  lemma MergeBodyReads(n: MergeNode, k: Toks, errs: nat)
    requires WrittenOperator(MergeEntities(n)) && GoodSelector(n.source.value) && GoodExpr(n.discriminator)
    ensures var o := MergeBody(State(SourceThen(n.source.value, DiscriminatorThen(n.discriminator, MergeFlagsThen(n, k))), errs),
                               MergeNode(n.target, None, Nil, Nil, false, false, []));
            o.Done? && o.value.Some? && o.st == State(Cons(RBRACE_T, k), errs)
  {
    hide MergeBody, SourceThen, DiscriminatorThen, FlagThen, GoodSelector, WrittenSelector, GoodExpr, WrittenExpr, ReadBack, BackSource;
    ReadsMergeBody(n.(assignments := []), k, errs);
  }

  lemma OpenPartition(p: Partition, k: Toks, errs: nat)
    requires WrittenPartition(p) && !GoodPartition(p)
    ensures ParsePartition(State(PartitionThen(p, k), errs)).0.errs > errs
  {
    hide ParseColonExpression, ParseAssignments, GoodExpr, WrittenExpr, GoodAssignments, WrittenAssignments, ExprThen, ReadBack, AssignsThen, IsAscii;
    var k1 := SetThen(p.assignments, Cons(RBRACE_T, k));
    NilIsGood();
    if !GoodExpr(p.discriminator) {
      OpenColonExpr(Token(DISCRIMINATOR, "discriminator"), p.discriminator, Cons(SEMICOLON_T, k1), errs);
    } else {
      var part := Partition(Mangle(p.name), Nil, []);
      if p.discriminator != Nil {
        var t := ReadsColonSetting(p.discriminator, k1, errs);
        AfterSetting(t, k1, errs);
        part := part.(discriminator := ReadBack(p.discriminator));
      }
      OpenSet(p.assignments, Cons(RBRACE_T, k), errs);
      assert PartitionBody(State(k1, errs), part).0.errs > errs;
    }
  }

  lemma ReadsColonSetting(e: Expr, k: Toks, errs: nat) returns (t: Token)
    requires GoodExpr(e) && e != Nil
    ensures ParseColonExpression(State(Cons(Token(DISCRIMINATOR, "discriminator"), Cons(COLON_T, ExprThen(e, Cons(SEMICOLON_T, k)))), errs))
         == (State(Cons(t, Cons(SEMICOLON_T, k)), errs), Some(ReadBack(e)))
  {
    t := ReadsColonExpr(Token(DISCRIMINATOR, "discriminator"), e, Cons(SEMICOLON_T, k), errs);
  }

  lemma OpenSet(assigns: seq<Assignment>, k: Toks, errs: nat)
    requires WrittenAssignments(assigns) && !GoodAssignments(assigns)
    ensures assigns != [] && ParseAssignments(State(SetThen(assigns, k), errs)).0.errs > errs
  {
    hide ParseAssignmentList, AssignsThen, Lexical, Writable, IsPath;
    OpenAssignments(assigns, [], k, errs);
  }

  lemma {:induction false} OpenPartitions(ps: seq<Partition>, k: Toks, node: SplitNode, errs: nat)
    requires (forall p <- ps :: WrittenPartition(p)) && !(forall p <- ps :: GoodPartition(p))
    ensures Fails(SplitBody(State(PartitionsThen(ps, Cons(RBRACE_T, k)), errs), node), errs)
    decreases ps
  {
    hide GoodPartition, WrittenPartition, BackPartition, SplitBody, PartitionThen;
    var k1 := PartitionsThen(ps[1..], Cons(RBRACE_T, k));
    PartitionsHead(ps[1..], k);
    if GoodPartition(ps[0]) {
      ReadsOnePartition(ps[0], k1, node, errs);
      OpenPartitions(ps[1..], k, node.(partitions := node.partitions + [BackPartition(ps[0])]), errs);
    } else {
      OpenOnePartition(ps[0], k1, node, errs);
    }
  }

  lemma OpenOnePartition(p: Partition, k: Toks, node: SplitNode, errs: nat)
    requires WrittenPartition(p) && !GoodPartition(p)
    ensures Fails(SplitBody(State(PartitionThen(p, k), errs), node), errs)
  {
    hide ParsePartition, GoodPartition, WrittenPartition, DiscriminatorThen, SetThen;
    OpenPartition(p, k, errs);
  }

  lemma OpenSplitSource(s: Selector, k: Toks, node: SplitNode, errs: nat)
    requires WrittenSelector(s) && !GoodSelector(s) && EndsSelector(k)
    ensures Fails(SplitBody(State(SourceThen(s, k), errs), node), errs)
  {
    hide ParseSelector, SelectorThen, GoodSelector, WrittenSelector;
    OpenSelector(SELECT_W, s, k, errs);
  }

  lemma OpenSplit(n: SplitNode, k: Toks, errs: nat)
    requires WrittenOperator(SplitEntity(n)) && !GoodOperator(SplitEntity(n))
    ensures Fails(ParseSplitEntity(State(SplitThen(n, k), errs)), errs)
  {
    hide ParseIntoHeader, SplitBody, SelectorThen, PartitionsThen, GoodSelector, WrittenSelector, GoodPartition, WrittenPartition,
      ReadBack, BackSelector, IsName;
    var k2 := PartitionsThen(n.partitions, Cons(RBRACE_T, Cons(SEMICOLON_T, k)));
    var node := SplitNode(n.target, None, Nil, false, []);
    var s := n.source.value;
    var k1 := FlagThen(Token(RETAIN_SOURCE, "retain_source"), n.retainSource, k2);
    ReadsInto(Token(SPLIT, "split"), s.kind, n.target, SourceThen(s, k1), errs);
    if !GoodSelector(s) {
      OpenSplitSource(s, k1, node, errs);
    } else {
      PartitionsHead(n.partitions, Cons(SEMICOLON_T, k));
      ReadsSplitBody(s, n.retainSource, k2, node, errs);
      OpenPartitions(n.partitions, Cons(SEMICOLON_T, k),
                     node.(source := Some(BackSelector(s)), guard := ReadBack(s.having), retainSource := n.retainSource), errs);
    }
  }

  lemma OpenOperator(op: Operator, k: Toks, errs: nat)
    requires WrittenOperator(op) && !GoodOperator(op) && HasSelectors(op) && k.Current().kind == RBRACE
    ensures Fails(ParseOperator(State(OperatorThen(op, k), errs)), errs)
  {
    hide ParseSelectAndAssign, ParseInsertEntity, ParseDeleteEntity, ParseLink, ParseMergeEntities, ParseSplitEntity,
      GoodSelector, WrittenSelector, GoodExpr, WrittenExpr, GoodAssignments, WrittenAssignments, GoodPartition, WrittenPartition,
      GoodLink, WrittenLink, SelectorThen, SetThen, DiscriminatorThen, PartitionsThen, EndpointsThen, NameThen, IsName;
    match op
    case SelectAndAssign(n) => OpenSelect(n, k, errs);
    case InsertEntity(n) => OpenInsert(n, k, errs);
    case DeleteEntity(n) => OpenDelete(n, k, errs);
    case RelateEntities(n) => LinkHasEnds(n); OpenLink(n, Token(RELATE, "relate"), TO_W, k, errs);
    case UnrelateEntities(n) => LinkHasEnds(n); OpenLink(n, Token(UNRELATE, "unrelate"), FROM_W, k, errs);
    case MergeEntities(n) => OpenMerge(n, k, errs);
    case SplitEntity(n) => OpenSplit(n, k, errs);
  }

  lemma LinkHasEnds(n: LinkNode)
    requires WrittenLink(n)
    ensures n.from.Some? && n.to.Some?
  {
  }

  // ----- declarations -----

  lemma OpenRule(d: Decl, k: Toks, errs: nat)
    requires WrittenDecl(d) && !GoodDecl(d) && d.RuleDecl? && Formattable(d)
    ensures Fails(ParseRule(State(DeclThen(d, k), errs)), errs)
  {
    hide ParseOperator, ParseAnnotations, GoodOperator, WrittenOperator, OperatorThen, MangleAll, AsciiAll, IsName, IsNote;
    var notes := NotesOf(d.declaredReads, d.declaredWrites, d.dependsOn);
    NotesRebuild(d.declaredReads, d.declaredWrites, d.dependsOn);
    var k2 := Cons(RBRACE_T, k);
    var t1 := ReadsRuleNotes(d.id, notes, Cons(LBRACE_T, OperatorThen(d.operator, k2)), errs);
    OpenOperator(d.operator, k2, errs);
  }

  /** A relation that lacks an end. */
  lemma OpenRelation(r: Relation, k: Toks, errs: nat)
    requires WrittenRelation(r) && !GoodRelation(r)
    ensures ParseRelation(State(RelationThen(r, k), errs)).0.errs > errs
  {
    hide LookupIdent, IsWord;
    var k2 := Cons(RBRACE_T, k);
    var k1 := EndpointThen(TO_W, r.toKind, k2);
    var rel := Relation(r.kind, "", "");
    if r.fromKind == "" {
      assert ParseEndpoints(State(EndpointThen(FROM_W, "", k1), errs), rel).0.errs > errs;
    } else {
      assert ParseEndpoints(State(k1, errs), rel.(fromKind := r.fromKind)).0.errs > errs;
      assert ParseEndpoints(State(EndpointThen(FROM_W, r.fromKind, k1), errs), rel)
          == ParseEndpoints(State(k1, errs), rel.(fromKind := r.fromKind));
    }
  }

  lemma {:induction false} OpenRelations(es: seq<Entity>, rs: seq<Relation>, done: seq<Relation>, k: Toks, errs: nat)
    requires (forall r <- rs :: WrittenRelation(r)) && !(forall r <- rs :: GoodRelation(r))
    ensures ParseSchemaBody(State(RelationsThen(rs, Cons(RBRACE_T, k)), errs), es, done).0.errs > errs
    decreases rs
  {
    hide ParseRelation, GoodRelation, WrittenRelation, EndpointThen;
    var k1 := RelationsThen(rs[1..], Cons(RBRACE_T, k));
    if GoodRelation(rs[0]) {
      ReadsRelation(rs[0], k1, errs);
      OpenRelations(es, rs[1..], done + [rs[0]], k, errs);
    } else {
      OpenRelation(rs[0], k1, errs);
    }
  }

  lemma {:induction false} OpenEntities(es: seq<Entity>, done: seq<Entity>, rs: seq<Relation>, k: Toks, errs: nat)
    requires (forall r <- rs :: WrittenRelation(r)) && !(forall r <- rs :: GoodRelation(r))
    ensures ParseSchemaBody(State(EntitiesThen(es, RelationsThen(rs, Cons(RBRACE_T, k))), errs), done, []).0.errs > errs
    decreases es
  {
    hide ParseEntity, ParseRelation, GoodRelation, WrittenRelation, FieldsThen, RelationThen;
    if es == [] {
      OpenRelations(done, rs, [], k, errs);
    } else {
      ReadsEntity(es[0], EntitiesThen(es[1..], RelationsThen(rs, Cons(RBRACE_T, k))), errs);
      OpenEntities(es[1..], done + [es[0]], rs, k, errs);
    }
  }

  lemma OpenDecl(d: Decl, k: Toks, errs: nat)
    requires WrittenDecl(d) && !GoodDecl(d) && Formattable(d)
    ensures Fails(ParseDeclaration(State(DeclThen(d, k), errs)), errs)
  {
    hide ParseSchemaBody, ParseRule, ParseCheckpoint, ParseProfile, ParseEntityAlone, ParseRelationAlone, GoodRelation, WrittenRelation,
      GoodOperator, WrittenOperator, GoodEntity, GoodRequirement, IsName, AsciiAll, OperatorThen, EntitiesThen, RelationsThen;
    match d
    case SchemaDecl(es, rs) => OpenEntities(es, [], rs, k, errs);
    case RuleDecl(_, _, _, _, _) => OpenRule(d, k, errs);
    case _ =>
  }

  lemma WrittenHead(ds: seq<Decl>)
    requires (forall d <- ds :: WrittenDecl(d)) && FormattableAll(ds)
    ensures EndsDecl(DeclsThen(ds, End))
    ensures ds != [] ==> !State(DeclsThen(ds, End), 0).CurIs(EOF)
  {
  }

  /** The first declaration that cannot be read leaves an error behind. */
  lemma {:induction false} OpenDecls(ds: seq<Decl>, done: seq<Decl>, errs: nat)
    requires (forall d <- ds :: WrittenDecl(d)) && FormattableAll(ds) && !(forall d <- ds :: GoodDecl(d))
    ensures Fails(ParseDeclarations(State(DeclsThen(ds, End), errs), done), errs)
    decreases ds
  {
    hide ParseDeclaration, GoodDecl, WrittenDecl, BackDecl, DeclThen;
    var k := DeclsThen(ds[1..], End);
    WrittenHead(ds);
    WrittenHead(ds[1..]);
    if GoodDecl(ds[0]) {
      var t := ReadsDecl(ds[0], k, errs);
      OpenDecls(ds[1..], done + [BackDecl(ds[0])], errs);
    } else {
      OpenDecl(ds[0], k, errs);
    }
  }
}
