/** The parser reads the tokens of well-formed declarations back as their normal forms. */
module FileReading {
  import opened Tokens
  import opened Ast
  import opened ExprParserSpec
  import opened FileParserSpec
  import opened FormatSpec
  import opened LexerFacts
  import opened Pratt
  import opened ExprRoundTrip
  import opened FileTokens

  /** Nothing that may follow a printed expression extends it. */
  predicate Ends(k: Toks) {
    Precedence(k.Current().kind) == LOWEST
  }

  lemma ReadsExpr(e: Expr, k: Toks, errs: nat) returns (t: Token)
    requires Lexical(e) && Ends(k)
    ensures ParseExpression(State(ExprThen(e, k), errs), LOWEST) == (State(Cons(t, k), errs), ReadBack(e))
  {
    CstOfLegal(e);
    Reads(CstOf(e), k, LOWEST, errs);
    t := Last(CstOf(e));
  }

  lemma ReadsPath(p: string, k: Toks, errs: nat) returns (t: Token)
    requires IsPath(p) && k.Current().kind != DOT
    ensures PathExpression(State(PathThen(p, k), errs)) == (State(Cons(t, k), errs), Some(p))
  {
    var ts := PathTokens(p);
    PathTokensLegal(p);
    assert IsPathToken(ts[0].kind);
    PathTailParses(ts[0], ts[1..], ts[0].literal, k, errs);
    t := if ts[1..] == [] then ts[0] else ts[1..][|ts[1..]| - 1];
  }

  lemma ReadsClause(t: Token, keyword: Token, e: Expr, k: Toks, errs: nat) returns (t': Token)
    requires GoodExpr(e) && Ends(k) && (e == Nil ==> k.Current().kind != keyword.kind)
    ensures ParseClause(State(Cons(t, ClauseThen(keyword, e, k)), errs), keyword.kind) == (State(Cons(t', k), errs), ReadBack(e))
  {
    if e == Nil {
      t' := t;
    } else {
      t' := ReadsExpr(e, k, errs);
    }
  }

  /** What may follow a selector. */
  predicate EndsSelector(k: Toks) {
    Ends(k) && k.Current().kind != WHERE && k.Current().kind != GROUP_BY && k.Current().kind != HAVING
  }

  lemma ReadsSelector(t: Token, s: Selector, k: Toks, errs: nat) returns (t': Token)
    requires GoodSelector(s) && EndsSelector(k)
    ensures ParseSelector(State(Cons(t, SelectorThen(s, k)), errs)) == (State(Cons(t', k), errs), Some(BackSelector(s)))
  {
    hide ParseExpression, ExprThen, ReadBack, Lexical;
    var k3 := ClauseThen(Token(HAVING, "having"), s.having, k);
    var k2 := ClauseThen(Token(GROUP_BY, "group_by"), s.groupBy, k3);
    var t1 := ReadsClause(Id(s.kind), Token(WHERE, "where"), s.where, k2, errs);
    var t2 := ReadsClause(t1, Token(GROUP_BY, "group_by"), s.groupBy, k3, errs);
    t' := ReadsClause(t2, Token(HAVING, "having"), s.having, k, errs);
  }

  lemma {:induction false} ReadsAssignments(assigns: seq<Assignment>, done: seq<Assignment>, k: Toks, errs: nat)
    requires assigns != [] && GoodAssignments(assigns)
    ensures ParseAssignmentList(State(AssignsThen(assigns, k), errs), done)
         == (State(Cons(SEMICOLON_T, k), errs), done + BackAssignments(assigns))
    decreases assigns
  {
    hide ParseExpression, PathExpression, ExprThen, ReadBack, Lexical;
    var a := assigns[0];
    var a' := Assignment(a.target, ReadBack(a.value));
    var last := |assigns| == 1;
    var k2 := if last then Cons(SEMICOLON_T, k) else Cons(COMMA_TOKEN, AssignsThen(assigns[1..], k));
    var t1 := ReadsPath(a.target, Cons(Token(ASSIGN, "="), ExprThen(a.value, k2)), errs);
    var t2 := ReadsExpr(a.value, k2, errs);
    if last {
      assert BackAssignments(assigns) == [a'];
    } else {
      ReadsAssignments(assigns[1..], done + [a'], k, errs);
      assert done + [a'] + BackAssignments(assigns[1..]) == done + BackAssignments(assigns);
    }
  }

  lemma ReadsTrailingSet(t: Token, assigns: seq<Assignment>, k: Toks, errs: nat) returns (t': Token)
    requires GoodAssignments(assigns) && k.Current().kind != SET
    ensures ParseTrailingSet(State(Cons(t, SetThen(assigns, k)), errs)) == (State(Cons(t', k), errs), BackAssignments(assigns))
    ensures t' == if assigns == [] then t else SEMICOLON_T
  {
    t' := t;
    if assigns != [] {
      ReadsAssignments(assigns, [], k, errs);
      assert [] + BackAssignments(assigns) == BackAssignments(assigns);
      t' := SEMICOLON_T;
    }
  }

  lemma ReadsColonExpr(t: Token, e: Expr, k: Toks, errs: nat) returns (t': Token)
    requires Lexical(e) && Ends(k)
    ensures ParseColonExpression(State(Cons(t, Cons(COLON_T, ExprThen(e, k))), errs)) == (State(Cons(t', k), errs), Some(ReadBack(e)))
  {
    t' := ReadsExpr(e, k, errs);
  }

  // ----- operators -----

  /** A braced body goes on after a selector, whose last token no delimiter follows. */
  lemma AfterSelector(t: Token, k: Toks, errs: nat)
    requires k.Current().kind != SEMICOLON && k.Current().kind != COMMA
    ensures SkipDelimiter(State(Cons(t, k), errs)).Next() == State(k, errs)
  {
  }

  lemma AfterSetting(t: Token, k: Toks, errs: nat)
    ensures SkipDelimiter(State(Cons(t, Cons(SEMICOLON_T, k)), errs)).Next() == State(k, errs)
  {
  }

  lemma ReadsInsertDiscriminator(e: Expr, k: Toks, node: InsertNode, errs: nat)
    requires GoodExpr(e) && node.discriminator == Nil
    ensures InsertBody(State(DiscriminatorThen(e, Cons(RBRACE_T, k)), errs), node)
         == Done(State(Cons(RBRACE_T, k), errs), Some(node.(discriminator := ReadBack(e))))
  {
    if e != Nil {
      var t := ReadsColonExpr(Token(DISCRIMINATOR, "discriminator"), e, Cons(SEMICOLON_T, Cons(RBRACE_T, k)), errs);
      AfterSetting(t, Cons(RBRACE_T, k), errs);
    }
  }

  lemma ReadsInsertBody(s: Selector, e: Expr, k: Toks, node: InsertNode, errs: nat)
    requires GoodSelector(s) && GoodExpr(e) && node.discriminator == Nil
    ensures InsertBody(State(SourceThen(s, DiscriminatorThen(e, Cons(RBRACE_T, k))), errs), node)
         == Done(State(Cons(RBRACE_T, k), errs),
                 Some(node.(source := Some(BackSelector(s)), guard := ReadBack(s.having), discriminator := ReadBack(e))))
  {
    hide ParseExpression, ExprThen, Lexical, ReadBack;
    var k1 := DiscriminatorThen(e, Cons(RBRACE_T, k));
    var t := ReadsSelector(SELECT_W, s, k1, errs);
    AfterSelector(t, k1, errs);
    ReadsInsertDiscriminator(e, k, node.(source := Some(BackSelector(s)), guard := ReadBack(s.having)), errs);
  }

  lemma ReadsInsert(n: InsertNode, k: Toks, errs: nat) returns (t: Token)
    requires GoodOperator(InsertEntity(n)) && k.Current().kind != SET
    ensures ParseInsertEntity(State(InsertThen(n, k), errs))
         == Done(State(Cons(t, k), errs), Some(BackOperator(InsertEntity(n)).insert))
  {
    var node := InsertNode(n.target, None, Nil, Nil, []);
    ReadsInsertBody(n.source.value, n.discriminator, SetThen(n.assignments, k), node, errs);
    t := ReadsTrailingSet(RBRACE_T, n.assignments, k, errs);
  }

  lemma ReadsDelete(n: DeleteNode, k: Toks, errs: nat)
    requires GoodOperator(DeleteEntity(n))
    ensures ParseDeleteEntity(State(DeleteThen(n, k), errs))
         == Done(State(Cons(RBRACE_T, Cons(SEMICOLON_T, k)), errs), Some(BackOperator(DeleteEntity(n)).delete))
  {
    var k1 := Cons(RBRACE_T, Cons(SEMICOLON_T, k));
    var t := ReadsSelector(SELECT_W, n.source.value, k1, errs);
    AfterSelector(t, k1, errs);
    var node := DeleteNode(BackSource(n.source), ReadBack(n.guard));
    assert DeleteBody(State(k1, errs), node) == Done(State(k1, errs), Some(node));
  }

  lemma ReadsGuard(e: Expr, k: Toks, node: LinkNode, errs: nat)
    requires GoodExpr(e) && node.guard == Nil
    ensures LinkBody(State(SettingThen(Token(GUARD, "guard"), e, Cons(RBRACE_T, k)), errs), node)
         == (State(Cons(RBRACE_T, k), errs), Some(node.(guard := ReadBack(e))))
  {
    if e != Nil {
      var t := ReadsColonExpr(Token(GUARD, "guard"), e, Cons(SEMICOLON_T, Cons(RBRACE_T, k)), errs);
      AfterSetting(t, Cons(RBRACE_T, k), errs);
    }
  }

  lemma ReadsEndpoint(word: Token, s: Selector, k: Toks, errs: nat) returns (t: Token)
    requires GoodSelector(s) && EndsSelector(k)
    ensures ParseColonSelect(State(Cons(word, Cons(COLON_T, SourceThen(s, k))), errs))
         == (State(Cons(t, k), errs), Some(Some(BackSelector(s))))
  {
    t := ReadsSelector(SELECT_W, s, k, errs);
  }

  lemma ReadsFromPart(s: Selector, k: Toks, node: LinkNode, errs: nat)
    requires GoodSelector(s) && k.Current().kind == TO
    ensures LinkBody(State(Cons(FROM_W, Cons(COLON_T, SourceThen(s, k))), errs), node)
         == LinkBody(State(k, errs), node.(from := Some(BackSelector(s))))
  {
    hide ParseExpression, ExprThen, Lexical, ReadBack;
    var t := ReadsEndpoint(FROM_W, s, k, errs);
    AfterSelector(t, k, errs);
  }

  lemma ReadsToPart(s: Selector, k: Toks, node: LinkNode, errs: nat)
    requires GoodSelector(s) && (k.Current().kind == GUARD || k.Current().kind == RBRACE)
    ensures LinkBody(State(Cons(TO_W, Cons(COLON_T, SourceThen(s, k))), errs), node)
         == LinkBody(State(k, errs), node.(to := Some(BackSelector(s))))
  {
    hide ParseExpression, ExprThen, Lexical, ReadBack;
    var t := ReadsEndpoint(TO_W, s, k, errs);
    AfterSelector(t, k, errs);
  }

  lemma ReadsEndpoints(n: LinkNode, k: Toks, errs: nat)
    requires GoodLink(n)
    ensures LinkBody(State(EndpointsThen(n, Cons(RBRACE_T, k)), errs), LinkNode(n.relation, None, None, Nil))
         == (State(Cons(RBRACE_T, k), errs), Some(BackLink(n)))
  {
    var k2 := SettingThen(Token(GUARD, "guard"), n.guard, Cons(RBRACE_T, k));
    var k1 := Cons(TO_W, Cons(COLON_T, SourceThen(n.to.value, k2)));
    var node := LinkNode(n.relation, None, None, Nil);
    var node1 := LinkNode(n.relation, BackSource(n.from), None, Nil);
    ReadsFromPart(n.from.value, k1, node, errs);
    ReadsToPart(n.to.value, k2, node1, errs);
    ReadsGuard(n.guard, k, node1.(to := BackSource(n.to)), errs);
  }

  lemma ReadsLink(n: LinkNode, keyword: Token, word: Token, k: Toks, errs: nat)
    requires GoodLink(n)
    ensures ParseLink(State(LinkThen(n, keyword, word, k), errs), word.kind)
         == (State(Cons(RBRACE_T, Cons(SEMICOLON_T, k)), errs), Some(BackLink(n)))
  {
    var body := EndpointsThen(n, Cons(RBRACE_T, Cons(SEMICOLON_T, k)));
    assert ParseLinkHeader(State(LinkThen(n, keyword, word, k), errs), word.kind) == (State(body, errs), Some(n.relation));
    ReadsEndpoints(n, Cons(SEMICOLON_T, k), errs);
  }

  lemma ReadsFlag(keyword: Token, b: bool, k: Toks, errs: nat)
    ensures ParseColonBool(State(FlagThen(keyword, b, k), errs)) == (State(Cons(BoolToken(b), Cons(SEMICOLON_T, k)), errs), Some(b))
  {
  }

  lemma ReadsMergeFlags(retain: bool, reanchor: bool, k: Toks, node: MergeNode, errs: nat)
    ensures MergeBody(State(FlagThen(Token(RETAIN_SOURCES, "retain_sources"), retain,
                              FlagThen(Token(REANCHOR_RELATIONS, "reanchor_relations"), reanchor, Cons(RBRACE_T, k))), errs), node)
         == Done(State(Cons(RBRACE_T, k), errs), Some(node.(retainSources := retain, reanchorRelations := reanchor)))
  {
    var k2 := Cons(RBRACE_T, k);
    var k1 := FlagThen(Token(REANCHOR_RELATIONS, "reanchor_relations"), reanchor, k2);
    ReadsFlag(Token(RETAIN_SOURCES, "retain_sources"), retain, k1, errs);
    AfterSetting(BoolToken(retain), k1, errs);
    ReadsFlag(Token(REANCHOR_RELATIONS, "reanchor_relations"), reanchor, k2, errs);
    AfterSetting(BoolToken(reanchor), k2, errs);
    var node1 := node.(retainSources := retain);
    assert MergeBody(State(k1, errs), node1) == MergeBody(State(k2, errs), node1.(reanchorRelations := reanchor));
  }

  lemma ReadsMergeDiscriminator(e: Expr, k: Toks, node: MergeNode, errs: nat)
    requires GoodExpr(e) && node.discriminator == Nil && k.Cons?
    ensures MergeBody(State(DiscriminatorThen(e, k), errs), node) == MergeBody(State(k, errs), node.(discriminator := ReadBack(e)))
  {
    if e != Nil {
      var t := ReadsColonExpr(Token(DISCRIMINATOR, "discriminator"), e, Cons(SEMICOLON_T, k), errs);
      AfterSetting(t, k, errs);
    }
  }

  lemma ReadsMergeSource(s: Selector, k: Toks, node: MergeNode, errs: nat)
    requires GoodSelector(s) && EndsSelector(k) && k.Current().kind != SEMICOLON && k.Current().kind != COMMA
    ensures MergeBody(State(SourceThen(s, k), errs), node)
         == MergeBody(State(k, errs), node.(source := Some(BackSelector(s)), guard := ReadBack(s.having)))
  {
    var t := ReadsSelector(SELECT_W, s, k, errs);
    AfterSelector(t, k, errs);
  }

  lemma ReadsInto(keyword: Token, kind: string, target: string, k: Toks, errs: nat)
    ensures ParseIntoHeader(State(IntoThen(keyword, kind, target, k), errs)) == (State(k, errs), Some(target))
  {
  }

  function MergeFlagsThen(n: MergeNode, k: Toks): Toks {
    FlagThen(Token(RETAIN_SOURCES, "retain_sources"), n.retainSources,
      FlagThen(Token(REANCHOR_RELATIONS, "reanchor_relations"), n.reanchorRelations, Cons(RBRACE_T, k)))
  }

  lemma ReadsMergeBody(n: MergeNode, k: Toks, errs: nat)
    requires GoodOperator(MergeEntities(n))
    ensures MergeBody(State(SourceThen(n.source.value, DiscriminatorThen(n.discriminator, MergeFlagsThen(n, k))), errs),
                      MergeNode(n.target, None, Nil, Nil, false, false, []))
         == Done(State(Cons(RBRACE_T, k), errs),
                 Some(MergeNode(n.target, BackSource(n.source), ReadBack(n.discriminator), ReadBack(n.guard),
                                n.retainSources, n.reanchorRelations, [])))
  {
    var k2 := MergeFlagsThen(n, k);
    var k1 := DiscriminatorThen(n.discriminator, k2);
    var node := MergeNode(n.target, None, Nil, Nil, false, false, []);
    var node1 := node.(source := BackSource(n.source), guard := ReadBack(n.guard));
    ReadsMergeSource(n.source.value, k1, node, errs);
    ReadsMergeDiscriminator(n.discriminator, k2, node1, errs);
    ReadsMergeFlags(n.retainSources, n.reanchorRelations, k, node1.(discriminator := ReadBack(n.discriminator)), errs);
  }

  lemma ReadsMerge(n: MergeNode, k: Toks, errs: nat) returns (t: Token)
    requires GoodOperator(MergeEntities(n)) && k.Current().kind != SET
    ensures ParseMergeEntities(State(MergeThen(n, k), errs))
         == Done(State(Cons(t, k), errs), Some(BackOperator(MergeEntities(n)).merge))
  {
    var k1 := SetThen(n.assignments, k);
    ReadsInto(Token(MERGE, "merge"), n.source.value.kind, n.target,
              SourceThen(n.source.value, DiscriminatorThen(n.discriminator, MergeFlagsThen(n, k1))), errs);
    ReadsMergeBody(n, k1, errs);
    t := ReadsTrailingSet(RBRACE_T, n.assignments, k, errs);
  }

  lemma ReadsPartitionSet(assigns: seq<Assignment>, k: Toks, part: Partition, errs: nat)
    requires GoodAssignments(assigns) && part.assignments == []
    ensures PartitionBody(State(SetThen(assigns, Cons(RBRACE_T, k)), errs), part)
         == (State(Cons(RBRACE_T, k), errs), Some(part.(assignments := BackAssignments(assigns))))
  {
    if assigns != [] {
      ReadsAssignments(assigns, [], Cons(RBRACE_T, k), errs);
      assert [] + BackAssignments(assigns) == BackAssignments(assigns);
      AfterSelector(SEMICOLON_T, Cons(RBRACE_T, k), errs);
    }
  }

  lemma ReadsPartition(p: Partition, k: Toks, errs: nat)
    requires GoodPartition(p)
    ensures ParsePartition(State(PartitionThen(p, k), errs)) == (State(Cons(RBRACE_T, k), errs), Some(BackPartition(p)))
  {
    var k1 := SetThen(p.assignments, Cons(RBRACE_T, k));
    hide ParseExpression, ExprThen, Lexical;
    var part := Partition(Mangle(p.name), Nil, []);
    if p.discriminator != Nil {
      var t := ReadsColonExpr(Token(DISCRIMINATOR, "discriminator"), p.discriminator, Cons(SEMICOLON_T, k1), errs);
      AfterSetting(t, k1, errs);
    }
    assert PartitionBody(State(DiscriminatorThen(p.discriminator, k1), errs), part)
        == PartitionBody(State(k1, errs), part.(discriminator := ReadBack(p.discriminator)));
    ReadsPartitionSet(p.assignments, k, part.(discriminator := ReadBack(p.discriminator)), errs);
  }

  lemma ReadsOnePartition(p: Partition, k: Toks, node: SplitNode, errs: nat)
    requires GoodPartition(p) && k.Cons? && (k.head.kind == PARTITION || k.head.kind == RBRACE)
    ensures SplitBody(State(PartitionThen(p, k), errs), node)
         == SplitBody(State(k, errs), node.(partitions := node.partitions + [BackPartition(p)]))
  {
    ReadsPartition(p, k, errs);
    AfterSelector(RBRACE_T, k, errs);
  }

  lemma PartitionsHead(ps: seq<Partition>, k: Toks)
    ensures var ts := PartitionsThen(ps, Cons(RBRACE_T, k)); ts.Cons? && (ts.head.kind == PARTITION || ts.head.kind == RBRACE)
  {
  }

  lemma SplitEnds(k: Toks, node: SplitNode, errs: nat)
    ensures SplitBody(State(Cons(RBRACE_T, k), errs), node) == Done(State(Cons(RBRACE_T, k), errs), Some(node))
  {
  }

  lemma BackPartitionsStep(ps: seq<Partition>, done: seq<Partition>)
    ensures done + BackPartitions(ps) == if ps == [] then done else done + [BackPartition(ps[0])] + BackPartitions(ps[1..])
  {
    hide BackPartition;
  }

  lemma {:induction false} ReadsPartitions(ps: seq<Partition>, done: seq<Partition>, k: Toks, node: SplitNode, errs: nat)
    requires (forall p <- ps :: GoodPartition(p)) && node.partitions == done
    ensures SplitBody(State(PartitionsThen(ps, Cons(RBRACE_T, k)), errs), node)
         == Done(State(Cons(RBRACE_T, k), errs), Some(node.(partitions := done + BackPartitions(ps))))
    decreases ps
  {
    hide SplitBody, GoodPartition, PartitionThen, BackPartition, BackPartitions;
    BackPartitionsStep(ps, done);
    if ps == [] {
      SplitEnds(k, node, errs);
    } else {
      var done1 := done + [BackPartition(ps[0])];
      var k1 := PartitionsThen(ps[1..], Cons(RBRACE_T, k));
      PartitionsHead(ps[1..], k);
      ReadsOnePartition(ps[0], k1, node, errs);
      ReadsPartitions(ps[1..], done1, k, node.(partitions := done1), errs);
    }
  }

  lemma ReadsSplitBody(s: Selector, retain: bool, k: Toks, node: SplitNode, errs: nat)
    requires GoodSelector(s) && k.Cons?
    ensures SplitBody(State(SourceThen(s, FlagThen(Token(RETAIN_SOURCE, "retain_source"), retain, k)), errs), node)
         == SplitBody(State(k, errs), node.(source := Some(BackSelector(s)), guard := ReadBack(s.having), retainSource := retain))
  {
    var k1 := FlagThen(Token(RETAIN_SOURCE, "retain_source"), retain, k);
    var t := ReadsSelector(SELECT_W, s, k1, errs);
    AfterSelector(t, k1, errs);
    var node1 := node.(source := Some(BackSelector(s)), guard := ReadBack(s.having));
    ReadsFlag(Token(RETAIN_SOURCE, "retain_source"), retain, k, errs);
    AfterSetting(BoolToken(retain), k, errs);
    assert SplitBody(State(k1, errs), node1) == SplitBody(State(k, errs), node1.(retainSource := retain));
  }

  lemma ReadsSplit(n: SplitNode, k: Toks, errs: nat)
    requires GoodOperator(SplitEntity(n))
    ensures ParseSplitEntity(State(SplitThen(n, k), errs))
         == Done(State(Cons(RBRACE_T, Cons(SEMICOLON_T, k)), errs), Some(BackOperator(SplitEntity(n)).split))
  {
    var k2 := PartitionsThen(n.partitions, Cons(RBRACE_T, Cons(SEMICOLON_T, k)));
    var node := SplitNode(n.target, None, Nil, false, []);
    ReadsInto(Token(SPLIT, "split"), n.source.value.kind, n.target,
              SourceThen(n.source.value, FlagThen(Token(RETAIN_SOURCE, "retain_source"), n.retainSource, k2)), errs);
    ReadsSplitBody(n.source.value, n.retainSource, k2, node, errs);
    var node2 := node.(source := BackSource(n.source), guard := ReadBack(n.guard), retainSource := n.retainSource);
    ReadsPartitions(n.partitions, [], Cons(SEMICOLON_T, k), node2, errs);
    assert [] + BackPartitions(n.partitions) == BackPartitions(n.partitions);
  }

  lemma ReadsSelect(n: SelectNode, k: Toks, errs: nat) returns (t: Token)
    requires GoodOperator(SelectAndAssign(n)) && EndsSelector(k) && k.Current().kind != SET
    ensures ParseSelectAndAssign(State(SourceThen(n.selector, SetThen(n.assignments, k)), errs))
         == Done(State(Cons(t, k), errs), Some(BackOperator(SelectAndAssign(n)).select))
  {
    var t1 := ReadsSelector(SELECT_W, n.selector, SetThen(n.assignments, k), errs);
    t := ReadsTrailingSet(t1, n.assignments, k, errs);
  }

  /** The operator is read whole, and its rule finds the closing brace next, behind at most one semicolon. */
  predicate ReadWhole(op: Operator, k: Toks, errs: nat, t: Token)
    requires HasSelectors(op)
  {
    var r := ParseOperator(State(OperatorThen(op, k), errs));
    r.Done? && r.value == BackOperator(op) && SkipPeeked(r.st, SEMICOLON) == State(Cons(t, k), errs)
  }

  lemma SelectWhole(n: SelectNode, k: Toks, errs: nat) returns (t: Token)
    requires GoodOperator(SelectAndAssign(n)) && k.Current().kind == RBRACE
    ensures ReadWhole(SelectAndAssign(n), k, errs, t)
  {
    hide ParseSelectAndAssign, ParseInsertEntity, ParseDeleteEntity, ParseLink, ParseMergeEntities, ParseSplitEntity;
    t := ReadsSelect(n, k, errs);
  }

  lemma InsertWhole(n: InsertNode, k: Toks, errs: nat) returns (t: Token)
    requires GoodOperator(InsertEntity(n)) && k.Current().kind == RBRACE
    ensures ReadWhole(InsertEntity(n), k, errs, t)
  {
    hide ParseSelectAndAssign, ParseInsertEntity, ParseDeleteEntity, ParseLink, ParseMergeEntities, ParseSplitEntity;
    t := ReadsInsert(n, k, errs);
  }

  lemma DeleteWhole(n: DeleteNode, k: Toks, errs: nat)
    requires GoodOperator(DeleteEntity(n)) && k.Current().kind == RBRACE
    ensures ReadWhole(DeleteEntity(n), k, errs, SEMICOLON_T)
  {
    hide ParseSelectAndAssign, ParseInsertEntity, ParseDeleteEntity, ParseLink, ParseMergeEntities, ParseSplitEntity;
    ReadsDelete(n, k, errs);
  }

  lemma RelateWhole(n: LinkNode, k: Toks, errs: nat)
    requires GoodLink(n) && k.Current().kind == RBRACE
    ensures ReadWhole(RelateEntities(n), k, errs, SEMICOLON_T)
  {
    hide ParseSelectAndAssign, ParseInsertEntity, ParseDeleteEntity, ParseLink, ParseMergeEntities, ParseSplitEntity;
    ReadsLink(n, Token(RELATE, "relate"), TO_W, k, errs);
  }

  lemma UnrelateWhole(n: LinkNode, k: Toks, errs: nat)
    requires GoodLink(n) && k.Current().kind == RBRACE
    ensures ReadWhole(UnrelateEntities(n), k, errs, SEMICOLON_T)
  {
    hide ParseSelectAndAssign, ParseInsertEntity, ParseDeleteEntity, ParseLink, ParseMergeEntities, ParseSplitEntity;
    ReadsLink(n, Token(UNRELATE, "unrelate"), FROM_W, k, errs);
  }

  lemma MergeWhole(n: MergeNode, k: Toks, errs: nat) returns (t: Token)
    requires GoodOperator(MergeEntities(n)) && k.Current().kind == RBRACE
    ensures ReadWhole(MergeEntities(n), k, errs, t)
  {
    hide ParseSelectAndAssign, ParseInsertEntity, ParseDeleteEntity, ParseLink, ParseMergeEntities, ParseSplitEntity;
    t := ReadsMerge(n, k, errs);
  }

  lemma SplitWhole(n: SplitNode, k: Toks, errs: nat)
    requires GoodOperator(SplitEntity(n)) && k.Current().kind == RBRACE
    ensures ReadWhole(SplitEntity(n), k, errs, SEMICOLON_T)
  {
    hide ParseSelectAndAssign, ParseInsertEntity, ParseDeleteEntity, ParseLink, ParseMergeEntities, ParseSplitEntity;
    ReadsSplit(n, k, errs);
  }

  lemma ReadsOperator(op: Operator, k: Toks, errs: nat) returns (t: Token)
    requires GoodOperator(op) && k.Current().kind == RBRACE
    ensures ReadWhole(op, k, errs, t)
  {
    t := SEMICOLON_T;
    match op
    case SelectAndAssign(n) => t := SelectWhole(n, k, errs);
    case InsertEntity(n) => t := InsertWhole(n, k, errs);
    case DeleteEntity(n) => DeleteWhole(n, k, errs);
    case RelateEntities(n) => RelateWhole(n, k, errs);
    case UnrelateEntities(n) => UnrelateWhole(n, k, errs);
    case MergeEntities(n) => t := MergeWhole(n, k, errs);
    case SplitEntity(n) => SplitWhole(n, k, errs);
  }

  // ----- lists and annotations -----

  lemma {:induction false} ReadsItems(items: seq<string>, done: seq<string>, k: Toks, errs: nat)
    requires items != []
    ensures ParseStringItems(State(ItemsThen(items, Cons(RBRACKET_T, k)), errs), done)
         == (State(Cons(RBRACKET_T, k), errs), done + MangleAll(items))
    decreases items
  {
    var done1 := done + [Mangle(items[0])];
    if |items| == 1 {
      assert done1 == done + MangleAll(items);
    } else {
      ReadsItems(items[1..], done1, k, errs);
      assert done1 + MangleAll(items[1..]) == done + MangleAll(items);
    }
  }

  lemma ReadsBracketed(t: Token, items: seq<string>, k: Toks, errs: nat)
    requires items != []
    ensures ParseBracketed(State(Cons(t, Cons(COLON_T, Cons(LBRACKET_T, ItemsThen(items, Cons(RBRACKET_T, k))))), errs))
         == (State(Cons(RBRACKET_T, k), errs), Some(MangleAll(items)))
  {
    ReadsItems(items, [], k, errs);
    assert [] + MangleAll(items) == MangleAll(items);
  }

  lemma NoteWords()
    ensures LookupIdent("reads") == READS && LookupIdent("writes") == WRITES
    ensures LookupIdent("depends_on") == DEPENDS_ON && LookupIdent("implies") == IMPLIES
  {
  }

  predicate IsNote(n: Note) {
    (n.keyword == "reads" || n.keyword == "writes" || n.keyword == "depends_on") && n.items != [] && AsciiAll(n.items)
  }

  function Annotate(a: Annotations, n: Note): Annotations {
    if n.keyword == "reads" then a.(declaredReads := MangleAll(n.items))
    else if n.keyword == "writes" then a.(declaredWrites := MangleAll(n.items))
    else a.(dependsOn := MangleAll(n.items))
  }

  function AnnotateAll(a: Annotations, notes: seq<Note>): Annotations
    decreases |notes|
  {
    if notes == [] then a else AnnotateAll(Annotate(a, notes[0]), notes[1..])
  }

  lemma ReadsNote(t: Token, n: Note, k: Toks, a: Annotations, errs: nat)
    requires IsNote(n) && t.kind != RPAREN && t.kind != EOF
    ensures ParseAnnotations(State(Cons(t, NoteThen(n, k)), errs), a)
         == ParseAnnotations(SkipPeeked(State(Cons(RBRACKET_T, k), errs), COMMA), Annotate(a, n))
  {
    NoteWords();
    ReadsBracketed(Token(LookupIdent(n.keyword), n.keyword), n.items, k, errs);
  }

  lemma ReadsNotesEnd(t: Token, k: Toks, a: Annotations, errs: nat)
    requires t.kind != RPAREN && t.kind != EOF && k.Current().kind != COMMA
    ensures ParseAnnotations(State(Cons(t, Cons(RPAREN_TOKEN, k)), errs), a) == (State(Cons(RPAREN_TOKEN, k), errs), a)
  {
    var st := State(Cons(RPAREN_TOKEN, k), errs);
    assert ParseAnnotations(st, a) == (st, a);
  }

  lemma {:induction false} ReadsNotes(t: Token, notes: seq<Note>, k: Toks, a: Annotations, errs: nat)
    requires (forall n <- notes :: IsNote(n)) && t.kind != RPAREN && t.kind != EOF && k.Current().kind != COMMA
    ensures ParseAnnotations(State(Cons(t, NotesThen(notes, Cons(RPAREN_TOKEN, k))), errs), a)
         == (State(Cons(RPAREN_TOKEN, k), errs), AnnotateAll(a, notes))
    decreases notes
  {
    hide ParseAnnotations;
    var end := Cons(RPAREN_TOKEN, k);
    if notes == [] {
      ReadsNotesEnd(t, k, a, errs);
    } else {
      var a1 := Annotate(a, notes[0]);
      if |notes| == 1 {
        ReadsNote(t, notes[0], end, a, errs);
        ReadsNotesEnd(RBRACKET_T, k, a1, errs);
        assert notes[1..] == [];
      } else {
        ReadsNote(t, notes[0], Cons(COMMA_TOKEN, NotesThen(notes[1..], end)), a, errs);
        ReadsNotes(COMMA_TOKEN, notes[1..], k, a1, errs);
      }
    }
  }

  lemma NotesRebuild(rs: seq<string>, ws: seq<string>, deps: seq<string>)
    requires AsciiAll(rs) && AsciiAll(ws) && AsciiAll(deps)
    ensures forall n <- NotesOf(rs, ws, deps) :: IsNote(n)
    ensures AnnotateAll(Annotations([], [], []), NotesOf(rs, ws, deps)) == Annotations(MangleAll(rs), MangleAll(ws), MangleAll(deps))
  {
    var a := if rs == [] then [] else [Note("reads", rs)];
    var b := if ws == [] then [] else [Note("writes", ws)];
    var c := if deps == [] then [] else [Note("depends_on", deps)];
    var none := Annotations([], [], []);
    AnnotateAppend(none, a + b, c);
    AnnotateAppend(none, a, b);
    AnnotateOne(none, a);
    AnnotateOne(AnnotateAll(none, a), b);
    AnnotateOne(AnnotateAll(none, a + b), c);
  }

  lemma AnnotateOne(a: Annotations, notes: seq<Note>)
    requires |notes| <= 1
    ensures AnnotateAll(a, notes) == if notes == [] then a else Annotate(a, notes[0])
  {
    if notes != [] { assert AnnotateAll(Annotate(a, notes[0]), notes[1..]) == Annotate(a, notes[0]); }
  }

  lemma {:induction false} AnnotateAppend(a: Annotations, xs: seq<Note>, ys: seq<Note>)
    ensures AnnotateAll(a, xs + ys) == AnnotateAll(AnnotateAll(a, xs), ys)
    decreases xs
  {
    if xs == [] {
      assert xs + ys == ys;
    } else {
      assert (xs + ys)[1..] == xs[1..] + ys;
      AnnotateAppend(Annotate(a, xs[0]), xs[1..], ys);
    }
  }

  // ----- rules, checkpoints, profiles, schemas -----

  /** The annotations of a rule, if it has any, from the name before them. */
  function RuleNotes(st: State): (State, Annotations) {
    if st.PeekIs(LPAREN) then ParseAnnotations(st.Next(), Annotations([], [], [])) else (st, Annotations([], [], []))
  }

  lemma ReadsRuleNotes(id: string, notes: seq<Note>, k: Toks, errs: nat) returns (t: Token)
    requires (forall n <- notes :: IsNote(n)) && k.Current().kind == LBRACE
    ensures RuleNotes(State(Cons(Id(id), AnnotationsThen(notes, k)), errs))
         == (State(Cons(t, k), errs), AnnotateAll(Annotations([], [], []), notes))
  {
    t := Id(id);
    if notes != [] {
      t := RPAREN_TOKEN;
      ReadsNotes(LPAREN_TOKEN, notes, k, Annotations([], [], []), errs);
    }
  }

  /** What may follow a declaration. */
  predicate EndsDecl(k: Toks) {
    k.Current().kind != SEMICOLON
  }

  lemma ReadsRule(d: Decl, k: Toks, errs: nat)
    requires GoodDecl(d) && d.RuleDecl? && EndsDecl(k)
    ensures ParseRule(State(DeclThen(d, k), errs)) == Done(State(Cons(RBRACE_T, k), errs), BackDecl(d))
  {
    hide ParseOperator, ParseAnnotations, BackOperator, OperatorThen, MangleAll, AsciiAll, IsName, IsNote;
    var notes := NotesOf(d.declaredReads, d.declaredWrites, d.dependsOn);
    NotesRebuild(d.declaredReads, d.declaredWrites, d.dependsOn);
    var k2 := Cons(RBRACE_T, k);
    var k1 := Cons(LBRACE_T, OperatorThen(d.operator, k2));
    var t1 := ReadsRuleNotes(d.id, notes, k1, errs);
    var t2 := ReadsOperator(d.operator, k2, errs);
  }

  lemma ReadsCheckpoint(d: Decl, k: Toks, errs: nat)
    requires GoodDecl(d) && d.CheckpointDecl?
    ensures ParseCheckpoint(State(DeclThen(d, k), errs)) == (State(Cons(SEMICOLON_T, k), errs), d)
  {
  }

  lemma ReadsRequirement(r: Requirement, k: Toks, errs: nat)
    requires GoodRequirement(r)
    ensures ParseRequirement(State(RequirementThen(r, k), errs))
         == (State(Cons(Id(r.code), Cons(SEMICOLON_T, k)), errs), Some(r))
  {
    var t := ReadsPath(r.field, Cons(Token(PRESENT, "present"), Cons(AS_W, Cons(Id(r.code), Cons(SEMICOLON_T, k)))), errs);
  }

  lemma {:induction false} ReadsRequirements(rs: seq<Requirement>, done: seq<Requirement>, k: Toks, errs: nat)
    requires forall r <- rs :: GoodRequirement(r)
    ensures ParseRequirements(State(RequirementsThen(rs, Cons(RBRACE_T, k)), errs), done)
         == (State(Cons(RBRACE_T, k), errs), done + rs)
    decreases rs
  {
    if rs == [] {
      assert done + rs == done;
    } else {
      ReadsRequirement(rs[0], RequirementsThen(rs[1..], Cons(RBRACE_T, k)), errs);
      ReadsRequirements(rs[1..], done + [rs[0]], k, errs);
      assert done + [rs[0]] + rs[1..] == done + rs;
    }
  }

  lemma ReadsImplies(implies: seq<string>, k: Toks, errs: nat)
    requires implies != []
    ensures ParseImplies(State(Cons(LPAREN_TOKEN, NoteThen(Note("implies", implies), Cons(RPAREN_TOKEN, k))), errs), [])
         == (State(Cons(RPAREN_TOKEN, k), errs), MangleAll(implies))
  {
    NoteWords();
    var end := Cons(RPAREN_TOKEN, k);
    ReadsBracketed(Token(IMPLIES, "implies"), implies, end, errs);
    var st := State(Cons(RBRACKET_T, end), errs);
    var read := MangleAll(implies);
    assert ParseImplies(st.Next(), read) == (st.Next(), read);
    assert ParseImplies(st, read) == (st.Next(), read);
  }

  lemma ReadsProfile(d: Decl, k: Toks, errs: nat)
    requires GoodDecl(d) && d.ProfileDecl?
    ensures ParseProfile(State(DeclThen(d, k), errs)) == (State(Cons(RBRACE_T, k), errs), BackDecl(d))
  {
    hide ParseImplies, ParseRequirements;
    var k2 := RequirementsThen(d.requirements, Cons(RBRACE_T, k));
    if d.implies != [] { ReadsImplies(d.implies, Cons(LBRACE_T, k2), errs); }
    ReadsRequirements(d.requirements, [], k, errs);
    assert [] + d.requirements == d.requirements;
  }

  lemma {:induction false} ReadsFields(fields: seq<Field>, done: seq<Field>, k: Toks, errs: nat)
    ensures ParseFields(State(FieldsThen(fields, Cons(RBRACE_T, k)), errs), done) == (State(Cons(RBRACE_T, k), errs), done + fields)
    decreases fields
  {
    if fields == [] {
      assert done + fields == done;
    } else {
      var k1 := FieldsThen(fields[1..], Cons(RBRACE_T, k));
      assert ParseField(State(FieldThen(fields[0], k1), errs)) == (State(Cons(SEMICOLON_T, k1), errs), Some(fields[0]));
      ReadsFields(fields[1..], done + [fields[0]], k, errs);
      assert done + [fields[0]] + fields[1..] == done + fields;
    }
  }

  lemma ReadsEntity(e: Entity, k: Toks, errs: nat)
    ensures ParseEntity(State(EntityThen(e, k), errs)) == (State(Cons(RBRACE_T, k), errs), Some(e))
  {
    ReadsFields(e.fields, [], k, errs);
    assert [] + e.fields == e.fields;
  }

  lemma ReadsRelation(r: Relation, k: Toks, errs: nat)
    requires GoodRelation(r)
    ensures ParseRelation(State(RelationThen(r, k), errs)) == (State(Cons(RBRACE_T, k), errs), Some(r))
  {
    var k2 := Cons(RBRACE_T, k);
    var k1 := EndpointThen(TO_W, r.toKind, k2);
    var rel := Relation(r.kind, "", "");
    assert ParseEndpoints(State(k2, errs), r) == (State(k2, errs), Some(r));
    assert ParseEndpoints(State(k1, errs), rel.(fromKind := r.fromKind)) == ParseEndpoints(State(k2, errs), r);
    assert ParseEndpoints(State(EndpointThen(FROM_W, r.fromKind, k1), errs), rel)
        == ParseEndpoints(State(k1, errs), rel.(fromKind := r.fromKind));
  }

  lemma {:induction false} ReadsRelations(es: seq<Entity>, rs: seq<Relation>, done: seq<Relation>, k: Toks, errs: nat)
    requires forall r <- rs :: GoodRelation(r)
    ensures ParseSchemaBody(State(RelationsThen(rs, Cons(RBRACE_T, k)), errs), es, done)
         == (State(Cons(RBRACE_T, k), errs), SchemaDecl(es, done + rs))
    decreases rs
  {
    if rs == [] {
      assert done + rs == done;
    } else {
      ReadsRelation(rs[0], RelationsThen(rs[1..], Cons(RBRACE_T, k)), errs);
      ReadsRelations(es, rs[1..], done + [rs[0]], k, errs);
      assert done + [rs[0]] + rs[1..] == done + rs;
    }
  }

  lemma {:induction false} ReadsEntities(es: seq<Entity>, done: seq<Entity>, rs: seq<Relation>, k: Toks, errs: nat)
    requires forall r <- rs :: GoodRelation(r)
    ensures ParseSchemaBody(State(EntitiesThen(es, RelationsThen(rs, Cons(RBRACE_T, k))), errs), done, [])
         == (State(Cons(RBRACE_T, k), errs), SchemaDecl(done + es, rs))
    decreases es
  {
    if es == [] {
      ReadsRelations(done, rs, [], k, errs);
      assert done + es == done && [] + rs == rs;
    } else {
      ReadsEntity(es[0], EntitiesThen(es[1..], RelationsThen(rs, Cons(RBRACE_T, k))), errs);
      ReadsEntities(es[1..], done + [es[0]], rs, k, errs);
      assert done + [es[0]] + es[1..] == done + es;
    }
  }

  lemma ReadsSchema(d: Decl, k: Toks, errs: nat)
    requires GoodDecl(d) && d.SchemaDecl?
    ensures ParseSchema(State(DeclThen(d, k), errs)) == (State(Cons(RBRACE_T, k), errs), d)
  {
    ReadsEntities(d.entities, [], d.relations, k, errs);
    assert [] + d.entities == d.entities;
  }

  lemma ReadsDecl(d: Decl, k: Toks, errs: nat) returns (t: Token)
    requires GoodDecl(d) && EndsDecl(k)
    ensures ParseDeclaration(State(DeclThen(d, k), errs)) == Done(State(Cons(t, k), errs), Some(BackDecl(d)))
  {
    hide ParseSchema, ParseRule, ParseCheckpoint, ParseProfile, ParseEntityAlone, ParseRelationAlone;
    t := RBRACE_T;
    match d
    case SchemaDecl(_, _) => ReadsSchema(d, k, errs);
    case RuleDecl(_, _, _, _, _) => ReadsRule(d, k, errs);
    case CheckpointDecl(_, _) => ReadsCheckpoint(d, k, errs); t := SEMICOLON_T;
    case ProfileDecl(_, _, _, _) => ReadsProfile(d, k, errs);
  }

  lemma DeclsHead(ds: seq<Decl>)
    requires (forall d <- ds :: GoodDecl(d)) && FormattableAll(ds)
    ensures EndsDecl(DeclsThen(ds, End))
    ensures ds != [] ==> !State(DeclsThen(ds, End), 0).CurIs(EOF)
  {
  }

  lemma {:induction false} ReadsDecls(ds: seq<Decl>, done: seq<Decl>, errs: nat)
    requires (forall d <- ds :: GoodDecl(d)) && FormattableAll(ds)
    ensures ParseDeclarations(State(DeclsThen(ds, End), errs), done) == Done(State(End, errs), done + BackDecls(ds))
    decreases ds
  {
    hide ParseDeclaration;
    if ds == [] {
      assert done + BackDecls(ds) == done;
    } else {
      var k := DeclsThen(ds[1..], End);
      DeclsHead(ds);
      DeclsHead(ds[1..]);
      var t := ReadsDecl(ds[0], k, errs);
      ReadsDecls(ds[1..], done + [BackDecl(ds[0])], errs);
      assert done + [BackDecl(ds[0])] + BackDecls(ds[1..]) == done + BackDecls(ds);
    }
  }

  /** The parser reads the tokens of a well-formed file, without an error, as its normal form. */
  lemma ReadsFile(f: File)
    requires GoodFile(f) && FormattableAll(f.declarations)
    ensures ParseTokens(DeclsThen(f.declarations, End)) == Done(State(End, 0), BackFile(f))
  {
    ReadsDecls(f.declarations, [], 0);
    assert [] + BackDecls(f.declarations) == BackDecls(f.declarations);
  }
}
