/** What the declaration parsers compute.  A Go nil result is `None`, `NilOperator` or `NilDecl`;
    dereferencing a nil selector ends the run as `Panicked`. */
module FileParserSpec {
  import opened Tokens
  import opened Ast
  import opened ExprParserSpec

  datatype Outcome<+T> = Panicked | Done(st: State, value: T) {
    predicate IsFailure() {
      Panicked?
    }

    function PropagateFailure<U>(): Outcome<U>
      requires Panicked?
    {
      Panicked
    }

    function Extract(): (State, T)
      requires Done?
    {
      (st, value)
    }

    /** The run went on from `before`: no token came back and no error was forgotten. */
    predicate From(before: State) {
      Done? ==> st.Size() <= before.Size() && before.errs <= st.errs
    }
  }

  predicate Later(before: State, after: State) {
    after.Size() <= before.Size() && before.errs <= after.errs
  }

  /** A braced or parenthesised list ends at its closing token or at the end of the file. */
  predicate AtEnd(st: State, close: TokenType) {
    st.CurIs(close) || st.CurIs(EOF)
  }

  function SkipPeeked(st: State, t: TokenType): (r: State)
    ensures Later(st, r)
  {
    if st.PeekIs(t) then st.Next() else st
  }

  function SkipDelimiter(st: State): (r: State)
    ensures Later(st, r)
  {
    if st.PeekIs(SEMICOLON) || st.PeekIs(COMMA) then st.Next() else st
  }

  function ExpectEither(st: State, a: TokenType, b: TokenType): (r: (State, bool))
    ensures Later(st, r.0)
  {
    var (st1, ok) := st.Expect(a);
    if ok then (st1, true) else st1.Expect(b)
  }

  function ExpectBoth(st: State, a: TokenType, b: TokenType): (r: (State, bool))
    ensures Later(st, r.0)
  {
    var (st1, ok) := st.Expect(a);
    if ok then st1.Expect(b) else (st1, false)
  }

  // ----- schemas -----

  function ParseField(st: State): (r: (State, Option<Field>))
    ensures Later(st, r.0)
  {
    if !st.CurIs(IDENT) then (st.Fail(), None)
    else
      var (st1, colon) := st.Expect(COLON);
      if !colon then (st1, None)
      else
        var st2 := st1.Next();
        if !st2.CurIs(IDENT) then (st2.Fail(), None)
        else
          var st3 := if st2.PeekIs(OPTIONAL) || st2.PeekIs(REQUIRED) then st2.Next() else st2;
          (SkipDelimiter(st3),
           Some(Field(st.Current().literal, st2.Current().literal, !st2.PeekIs(OPTIONAL))))
  }

  function ParseFields(st: State, fields: seq<Field>): (r: (State, seq<Field>))
    ensures Later(st, r.0)
    decreases st.Size()
  {
    if AtEnd(st, RBRACE) then (st, fields)
    else
      var (st1, field) := ParseField(st);
      ParseFields(st1.Next(), if field.Some? then fields + [field.value] else fields)
  }

  function ParseEntity(st: State): (r: (State, Option<Entity>))
    ensures Later(st, r.0)
  {
    var (st1, named) := st.Expect(IDENT);
    if !named then (st1, None)
    else
      var (st2, open) := st1.Expect(LBRACE);
      if !open then (st2, None)
      else
        var (st3, fields) := ParseFields(st2.Next(), []);
        (st3, Some(Entity(st1.Current().literal, fields)))
  }

  function ParseEndpoints(st: State, rel: Relation): (r: (State, Option<Relation>))
    ensures Later(st, r.0)
    decreases st.Size()
  {
    if AtEnd(st, RBRACE) then (st, Some(rel))
    else if st.CurIs(FROM) || st.CurIs(TO) then
      var (st1, ok) := ExpectBoth(st, COLON, IDENT);
      if !ok then (st1, None)
      else
        var kind := st1.Current().literal;
        ParseEndpoints(SkipDelimiter(st1).Next(),
                       if st.CurIs(FROM) then rel.(fromKind := kind) else rel.(toKind := kind))
    else ParseEndpoints(SkipDelimiter(st).Next(), rel)
  }

  function ParseRelation(st: State): (r: (State, Option<Relation>))
    ensures Later(st, r.0)
  {
    var (st1, named) := st.Expect(IDENT);
    if !named then (st1, None)
    else
      var (st2, open) := st1.Expect(LBRACE);
      if !open then (st2, None)
      else ParseEndpoints(st2.Next(), Relation(st1.Current().literal, "", ""))
  }

  function ParseSchemaBody(st: State, entities: seq<Entity>, relations: seq<Relation>): (r: (State, Decl))
    ensures Later(st, r.0)
    decreases st.Size()
  {
    if AtEnd(st, RBRACE) then (st, SchemaDecl(entities, relations))
    else if st.CurIs(ENTITY) then
      var (st1, entity) := ParseEntity(st);
      ParseSchemaBody(st1.Next(), if entity.Some? then entities + [entity.value] else entities, relations)
    else if st.CurIs(RELATION) then
      var (st1, rel) := ParseRelation(st);
      ParseSchemaBody(st1.Next(), entities, if rel.Some? then relations + [rel.value] else relations)
    else (st.Fail(), NilDecl)
  }

  function ParseSchema(st: State): (r: (State, Decl))
    ensures Later(st, r.0)
  {
    var (st1, open) := st.Expect(LBRACE);
    if open then ParseSchemaBody(st1.Next(), [], []) else (st1, NilDecl)
  }

  function ParseEntityAlone(st: State): (r: (State, Decl))
    ensures Later(st, r.0)
  {
    var (st1, entity) := ParseEntity(st);
    (st1, if entity.Some? then SchemaDecl([entity.value], []) else NilDecl)
  }

  function ParseRelationAlone(st: State): (r: (State, Decl))
    ensures Later(st, r.0)
  {
    var (st1, rel) := ParseRelation(st);
    (st1, if rel.Some? then SchemaDecl([], [rel.value]) else NilDecl)
  }

  // ----- string lists and annotations -----

  function ParseStringItems(st: State, list: seq<string>): (r: (State, seq<string>))
    ensures Later(st, r.0)
    decreases st.Size()
  {
    if AtEnd(st, RBRACKET) then (st, list)
    else
      var list1 := if st.CurIs(IDENT) || st.CurIs(STRING) then list + [st.Current().literal] else list;
      ParseStringItems(SkipPeeked(st, COMMA).Next(), list1)
  }

  /** `: [ ... ]`, or `None` when the colon or the bracket is missing. */
  function ParseBracketed(st: State): (r: (State, Option<seq<string>>))
    ensures Later(st, r.0)
  {
    var (st1, ok) := ExpectBoth(st, COLON, LBRACKET);
    if !ok then (st1, None)
    else var (st2, list) := ParseStringItems(st1.Next(), []); (st2, Some(list))
  }

  datatype Annotations = Annotations(declaredReads: seq<string>, declaredWrites: seq<string>, dependsOn: seq<string>)

  function ParseAnnotations(st: State, notes: Annotations): (r: (State, Annotations))
    ensures Later(st, r.0)
    decreases st.Size()
  {
    if AtEnd(st, RPAREN) then (st, notes)
    else
      var st1 := st.Next();
      var t := st1.Current().kind;
      if t == READS || t == WRITES || t == DEPENDS_ON then
        var (st2, list) := ParseBracketed(st1);
        var notes1 := if list.None? then notes
                      else if t == READS then notes.(declaredReads := list.value)
                      else if t == WRITES then notes.(declaredWrites := list.value)
                      else notes.(dependsOn := list.value);
        ParseAnnotations(SkipPeeked(st2, COMMA), notes1)
      else ParseAnnotations(SkipPeeked(st1, COMMA), notes)
  }

  // ----- selectors and assignments -----

  function ParseClause(st: State, keyword: TokenType): (r: (State, Expr))
    ensures Later(st, r.0)
  {
    if st.PeekIs(keyword) then ParseExpression(st.Next().Next(), LOWEST) else (st, Nil)
  }

  function ParseSelector(st: State): (r: (State, Option<Selector>))
    ensures Later(st, r.0)
  {
    var (st1, named) := st.Expect(IDENT);
    if !named then (st1, None)
    else
      var (st2, where) := ParseClause(st1, WHERE);
      var (st3, groupBy) := ParseClause(st2, GROUP_BY);
      var (st4, having) := ParseClause(st3, HAVING);
      (st4, Some(Selector(st1.Current().literal, where, groupBy, having)))
  }

  function ParseAssignmentList(st: State, list: seq<Assignment>): (r: (State, seq<Assignment>))
    ensures Later(st, r.0)
    decreases st.Size()
  {
    var (st1, target) := PathExpression(st);
    if target.None? then (st1, list)
    else
      var (st2, ok) := st1.Expect(ASSIGN);
      if !ok then (st2, [])
      else
        var (st3, value) := ParseExpression(st2.Next(), LOWEST);
        var list1 := list + [Assignment(target.value, value)];
        if st3.PeekIs(COMMA) then ParseAssignmentList(st3.Next().Next(), list1)
        else (SkipPeeked(st3, SEMICOLON), list1)
  }

  function ParseAssignments(st: State): (r: (State, seq<Assignment>))
    ensures Later(st, r.0)
  {
    if st.CurIs(SET) then ParseAssignmentList(st.Next(), [])
    else
      var (st1, ok) := st.Expect(SET);
      if ok then ParseAssignmentList(st1.Next(), []) else (st1, [])
  }

  /** The assignments after the closing brace of an operator, if there are any. */
  function ParseTrailingSet(st: State): (r: (State, seq<Assignment>))
    ensures Later(st, r.0)
  {
    if st.PeekIs(SET) then ParseAssignments(st.Next()) else (st, [])
  }

  /** `: expression`, or `None` when the colon is missing. */
  function ParseColonExpression(st: State): (r: (State, Option<Expr>))
    ensures Later(st, r.0)
  {
    var (st1, ok) := st.Expect(COLON);
    if !ok then (st1, None)
    else var (st2, e) := ParseExpression(st1.Next(), LOWEST); (st2, Some(e))
  }

  function ParseColonBool(st: State): (r: (State, Option<bool>))
    ensures Later(st, r.0)
  {
    var (st1, ok) := st.Expect(COLON);
    if !ok then (st1, None)
    else
      var st2 := st1.Next();
      if st2.CurIs(TRUE) || st2.CurIs(FALSE) then (st2, Some(st2.CurIs(TRUE))) else (st2.Fail(), None)
  }

  /** `: select ...`; the outer `None` is a missing colon or keyword, the inner one a nil selector. */
  function ParseColonSelect(st: State): (r: (State, Option<Option<Selector>>))
    ensures Later(st, r.0)
  {
    var (st1, ok) := ExpectBoth(st, COLON, SELECT);
    if !ok then (st1, None)
    else var (st2, selector) := ParseSelector(st1); (st2, Some(selector))
  }

  // ----- operators -----

  function ParseSelectAndAssign(st: State): (r: Outcome<Option<SelectNode>>)
    ensures r.From(st)
  {
    var (st1, selector) := ParseSelector(st);
    var (st2, assignments) := ParseTrailingSet(st1);
    if selector.None? then Panicked
    else Done(st2, Some(SelectNode(selector.value, selector.value.having, assignments)))
  }

  function InsertBody(st: State, node: InsertNode): (r: Outcome<Option<InsertNode>>)
    ensures r.From(st)
    decreases st.Size()
  {
    if AtEnd(st, RBRACE) then Done(st, Some(node))
    else if st.CurIs(SELECT) then
      var (st1, s) := ParseSelector(st);
      if s.None? then Panicked
      else InsertBody(SkipDelimiter(st1).Next(), node.(source := s, guard := s.value.having))
    else if st.CurIs(DISCRIMINATOR) then
      var (st1, e) := ParseColonExpression(st);
      if e.None? then Done(st1, None)
      else InsertBody(SkipDelimiter(st1).Next(), node.(discriminator := e.value))
    else InsertBody(SkipDelimiter(st).Next(), node)
  }

  function ParseInsertEntity(st: State): (r: Outcome<Option<InsertNode>>)
    ensures r.From(st)
  {
    var (st1, named) := st.Expect(IDENT);
    if !named then Done(st1, None)
    else
      var (st2, open) := st1.Expect(LBRACE);
      if !open then Done(st2, None)
      else
        var (st3, node) :- InsertBody(st2.Next(), InsertNode(st1.Current().literal, None, Nil, Nil, []));
        if node.None? then Done(st3, None)
        else
          var (st4, assignments) := ParseTrailingSet(st3);
          Done(st4, Some(node.value.(assignments := assignments)))
  }

  function DeleteBody(st: State, node: DeleteNode): (r: Outcome<Option<DeleteNode>>)
    ensures r.From(st)
    decreases st.Size()
  {
    if AtEnd(st, RBRACE) then Done(st, Some(node))
    else if st.CurIs(SELECT) then
      var (st1, s) := ParseSelector(st);
      if s.None? then Panicked
      else DeleteBody(SkipDelimiter(st1).Next(), DeleteNode(s, s.value.having))
    else DeleteBody(SkipDelimiter(st).Next(), node)
  }

  function ParseDeleteEntity(st: State): (r: Outcome<Option<DeleteNode>>)
    ensures r.From(st)
  {
    var (st1, named) := st.Expect(IDENT);
    if !named then Done(st1, None)
    else
      var (st2, open) := st1.Expect(LBRACE);
      if open then DeleteBody(st2.Next(), DeleteNode(None, Nil)) else Done(st2, None)
  }

  /** `kind <word> kind as name {`; the two kinds are not kept. */
  function ParseLinkHeader(st: State, word: TokenType): (r: (State, Option<string>))
    ensures Later(st, r.0)
  {
    var (st1, first) := st.Expect(IDENT);
    if !first then (st1, None)
    else
      var (st2, second) := ExpectBoth(st1, word, IDENT);
      if !second then (st2, None)
      else
        var (st3, named) := st2.Expect(AS);
        if !named then (st3, None)
        else
          var st4 := st3.Next();
          if !st4.CurIs(IDENT) && !st4.CurIs(STRING) then (st4.Fail(), None)
          else
            var (st5, open) := st4.Expect(LBRACE);
            if open then (st5.Next(), Some(st4.Current().literal)) else (st5, None)
  }

  function LinkBody(st: State, node: LinkNode): (r: (State, Option<LinkNode>))
    ensures Later(st, r.0)
    decreases st.Size()
  {
    if AtEnd(st, RBRACE) then (st, Some(node))
    else if st.CurIs(FROM) || st.CurIs(TO) then
      var (st1, s) := ParseColonSelect(st);
      if s.None? then (st1, None)
      else LinkBody(SkipDelimiter(st1).Next(),
                    if st.CurIs(FROM) then node.(from := s.value) else node.(to := s.value))
    else if st.CurIs(GUARD) then
      var (st1, e) := ParseColonExpression(st);
      if e.None? then (st1, None) else LinkBody(SkipDelimiter(st1).Next(), node.(guard := e.value))
    else LinkBody(SkipDelimiter(st).Next(), node)
  }

  /** `relate a to b as r { ... }` when the word is `to`, `unrelate a from b as r { ... }` when it is `from`. */
  function ParseLink(st: State, word: TokenType): (r: (State, Option<LinkNode>))
    ensures Later(st, r.0)
  {
    var (st1, name) := ParseLinkHeader(st, word);
    if name.None? then (st1, None) else LinkBody(st1, LinkNode(name.value, None, None, Nil))
  }

  /** `kind into target {`. */
  function ParseIntoHeader(st: State): (r: (State, Option<string>))
    ensures Later(st, r.0)
  {
    var (st1, first) := st.Expect(IDENT);
    if !first then (st1, None)
    else
      var (st2, second) := ExpectBoth(st1, INTO, IDENT);
      if !second then (st2, None)
      else
        var (st3, open) := st2.Expect(LBRACE);
        if open then (st3.Next(), Some(st2.Current().literal)) else (st3, None)
  }

  function MergeBody(st: State, node: MergeNode): (r: Outcome<Option<MergeNode>>)
    ensures r.From(st)
    decreases st.Size()
  {
    if AtEnd(st, RBRACE) then Done(st, Some(node))
    else if st.CurIs(SELECT) then
      var (st1, s) := ParseSelector(st);
      if s.None? then Panicked
      else MergeBody(SkipDelimiter(st1).Next(), node.(source := s, guard := s.value.having))
    else if st.CurIs(DISCRIMINATOR) then
      var (st1, e) := ParseColonExpression(st);
      if e.None? then Done(st1, None)
      else MergeBody(SkipDelimiter(st1).Next(), node.(discriminator := e.value))
    else if st.CurIs(REANCHOR_RELATIONS) || st.CurIs(RETAIN_SOURCES) then
      var (st1, b) := ParseColonBool(st);
      if b.None? then Done(st1, None)
      else MergeBody(SkipDelimiter(st1).Next(),
                     if st.CurIs(RETAIN_SOURCES) then node.(retainSources := b.value)
                     else node.(reanchorRelations := b.value))
    else MergeBody(SkipDelimiter(st).Next(), node)
  }

  function ParseMergeEntities(st: State): (r: Outcome<Option<MergeNode>>)
    ensures r.From(st)
  {
    var (st1, target) := ParseIntoHeader(st);
    if target.None? then Done(st1, None)
    else
      var (st2, node) :- MergeBody(st1, MergeNode(target.value, None, Nil, Nil, false, false, []));
      if node.None? then Done(st2, None)
      else
        var (st3, assignments) := ParseTrailingSet(st2);
        Done(st3, Some(node.value.(assignments := assignments)))
  }

  function PartitionBody(st: State, part: Partition): (r: (State, Option<Partition>))
    ensures Later(st, r.0)
    decreases st.Size()
  {
    if AtEnd(st, RBRACE) then (st, Some(part))
    else if st.CurIs(DISCRIMINATOR) then
      var (st1, e) := ParseColonExpression(st);
      if e.None? then (st1, None) else PartitionBody(SkipDelimiter(st1).Next(), part.(discriminator := e.value))
    else if st.CurIs(SET) then
      var (st1, assignments) := ParseAssignments(st);
      PartitionBody(SkipDelimiter(st1).Next(), part.(assignments := assignments))
    else PartitionBody(SkipDelimiter(st).Next(), part)
  }

  function ParsePartition(st: State): (r: (State, Option<Partition>))
    ensures Later(st, r.0)
  {
    var (st1, named) := ExpectEither(st, STRING, IDENT);
    if !named then (st1, None)
    else
      var (st2, open) := st1.Expect(LBRACE);
      if open then PartitionBody(st2.Next(), Partition(st1.Current().literal, Nil, [])) else (st2, None)
  }

  function SplitBody(st: State, node: SplitNode): (r: Outcome<Option<SplitNode>>)
    ensures r.From(st)
    decreases st.Size()
  {
    if AtEnd(st, RBRACE) then Done(st, Some(node))
    else if st.CurIs(SELECT) then
      var (st1, s) := ParseSelector(st);
      if s.None? then Panicked
      else SplitBody(SkipDelimiter(st1).Next(), node.(source := s, guard := s.value.having))
    else if st.CurIs(RETAIN_SOURCE) then
      var (st1, b) := ParseColonBool(st);
      if b.None? then Done(st1, None)
      else SplitBody(SkipDelimiter(st1).Next(), node.(retainSource := b.value))
    else if st.CurIs(PARTITION) then
      var (st1, part) := ParsePartition(st);
      SplitBody(SkipDelimiter(st1).Next(),
                if part.Some? then node.(partitions := node.partitions + [part.value]) else node)
    else SplitBody(SkipDelimiter(st).Next(), node)
  }

  function ParseSplitEntity(st: State): (r: Outcome<Option<SplitNode>>)
    ensures r.From(st)
  {
    var (st1, target) := ParseIntoHeader(st);
    if target.None? then Done(st1, None)
    else SplitBody(st1, SplitNode(target.value, None, Nil, false, []))
  }

  /** A nil node is no operator. */
  function Lift<N>(o: Outcome<Option<N>>, wrap: N -> Operator): Outcome<Operator> {
    match o
    case Panicked => Panicked
    case Done(st, None) => Done(st, NilOperator)
    case Done(st, Some(n)) => Done(st, wrap(n))
  }

  function Calm<N>(r: (State, Option<N>)): Outcome<Option<N>> {
    Done(r.0, r.1)
  }

  function ParseOperator(st: State): (r: Outcome<Operator>)
    ensures r.From(st)
  {
    var t := st.Current().kind;
    if t == SELECT then Lift(ParseSelectAndAssign(st), n => SelectAndAssign(n))
    else if t == INSERT then Lift(ParseInsertEntity(st), n => InsertEntity(n))
    else if t == DELETE then Lift(ParseDeleteEntity(st), n => DeleteEntity(n))
    else if t == RELATE then Lift(Calm(ParseLink(st, TO)), n => RelateEntities(n))
    else if t == UNRELATE then Lift(Calm(ParseLink(st, FROM)), n => UnrelateEntities(n))
    else if t == MERGE then Lift(ParseMergeEntities(st), n => MergeEntities(n))
    else if t == SPLIT then Lift(ParseSplitEntity(st), n => SplitEntity(n))
    else Done(st.Fail(), NilOperator)
  }

  // ----- top-level declarations -----

  function ParseRule(st: State): (r: Outcome<Decl>)
    ensures r.From(st)
  {
    var (st1, named) := ExpectEither(st, IDENT, STRING);
    if !named then Done(st1, NilDecl)
    else
      var (st2, notes) := if st1.PeekIs(LPAREN) then ParseAnnotations(st1.Next(), Annotations([], [], []))
                          else (st1, Annotations([], [], []));
      var (st3, open) := st2.Expect(LBRACE);
      if !open then Done(st3, NilDecl)
      else
        var (st4, operator) :- ParseOperator(st3.Next());
        var (st5, closed) := SkipPeeked(st4, SEMICOLON).Expect(RBRACE);
        if !closed then Done(st5, NilDecl)
        else Done(SkipPeeked(st5, SEMICOLON),
                  RuleDecl(st1.Current().literal, notes.declaredReads, notes.declaredWrites, notes.dependsOn, operator))
  }

  function ParseCheckpoint(st: State): (r: (State, Decl))
    ensures Later(st, r.0)
  {
    var (st1, named) := ExpectEither(st, IDENT, STRING);
    if !named then (st1, NilDecl)
    else
      var (st2, after) := st1.Expect(AFTER);
      if !after then (st2, NilDecl)
      else
        var (st3, rule) := ExpectEither(st2, IDENT, STRING);
        if !rule then (st3, NilDecl)
        else (SkipPeeked(st3, SEMICOLON), CheckpointDecl(st1.Current().literal, st3.Current().literal))
  }

  function ParseRequirement(st: State): (r: (State, Option<Requirement>))
    ensures Later(st, r.0)
  {
    var (st1, path) := PathExpression(st.Next());
    if path.None? then (st1, None)
    else
      var (st2, ok) := ExpectBoth(st1, PRESENT, AS);
      if !ok then (st2, None)
      else
        var (st3, coded) := ExpectEither(st2, IDENT, STRING);
        (st3, if coded then Some(Requirement(path.value, st3.Current().literal)) else None)
  }

  function ParseImplies(st: State, implies: seq<string>): (r: (State, seq<string>))
    ensures Later(st, r.0)
    decreases st.Size()
  {
    if AtEnd(st, RPAREN) then (st, implies)
    else
      var st1 := st.Next();
      if st1.CurIs(IMPLIES) then
        var (st2, list) := ParseBracketed(st1);
        ParseImplies(st2, list.GetOr(implies))
      else ParseImplies(st1, implies)
  }

  function ParseRequirements(st: State, requirements: seq<Requirement>): (r: (State, seq<Requirement>))
    ensures Later(st, r.0)
    decreases st.Size()
  {
    if AtEnd(st, RBRACE) then (st, requirements)
    else if st.CurIs(REQUIRE) then
      var (st1, req) := ParseRequirement(st);
      ParseRequirements(SkipPeeked(st1, SEMICOLON).Next(),
                        if req.Some? then requirements + [req.value] else requirements)
    else ParseRequirements(SkipPeeked(st, SEMICOLON).Next(), requirements)
  }

  function ParseProfile(st: State): (r: (State, Decl))
    ensures Later(st, r.0)
  {
    var (st1, named) := ExpectEither(st, IDENT, STRING);
    if !named then (st1, NilDecl)
    else
      var (st2, scoped) := ExpectBoth(st1, FOR, ENTITY);
      if !scoped then (st2, NilDecl)
      else
        var (st3, kind) := st2.Expect(IDENT);
        if !kind then (st3, NilDecl)
        else
          var (st4, implies) := if st3.PeekIs(LPAREN) then ParseImplies(st3.Next(), []) else (st3, []);
          var (st5, open) := st4.Expect(LBRACE);
          if !open then (st5, NilDecl)
          else
            var (st6, requirements) := ParseRequirements(st5.Next(), []);
            (st6, ProfileDecl(st1.Current().literal, st3.Current().literal, implies, requirements))
  }

  /** `None` is the nil interface, which the file does not keep. */
  function ParseDeclaration(st: State): (r: Outcome<Option<Decl>>)
    ensures r.From(st)
  {
    var t := st.Current().kind;
    if t == SCHEMA then var (st1, d) := ParseSchema(st); Done(st1, Some(d))
    else if t == ENTITY then var (st1, d) := ParseEntityAlone(st); Done(st1, Some(d))
    else if t == RELATION then var (st1, d) := ParseRelationAlone(st); Done(st1, Some(d))
    else if t == RULE then var (st1, d) :- ParseRule(st); Done(st1, Some(d))
    else if t == CHECKPOINT then var (st1, d) := ParseCheckpoint(st); Done(st1, Some(d))
    else if t == PROFILE then var (st1, d) := ParseProfile(st); Done(st1, Some(d))
    else if t == SEMICOLON then Done(st, None)
    else Done(st.Fail(), None)
  }

  function ParseDeclarations(st: State, decls: seq<Decl>): (r: Outcome<seq<Decl>>)
    ensures r.From(st)
    decreases st.Size()
  {
    if st.CurIs(EOF) then Done(st, decls)
    else
      var (st1, decl) :- ParseDeclaration(st);
      ParseDeclarations(st1.Next(), if decl.Some? then decls + [decl.value] else decls)
  }

  /** The file a token stream holds, and the number of errors. */
  function ParseTokens(ts: Toks): Outcome<File> {
    var (st, decls) :- ParseDeclarations(State(ts, 0), []);
    Done(st, File(decls))
  }
}
