/** What the parser makes of any source it finds no error in: every name, path and call is one the
    printer can write, whatever stands in the literals. */
module ParserOutput {
  import opened Tokens
  import opened Ast
  import opened LexerSpec
  import opened ExprParserSpec
  import opened FileParserSpec
  import opened LexerFacts
  import opened Pratt
  import opened ExprRoundTrip
  import opened FileTokens

  // ----- the tokens of a text -----

  /** A word of the lexer is spelled as the keyword table says, and an integer is digits. */
  predicate Spelled(t: Token) {
    && (IsPathToken(t.kind) || IsBuiltin(t.kind) ==> IsWord(t.literal) && LookupIdent(t.literal) == t.kind)
    && (t.kind == INT ==> IsInteger(t.literal))
    && (t.kind == ATOM ==> IsWord(t.literal))
  }

  predicate SpelledAll(ts: Toks) {
    ts.End? || (IsLexed(ts.head) && Spelled(ts.head) && SpelledAll(ts.tail))
  }

  lemma {:induction false} WordEndIsWord(s: string)
    requires s != "" && IsLetter(s[0])
    ensures IsWord(s[..WordEnd(s)])
  {
    WordEndIsIdent(s);
  }

  lemma {:induction false} WordEndIsIdent(s: string)
    ensures forall i :: 0 <= i < WordEnd(s) ==> IsIdentChar(s[i])
    decreases |s|
  {
    if s != "" && IsIdentChar(s[0]) {
      WordEndIsIdent(s[1..]);
      assert forall i :: 0 < i < WordEnd(s) ==> s[i] == s[1..][i - 1];
    }
  }

  lemma {:induction false} DigitEndIsDigits(s: string)
    ensures forall i :: 0 <= i < DigitEnd(s) ==> IsDigit(s[i])
    decreases |s|
  {
    if s != "" && IsDigit(s[0]) {
      DigitEndIsDigits(s[1..]);
      assert forall i :: 0 < i < DigitEnd(s) ==> s[i] == s[1..][i - 1];
    }
  }

  lemma NumberIsSpelled(s: string)
    requires s != "" && IsDigit(s[0])
    ensures Spelled(Number(s).0)
  {
    DigitEndIsDigits(s);
  }

  lemma LexOneIsSpelled(s: string)
    requires Head(s) != '\0'
    ensures Spelled(LexOne(s).0)
  {
    hide LookupIdent, StringBody, Number;
    if IsLetter(s[0]) {
      WordEndIsWord(s);
      LetterBranch(s);
      NoNumberWords(s[..WordEnd(s)]);
    } else if IsDigit(s[0]) {
      DigitBranch(s);
      NumberIsSpelled(s);
    } else if s[0] == ':' {
      if IsLetter(Second(s)) { WordEndIsWord(s[1..]); }
    } else {
      NoOtherWords(s);
    }
  }

  lemma NoNumberWords(w: string)
    ensures LookupIdent(w) != INT && LookupIdent(w) != ATOM
  {
  }

  lemma NoOtherWords(s: string)
    requires Head(s) != '\0' && !IsLetter(s[0]) && !IsDigit(s[0]) && s[0] != ':'
    ensures !IsPathToken(LexOne(s).0.kind) && !IsBuiltin(LexOne(s).0.kind) && LexOne(s).0.kind != INT && LexOne(s).0.kind != ATOM
  {
    hide LookupIdent, StringBody, NumberBody;
  }

  lemma {:induction false} StreamIsSpelled(s: string)
    ensures SpelledAll(StreamOf(s))
    decreases |s|
  {
    hide LexOne, Skip, Spelled;
    var t := Skip(s);
    if Head(t) != '\0' {
      LexOneIsSpelled(t);
      StreamIsSpelled(LexOne(t).1);
      assert StreamOf(s) == TokenThen(t);
    }
  }

  lemma {:induction false} SpelledIsProper(ts: Toks)
    requires SpelledAll(ts)
    ensures ts.Proper()
  {
    if ts.Cons? { SpelledIsProper(ts.tail); }
  }

  // ----- expressions -----

  predicate ShapedLiteral(kind: LitKind, t: string) {
    match kind
    case LitInt => IsInteger(Unsigned(t))
    case LitBool => t == "true" || t == "false"
    case LitNull => t == "null"
    case _ => true
  }

  /** Names, paths, calls and prefix operators are as the printer writes them. */
  predicate ShapedTree(e: Expr)
    decreases e
  {
    match e
    case Nil => false
    case Path(p) => IsPath(p)
    case Lit(kind, t) => ShapedLiteral(kind, t)
    case Unary(op, right) => (op == MINUS || op == NOT) && ShapedTree(right)
    case Binary(op, l, r) => Precedence(op) > LOWEST && ShapedTree(l) && ShapedTree(r)
    case Call(name, args) => IsFunctionName(name) && forall a <- args :: ShapedTree(a)
  }

  predicate ShapedExpr(e: Expr) {
    e == Nil || ShapedTree(e)
  }

  lemma {:induction false} DottedIsPath(h: Token, names: seq<Token>)
    requires IsPathToken(h.kind) && Spelled(h)
    requires forall t <- names :: IsPathToken(t.kind) && Spelled(t)
    ensures IsPath(h.literal + DotText(names))
    decreases names
  {
    var w := h.literal;
    if names == [] {
      WordEndOf(w, "");
      assert w + "" == w;
    } else {
      var rest := names[0].literal + DotText(names[1..]);
      DottedIsPath(names[0], names[1..]);
      DotTextStep(names);
      WordEndOf(w, "." + rest);
      assert (w + ("." + rest))[..|w|] == w && (w + ("." + rest))[|w| + 1..] == rest;
    }
  }

  lemma {:induction false} DotsSpelled(names: seq<Token>, k: Toks)
    requires SpelledAll(DotsThen(names, k))
    ensures SpelledAll(k) && forall t <- names :: Spelled(t) && IsLexed(t)
    decreases names
  {
    if names != [] { DotsSpelled(names[1..], k); }
  }

  lemma {:induction false} MoreShaped(args: seq<Cst>, k: Toks)
    requires (forall a <- args :: Legal(a)) && SpelledAll(MoreThen(args, k))
    ensures SpelledAll(k) && forall e <- EraseAll(args) :: ShapedTree(e)
    decreases args
  {
    if args != [] {
      TreeShaped(args[0], MoreThen(args[1..], k));
      MoreShaped(args[1..], k);
    }
  }

  lemma LeafShaped(t: Token)
    requires Spelled(t)
    ensures IsPrimitive(t.kind) ==> ShapedTree(Erase(Prim(t)))
    ensures t.kind == INT || t.kind == DECIMAL ==> ShapedTree(Erase(Negated(t)))
  {
    if t.kind == INT { assert t.literal[0] in t.literal && ("-" + t.literal)[1..] == t.literal; }
  }

  lemma {:induction false} TreeShaped(c: Cst, k: Toks)
    requires Legal(c) && SpelledAll(Then(c, k))
    ensures ShapedTree(Erase(c)) && SpelledAll(Cons(Last(c), k))
    decreases c
  {
    match c
    case Prim(t) => LeafShaped(t);
    case Dotted(h, names) => DotsSpelled(names, k); DottedIsPath(h, names);
    case Negated(t) => LeafShaped(t);
    case Prefixed(_, arg) => TreeShaped(arg, k);
    case Group(inner) => TreeShaped(inner, Cons(RPAREN_TOKEN, k));
    case Constructed(name, payload) => assert SpelledAll(Cons(payload, Cons(RPAREN_TOKEN, k)));
    case Applied(name, args) => AppliedShaped(name, args, k);
    case Infixed(l, op, r) => TreeShaped(l, Cons(op, Then(r, k))); TreeShaped(r, k);
  }

  lemma {:induction false} AppliedShaped(name: Token, args: seq<Cst>, k: Toks)
    requires Legal(Applied(name, args)) && SpelledAll(Then(Applied(name, args), k))
    ensures ShapedTree(Call(name.literal, EraseAll(args))) && SpelledAll(Cons(RPAREN_TOKEN, k))
    decreases args
  {
    if args != [] {
      var close := Cons(RPAREN_TOKEN, k);
      TreeShaped(args[0], MoreThen(args[1..], close));
      MoreShaped(args[1..], close);
    }
  }

  predicate Fine(st: State) {
    SpelledAll(st.toks)
  }

  lemma ExprShaped(st: State, p: nat)
    requires Fine(st) && LOWEST <= p && ParseExpression(st, p).0.errs == st.errs
    ensures Fine(ParseExpression(st, p).0) && ShapedTree(ParseExpression(st, p).1)
  {
    hide ParseExpression;
    SpelledIsProper(st.toks);
    var c, k := Explain(st, p);
    TreeShaped(c, k);
  }

  lemma PathShaped(st: State)
    requires Fine(st) && PathExpression(st).0.errs == st.errs
    ensures Fine(PathExpression(st).0) && PathExpression(st).1.Some? && IsPath(PathExpression(st).1.value)
  {
    hide PathTail;
    SpelledIsProper(st.toks);
    var names, k := ExplainPath(st, st.Current().literal);
    TreeShaped(Dotted(st.Current(), names), k);
  }

  // ----- declarations, as the parser leaves them -----

  predicate ShapedSelector(s: Selector) {
    IsName(s.kind) && ShapedExpr(s.where) && ShapedExpr(s.groupBy) && ShapedExpr(s.having)
  }

  predicate ShapedAssignment(a: Assignment) {
    IsPath(a.target) && ShapedTree(a.value)
  }

  predicate ShapedAssignments(assigns: seq<Assignment>) {
    forall a <- assigns :: ShapedAssignment(a)
  }

  /** The guard of an operator is the `having` clause of the selector in its braces. */
  predicate ShapedSource(s: Option<Selector>, guard: Expr) {
    s.Some? ==> ShapedSelector(s.value) && guard == s.value.having
  }

  predicate ShapedEndpoint(s: Option<Selector>) {
    s.Some? ==> ShapedSelector(s.value)
  }

  predicate ShapedLink(n: LinkNode) {
    ShapedEndpoint(n.from) && ShapedEndpoint(n.to) && ShapedExpr(n.guard)
  }

  predicate ShapedPartition(p: Partition) {
    ShapedExpr(p.discriminator) && ShapedAssignments(p.assignments)
  }

  predicate ShapedOperator(op: Operator) {
    match op
    case NilOperator => false
    case SelectAndAssign(n) => ShapedSelector(n.selector) && n.guard == n.selector.having && ShapedAssignments(n.assignments)
    case InsertEntity(n) =>
      IsName(n.target) && ShapedSource(n.source, n.guard) && ShapedExpr(n.discriminator) && ShapedAssignments(n.assignments)
    case DeleteEntity(n) => ShapedSource(n.source, n.guard)
    case RelateEntities(n) => ShapedLink(n)
    case UnrelateEntities(n) => ShapedLink(n)
    case MergeEntities(n) =>
      IsName(n.target) && ShapedSource(n.source, n.guard) && ShapedExpr(n.discriminator) && ShapedAssignments(n.assignments)
    case SplitEntity(n) =>
      IsName(n.target) && ShapedSource(n.source, n.guard) && forall p <- n.partitions :: ShapedPartition(p)
  }

  predicate ShapedRelation(r: Relation) {
    IsName(r.kind) && (r.fromKind == "" || IsName(r.fromKind)) && (r.toKind == "" || IsName(r.toKind))
  }

  predicate ShapedDecl(d: Decl) {
    match d
    case NilDecl => false
    case SchemaDecl(es, rs) => (forall e <- es :: GoodEntity(e)) && (forall r <- rs :: ShapedRelation(r))
    case RuleDecl(id, _, _, _, op) => IsName(id) && ShapedOperator(op)
    case CheckpointDecl(key, after) => IsName(key) && IsName(after)
    case ProfileDecl(key, kind, _, reqs) => IsName(key) && IsName(kind) && forall r <- reqs :: GoodRequirement(r)
  }

  // ----- the parser keeps the shape -----

  /** Moving on stays in the stream, and what an identifier token holds is a name. */
  lemma Steps(st: State)
    requires Fine(st)
    ensures Fine(st.Next()) && Fine(SkipDelimiter(st)) && forall t :: Fine(SkipPeeked(st, t))
    ensures st.CurIs(IDENT) ==> IsName(st.Current().literal)
    ensures st.PeekIs(IDENT) ==> IsName(st.Next().Current().literal)
  {
    hide LookupIdent;
  }

  lemma FieldShaped(st: State)
    requires Fine(st) && ParseField(st).0.errs == st.errs
    ensures var (st1, f) := ParseField(st); Fine(st1) && f.Some? && IsName(f.value.name) && IsName(f.value.typeName)
  {
    hide LookupIdent, IsWord;
    Steps(st);
    Steps(st.Next());
    Steps(st.Next().Next());
    Steps(st.Next().Next().Next());
  }

  lemma {:induction false} FieldsShaped(st: State, fields: seq<Field>)
    requires Fine(st) && ParseFields(st, fields).0.errs == st.errs
    requires forall f <- fields :: IsName(f.name) && IsName(f.typeName)
    ensures var (st1, fs) := ParseFields(st, fields); Fine(st1) && forall f <- fs :: IsName(f.name) && IsName(f.typeName)
    decreases st.Size()
  {
    hide ParseField, IsName;
    if !AtEnd(st, RBRACE) {
      var (st1, f) := ParseField(st);
      FieldShaped(st);
      Steps(st1);
      FieldsShaped(st1.Next(), fields + [f.value]);
    }
  }

  lemma EntityShaped(st: State)
    requires Fine(st) && ParseEntity(st).0.errs == st.errs
    ensures var (st1, e) := ParseEntity(st); Fine(st1) && e.Some? && GoodEntity(e.value)
  {
    hide IsName, ParseFields;
    Steps(st);
    Steps(st.Next());
    Steps(st.Next().Next());
    FieldsShaped(st.Next().Next().Next(), []);
  }

  lemma {:induction false} EndpointsShaped(st: State, rel: Relation)
    requires Fine(st) && ParseEndpoints(st, rel).0.errs == st.errs && ShapedRelation(rel)
    ensures var (st1, r) := ParseEndpoints(st, rel); Fine(st1) && r.Some? && ShapedRelation(r.value)
    decreases st.Size()
  {
    hide IsName, SpelledAll;
    Steps(st);
    if AtEnd(st, RBRACE) {
    } else if st.CurIs(FROM) || st.CurIs(TO) {
      var st1 := ExpectBoth(st, COLON, IDENT).0;
      Steps(st.Next());
      Steps(st1);
      Steps(SkipDelimiter(st1));
      var kind := st1.Current().literal;
      EndpointsShaped(SkipDelimiter(st1).Next(), if st.CurIs(FROM) then rel.(fromKind := kind) else rel.(toKind := kind));
    } else {
      Steps(SkipDelimiter(st));
      EndpointsShaped(SkipDelimiter(st).Next(), rel);
    }
  }

  lemma RelationShaped(st: State)
    requires Fine(st) && ParseRelation(st).0.errs == st.errs
    ensures var (st1, r) := ParseRelation(st); Fine(st1) && r.Some? && ShapedRelation(r.value)
  {
    hide IsName, SpelledAll, ParseEndpoints;
    Steps(st);
    Steps(st.Next());
    Steps(st.Next().Next());
    EndpointsShaped(st.Next().Next().Next(), Relation(st.Next().Current().literal, "", ""));
  }

  lemma {:induction false} SchemaShaped(st: State, es: seq<Entity>, rs: seq<Relation>)
    requires Fine(st) && ParseSchemaBody(st, es, rs).0.errs == st.errs
    requires (forall e <- es :: GoodEntity(e)) && (forall r <- rs :: ShapedRelation(r))
    ensures var (st1, d) := ParseSchemaBody(st, es, rs); Fine(st1) && ShapedDecl(d)
    decreases st.Size()
  {
    hide ParseEntity, ParseRelation, GoodEntity, ShapedRelation, SpelledAll;
    if AtEnd(st, RBRACE) {
    } else if st.CurIs(ENTITY) {
      var (st1, e) := ParseEntity(st);
      EntityShaped(st);
      Steps(st1);
      SchemaShaped(st1.Next(), es + [e.value], rs);
    } else {
      var (st1, r) := ParseRelation(st);
      RelationShaped(st);
      Steps(st1);
      SchemaShaped(st1.Next(), es, rs + [r.value]);
    }
  }

  lemma {:induction false} ItemsFine(st: State, list: seq<string>)
    requires Fine(st)
    ensures Fine(ParseStringItems(st, list).0)
    decreases st.Size()
  {
    hide SpelledAll;
    if !AtEnd(st, RBRACKET) {
      Steps(st);
      Steps(SkipPeeked(st, COMMA));
      var list1 := if st.CurIs(IDENT) || st.CurIs(STRING) then list + [st.Current().literal] else list;
      ItemsFine(SkipPeeked(st, COMMA).Next(), list1);
    }
  }

  lemma BracketedFine(st: State)
    requires Fine(st)
    ensures Fine(ParseBracketed(st).0)
  {
    hide SpelledAll, ParseStringItems;
    Steps(st);
    Steps(st.Next());
    Steps(st.Next().Next());
    if ExpectBoth(st, COLON, LBRACKET).1 { ItemsFine(st.Next().Next().Next(), []); }
  }

  lemma {:induction false} AnnotationsFine(st: State, notes: Annotations)
    requires Fine(st)
    ensures Fine(ParseAnnotations(st, notes).0)
    decreases st.Size()
  {
    hide SpelledAll, ParseBracketed;
    if !AtEnd(st, RPAREN) {
      var st1 := st.Next();
      Steps(st);
      Steps(st1);
      var t := st1.Current().kind;
      if t == READS || t == WRITES || t == DEPENDS_ON {
        var (st2, list) := ParseBracketed(st1);
        BracketedFine(st1);
        Steps(st2);
        var notes1 := if list.None? then notes
                      else if t == READS then notes.(declaredReads := list.value)
                      else if t == WRITES then notes.(declaredWrites := list.value)
                      else notes.(dependsOn := list.value);
        AnnotationsFine(SkipPeeked(st2, COMMA), notes1);
      } else {
        AnnotationsFine(SkipPeeked(st1, COMMA), notes);
      }
    }
  }

  lemma ClauseShaped(st: State, keyword: TokenType)
    requires Fine(st) && ParseClause(st, keyword).0.errs == st.errs
    ensures Fine(ParseClause(st, keyword).0) && ShapedExpr(ParseClause(st, keyword).1)
  {
    hide SpelledAll, ParseExpression;
    if st.PeekIs(keyword) {
      Steps(st);
      Steps(st.Next());
      ExprShaped(st.Next().Next(), LOWEST);
    }
  }

  lemma SelectorShaped(st: State)
    requires Fine(st) && ParseSelector(st).0.errs == st.errs
    ensures var (st1, s) := ParseSelector(st); Fine(st1) && s.Some? && ShapedSelector(s.value)
  {
    hide SpelledAll, ParseClause, ShapedExpr, IsName;
    Steps(st);
    var st1 := st.Next();
    ClauseShaped(st1, WHERE);
    var st2 := ParseClause(st1, WHERE).0;
    ClauseShaped(st2, GROUP_BY);
    ClauseShaped(ParseClause(st2, GROUP_BY).0, HAVING);
  }

  lemma {:induction false} AssignmentListShaped(st: State, list: seq<Assignment>)
    requires Fine(st) && ParseAssignmentList(st, list).0.errs == st.errs && ShapedAssignments(list)
    ensures var (st1, all) := ParseAssignmentList(st, list); Fine(st1) && ShapedAssignments(all)
    decreases st.Size()
  {
    hide SpelledAll, ParseExpression, PathExpression, ShapedAssignment;
    var (st1, target) := PathExpression(st);
    PathShaped(st);
    var st2 := st1.Expect(ASSIGN).0;
    Steps(st1);
    Steps(st2);
    var (st3, value) := ParseExpression(st2.Next(), LOWEST);
    ExprShaped(st2.Next(), LOWEST);
    Steps(st3);
    Steps(st3.Next());
    var a := Assignment(target.value, value);
    assert ShapedAssignment(a) by { ShapedPair(a); }
    if st3.PeekIs(COMMA) { AssignmentListShaped(st3.Next().Next(), list + [a]); }
  }

  lemma ShapedPair(a: Assignment)
    requires IsPath(a.target) && ShapedTree(a.value)
    ensures ShapedAssignment(a)
  {
  }

  lemma AssignmentsShaped(st: State)
    requires Fine(st) && ParseAssignments(st).0.errs == st.errs
    ensures var (st1, all) := ParseAssignments(st); Fine(st1) && ShapedAssignments(all)
  {
    hide SpelledAll, ParseAssignmentList, ShapedAssignment;
    Steps(st);
    if st.CurIs(SET) {
      AssignmentListShaped(st.Next(), []);
    } else {
      Steps(st.Next());
      AssignmentListShaped(st.Next().Next(), []);
    }
  }

  lemma TrailingShaped(st: State)
    requires Fine(st) && ParseTrailingSet(st).0.errs == st.errs
    ensures var (st1, all) := ParseTrailingSet(st); Fine(st1) && ShapedAssignments(all)
  {
    hide SpelledAll, ParseAssignments, ShapedAssignment;
    Steps(st);
    if st.PeekIs(SET) { AssignmentsShaped(st.Next()); }
  }

  lemma ColonExprShaped(st: State)
    requires Fine(st) && ParseColonExpression(st).0.errs == st.errs
    ensures var (st1, e) := ParseColonExpression(st); Fine(st1) && e.Some? && ShapedExpr(e.value)
  {
    hide SpelledAll, ParseExpression;
    Steps(st);
    Steps(st.Next());
    ExprShaped(st.Next().Next(), LOWEST);
  }

  lemma ColonSelectShaped(st: State)
    requires Fine(st) && ParseColonSelect(st).0.errs == st.errs
    ensures var (st1, s) := ParseColonSelect(st); Fine(st1) && s.Some? && s.value.Some? && ShapedSelector(s.value.value)
  {
    hide SpelledAll, ParseSelector;
    Steps(st);
    Steps(st.Next());
    SelectorShaped(ExpectBoth(st, COLON, SELECT).0);
  }

  lemma ColonBoolFine(st: State)
    requires Fine(st) && ParseColonBool(st).0.errs == st.errs
    ensures Fine(ParseColonBool(st).0) && ParseColonBool(st).1.Some?
  {
    hide SpelledAll;
    Steps(st);
    Steps(st.Next());
  }

  /** The state behind a delimiter, where the loop over a braced body goes on. */
  lemma GoesOn(st: State)
    requires Fine(st)
    ensures Fine(SkipDelimiter(st).Next())
  {
    Steps(st);
    Steps(SkipDelimiter(st));
  }

  lemma {:induction false} InsertBodyShaped(st: State, n: InsertNode)
    requires Fine(st) && ShapedSource(n.source, n.guard) && ShapedExpr(n.discriminator)
    requires var o := InsertBody(st, n); o.Done? && o.st.errs == st.errs
    ensures var o := InsertBody(st, n);
            && Fine(o.st) && o.value.Some? && o.value.value.target == n.target && o.value.value.assignments == n.assignments
            && ShapedSource(o.value.value.source, o.value.value.guard) && ShapedExpr(o.value.value.discriminator)
    decreases st.Size()
  {
    hide Fine, ParseSelector, ParseColonExpression, ShapedSelector, ShapedExpr;
    if AtEnd(st, RBRACE) {
    } else if st.CurIs(SELECT) {
      var (st1, s) := ParseSelector(st);
      SelectorShaped(st);
      GoesOn(st1);
      InsertBodyShaped(SkipDelimiter(st1).Next(), n.(source := s, guard := s.value.having));
    } else if st.CurIs(DISCRIMINATOR) {
      var (st1, e) := ParseColonExpression(st);
      ColonExprShaped(st);
      GoesOn(st1);
      InsertBodyShaped(SkipDelimiter(st1).Next(), n.(discriminator := e.value));
    } else {
      GoesOn(st);
      InsertBodyShaped(SkipDelimiter(st).Next(), n);
    }
  }

  lemma {:induction false} DeleteBodyShaped(st: State, n: DeleteNode)
    requires Fine(st) && ShapedSource(n.source, n.guard)
    requires var o := DeleteBody(st, n); o.Done? && o.st.errs == st.errs
    ensures var o := DeleteBody(st, n); Fine(o.st) && o.value.Some? && ShapedSource(o.value.value.source, o.value.value.guard)
    decreases st.Size()
  {
    hide Fine, ParseSelector, ShapedSelector;
    if AtEnd(st, RBRACE) {
    } else if st.CurIs(SELECT) {
      var (st1, s) := ParseSelector(st);
      SelectorShaped(st);
      GoesOn(st1);
      DeleteBodyShaped(SkipDelimiter(st1).Next(), DeleteNode(s, s.value.having));
    } else {
      GoesOn(st);
      DeleteBodyShaped(SkipDelimiter(st).Next(), n);
    }
  }

  lemma {:induction false} LinkBodyShaped(st: State, n: LinkNode)
    requires Fine(st) && ShapedLink(n) && LinkBody(st, n).0.errs == st.errs
    ensures var (st1, r) := LinkBody(st, n); Fine(st1) && r.Some? && ShapedLink(r.value)
    decreases st.Size()
  {
    hide Fine, ParseColonSelect, ParseColonExpression, ShapedSelector, ShapedExpr;
    if AtEnd(st, RBRACE) {
    } else if st.CurIs(FROM) || st.CurIs(TO) {
      var (st1, s) := ParseColonSelect(st);
      ColonSelectShaped(st);
      GoesOn(st1);
      LinkBodyShaped(SkipDelimiter(st1).Next(), if st.CurIs(FROM) then n.(from := s.value) else n.(to := s.value));
    } else if st.CurIs(GUARD) {
      var (st1, e) := ParseColonExpression(st);
      ColonExprShaped(st);
      GoesOn(st1);
      LinkBodyShaped(SkipDelimiter(st1).Next(), n.(guard := e.value));
    } else {
      GoesOn(st);
      LinkBodyShaped(SkipDelimiter(st).Next(), n);
    }
  }

  lemma {:induction false} MergeBodyShaped(st: State, n: MergeNode)
    requires Fine(st) && ShapedSource(n.source, n.guard) && ShapedExpr(n.discriminator)
    requires var o := MergeBody(st, n); o.Done? && o.st.errs == st.errs
    ensures var o := MergeBody(st, n);
            && Fine(o.st) && o.value.Some? && o.value.value.target == n.target && o.value.value.assignments == n.assignments
            && ShapedSource(o.value.value.source, o.value.value.guard) && ShapedExpr(o.value.value.discriminator)
    decreases st.Size()
  {
    hide Fine, ParseSelector, ParseColonExpression, ParseColonBool, ShapedSelector, ShapedExpr;
    if AtEnd(st, RBRACE) {
    } else if st.CurIs(SELECT) {
      var (st1, s) := ParseSelector(st);
      SelectorShaped(st);
      GoesOn(st1);
      MergeBodyShaped(SkipDelimiter(st1).Next(), n.(source := s, guard := s.value.having));
    } else if st.CurIs(DISCRIMINATOR) {
      var (st1, e) := ParseColonExpression(st);
      ColonExprShaped(st);
      GoesOn(st1);
      MergeBodyShaped(SkipDelimiter(st1).Next(), n.(discriminator := e.value));
    } else if st.CurIs(REANCHOR_RELATIONS) || st.CurIs(RETAIN_SOURCES) {
      var (st1, b) := ParseColonBool(st);
      ColonBoolFine(st);
      GoesOn(st1);
      MergeBodyShaped(SkipDelimiter(st1).Next(),
                      if st.CurIs(RETAIN_SOURCES) then n.(retainSources := b.value) else n.(reanchorRelations := b.value));
    } else {
      GoesOn(st);
      MergeBodyShaped(SkipDelimiter(st).Next(), n);
    }
  }

  lemma {:induction false} PartitionBodyShaped(st: State, p: Partition)
    requires Fine(st) && ShapedPartition(p) && PartitionBody(st, p).0.errs == st.errs
    ensures var (st1, r) := PartitionBody(st, p); Fine(st1) && r.Some? && ShapedPartition(r.value)
    decreases st.Size()
  {
    hide Fine, ParseAssignments, ParseColonExpression, ShapedAssignments, ShapedExpr;
    if AtEnd(st, RBRACE) {
    } else if st.CurIs(DISCRIMINATOR) {
      var (st1, e) := ParseColonExpression(st);
      ColonExprShaped(st);
      GoesOn(st1);
      PartitionBodyShaped(SkipDelimiter(st1).Next(), p.(discriminator := e.value));
    } else if st.CurIs(SET) {
      var (st1, assigns) := ParseAssignments(st);
      AssignmentsShaped(st);
      GoesOn(st1);
      PartitionBodyShaped(SkipDelimiter(st1).Next(), p.(assignments := assigns));
    } else {
      GoesOn(st);
      PartitionBodyShaped(SkipDelimiter(st).Next(), p);
    }
  }

  lemma PartitionShaped(st: State)
    requires Fine(st) && FileParserSpec.ParsePartition(st).0.errs == st.errs
    ensures var (st1, p) := FileParserSpec.ParsePartition(st); Fine(st1) && p.Some? && ShapedPartition(p.value)
  {
    hide SpelledAll, PartitionBody, ShapedPartition;
    Steps(st);
    Steps(st.Next());
    Steps(st.Next().Next());
    var p := Partition(st.Next().Current().literal, Nil, []);
    assert ShapedPartition(p) by { BarePartition(p); }
    PartitionBodyShaped(st.Next().Next().Next(), p);
  }

  lemma BarePartition(p: Partition)
    requires p.discriminator == Nil && p.assignments == []
    ensures ShapedPartition(p)
  {
  }

  lemma {:induction false} SplitBodyShaped(st: State, n: SplitNode)
    requires Fine(st) && ShapedSource(n.source, n.guard) && forall p <- n.partitions :: ShapedPartition(p)
    requires var o := SplitBody(st, n); o.Done? && o.st.errs == st.errs
    ensures var o := SplitBody(st, n);
            && Fine(o.st) && o.value.Some? && o.value.value.target == n.target
            && ShapedSource(o.value.value.source, o.value.value.guard)
            && forall p <- o.value.value.partitions :: ShapedPartition(p)
    decreases st.Size()
  {
    hide Fine, ParseSelector, FileParserSpec.ParsePartition, ParseColonBool, ShapedSelector, ShapedPartition;
    if AtEnd(st, RBRACE) {
    } else if st.CurIs(SELECT) {
      var (st1, s) := ParseSelector(st);
      SelectorShaped(st);
      GoesOn(st1);
      SplitBodyShaped(SkipDelimiter(st1).Next(), n.(source := s, guard := s.value.having));
    } else if st.CurIs(RETAIN_SOURCE) {
      var (st1, b) := ParseColonBool(st);
      ColonBoolFine(st);
      GoesOn(st1);
      SplitBodyShaped(SkipDelimiter(st1).Next(), n.(retainSource := b.value));
    } else if st.CurIs(PARTITION) {
      var (st1, p) := FileParserSpec.ParsePartition(st);
      PartitionShaped(st);
      GoesOn(st1);
      SplitBodyShaped(SkipDelimiter(st1).Next(), n.(partitions := n.partitions + [p.value]));
    } else {
      GoesOn(st);
      SplitBodyShaped(SkipDelimiter(st).Next(), n);
    }
  }

  lemma IntoHeaderShaped(st: State)
    requires Fine(st) && ParseIntoHeader(st).0.errs == st.errs
    ensures var (st1, name) := ParseIntoHeader(st); Fine(st1) && name.Some? && IsName(name.value)
  {
    hide SpelledAll, IsName;
    Steps(st);
    Steps(st.Next());
    Steps(st.Next().Next());
    Steps(st.Next().Next().Next());
    Steps(st.Next().Next().Next().Next());
  }

  lemma LinkHeaderFine(st: State, word: TokenType)
    requires Fine(st) && ParseLinkHeader(st, word).0.errs == st.errs
    ensures Fine(ParseLinkHeader(st, word).0) && ParseLinkHeader(st, word).1.Some?
  {
    hide SpelledAll, IsName;
    Steps(st);
    Steps(st.Next());
    Steps(st.Next().Next());
    Steps(st.Next().Next().Next());
    Steps(st.Next().Next().Next().Next());
    Steps(st.Next().Next().Next().Next().Next());
    Steps(st.Next().Next().Next().Next().Next().Next());
  }

  lemma LinkShaped(st: State, word: TokenType)
    requires Fine(st) && ParseLink(st, word).0.errs == st.errs
    ensures var (st1, n) := ParseLink(st, word); Fine(st1) && n.Some? && ShapedLink(n.value)
  {
    hide Fine, ParseLinkHeader, LinkBody;
    LinkHeaderFine(st, word);
    var (st1, name) := ParseLinkHeader(st, word);
    LinkBodyShaped(st1, LinkNode(name.value, None, None, Nil));
  }

  lemma SelectShaped(st: State)
    requires Fine(st)
    requires var o := ParseSelectAndAssign(st); o.Done? && o.st.errs == st.errs
    ensures var o := ParseSelectAndAssign(st); Fine(o.st) && o.value.Some? && ShapedOperator(SelectAndAssign(o.value.value))
  {
    hide Fine, ParseSelector, ParseTrailingSet, ShapedSelector, ShapedAssignments;
    SelectorShaped(st);
    TrailingShaped(ParseSelector(st).0);
  }

  lemma InsertShaped(st: State)
    requires Fine(st)
    requires var o := ParseInsertEntity(st); o.Done? && o.st.errs == st.errs
    ensures var o := ParseInsertEntity(st); Fine(o.st) && o.value.Some? && ShapedOperator(InsertEntity(o.value.value))
  {
    hide SpelledAll, InsertBody, ParseTrailingSet, ShapedSelector, ShapedTree, ShapedAssignments, IsName;
    Steps(st);
    Steps(st.Next());
    Steps(st.Next().Next());
    var n := InsertNode(st.Next().Current().literal, None, Nil, Nil, []);
    InsertBodyShaped(st.Next().Next().Next(), n);
    TrailingShaped(InsertBody(st.Next().Next().Next(), n).st);
  }

  lemma DeleteShaped(st: State)
    requires Fine(st)
    requires var o := ParseDeleteEntity(st); o.Done? && o.st.errs == st.errs
    ensures var o := ParseDeleteEntity(st); Fine(o.st) && o.value.Some? && ShapedOperator(DeleteEntity(o.value.value))
  {
    hide SpelledAll, DeleteBody, ShapedSelector, IsName;
    Steps(st);
    Steps(st.Next());
    Steps(st.Next().Next());
    DeleteBodyShaped(st.Next().Next().Next(), DeleteNode(None, Nil));
  }

  lemma MergeShaped(st: State)
    requires Fine(st)
    requires var o := ParseMergeEntities(st); o.Done? && o.st.errs == st.errs
    ensures var o := ParseMergeEntities(st); Fine(o.st) && o.value.Some? && ShapedOperator(MergeEntities(o.value.value))
  {
    hide Fine, ParseIntoHeader, MergeBody, ParseTrailingSet, ShapedSelector, ShapedTree, ShapedAssignments, IsName;
    IntoHeaderShaped(st);
    var (st1, target) := ParseIntoHeader(st);
    var n := MergeNode(target.value, None, Nil, Nil, false, false, []);
    MergeBodyShaped(st1, n);
    TrailingShaped(MergeBody(st1, n).st);
  }

  lemma SplitShaped(st: State)
    requires Fine(st)
    requires var o := ParseSplitEntity(st); o.Done? && o.st.errs == st.errs
    ensures var o := ParseSplitEntity(st); Fine(o.st) && o.value.Some? && ShapedOperator(SplitEntity(o.value.value))
  {
    hide Fine, ParseIntoHeader, SplitBody, ShapedSelector, ShapedPartition, IsName;
    IntoHeaderShaped(st);
    var (st1, target) := ParseIntoHeader(st);
    SplitBodyShaped(st1, SplitNode(target.value, None, Nil, false, []));
  }

  lemma OperatorShaped(st: State)
    requires Fine(st)
    requires var o := ParseOperator(st); o.Done? && o.st.errs == st.errs
    ensures var o := ParseOperator(st); Fine(o.st) && ShapedOperator(o.value)
  {
    hide Fine, ParseSelectAndAssign, ParseInsertEntity, ParseDeleteEntity, ParseLink, ParseMergeEntities, ParseSplitEntity,
      ShapedSource, ShapedSelector, ShapedExpr, ShapedAssignments, ShapedPartition, ShapedLink, IsName;
    var t := st.Current().kind;
    if t == SELECT { SelectShaped(st); }
    else if t == INSERT { InsertShaped(st); }
    else if t == DELETE { DeleteShaped(st); }
    else if t == RELATE { LinkShaped(st, TO); }
    else if t == UNRELATE { LinkShaped(st, FROM); }
    else if t == MERGE { MergeShaped(st); }
    else { SplitShaped(st); }
  }

  /** The head of a rule: its name and its annotations. */
  function RuleHead(st: State): State {
    if st.PeekIs(LPAREN) then ParseAnnotations(st.Next(), Annotations([], [], [])).0 else st
  }

  lemma RuleHeadFine(st: State)
    requires Fine(st)
    ensures Fine(RuleHead(st))
  {
    hide SpelledAll, ParseAnnotations;
    Steps(st);
    if st.PeekIs(LPAREN) { AnnotationsFine(st.Next(), Annotations([], [], [])); }
  }

  lemma RuleShaped(st: State)
    requires Fine(st)
    requires var o := ParseRule(st); o.Done? && o.st.errs == st.errs
    ensures var o := ParseRule(st); Fine(o.st) && ShapedDecl(o.value)
  {
    hide SpelledAll, ParseOperator, ParseAnnotations, ShapedOperator, IsName;
    Steps(st);
    RuleHeadFine(st.Next());
    var st2 := RuleHead(st.Next());
    Steps(st2);
    Steps(st2.Next());
    OperatorShaped(st2.Next().Next());
    var st4 := ParseOperator(st2.Next().Next()).st;
    Steps(st4);
    Steps(SkipPeeked(st4, SEMICOLON));
    Steps(SkipPeeked(st4, SEMICOLON).Next());
  }

  lemma CheckpointShaped(st: State)
    requires Fine(st) && ParseCheckpoint(st).0.errs == st.errs
    ensures Fine(ParseCheckpoint(st).0) && ShapedDecl(ParseCheckpoint(st).1)
  {
    hide SpelledAll, IsName;
    Steps(st);
    Steps(st.Next());
    Steps(st.Next().Next());
    Steps(st.Next().Next().Next());
  }

  lemma RequirementShaped(st: State)
    requires Fine(st) && ParseRequirement(st).0.errs == st.errs
    ensures var (st1, r) := ParseRequirement(st); Fine(st1) && r.Some? && GoodRequirement(r.value)
  {
    hide SpelledAll, IsName, PathExpression, IsPath;
    Steps(st);
    PathShaped(st.Next());
    var st1 := PathExpression(st.Next()).0;
    Steps(st1);
    Steps(st1.Next());
    Steps(st1.Next().Next());
  }

  lemma {:induction false} RequirementsShaped(st: State, reqs: seq<Requirement>)
    requires Fine(st) && ParseRequirements(st, reqs).0.errs == st.errs && forall r <- reqs :: GoodRequirement(r)
    ensures var (st1, all) := ParseRequirements(st, reqs); Fine(st1) && forall r <- all :: GoodRequirement(r)
    decreases st.Size()
  {
    hide SpelledAll, ParseRequirement, GoodRequirement;
    if AtEnd(st, RBRACE) {
    } else if st.CurIs(REQUIRE) {
      var (st1, r) := ParseRequirement(st);
      RequirementShaped(st);
      Steps(st1);
      Steps(SkipPeeked(st1, SEMICOLON));
      RequirementsShaped(SkipPeeked(st1, SEMICOLON).Next(), reqs + [r.value]);
    } else {
      Steps(st);
      Steps(SkipPeeked(st, SEMICOLON));
      RequirementsShaped(SkipPeeked(st, SEMICOLON).Next(), reqs);
    }
  }

  lemma {:induction false} ImpliesFine(st: State, implies: seq<string>)
    requires Fine(st)
    ensures Fine(ParseImplies(st, implies).0)
    decreases st.Size()
  {
    hide SpelledAll, ParseBracketed;
    if !AtEnd(st, RPAREN) {
      var st1 := st.Next();
      Steps(st);
      if st1.CurIs(IMPLIES) {
        var (st2, list) := ParseBracketed(st1);
        BracketedFine(st1);
        ImpliesFine(st2, list.GetOr(implies));
      } else {
        ImpliesFine(st1, implies);
      }
    }
  }

  function ProfileHead(st: State): State {
    if st.PeekIs(LPAREN) then ParseImplies(st.Next(), []).0 else st
  }

  lemma ProfileHeadFine(st: State)
    requires Fine(st)
    ensures Fine(ProfileHead(st))
  {
    hide SpelledAll, ParseImplies;
    Steps(st);
    if st.PeekIs(LPAREN) { ImpliesFine(st.Next(), []); }
  }

  lemma ProfileShaped(st: State)
    requires Fine(st) && ParseProfile(st).0.errs == st.errs
    ensures Fine(ParseProfile(st).0) && ShapedDecl(ParseProfile(st).1)
  {
    hide SpelledAll, IsName, ParseImplies, ParseRequirements, GoodRequirement;
    Steps(st);
    Steps(st.Next());
    Steps(st.Next().Next());
    Steps(st.Next().Next().Next());
    var st3 := st.Next().Next().Next().Next();
    ProfileHeadFine(st3);
    Steps(ProfileHead(st3));
    Steps(ProfileHead(st3).Next());
    RequirementsShaped(ProfileHead(st3).Next().Next(), []);
  }

  lemma SchemasShaped(st: State)
    requires Fine(st)
    ensures ParseSchema(st).0.errs == st.errs ==> Fine(ParseSchema(st).0) && ShapedDecl(ParseSchema(st).1)
    ensures ParseEntityAlone(st).0.errs == st.errs ==> Fine(ParseEntityAlone(st).0) && ShapedDecl(ParseEntityAlone(st).1)
    ensures ParseRelationAlone(st).0.errs == st.errs ==> Fine(ParseRelationAlone(st).0) && ShapedDecl(ParseRelationAlone(st).1)
  {
    hide SpelledAll, ParseEntity, ParseRelation, ParseSchemaBody, GoodEntity, ShapedRelation;
    Steps(st);
    Steps(st.Next());
    if ParseSchema(st).0.errs == st.errs { SchemaShaped(st.Next().Next(), [], []); }
    if ParseEntity(st).0.errs == st.errs { EntityShaped(st); }
    if ParseRelation(st).0.errs == st.errs { RelationShaped(st); }
  }

  lemma DeclShaped(st: State)
    requires Fine(st)
    requires var o := ParseDeclaration(st); o.Done? && o.st.errs == st.errs
    ensures var o := ParseDeclaration(st); Fine(o.st) && (o.value.Some? ==> ShapedDecl(o.value.value))
  {
    hide Fine, ParseSchema, ParseEntityAlone, ParseRelationAlone, ParseRule, ParseCheckpoint, ParseProfile, ShapedDecl;
    var t := st.Current().kind;
    if t == SCHEMA || t == ENTITY || t == RELATION { SchemasShaped(st); }
    else if t == RULE { RuleShaped(st); }
    else if t == CHECKPOINT { CheckpointShaped(st); }
    else if t == PROFILE { ProfileShaped(st); }
  }

  lemma {:induction false} DeclsShaped(st: State, decls: seq<Decl>)
    requires Fine(st) && forall d <- decls :: ShapedDecl(d)
    requires var o := ParseDeclarations(st, decls); o.Done? && o.st.errs == st.errs
    ensures forall d <- ParseDeclarations(st, decls).value :: ShapedDecl(d)
    decreases st.Size()
  {
    hide SpelledAll, ParseDeclaration, ShapedDecl;
    if !st.CurIs(EOF) {
      var o := ParseDeclaration(st);
      DeclShaped(st);
      Steps(o.st);
      DeclsShaped(o.st.Next(), if o.value.Some? then decls + [o.value.value] else decls);
    }
  }

  /** SHAPE.  Whatever the source, a file that was parsed without an error has a name wherever the
      printer writes one, a path wherever it writes a path, and no operator it cannot name. */
  lemma ParsedIsShaped(src: string)
    requires var o := ParseTokens(StreamOf(src)); o.Done? && o.st.errs == 0
    ensures forall d <- ParseTokens(StreamOf(src)).value.declarations :: ShapedDecl(d)
  {
    hide ParseDeclarations, ShapedDecl, StreamOf;
    StreamIsSpelled(src);
    DeclsShaped(State(StreamOf(src), 0), []);
  }
}
