/** The lexer turns the text of a printed declaration into its tokens. */
module FileLexing {
  import opened Tokens
  import opened Ast
  import opened LexerSpec
  import opened FormatSpec
  import opened LexerFacts
  import opened ExprRoundTrip
  import opened FileTokens

  // ----- texts, regrouped so that their first piece comes first -----

  lemma Nest3(a: string, b: string, c: string, k: string)
    ensures (a + b + c) + k == a + (b + (c + k))
  {
    Associate(a + b, c, k);
    Associate(a, b, c + k);
  }

  lemma Nest4(a: string, b: string, c: string, d: string, k: string)
    ensures (a + b + c + d) + k == a + (b + (c + (d + k)))
  {
    Associate(a + b + c, d, k);
    Nest3(a, b, c, d + k);
  }

  lemma Nest5(a: string, b: string, c: string, d: string, e: string, k: string)
    ensures (a + b + c + d + e) + k == a + (b + (c + (d + (e + k))))
  {
    Associate(a + b + c + d, e, k);
    Nest4(a, b, c, d, e + k);
  }

  lemma Nest6(a: string, b: string, c: string, d: string, e: string, f: string, k: string)
    ensures (a + b + c + d + e + f) + k == a + (b + (c + (d + (e + (f + k)))))
  {
    Associate(a + b + c + d + e, f, k);
    Nest5(a, b, c, d, e, f + k);
  }

  lemma Nest7(a: string, b: string, c: string, d: string, e: string, f: string, g: string, k: string)
    ensures (a + b + c + d + e + f + g) + k == a + (b + (c + (d + (e + (f + (g + k))))))
  {
    Associate(a + b + c + d + e + f, g, k);
    Nest6(a, b, c, d, e, f, g + k);
  }

  // ----- small pieces -----

  predicate IsBlank(s: string) {
    forall c <- s :: IsSpace(c)
  }

  /** A word and the space or line end behind it. */
  lemma LexWordThenSpace(w: string, space: string, k: string)
    requires IsWord(w) && (space == " " || space == "\n")
    ensures StreamOf(w + (space + k)) == Cons(Token(LookupIdent(w), w), StreamOf(k))
  {
    hide StreamOf;
    LexWord(w, space + k);
    assert space == [space[0]];
    LexSpace(space[0], k);
  }

  /** An indented word and the space or line end behind it. */
  lemma LexIndented(indent: string, w: string, space: string, k: string)
    requires IsBlank(indent) && IsWord(w) && (space == " " || space == "\n")
    ensures StreamOf(indent + (w + (space + k))) == Cons(Token(LookupIdent(w), w), StreamOf(k))
  {
    hide StreamOf;
    LexSpaces(indent, w + (space + k));
    LexWordThenSpace(w, space, k);
  }

  lemma LexBlank(s: string, k: string)
    requires s == " " || s == "\n"
    ensures StreamOf(s + k) == StreamOf(k)
  {
    hide StreamOf;
    assert s == [s[0]];
    LexSpace(s[0], k);
  }

  lemma LexMark(s: string, k: string)
    requires |s| == 1 && Punctuation(s[0]) != ILLEGAL && s[0] != '/'
    ensures StreamOf(s + k) == Cons(Token(Punctuation(s[0]), s), StreamOf(k))
  {
    hide StreamOf;
    assert s == [s[0]];
    LexPunctuation(s[0], k);
  }

  /** A mark and the space or line end behind it. */
  lemma LexMarkThenSpace(s: string, space: string, k: string)
    requires |s| == 1 && Punctuation(s[0]) != ILLEGAL && s[0] != '/'
    requires space == " " || space == "\n"
    ensures StreamOf(s + (space + k)) == Cons(Token(Punctuation(s[0]), s), StreamOf(k))
  {
    hide StreamOf;
    LexMark(s, space + k);
    LexBlank(space, k);
  }

  /** A name, a colon and the space or line end behind it. */
  lemma LexLabel(w: string, space: string, k: string)
    requires IsWord(w) && (space == " " || space == "\n")
    ensures StreamOf(w + (":" + (space + k))) == Cons(Token(LookupIdent(w), w), Cons(COLON_T, StreamOf(k)))
  {
    hide StreamOf;
    LexWord(w, ":" + (space + k));
    LexColon(space + k);
    LexBlank(space, k);
  }

  lemma LexIndentedLabel(indent: string, w: string, space: string, k: string)
    requires IsBlank(indent) && IsWord(w) && (space == " " || space == "\n")
    ensures StreamOf(indent + (w + (":" + (space + k)))) == Cons(Token(LookupIdent(w), w), Cons(COLON_T, StreamOf(k)))
  {
    hide StreamOf;
    LexSpaces(indent, w + (":" + (space + k)));
    LexLabel(w, space, k);
  }

  /** `;` and the end of the line. */
  lemma LexLineEnd(k: string)
    ensures StreamOf(";" + ("\n" + k)) == Cons(SEMICOLON_T, StreamOf(k))
  {
    LexMarkThenSpace(";", "\n", k);
  }

  /** ` {` and the end of the line. */
  lemma LexOpen(k: string)
    ensures StreamOf(" " + ("{" + ("\n" + k))) == Cons(LBRACE_T, StreamOf(k))
  {
    hide StreamOf;
    LexBlank(" ", "{" + ("\n" + k));
    LexMarkThenSpace("{", "\n", k);
  }

  // ----- keywords -----

  predicate IsKeyword(w: string, t: TokenType) {
    IsWord(w) && LookupIdent(w) == t
  }

  lemma SelectorWords()
    ensures IsKeyword("select", SELECT) && IsKeyword("where", WHERE) && IsKeyword("group_by", GROUP_BY)
    ensures IsKeyword("having", HAVING) && IsKeyword("set", SET)
  {
  }

  lemma OperatorWords()
    ensures IsKeyword("insert", INSERT) && IsKeyword("delete", DELETE) && IsKeyword("relate", RELATE)
    ensures IsKeyword("unrelate", UNRELATE) && IsKeyword("merge", MERGE) && IsKeyword("split", SPLIT)
  {
  }

  lemma LinkWords()
    ensures IsKeyword("into", INTO) && IsKeyword("as", AS) && IsKeyword("from", FROM) && IsKeyword("to", TO)
  {
  }

  lemma SettingWords()
    ensures IsKeyword("discriminator", DISCRIMINATOR) && IsKeyword("guard", GUARD)
    ensures IsKeyword("retain_sources", RETAIN_SOURCES) && IsKeyword("retain_source", RETAIN_SOURCE)
  {
  }

  lemma FlagWords()
    ensures IsKeyword("reanchor_relations", REANCHOR_RELATIONS) && IsKeyword("partition", PARTITION)
    ensures IsKeyword("true", TRUE) && IsKeyword("false", FALSE)
  {
  }

  lemma DeclWords()
    ensures IsKeyword("schema", SCHEMA) && IsKeyword("entity", ENTITY) && IsKeyword("relation", RELATION)
    ensures IsKeyword("optional", OPTIONAL) && IsKeyword("rule", RULE) && IsKeyword("checkpoint", CHECKPOINT)
    ensures IsKeyword("after", AFTER)
  {
  }

  lemma ProfileWords()
    ensures IsKeyword("profile", PROFILE) && IsKeyword("for", FOR) && IsKeyword("require", REQUIRE)
    ensures IsKeyword("present", PRESENT) && IsKeyword("implies", IMPLIES)
  {
  }

  lemma AnnotationWords()
    ensures IsKeyword("reads", READS) && IsKeyword("writes", WRITES) && IsKeyword("depends_on", DEPENDS_ON)
  {
  }

  // ----- selectors and assignments -----

  lemma LexClause(indent: string, w: string, t: TokenType, e: Expr, k: string)
    requires IsBlank(indent) && IsKeyword(w, t) && WrittenExpr(e)
    ensures StreamOf(FormatClause(indent, w, e) + k) == ClauseThen(Token(t, w), e, StreamOf(k))
  {
    hide StreamOf;
    if e == Nil {
      assert FormatClause(indent, w, e) + k == k;
    } else {
      Nest5(indent, w, " ", FormatExpr(e), "\n", k);
      LexIndented(indent, w, " ", FormatExpr(e) + ("\n" + k));
      LexExpr(e, "\n" + k);
      LexBlank("\n", k);
    }
  }

  lemma LexSelector(s: Selector, indent: string, k: string)
    requires IsBlank(indent) && WrittenSelector(s)
    ensures StreamOf(FormatSelector(s, indent) + k) == SourceThen(s, StreamOf(k))
  {
    hide StreamOf, FormatClause;
    SelectorWords();
    var w, g, h := FormatClause(indent, "where", s.where), FormatClause(indent, "group_by", s.groupBy), FormatClause(indent, "having", s.having);
    var k1 := w + (g + (h + k));
    Associate(indent + "select" + " " + s.kind + "\n" + w + g, h, k);
    Associate(indent + "select" + " " + s.kind + "\n" + w, g, h + k);
    Nest6(indent, "select", " ", s.kind, "\n", w, g + (h + k));
    LexIndented(indent, "select", " ", s.kind + ("\n" + k1));
    LexWordThenSpace(s.kind, "\n", k1);
    LexClause(indent, "where", WHERE, s.where, g + (h + k));
    LexClause(indent, "group_by", GROUP_BY, s.groupBy, h + k);
    LexClause(indent, "having", HAVING, s.having, k);
  }

  lemma LexEquals(k: string)
    ensures StreamOf(" " + ("=" + (" " + k))) == Cons(Token(ASSIGN, "="), StreamOf(k))
  {
    hide StreamOf;
    LexBlank(" ", "=" + (" " + k));
    assert ['='] == "=";
    LexShort('=', " " + k);
    LexBlank(" ", k);
  }

  lemma LexTarget(p: string, k: string)
    requires IsPath(p) && Delimits(k)
    ensures StreamOf(p + k) == PathThen(p, StreamOf(k))
  {
    LexPath(p, k);
  }

  lemma LexAssignment(a: Assignment, k: string)
    requires IsPath(a.target) && Writable(a.value) && Delimits(k)
    ensures StreamOf(FormatAssignment(a) + k)
         == PathThen(a.target, Cons(Token(ASSIGN, "="), ExprThen(a.value, StreamOf(k))))
  {
    hide StreamOf;
    var v := FormatExpr(a.value);
    Nest5(a.target, " ", "=", " ", v, k);
    LexTarget(a.target, " " + ("=" + (" " + (v + k))));
    LexEquals(v + k);
    LexExpr(a.value, k);
  }

  lemma {:induction false} LexJoined(assigns: seq<Assignment>, indent: string, k: string)
    requires assigns != [] && WrittenAssignments(assigns) && IsBlank(indent)
    ensures StreamOf(JoinAssignments(assigns, indent) + (";" + k)) == AssignsThen(assigns, StreamOf(k))
    decreases assigns
  {
    hide StreamOf, FormatAssignment;
    var a := FormatAssignment(assigns[0]);
    if |assigns| == 1 {
      LexAssignment(assigns[0], ";" + k);
      LexMark(";", k);
    } else {
      var blank := "\n" + indent + "    ";
      var rest := JoinAssignments(assigns[1..], indent) + (";" + k);
      Nest4(a, ",", blank, JoinAssignments(assigns[1..], indent), ";" + k);
      LexAssignment(assigns[0], "," + (blank + rest));
      LexMark(",", blank + rest);
      LexSpaces(blank, rest);
      LexJoined(assigns[1..], indent, k);
    }
  }

  lemma LexAssignments(assigns: seq<Assignment>, indent: string, k: string)
    requires assigns != [] && WrittenAssignments(assigns) && IsBlank(indent)
    ensures StreamOf(FormatAssignments(assigns, indent) + k) == SetThen(assigns, StreamOf(k))
  {
    hide StreamOf, JoinAssignments;
    SelectorWords();
    var joined := JoinAssignments(assigns, indent);
    Nest5(indent, "set", " ", joined, ";", k);
    LexIndented(indent, "set", " ", joined + (";" + k));
    LexJoined(assigns, indent, k);
  }

  lemma LexAnyAssignments(assigns: seq<Assignment>, indent: string, k: string)
    requires WrittenAssignments(assigns) && IsBlank(indent)
    ensures StreamOf(FormatAnyAssignments(assigns, indent) + k) == SetThen(assigns, StreamOf(k))
  {
    hide StreamOf, FormatAssignments;
    if assigns == [] {
      assert FormatAnyAssignments(assigns, indent) + k == k;
    } else {
      LexAssignments(assigns, indent, k);
    }
  }

  // ----- operators -----

  lemma LexSetting(indent: string, w: string, t: TokenType, e: Expr, k: string)
    requires IsBlank(indent) && IsKeyword(w, t) && WrittenExpr(e)
    ensures StreamOf(FormatSetting(indent, w, e) + k) == SettingThen(Token(t, w), e, StreamOf(k))
  {
    hide StreamOf;
    if e == Nil {
      assert FormatSetting(indent, w, e) + k == k;
    } else {
      Nest7(indent, w, ":", " ", FormatExpr(e), ";", "\n", k);
      LexIndentedLabel(indent, w, " ", FormatExpr(e) + (";" + ("\n" + k)));
      LexExpr(e, ";" + ("\n" + k));
      LexLineEnd(k);
    }
  }

  lemma LexFlag(indent: string, w: string, t: TokenType, b: bool, k: string)
    requires IsBlank(indent) && IsKeyword(w, t)
    ensures StreamOf(FormatFlag(indent, w, b) + k) == FlagThen(Token(t, w), b, StreamOf(k))
  {
    hide StreamOf;
    FlagWords();
    Nest7(indent, w, ":", " ", BoolText(b), ";", "\n", k);
    LexIndentedLabel(indent, w, " ", BoolText(b) + (";" + ("\n" + k)));
    LexWord(BoolText(b), ";" + ("\n" + k));
    LexLineEnd(k);
  }

  /** An indented closing brace and what ends its line. */
  lemma LexClose(indent: string, end: string, k: string)
    requires IsBlank(indent) && (end == "\n" || end == ";")
    ensures StreamOf(indent + ("}" + (end + k)))
         == Cons(RBRACE_T, if end == ";" then Cons(SEMICOLON_T, StreamOf(k)) else StreamOf(k))
  {
    hide StreamOf;
    LexSpaces(indent, "}" + (end + k));
    LexMark("}", end + k);
    if end == "\n" { LexBlank(end, k); } else { LexMark(";", k); }
  }

  lemma LexSelect(n: SelectNode, indent: string, k: string)
    requires IsBlank(indent) && WrittenOperator(SelectAndAssign(n))
    ensures StreamOf(FormatSelect(n, indent) + k) == SourceThen(n.selector, SetThen(n.assignments, StreamOf(k)))
  {
    hide StreamOf, FormatSelector, FormatAnyAssignments;
    var sets := FormatAnyAssignments(n.assignments, indent);
    Associate(FormatSelector(n.selector, indent), sets, k);
    LexSelector(n.selector, indent, sets + k);
    LexAnyAssignments(n.assignments, indent, k);
  }

  /** `keyword name {` and the end of the line. */
  lemma LexHeader(indent: string, w: string, name: string, k: string)
    requires IsBlank(indent) && IsWord(w) && IsName(name)
    ensures StreamOf(indent + (w + (" " + (name + (" " + ("{" + ("\n" + k)))))))
         == Cons(Token(LookupIdent(w), w), Cons(Id(name), Cons(LBRACE_T, StreamOf(k))))
  {
    hide StreamOf;
    LexIndented(indent, w, " ", name + (" " + ("{" + ("\n" + k))));
    LexWordThenSpace(name, " ", "{" + ("\n" + k));
    LexMarkThenSpace("{", "\n", k);
  }

  lemma BlankPlus(indent: string)
    requires IsBlank(indent)
    ensures IsBlank(indent + "  ") && IsBlank(indent + "    ")
  {
  }

  lemma LexInsert(n: InsertNode, indent: string, k: string)
    requires IsBlank(indent) && WrittenOperator(InsertEntity(n))
    ensures StreamOf(FormatInsert(n, indent) + k) == InsertThen(n, StreamOf(k))
  {
    hide StreamOf, FormatSelector, FormatAnyAssignments, FormatSetting;
    OperatorWords();
    SettingWords();
    BlankPlus(indent);
    var s, d, a := FormatSelector(n.source.value, indent + "  "), FormatSetting(indent + "  ", "discriminator", n.discriminator),
                   FormatAnyAssignments(n.assignments, indent);
    var head := indent + "insert" + " " + n.target + " " + "{" + "\n";
    var k3 := indent + ("}" + ("\n" + (a + k)));
    Nest6(head + s, d, indent, "}", "\n", a, k);
    Associate(head, s, d + k3);
    Nest7(indent, "insert", " ", n.target, " ", "{", "\n", s + (d + k3));
    LexHeader(indent, "insert", n.target, s + (d + k3));
    LexSelector(n.source.value, indent + "  ", d + k3);
    LexSetting(indent + "  ", "discriminator", DISCRIMINATOR, n.discriminator, k3);
    LexClose(indent, "\n", a + k);
    LexAnyAssignments(n.assignments, indent, k);
  }

  lemma {:induction false} LexDelete(n: DeleteNode, indent: string, k: string)
    requires IsBlank(indent) && WrittenOperator(DeleteEntity(n))
    ensures StreamOf(FormatDelete(n, indent) + k) == DeleteThen(n, StreamOf(k))
  {
    hide StreamOf, FormatSelector;
    OperatorWords();
    BlankPlus(indent);
    var s := FormatSelector(n.source.value, indent + "  ");
    var head := indent + "delete" + " " + n.source.value.kind + " " + "{" + "\n";
    var k3 := indent + ("}" + (";" + k));
    Nest5(head, s, indent, "}", ";", k);
    Nest7(indent, "delete", " ", n.source.value.kind, " ", "{", "\n", s + k3);
    LexHeader(indent, "delete", n.source.value.kind, s + k3);
    LexSelector(n.source.value, indent + "  ", k3);
    LexClose(indent, ";", k);
  }

  /** ` as name {` and the end of the line. */
  lemma LexNamed(name: string, k: string)
    requires name == "" || IsWord(name)
    ensures StreamOf((" " + "as" + " " + name + " " + "{" + "\n") + k) == Cons(AS_W, NameThen(name, Cons(LBRACE_T, StreamOf(k))))
  {
    hide StreamOf;
    LinkWords();
    Nest7(" ", "as", " ", name, " ", "{", "\n", k);
    LexIndented(" ", "as", " ", name + (" " + ("{" + ("\n" + k))));
    if name == "" {
      assert name + (" " + ("{" + ("\n" + k))) == " " + ("{" + ("\n" + k));
      LexBlank(" ", "{" + ("\n" + k));
    } else {
      LexWordThenSpace(name, " ", "{" + ("\n" + k));
    }
    LexMarkThenSpace("{", "\n", k);
  }

  /** An endpoint's label on a line of its own, and its selector. */
  lemma LexEndpoint(indent: string, w: string, t: TokenType, s: Selector, k: string)
    requires IsBlank(indent) && IsKeyword(w, t) && WrittenSelector(s)
    ensures StreamOf((indent + "  " + w + ":" + "\n") + (FormatSelector(s, indent + "    ") + k))
         == Cons(Token(t, w), Cons(COLON_T, SourceThen(s, StreamOf(k))))
  {
    hide StreamOf, FormatSelector;
    BlankPlus(indent);
    var s1 := FormatSelector(s, indent + "    ");
    Nest4(indent + "  ", w, ":", "\n", s1 + k);
    LexIndentedLabel(indent + "  ", w, "\n", s1 + k);
    LexSelector(s, indent + "    ", k);
  }

  lemma LexEndpoints(n: LinkNode, indent: string, k: string)
    requires IsBlank(indent) && WrittenLink(n)
    ensures var from := (indent + "  " + "from" + ":" + "\n") + (FormatSelector(n.from.value, indent + "    ")
              + ((indent + "  " + "to" + ":" + "\n") + (FormatSelector(n.to.value, indent + "    ")
                + (FormatSetting(indent + "  ", "guard", n.guard) + k))));
            StreamOf(from) == EndpointsThen(n, StreamOf(k))
  {
    hide StreamOf, FormatSelector, FormatSetting;
    LinkWords();
    SettingWords();
    BlankPlus(indent);
    var g := FormatSetting(indent + "  ", "guard", n.guard);
    var k1 := (indent + "  " + "to" + ":" + "\n") + (FormatSelector(n.to.value, indent + "    ") + (g + k));
    LexEndpoint(indent, "from", FROM, n.from.value, k1);
    LexEndpoint(indent, "to", TO, n.to.value, g + k);
    LexSetting(indent + "  ", "guard", GUARD, n.guard, k);
  }

  lemma LexLink(n: LinkNode, w: string, t: TokenType, word: string, wt: TokenType, indent: string, k: string)
    requires IsBlank(indent) && WrittenLink(n) && IsKeyword(w, t) && IsKeyword(word, wt)
    ensures StreamOf(FormatLink(n, w, word, indent) + k) == LinkThen(n, Token(t, w), Token(wt, word), StreamOf(k))
  {
    hide StreamOf, FormatSelector, FormatSetting;
    var a, b := n.from.value.kind, n.to.value.kind;
    var head := indent + w + " " + a + " " + word + " " + b;
    var asText := " " + "as" + " " + n.relation + " " + "{" + "\n";
    var l1, s1 := indent + "  " + "from" + ":" + "\n", FormatSelector(n.from.value, indent + "    ");
    var l2, s2 := indent + "  " + "to" + ":" + "\n", FormatSelector(n.to.value, indent + "    ");
    var g := FormatSetting(indent + "  ", "guard", n.guard);
    var k3 := indent + ("}" + (";" + k));
    var body := l1 + (s1 + (l2 + (s2 + (g + k3))));
    LinkText(head, asText, l1, s1, l2, s2, g, indent, k);
    Nest7(indent, w, " ", a, " ", word, " " + b, asText + body);
    Associate(indent + w + " " + a + " " + word, " ", b);
    Associate(" ", b, asText + body);
    LexIndented(indent, w, " ", a + (" " + (word + (" " + (b + (asText + body))))));
    LexWordThenSpace(a, " ", word + (" " + (b + (asText + body))));
    LexWordThenSpace(word, " ", b + (asText + body));
    assert (asText + body)[0] == ' ';
    LexWord(b, asText + body);
    LexNamed(n.relation, body);
    LexEndpoints(n, indent, k3);
    LexClose(indent, ";", k);
  }

  lemma LinkText(head: string, a: string, l1: string, s1: string, l2: string, s2: string, g: string, indent: string, k: string)
    ensures (head + a + l1 + s1 + l2 + s2 + g + indent + "}" + ";") + k
         == head + (a + (l1 + (s1 + (l2 + (s2 + (g + (indent + ("}" + (";" + k)))))))))
  {
    Nest5(head + a + l1 + s1 + l2 + s2, g, indent, "}", ";", k);
    Nest6(head, a, l1, s1, l2, s2, g + (indent + ("}" + (";" + k))));
  }

  lemma LexInto(w: string, t: TokenType, kind: string, target: string, indent: string, k: string)
    requires IsBlank(indent) && IsKeyword(w, t) && IsName(kind) && IsName(target)
    ensures StreamOf(FormatIntoHeader(w, kind, target, indent) + k) == IntoThen(Token(t, w), kind, target, StreamOf(k))
  {
    hide StreamOf;
    LinkWords();
    var k1 := target + (" " + ("{" + ("\n" + k)));
    Nest5(indent + w + " " + kind + " " + "into" + " ", target, " ", "{", "\n", k);
    Nest7(indent, w, " ", kind, " ", "into", " ", k1);
    LexIndented(indent, w, " ", kind + (" " + ("into" + (" " + k1))));
    LexWordThenSpace(kind, " ", "into" + (" " + k1));
    LexWordThenSpace("into", " ", k1);
    LexWordThenSpace(target, " ", "{" + ("\n" + k));
    LexMarkThenSpace("{", "\n", k);
  }

  lemma LexMerge(n: MergeNode, indent: string, k: string)
    requires IsBlank(indent) && WrittenOperator(MergeEntities(n))
    ensures StreamOf(FormatMerge(n, indent) + k) == MergeThen(n, StreamOf(k))
  {
    hide StreamOf, FormatSelector, FormatSetting, FormatFlag, FormatIntoHeader, FormatAnyAssignments;
    OperatorWords();
    SettingWords();
    FlagWords();
    BlankPlus(indent);
    var in2 := indent + "  ";
    var h, s := FormatIntoHeader("merge", n.source.value.kind, n.target, indent), FormatSelector(n.source.value, in2);
    var d := FormatSetting(in2, "discriminator", n.discriminator);
    var f1, f2 := FormatFlag(in2, "retain_sources", n.retainSources), FormatFlag(in2, "reanchor_relations", n.reanchorRelations);
    var a := FormatAnyAssignments(n.assignments, indent);
    var k3 := indent + ("}" + ("\n" + (a + k)));
    Nest5(h + s + d + f1 + f2, indent, "}", "\n", a, k);
    Nest5(h, s, d, f1, f2, k3);
    LexInto("merge", MERGE, n.source.value.kind, n.target, indent, s + (d + (f1 + (f2 + k3))));
    LexSelector(n.source.value, in2, d + (f1 + (f2 + k3)));
    LexSetting(in2, "discriminator", DISCRIMINATOR, n.discriminator, f1 + (f2 + k3));
    LexFlag(in2, "retain_sources", RETAIN_SOURCES, n.retainSources, f2 + k3);
    LexFlag(in2, "reanchor_relations", REANCHOR_RELATIONS, n.reanchorRelations, k3);
    LexClose(indent, "\n", a + k);
    LexAnyAssignments(n.assignments, indent, k);
  }

  lemma LexPartitionSet(assigns: seq<Assignment>, indent: string, k: string)
    requires IsBlank(indent) && WrittenAssignments(assigns)
    ensures StreamOf((if assigns == [] then "" else FormatAssignments(assigns, indent) + "\n") + k) == SetThen(assigns, StreamOf(k))
  {
    hide StreamOf, FormatAssignments;
    if assigns == [] {
      assert "" + k == k;
    } else {
      Associate(FormatAssignments(assigns, indent), "\n", k);
      LexAssignments(assigns, indent, "\n" + k);
      LexBlank("\n", k);
    }
  }

  lemma LexPartition(p: Partition, indent: string, k: string)
    requires IsBlank(indent) && WrittenPartition(p)
    ensures StreamOf(FormatPartition(p, indent) + k) == PartitionThen(p, StreamOf(k))
  {
    hide StreamOf, FormatSetting, FormatAssignments, Quote;
    FlagWords();
    SettingWords();
    BlankPlus(indent);
    var in2, in4, q := indent + "  ", indent + "    ", Quote(p.name);
    var d := FormatSetting(in4, "discriminator", p.discriminator);
    var a := if p.assignments == [] then "" else FormatAssignments(p.assignments, in4) + "\n";
    var head := in2 + "partition" + " " + q + " " + "{" + "\n";
    var k3 := in2 + ("}" + ("\n" + k));
    PartitionText(head, d, a, indent, k);
    Nest7(in2, "partition", " ", q, " ", "{", "\n", d + (a + k3));
    LexIndented(in2, "partition", " ", q + (" " + ("{" + ("\n" + (d + (a + k3))))));
    LexString(p.name, " " + ("{" + ("\n" + (d + (a + k3)))));
    LexOpen(d + (a + k3));
    LexSetting(in4, "discriminator", DISCRIMINATOR, p.discriminator, a + k3);
    LexPartitionSet(p.assignments, in4, k3);
    LexClose(in2, "\n", k);
  }

  lemma PartitionText(head: string, d: string, a: string, indent: string, k: string)
    ensures (head + d + a + indent + "  " + "}" + "\n") + k == head + (d + (a + ((indent + "  ") + ("}" + ("\n" + k)))))
  {
    Nest7(head, d, a, indent, "  ", "}", "\n", k);
    Associate(indent, "  ", "}" + ("\n" + k));
  }

  lemma {:induction false} LexPartitions(ps: seq<Partition>, indent: string, k: string)
    requires IsBlank(indent) && forall p <- ps :: WrittenPartition(p)
    ensures StreamOf(FormatPartitions(ps, indent) + k) == PartitionsThen(ps, StreamOf(k))
    decreases ps
  {
    hide StreamOf, FormatPartition;
    if ps == [] {
      assert FormatPartitions(ps, indent) + k == k;
    } else {
      Associate(FormatPartition(ps[0], indent), FormatPartitions(ps[1..], indent), k);
      LexPartition(ps[0], indent, FormatPartitions(ps[1..], indent) + k);
      LexPartitions(ps[1..], indent, k);
    }
  }

  lemma LexSplit(n: SplitNode, indent: string, k: string)
    requires IsBlank(indent) && WrittenOperator(SplitEntity(n))
    ensures StreamOf(FormatSplit(n, indent) + k) == SplitThen(n, StreamOf(k))
  {
    hide StreamOf, FormatSelector, FormatFlag, FormatIntoHeader, FormatPartitions;
    OperatorWords();
    SettingWords();
    BlankPlus(indent);
    var in2 := indent + "  ";
    var h, s := FormatIntoHeader("split", n.source.value.kind, n.target, indent), FormatSelector(n.source.value, in2);
    var f, ps := FormatFlag(in2, "retain_source", n.retainSource), FormatPartitions(n.partitions, indent);
    var k3 := indent + ("}" + (";" + k));
    Nest7(h, s, f, ps, indent, "}", ";", k);
    LexInto("split", SPLIT, n.source.value.kind, n.target, indent, s + (f + (ps + k3)));
    LexSelector(n.source.value, in2, f + (ps + k3));
    LexFlag(in2, "retain_source", RETAIN_SOURCE, n.retainSource, ps + k3);
    LexPartitions(n.partitions, indent, k3);
    LexClose(indent, ";", k);
  }

  lemma LexOperatorText(op: Operator, indent: string, k: string)
    requires IsBlank(indent) && WrittenOperator(op)
    ensures StreamOf(FormatOperator(op, indent) + k) == OperatorThen(op, StreamOf(k))
  {
    hide StreamOf, FormatSelect, FormatInsert, FormatDelete, FormatLink, FormatMerge, FormatSplit;
    OperatorWords();
    LinkWords();
    match op
    case SelectAndAssign(n) => LexSelect(n, indent, k);
    case InsertEntity(n) => LexInsert(n, indent, k);
    case DeleteEntity(n) => LexDelete(n, indent, k);
    case RelateEntities(n) => LexLink(n, "relate", RELATE, "to", TO, indent, k);
    case UnrelateEntities(n) => LexLink(n, "unrelate", UNRELATE, "from", FROM, indent, k);
    case MergeEntities(n) => LexMerge(n, indent, k);
    case SplitEntity(n) => LexSplit(n, indent, k);
  }
}
