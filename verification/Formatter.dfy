/** The formatter of source texts, from the lexer to the printer. */
module Formatter {
  import opened Tokens
  import opened Ast
  import opened LexerSpec
  import opened ExprParserSpec
  import opened FileParserSpec
  import opened FormatSpec
  import opened ParserMachine
  import opened Printer
  import opened FileTokens
  import opened FileLexing
  import opened LexerFacts
  import opened FileRoundTrip
  import opened Contents
  import opened SourceRoundTrip

  method RunFormatSource(src: string) returns (r: Formatted)
    ensures r == FormatSource(src)
  {
    hide ParseTokens, Format, FormattableAll;
    var parsed := ParseSource(src);
    match parsed
    case Crashed => return Crash;
    case Returned(None) => return Refused;
    case Returned(Some(file)) =>
      var ok, text := PrintFile(file);
      return if ok then Text(text) else Crash;
  }

  // `rule r {`, `insert t {` and two closing braces, each on a line of its own

  const TWO_BRACES := "}" + ("\n" + ("}" + ("\n" + "")))
  const EMPTY_INSERT := "" + ("insert" + (" " + ("t" + (" " + ("{" + ("\n" + TWO_BRACES))))))
  const INSERT_WITHOUT_SELECT := "" + ("rule" + (" " + ("r" + (" " + ("{" + ("\n" + EMPTY_INSERT))))))

  lemma LexInsertWithoutSelect()
    ensures StreamOf(INSERT_WITHOUT_SELECT)
         == Cons(Token(RULE, "rule"), Cons(Id("r"), Cons(LBRACE_T, Cons(Token(INSERT, "insert"), Cons(Id("t"), Cons(LBRACE_T,
              Cons(RBRACE_T, Cons(RBRACE_T, End))))))))
  {
    hide StreamOf;
    DeclWords();
    OperatorWords();
    assert IsName("r") && IsName("t") && IsBlank("");
    hide LookupIdent, IsName, IsWord, IsBlank;
    LexHeader("", "rule", "r", EMPTY_INSERT);
    LexHeader("", "insert", "t", TWO_BRACES);
    LexMarkThenSpace("}", "\n", "}" + ("\n" + ""));
    LexMarkThenSpace("}", "\n", "");
    EmptyStream();
  }

  lemma EmptyStream()
    ensures StreamOf("") == End
  {
  }

  /** An `insert` whose braces hold nothing. */
  const BARE_INSERT := InsertNode("t", None, Nil, Nil, [])

  lemma ReadBareInsert(k: Toks)
    requires k.Current().kind == RBRACE
    ensures ParseOperator(State(Cons(Token(INSERT, "insert"), Cons(Id("t"), Cons(LBRACE_T, Cons(RBRACE_T, k)))), 0))
         == Done(State(Cons(RBRACE_T, k), 0), InsertEntity(BARE_INSERT))
  {
    var st := State(Cons(RBRACE_T, k), 0);
    assert InsertBody(st, BARE_INSERT) == Done(st, Some(BARE_INSERT));
  }

  const BARE_RULE := RuleDecl("r", [], [], [], InsertEntity(BARE_INSERT))

  lemma ReadBareRule(ts: Toks)
    requires ts == Cons(Token(RULE, "rule"), Cons(Id("r"), Cons(LBRACE_T, Cons(Token(INSERT, "insert"), Cons(Id("t"),
                     Cons(LBRACE_T, Cons(RBRACE_T, Cons(RBRACE_T, End))))))))
    ensures ParseTokens(ts) == Done(State(End, 0), File([BARE_RULE]))
  {
    hide ParseOperator;
    ReadBareInsert(Cons(RBRACE_T, End));
    var rest := State(Cons(RBRACE_T, End), 0);
    assert ParseRule(State(ts, 0)) == Done(rest, BARE_RULE);
    assert ParseDeclaration(State(ts, 0)) == Done(rest, Some(BARE_RULE));
    hide ParseDeclaration;
    assert [] + [BARE_RULE] == [BARE_RULE];
    assert rest.Next() == State(End, 0) && State(End, 0).CurIs(EOF);
    assert ParseDeclarations(State(End, 0), [BARE_RULE]) == Done(State(End, 0), [BARE_RULE]);
    assert !State(ts, 0).CurIs(EOF);
  }

  /** The parser accepts an operator whose braces hold no `select`, and the printer then follows its
      nil selector: not every text that parses without an error can be formatted. */
  lemma FormatterCrashes()
    ensures var o := ParseTokens(StreamOf(INSERT_WITHOUT_SELECT)); o.Done? && o.st.errs == 0
    ensures FormatSource(INSERT_WITHOUT_SELECT) == Crash
  {
    hide StreamOf, ParseTokens;
    LexInsertWithoutSelect();
    ReadBareRule(StreamOf(INSERT_WITHOUT_SELECT));
    assert !Formattable(BARE_RULE) && BARE_RULE in [BARE_RULE];
  }

  // a profile that implies one profile, whose name is the bell character, written as it is

  const BELL: string := [7 as char]
  const BELL_LIST := "[" + ("\"" + (BELL + ("\"" + ("]" + (")" + (" " + ("{" + ("\n" + ("}" + ("\n" + ""))))))))))
  const BELL_IMPLIES := "(" + ("implies" + (":" + (" " + BELL_LIST)))
  const BELL_SOURCE := "profile" + (" " + ("p" + (" " + ("for" + (" " + ("entity" + (" " + ("e" + (" " + BELL_IMPLIES)))))))))

  const BELL_TOKENS := Cons(LBRACKET_T, Cons(Str(BELL), Cons(RBRACKET_T, Cons(RPAREN_TOKEN, Cons(LBRACE_T, Cons(RBRACE_T, End))))))

  lemma LexRaw(c: char, k: string)
    requires c != '\0' && c != '\n' && c != '"' && c != '\\'
    ensures StreamOf("\"" + ([c] + ("\"" + k))) == Cons(Str([c]), StreamOf(k))
  {
    var s := "\"" + ([c] + ("\"" + k));
    ScanOrdinary(c, "\"" + k);
    assert ("\"" + k)[1..] == k;
    assert StringBody("\"" + k) == Scanned("", k, true);
    assert s[1..] == [c] + ("\"" + k) && [c] + "" == [c];
    QuoteBranch(s);
    LexAs(s, Str([c]), k);
  }

  lemma LexBellList()
    ensures StreamOf(BELL_LIST) == BELL_TOKENS
  {
    hide StreamOf;
    LexMark("[", "\"" + (BELL + ("\"" + ("]" + (")" + (" " + ("{" + ("\n" + ("}" + ("\n" + "")))))))))); 
    LexRaw(7 as char, "]" + (")" + (" " + ("{" + ("\n" + ("}" + ("\n" + "")))))));
    LexMark("]", ")" + (" " + ("{" + ("\n" + ("}" + ("\n" + ""))))));
    LexMarkThenSpace(")", " ", "{" + ("\n" + ("}" + ("\n" + ""))));
    LexMarkThenSpace("{", "\n", "}" + ("\n" + ""));
    LexMarkThenSpace("}", "\n", "");
    EmptyStream();
  }

  lemma LexBellSource()
    ensures StreamOf(BELL_SOURCE)
         == Cons(Token(PROFILE, "profile"), Cons(Id("p"), Cons(Token(FOR, "for"), Cons(ENTITY_W, Cons(Id("e"),
              Cons(LPAREN_TOKEN, Cons(Token(IMPLIES, "implies"), Cons(COLON_T, BELL_TOKENS))))))))
  {
    DeclWords();
    ProfileWords();
    assert IsName("p") && IsName("e");
    hide StreamOf, LookupIdent, IsWord, IsName;
    var after := "(" + ("implies" + (":" + (" " + BELL_LIST)));
    LexWordThenSpace("profile", " ", "p" + (" " + ("for" + (" " + ("entity" + (" " + ("e" + (" " + after))))))));
    LexWordThenSpace("p", " ", "for" + (" " + ("entity" + (" " + ("e" + (" " + after))))));
    LexWordThenSpace("for", " ", "entity" + (" " + ("e" + (" " + after))));
    LexWordThenSpace("entity", " ", "e" + (" " + after));
    LexWordThenSpace("e", " ", after);
    LexMark("(", "implies" + (":" + (" " + BELL_LIST)));
    LexLabel("implies", " ", BELL_LIST);
    LexBellList();
  }

  const BELL_PROFILE := ProfileDecl("p", "e", [BELL], [])

  lemma ReadBellProfile(ts: Toks)
    requires ts == Cons(Token(PROFILE, "profile"), Cons(Id("p"), Cons(Token(FOR, "for"), Cons(ENTITY_W, Cons(Id("e"),
                     Cons(LPAREN_TOKEN, Cons(Token(IMPLIES, "implies"), Cons(COLON_T, BELL_TOKENS))))))))
    ensures ParseTokens(ts) == Done(State(End, 0), File([BELL_PROFILE]))
  {
    var braces := Cons(LBRACE_T, Cons(RBRACE_T, End));
    var closed := State(Cons(RBRACKET_T, Cons(RPAREN_TOKEN, braces)), 0);
    var items := State(Cons(Str(BELL), closed.toks), 0);
    assert ParseStringItems(closed, [BELL]) == (closed, [BELL]);
    assert [] + [BELL] == [BELL] && SkipPeeked(items, COMMA).Next() == closed;
    assert ParseStringItems(items, []) == (closed, [BELL]);
    var word := State(Cons(Token(IMPLIES, "implies"), Cons(COLON_T, BELL_TOKENS)), 0);
    assert ParseBracketed(word) == (closed, Some([BELL]));
    var paren := State(Cons(LPAREN_TOKEN, word.toks), 0);
    assert ParseImplies(closed.Next(), [BELL]) == (closed.Next(), [BELL]);
    assert ParseImplies(closed, [BELL]) == (closed.Next(), [BELL]);
    assert ParseImplies(paren, []) == (closed.Next(), [BELL]);
    hide ParseImplies;
    var rest := State(Cons(RBRACE_T, End), 0);
    assert ParseRequirements(rest, []) == (rest, []);
    assert ParseProfile(State(ts, 0)) == (rest, BELL_PROFILE);
    hide ParseProfile;
    assert ParseDeclaration(State(ts, 0)) == Done(rest, Some(BELL_PROFILE));
    hide ParseDeclaration;
    assert [] + [BELL_PROFILE] == [BELL_PROFILE];
    assert ParseDeclarations(State(End, 0), [BELL_PROFILE]) == Done(State(End, 0), [BELL_PROFILE]);
  }

  /** The lexer takes a control character in a string as it is, `%q` writes it as an escape, and the
      lexer drops the backslash of that escape: formatting is not idempotent on every accepted source. */
  lemma FormatterNotIdempotent()
    ensures FormatSource(BELL_SOURCE).Text?
    ensures FormatSource(FormatSource(BELL_SOURCE).text) != FormatSource(BELL_SOURCE)
  {
    hide StreamOf, ParseTokens, Format;
    LexBellSource();
    ReadBellProfile(StreamOf(BELL_SOURCE));
    var f := File([BELL_PROFILE]);
    assert !AllPlain(FileContents(f)) by { BellIsOdd(); }
    assert GoodDecl(BELL_PROFILE) by { assert BELL in [BELL] && IsName("p") && IsName("e"); }
    FormatIsIdempotent(f);
  }

  lemma BellIsOdd()
    ensures !AllPlain(FileContents(File([BELL_PROFILE])))
  {
    assert DeclsContents([BELL_PROFILE]) == DeclContents(BELL_PROFILE) + DeclsContents([]);
    assert ItemContents([BELL]) == [Quoted(BELL)] + ItemContents([]);
    assert !IsPlainChar(BELL[0]);
    assert [BELL_PROFILE][1..] == [] && Quoted(BELL) in DeclContents(BELL_PROFILE);
    assert Quoted(BELL) in FileContents(File([BELL_PROFILE]));
  }
}
