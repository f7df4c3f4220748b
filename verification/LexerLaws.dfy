/** What the lexer makes of texts the printer never writes: comments, other white space, marked decimals,
    single signs, and what is no token at all. */
module LexerLaws {
  import opened Tokens
  import opened LexerSpec
  import opened LexerFacts

  // ----- characters -----

  const DIGITS := "0123456789"

  lemma Small(c: char)
    ensures 'a' <= c <= 'z' <==> c in SMALL_LETTERS
  {
    if 'a' <= c <= 'z' { assert SMALL_LETTERS[(c - 'a') as int] == c; }
  }

  lemma Capitals(c: char)
    ensures 'A' <= c <= 'Z' <==> c in CAPITAL_LETTERS
  {
    if 'A' <= c <= 'Z' { assert CAPITAL_LETTERS[(c - 'A') as int] == c; }
  }

  /** What letters, digits and white space are, and what a word may hold. */
  lemma Characters(c: char)
    ensures IsLetter(c) <==> c in SMALL_LETTERS || c in CAPITAL_LETTERS || c == '_'
    ensures IsDigit(c) <==> c in DIGITS
    ensures IsSpace(c) <==> c in {' ', '\t', '\n', 11 as char, 12 as char, '\r'}
    ensures IsIdentChar(c) <==> c in SMALL_LETTERS || c in CAPITAL_LETTERS || c == '_' || c in DIGITS
  {
    Small(c);
    Capitals(c);
    if '0' <= c <= '9' { assert DIGITS[(c - '0') as int] == c; }
    assert c in DIGITS ==> IsDigit(c);
  }

  // ----- what is skipped -----

  lemma SpaceIsSkipped(c: char, k: string)
    requires c in {' ', '\t', '\n', 11 as char, 12 as char, '\r'}
    ensures StreamOf([c] + k) == StreamOf(k)
  {
    LexSpace(c, k);
  }

  lemma {:induction false} LineEndsAt(c: string, k: string)
    requires forall x <- c :: x != '\n' && x != '\0'
    ensures SkipLine(c + ("\n" + k)) == "\n" + k && SkipLine(c) == ""
    decreases |c|
  {
    if c == "" {
      assert c + ("\n" + k) == "\n" + k;
    } else {
      assert (c + ("\n" + k))[1..] == c[1..] + ("\n" + k) && (c + ("\n" + k))[0] == c[0] && c[0] in c;
      assert forall x <- c[1..] :: x in c;
      LineEndsAt(c[1..], k);
    }
  }

  /** A comment up to the end of its line, or of the text, is skipped. */
  lemma {:induction false} LineCommentIsSkipped(mark: string, c: string, k: string)
    requires mark in {"//", "#"} && forall x <- c :: x != '\n' && x != '\0'
    ensures StreamOf(mark + (c + ("\n" + k))) == StreamOf(k) && StreamOf(mark + c) == End
  {
    var rest, s := "\n" + k, mark + (c + ("\n" + k));
    LineEndsAt(if mark == "#" then c else "/" + c, k);
    if mark == "#" {
      assert s[1..] == c + rest && (mark + c)[1..] == c;
    } else {
      assert s[1..] == ("/" + c) + rest && (mark + c)[1..] == "/" + c && s[1] == '/';
    }
    assert StartsLineComment(s) && StartsLineComment(mark + c);
    assert Skip(s) == Skip(rest);
    assert rest[1..] == k;
    assert Skip(rest) == Skip(k);
  }

  predicate HoldsEnd(c: string) {
    exists i :: 0 <= i < |c| - 1 && c[i] == '*' && c[i + 1] == '/'
  }

  lemma {:induction false} BlockEndsAt(c: string, k: string)
    requires !HoldsEnd(c) && forall x <- c :: x != '\0'
    ensures SkipBlock(c + ("*/" + k)) == k && SkipBlock(c) == ""
    decreases |c|
  {
    if c == "" {
      assert c + ("*/" + k) == "*/" + k && ("*/" + k)[2..] == k;
    } else {
      var s := c + ("*/" + k);
      assert s[1..] == c[1..] + ("*/" + k);
      assert !HoldsEnd(c[1..]) by {
        assert forall i :: 0 <= i < |c[1..]| ==> c[1..][i] == c[i + 1];
      }
      assert forall x <- c[1..] :: x in c;
      BlockEndsAt(c[1..], k);
      assert s[0] == c[0] && c[0] in c && s[1] == (if |c| > 1 then c[1] else '*');
    }
  }

  /** A comment between its marks is skipped, and one that is not closed to the end of the text. */
  lemma {:induction false} BlockCommentIsSkipped(c: string, k: string)
    requires !HoldsEnd(c) && forall x <- c :: x != '\0'
    ensures StreamOf("/*" + (c + ("*/" + k))) == StreamOf(k) && StreamOf("/*" + c) == End
  {
    var s := "/*" + (c + ("*/" + k));
    assert s[2..] == c + ("*/" + k) && ("/*" + c)[2..] == c;
    BlockEndsAt(c, k);
    assert StartsBlockComment(s) && !StartsLineComment(s) && StartsBlockComment("/*" + c) && !StartsLineComment("/*" + c);
    assert Skip(s) == Skip(k);
  }

  /** The lexer takes NUL for the end of the text. */
  lemma NulEnds(k: string)
    ensures StreamOf("\0" + k) == End && StreamOf("") == End
  {
  }

  // ----- numbers -----

  /** A number marked as a decimal loses its mark. */
  lemma {:induction false} LexMarked(d: string, mark: char, k: string)
    requires IsInteger(d) && (mark == 'd' || mark == 'D')
    ensures StreamOf(d + ([mark] + k)) == Cons(Token(DECIMAL, d), StreamOf(k))
  {
    var s := d + ([mark] + k);
    assert s[0] == d[0];
    DigitEndOf(d, [mark] + k);
    DigitBranch(s);
    Cut(d, [mark] + k);
    assert s[|d| + 1..] == k;
    LexAs(s, Token(DECIMAL, d), k);
  }

  /** A point that no digit follows is no part of the number before it. */
  lemma {:induction false} LexThenDot(d: string, k: string)
    requires IsInteger(d) && (k == "" || !IsDigit(k[0]))
    ensures StreamOf(d + ("." + k)) == Cons(Token(INT, d), Cons(DOT_TOKEN, StreamOf(k)))
  {
    var s := d + ("." + k);
    assert s[0] == d[0];
    DigitEndOf(d, "." + k);
    DigitBranch(s);
    Cut(d, "." + k);
    LexAs(s, Token(INT, d), "." + k);
    assert ['.'] == ".";
    LexPunctuation('.', k);
  }

  // ----- signs -----

  /** The signs of one character and of two, and what each is. */
  const MARKS: seq<(string, TokenType)> :=
    [(".", DOT), (",", COMMA), (";", SEMICOLON), (":", COLON), ("(", LPAREN), (")", RPAREN), ("{", LBRACE), ("}", RBRACE),
     ("[", LBRACKET), ("]", RBRACKET), ("+", PLUS), ("*", STAR), ("/", SLASH), ("%", PERCENT)]

  const SIGNS: seq<(string, TokenType)> :=
    [("->", ARROW), ("-", MINUS), ("==", EQUAL), ("=", ASSIGN), ("!=", NOT_EQUAL), ("!", NOT), ("<=", LESS_EQ), ("<", LESS),
     (">=", GREAT_EQ), (">", GREATER), ("&&", AND), ("&", ILLEGAL), ("||", OR), ("|", ILLEGAL)]

  lemma {:induction false} LexMarks(i: nat, k: string)
    requires i < |MARKS|
    ensures StreamOf(MARKS[i].0 + (" " + k)) == Cons(Token(MARKS[i].1, MARKS[i].0), StreamOf(k))
  {
    LexSpace(' ', k);
    if i == 3 { LexColon(" " + k); } else { LexPunctuation(MARKS[i].0[0], " " + k); }
  }

  /** The longer sign is taken where there is one. */
  lemma {:induction false} LexSigns(i: nat, k: string)
    requires i < |SIGNS|
    ensures StreamOf(SIGNS[i].0 + (" " + k)) == Cons(Token(SIGNS[i].1, SIGNS[i].0), StreamOf(k))
  {
    var t := " " + k;
    LexSpace(' ', k);
    hide StreamOf;
    if i == 0 { LexLong('-', t); } else if i == 1 { LexShort('-', t); }
    else if i == 2 { LexLong('=', t); } else if i == 3 { LexShort('=', t); }
    else if i == 4 { LexLong('!', t); } else if i == 5 { LexShort('!', t); }
    else if i == 6 { LexLong('<', t); } else if i == 7 { LexShort('<', t); }
    else if i == 8 { LexLong('>', t); } else if i == 9 { LexShort('>', t); }
    else if i == 10 { LexLong('&', t); } else if i == 11 { LexShort('&', t); }
    else if i == 12 { LexLong('|', t); } else { LexShort('|', t); }
  }

  /** Any other sign is no token. */
  lemma {:induction false} OtherIsIllegal(c: char, k: string)
    requires c as int < 128 && c != '\0' && !IsSpace(c) && !IsIdentChar(c)
    requires c !in {'"', '#', '.', ',', ';', ':', '(', ')', '{', '}', '[', ']', '+', '*', '/', '%', '-', '=', '!', '<', '>', '&', '|'}
    ensures StreamOf([c] + k) == Cons(Token(ILLEGAL, [c]), StreamOf(k))
  {
    LexHere([c] + k);
    assert ([c] + k)[1..] == k;
  }

  // ----- strings and words -----

  lemma {:induction false} ScanUnclosed(s: string)
    requires forall c <- s :: c != '\0' && c != '\n' && c != '"' && c != '\\'
    ensures StringBody(s) == Scanned(s, "", false)
    decreases |s|
  {
    if s != "" {
      assert s[0] in s && forall c <- s[1..] :: c in s;
      ScanUnclosed(s[1..]);
      assert s == [s[0]] + s[1..];
    }
  }

  /** A string that is not closed is no token, and takes the rest of its line. */
  lemma {:induction false} UnclosedIsIllegal(s: string)
    requires forall c <- s :: c != '\0' && c != '\n' && c != '"' && c != '\\'
    ensures StreamOf("\"" + s) == Cons(Token(ILLEGAL, s), End)
  {
    var t := "\"" + s;
    assert t[1..] == s;
    ScanUnclosed(s);
    LexHere(t);
    NulEnds("");
  }

  /** The words that are tokens of their own, in the order of their tokens. */
  const DECLARING := ["schema", "entity", "relation", "from", "to", "rule", "reads", "writes", "depends_on"]
  const OPERATING := ["select", "where", "group_by", "having", "set", "insert", "into", "as", "delete", "relate", "unrelate"]
  const SETTLING := ["merge", "split", "partition", "discriminator", "reanchor_relations", "retain_sources", "retain_source", "guard"]
  const QUALIFYING := ["required", "optional", "true", "false", "null", "checkpoint", "after", "profile", "for", "require", "present", "implies"]
  const COMBINING := ["all", "any", "all_equal", "exists", "count", "sum", "min", "max", "coalesce"]
  const COMPUTING := ["if", "concat", "substring", "trim", "abs", "clamp", "date_add", "date_diff", "extract"]

  lemma DeclaringWords(i: nat)
    requires i < |DECLARING|
    ensures LookupIdent(DECLARING[i]) == SCHEMA + i
  {
  }

  lemma OperatingWords(i: nat)
    requires i < |OPERATING|
    ensures LookupIdent(OPERATING[i]) == SELECT + i
  {
  }

  lemma SettlingWords(i: nat)
    requires i < |SETTLING|
    ensures LookupIdent(SETTLING[i]) == MERGE + i
  {
  }

  lemma QualifyingWords(i: nat)
    requires i < |QUALIFYING|
    ensures LookupIdent(QUALIFYING[i]) == REQUIRED + i
  {
  }

  lemma CombiningWords(i: nat)
    requires i < |COMBINING|
    ensures LookupIdent(COMBINING[i]) == ALL + i
  {
  }

  lemma ComputingWords(i: nat)
    requires i < |COMPUTING|
    ensures LookupIdent(COMPUTING[i]) == IF + i
  {
  }

  lemma OnlyDeclaring(w: string)
    requires SCHEMA <= LookupIdent(w) <= DEPENDS_ON
    ensures w == DECLARING[LookupIdent(w) - SCHEMA]
  {
  }

  lemma OnlyOperating(w: string)
    requires SELECT <= LookupIdent(w) <= UNRELATE
    ensures w == OPERATING[LookupIdent(w) - SELECT]
  {
  }

  lemma OnlySettling(w: string)
    requires MERGE <= LookupIdent(w) <= GUARD
    ensures w == SETTLING[LookupIdent(w) - MERGE]
  {
  }

  lemma OnlyQualifying(w: string)
    requires REQUIRED <= LookupIdent(w) <= IMPLIES
    ensures w == QUALIFYING[LookupIdent(w) - REQUIRED]
  {
  }

  lemma OnlyCombining(w: string)
    requires ALL <= LookupIdent(w) <= COALESCE
    ensures w == COMBINING[LookupIdent(w) - ALL]
  {
  }

  lemma OnlyComputing(w: string)
    requires IF <= LookupIdent(w) <= EXTRACT
    ensures w == COMPUTING[LookupIdent(w) - IF]
  {
  }

  lemma WordRanges(w: string)
    ensures var t := LookupIdent(w);
      || t == IDENT || w in {"and", "or", "not"} || SCHEMA <= t <= DEPENDS_ON || SELECT <= t <= UNRELATE || MERGE <= t <= GUARD
      || REQUIRED <= t <= IMPLIES || ALL <= t <= COALESCE || IF <= t <= EXTRACT
  {
  }

  /** Every other word is a name. */
  lemma OtherWords(w: string)
    ensures LookupIdent(w) == IDENT || w in {"and", "or", "not"} || w in DECLARING || w in OPERATING || w in SETTLING
         || w in QUALIFYING || w in COMBINING || w in COMPUTING
  {
    hide LookupIdent;
    WordRanges(w);
    var t := LookupIdent(w);
    if SCHEMA <= t <= DEPENDS_ON { OnlyDeclaring(w); }
    else if SELECT <= t <= UNRELATE { OnlyOperating(w); }
    else if MERGE <= t <= GUARD { OnlySettling(w); }
    else if REQUIRED <= t <= IMPLIES { OnlyQualifying(w); }
    else if ALL <= t <= COALESCE { OnlyCombining(w); }
    else if IF <= t <= EXTRACT { OnlyComputing(w); }
  }

  /** The words of the connectives are their signs. */
  lemma {:induction false} LexConnective(w: string, t: TokenType, k: string)
    requires (w, t) in {("and", AND), ("or", OR), ("not", NOT)}
    ensures StreamOf(w + (" " + k)) == Cons(Token(t, w), StreamOf(k))
  {
    assert IsWord(w) && LookupIdent(w) == t;
    hide StreamOf, LookupIdent;
    LexSpace(' ', k);
    LexWord(w, " " + k);
  }
}
