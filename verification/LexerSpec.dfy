/** What the scanner computes, as functions on the text that is still unread. */
module LexerSpec {
  import opened Tokens

  /** The rune the lexer sees at the head of `s`; the end of input reads as NUL. */
  function Head(s: string): char {
    if s == "" then '\0' else s[0]
  }

  function Second(s: string): char {
    if |s| < 2 then '\0' else s[1]
  }

  function SkipLine(s: string): (r: string)
    ensures |r| <= |s|
  {
    if Head(s) == '\n' || Head(s) == '\0' then s else SkipLine(s[1..])
  }

  function SkipBlock(s: string): (r: string)
    ensures |r| <= |s|
  {
    if Head(s) == '\0' then s
    else if Head(s) == '*' && Second(s) == '/' then s[2..]
    else SkipBlock(s[1..])
  }

  predicate StartsLineComment(s: string) {
    Head(s) == '#' || (Head(s) == '/' && Second(s) == '/')
  }

  predicate StartsBlockComment(s: string) {
    Head(s) == '/' && Second(s) == '*'
  }

  /** Drops white space, line comments and block comments. */
  function Skip(s: string): (r: string)
    ensures |r| <= |s|
    decreases |s|
  {
    if s != "" && IsSpace(s[0]) then Skip(s[1..])
    else if StartsLineComment(s) then Skip(SkipLine(s[1..]))
    else if StartsBlockComment(s) then Skip(SkipBlock(s[2..]))
    else s
  }

  function WordEnd(s: string): (n: nat)
    ensures n <= |s|
  {
    if s != "" && IsIdentChar(s[0]) then 1 + WordEnd(s[1..]) else 0
  }

  function DigitEnd(s: string): (n: nat)
    ensures n <= |s|
  {
    if s != "" && IsDigit(s[0]) then 1 + DigitEnd(s[1..]) else 0
  }

  /** The end of the integer and fraction digits, and whether there is a fraction. */
  function NumberBody(s: string): (r: (nat, bool))
    ensures r.0 <= |s|
  {
    var n := DigitEnd(s);
    if Head(s[n..]) == '.' && IsDigit(Second(s[n..])) then (n + 1 + DigitEnd(s[n + 1..]), true)
    else (n, false)
  }

  function Number(s: string): (r: (Token, string))
    requires s != "" && IsDigit(s[0])
    ensures |r.1| < |s|
  {
    var (n, fraction) := NumberBody(s);
    if Head(s[n..]) == 'd' || Head(s[n..]) == 'D' then (Token(DECIMAL, s[..n]), s[n + 1..])
    else (Token(if fraction then DECIMAL else INT, s[..n]), s[n..])
  }

  function Unescape(c: char): char {
    match c case 'n' => '\n' case 't' => '\t' case 'r' => '\r' case _ => c
  }

  datatype Scanned = Scanned(text: string, rest: string, closed: bool)

  /** Reads a string body up to and including its closing quote. */
  function StringBody(s: string): (r: Scanned)
    ensures |r.rest| <= |s|
    decreases |s|
  {
    if Head(s) == '\0' || Head(s) == '\n' then Scanned("", s, false)
    else if s[0] == '"' then Scanned("", s[1..], true)
    else if s[0] == '\\' then
      var tail := StringBody(if |s| < 2 then "" else s[2..]);
      Scanned([Unescape(Second(s))] + tail.text, tail.rest, tail.closed)
    else
      var tail := StringBody(s[1..]);
      Scanned([s[0]] + tail.text, tail.rest, tail.closed)
  }

  function Punctuation(c: char): TokenType {
    match c
    case '.' => DOT
    case ',' => COMMA
    case ';' => SEMICOLON
    case '(' => LPAREN
    case ')' => RPAREN
    case '{' => LBRACE
    case '}' => RBRACE
    case '[' => LBRACKET
    case ']' => RBRACKET
    case '+' => PLUS
    case '*' => STAR
    case '/' => SLASH
    case '%' => PERCENT
    case _ => ILLEGAL
  }

  /** The operators that may be one or two characters long:
      the second character, the long form and the short form. */
  function Digraph(c: char): (char, TokenType, TokenType) {
    match c
    case '-' => ('>', ARROW, MINUS)
    case '=' => ('=', EQUAL, ASSIGN)
    case '!' => ('=', NOT_EQUAL, NOT)
    case '<' => ('=', LESS_EQ, LESS)
    case '>' => ('=', GREAT_EQ, GREATER)
    case '&' => ('&', AND, ILLEGAL)
    case '|' => ('|', OR, ILLEGAL)
    case _ => ('\0', ILLEGAL, ILLEGAL)
  }

  /** One token, from text that starts with neither white space nor a comment. */
  function LexOne(s: string): (r: (Token, string))
    requires Head(s) != '\0'
    ensures |r.1| < |s| && IsLexed(r.0)
  {
    var c := s[0];
    if c == ':' then
      if IsLetter(Second(s)) then
        var n := WordEnd(s[1..]);
        (Token(ATOM, s[1..][..n]), s[1..][n..])
      else (Token(COLON, ":"), s[1..])
    else if Punctuation(c) != ILLEGAL then (Token(Punctuation(c), [c]), s[1..])
    else if Digraph(c).0 != '\0' then
      var (second, long, short) := Digraph(c);
      if Second(s) == second then (Token(long, [c, second]), s[2..])
      else (Token(short, [c]), s[1..])
    else if c == '"' then
      var body := StringBody(s[1..]);
      (Token(if body.closed then STRING else ILLEGAL, body.text), body.rest)
    else if IsDigit(c) then Number(s)
    else if IsLetter(c) then
      var n := WordEnd(s);
      (Token(LookupIdent(s[..n]), s[..n]), s[n..])
    else (Token(ILLEGAL, [c]), s[1..])
  }

  /** Every token of a text. */
  function StreamOf(s: string): (ts: Toks)
    ensures ts.Proper()
    decreases |s|, 2
  {
    TokensOf(Skip(s))
  }

  /** The tokens of a text that starts with neither white space nor a comment. */
  function TokensOf(s: string): (ts: Toks)
    ensures ts.Proper()
    decreases |s|, 1
  {
    if Head(s) == '\0' then End else TokenThen(s)
  }

  function TokenThen(s: string): (ts: Toks)
    requires Head(s) != '\0'
    ensures ts.Proper()
    decreases |s|, 0
  {
    var (t, rest) := LexOne(s);
    Cons(t, StreamOf(rest))
  }
}
