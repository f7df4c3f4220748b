/** How the lexer reads the pieces the printer writes: each lemma takes one piece off a text. */
module LexerFacts {
  import opened Tokens
  import opened LexerSpec
  import opened FormatSpec

  /** White space or punctuation that ends any word or number before it. */
  predicate Delimits(k: string) {
    k == "" || k[0] == ' ' || k[0] == '\n' || k[0] == ')' || k[0] == ',' || k[0] == ';'
  }

  lemma LexSpace(c: char, k: string)
    requires IsSpace(c)
    ensures StreamOf([c] + k) == StreamOf(k)
  {
    assert ([c] + k)[1..] == k;
  }

  lemma {:induction false} LexSpaces(s: string, k: string)
    requires forall c <- s :: IsSpace(c)
    ensures StreamOf(s + k) == StreamOf(k)
  {
    if s == "" {
      assert s + k == k;
    } else {
      assert s + k == [s[0]] + (s[1..] + k);
      LexSpace(s[0], s[1..] + k);
      LexSpaces(s[1..], k);
    }
  }

  /** A text that starts with neither white space nor a comment starts with its first token. */
  lemma LexHere(s: string)
    requires s != "" && s[0] != '\0' && !IsSpace(s[0]) && s[0] != '#'
    requires s[0] == '/' ==> Second(s) != '/' && Second(s) != '*'
    ensures StreamOf(s) == Cons(LexOne(s).0, StreamOf(LexOne(s).1))
  {
    assert Skip(s) == s;
    assert TokensOf(s) == TokenThen(s);
  }

  // Which branch of the lexer a first character selects.

  lemma LetterBranch(s: string)
    requires s != "" && IsLetter(s[0])
    ensures LexOne(s) == (Token(LookupIdent(s[..WordEnd(s)]), s[..WordEnd(s)]), s[WordEnd(s)..])
  {
  }

  lemma DigitBranch(s: string)
    requires s != "" && IsDigit(s[0])
    ensures LexOne(s) == Number(s)
  {
  }

  lemma QuoteBranch(s: string)
    requires s != "" && s[0] == '"' && StringBody(s[1..]).closed
    ensures LexOne(s) == (Token(STRING, StringBody(s[1..]).text), StringBody(s[1..]).rest)
  {
  }

  /** A text whose first token ends where `k` begins. */
  lemma LexAs(s: string, t: Token, k: string)
    requires s != "" && s[0] != '\0' && !IsSpace(s[0]) && s[0] != '#' && s[0] != '/'
    requires LexOne(s) == (t, k)
    ensures StreamOf(s) == Cons(t, StreamOf(k))
  {
    LexHere(s);
  }

  lemma Cut(a: string, k: string)
    ensures (a + k)[..|a|] == a && (a + k)[|a|..] == k
  {
  }

  lemma LexPunctuation(c: char, k: string)
    requires Punctuation(c) != ILLEGAL && (c == '/' ==> Delimits(k))
    ensures StreamOf([c] + k) == Cons(Token(Punctuation(c), [c]), StreamOf(k))
  {
    LexHere([c] + k);
    assert ([c] + k)[1..] == k;
  }

  lemma LexColon(k: string)
    requires Delimits(k)
    ensures StreamOf(":" + k) == Cons(Token(COLON, ":"), StreamOf(k))
  {
    LexHere(":" + k);
    assert (":" + k)[1..] == k;
  }

  /** The short form of an operator, before anything but its second character. */
  lemma LexShort(c: char, k: string)
    requires Digraph(c).0 != '\0' && Head(k) != Digraph(c).0
    ensures StreamOf([c] + k) == Cons(Token(Digraph(c).2, [c]), StreamOf(k))
  {
    LexHere([c] + k);
    assert ([c] + k)[1..] == k;
  }

  lemma LexLong(c: char, k: string)
    requires Digraph(c).0 != '\0'
    ensures StreamOf([c, Digraph(c).0] + k) == Cons(Token(Digraph(c).1, [c, Digraph(c).0]), StreamOf(k))
  {
    var s := [c, Digraph(c).0] + k;
    LexHere(s);
    assert s[2..] == k;
  }

  predicate IsBinaryOp(op: TokenType) {
    EQUAL <= op <= OR || PLUS <= op <= PERCENT
  }

  lemma LexOperator(op: TokenType, k: string)
    requires IsBinaryOp(op)
    ensures StreamOf(OpText(op) + (" " + k)) == Cons(Token(op, OpText(op)), StreamOf(" " + k))
  {
    var t := " " + k;
    if op == EQUAL { LexLong('=', t); }
    else if op == NOT_EQUAL { LexLong('!', t); }
    else if op == LESS { LexShort('<', t); }
    else if op == LESS_EQ { LexLong('<', t); }
    else if op == GREATER { LexShort('>', t); }
    else if op == GREAT_EQ { LexLong('>', t); }
    else if op == AND { LexLong('&', t); }
    else if op == OR { LexLong('|', t); }
    else if op == MINUS { LexShort('-', t); }
    else { LexPunctuation(OpText(op)[0], t); }
  }

  // ----- words and numbers -----

  lemma {:induction false} WordEndOf(w: string, k: string)
    requires forall c <- w :: IsIdentChar(c)
    requires k == "" || !IsIdentChar(k[0])
    ensures WordEnd(w + k) == |w|
  {
    if w == "" {
      assert w + k == k;
    } else {
      assert (w + k)[1..] == w[1..] + k;
      WordEndOf(w[1..], k);
    }
  }

  lemma LexWord(w: string, k: string)
    requires IsWord(w) && (k == "" || !IsIdentChar(k[0]))
    ensures StreamOf(w + k) == Cons(Token(LookupIdent(w), w), StreamOf(k))
  {
    var s := w + k;
    assert s[0] == w[0];
    WordEndOf(w, k);
    LetterBranch(s);
    Cut(w, k);
    LexAs(s, Token(LookupIdent(w), w), k);
  }

  lemma LexAtom(w: string, k: string)
    requires IsWord(w) && (k == "" || !IsIdentChar(k[0]))
    ensures StreamOf(":" + (w + k)) == Cons(Token(ATOM, w), StreamOf(k))
  {
    var s := ":" + (w + k);
    assert s[1..] == w + k && s[1] == w[0];
    WordEndOf(w, k);
    LexHere(s);
    assert (w + k)[..|w|] == w && (w + k)[|w|..] == k;
  }

  lemma {:induction false} DigitEndOf(d: string, k: string)
    requires forall c <- d :: IsDigit(c)
    requires k == "" || !IsDigit(k[0])
    ensures DigitEnd(d + k) == |d|
  {
    if d == "" {
      assert d + k == k;
    } else {
      assert (d + k)[1..] == d[1..] + k;
      DigitEndOf(d[1..], k);
    }
  }

  predicate IsInteger(t: string) {
    t != "" && forall c <- t :: IsDigit(c)
  }

  /** Digits, a point, digits. */
  predicate IsDecimal(t: string) {
    exists n: nat :: n < |t| && t[n] == '.' && IsInteger(t[..n]) && IsInteger(t[n + 1..])
  }

  lemma LexInteger(d: string, k: string)
    requires IsInteger(d) && Delimits(k)
    ensures StreamOf(d + k) == Cons(Token(INT, d), StreamOf(k))
  {
    var s := d + k;
    assert s[0] == d[0];
    DigitEndOf(d, k);
    DigitBranch(s);
    Cut(d, k);
    LexAs(s, Token(INT, d), k);
  }

  lemma DecimalBody(t: string, n: nat, k: string)
    requires n < |t| && t[n] == '.' && IsInteger(t[..n]) && IsInteger(t[n + 1..]) && Delimits(k)
    ensures NumberBody(t + k) == (|t|, true)
  {
    var s := t + k;
    var tail := t[n..] + k;
    assert s == t[..n] + tail;
    DigitEndOf(t[..n], tail);
    assert s[n..] == tail;
    assert s[n + 1..] == t[n + 1..] + k;
    DigitEndOf(t[n + 1..], k);
  }

  lemma LexDecimal(t: string, k: string)
    requires IsDecimal(t) && Delimits(k)
    ensures StreamOf(t + k) == Cons(Token(DECIMAL, t), StreamOf(k))
  {
    var n: nat :| n < |t| && t[n] == '.' && IsInteger(t[..n]) && IsInteger(t[n + 1..]);
    var s := t + k;
    DecimalBody(t, n, k);
    assert s[0] == t[..n][0];
    DigitBranch(s);
    Cut(t, k);
    LexAs(s, Token(DECIMAL, t), k);
  }

  // ----- string literals -----

  /** The characters for which `%q` and the lexer agree. */
  predicate IsPlainChar(c: char) {
    ' ' <= c <= '~' || c == '\n' || c == '\t' || c == '\r'
  }

  predicate IsPlain(s: string) {
    forall i :: 0 <= i < |s| ==> IsPlainChar(s[i])
  }

  predicate IsAscii(s: string) {
    forall i :: 0 <= i < |s| ==> s[i] as int < 128
  }

  /** The rest of a quoted string, closing quote included, before `k`. */
  function QuoteTail(s: string, k: string): string {
    QuoteBody(s) + ("\"" + k)
  }

  lemma QuoteTailStep(s: string, k: string)
    requires s != ""
    ensures QuoteTail(s, k) == QuoteChar(s[0]) + QuoteTail(s[1..], k)
  {
    var q, b, e := QuoteChar(s[0]), QuoteBody(s[1..]), "\"" + k;
    assert (q + b) + e == q + (b + e);
  }

  lemma ScanOrdinary(c: char, tail: string)
    requires c != '\0' && c != '\n' && c != '"' && c != '\\'
    ensures var r := StringBody(tail); StringBody([c] + tail) == Scanned([c] + r.text, r.rest, r.closed)
  {
    assert ([c] + tail)[1..] == tail;
  }

  lemma ScanEscape(c: char, tail: string)
    ensures var r := StringBody(tail); StringBody(['\\', c] + tail) == Scanned([Unescape(c)] + r.text, r.rest, r.closed)
  {
    assert (['\\', c] + tail)[2..] == tail;
  }

  /** What the lexer makes of a quoted string: it drops the backslash of an escape it does not know. */
  function Mangle(s: string): string {
    if s == "" then "" else (if IsPlainChar(s[0]) then [s[0]] else QuoteChar(s[0])[1..]) + Mangle(s[1..])
  }

  lemma ScanPlain(c: char, tail: string)
    requires IsPlainChar(c)
    ensures var r := StringBody(tail); StringBody(QuoteChar(c) + tail) == Scanned([c] + r.text, r.rest, r.closed)
  {
    var q := QuoteChar(c);
    if |q| == 1 {
      ScanOrdinary(c, tail);
    } else {
      assert q == ['\\', q[1]] && Unescape(q[1]) == c;
      ScanEscape(q[1], tail);
    }
  }

  lemma Regroup(a: char, b: char, c: char, d: char, tail: string, text: string)
    ensures [a, b, c, d] + tail == [a, b] + ([c] + ([d] + tail))
    ensures [b, c, d] + text == [b] + ([c] + ([d] + text))
  {
  }

  lemma ScanHex(a: char, b: char, tail: string)
    requires (IsDigit(a) || IsLetter(a)) && (IsDigit(b) || IsLetter(b))
    ensures var r := StringBody(tail);
            StringBody(['\\', 'x', a, b] + tail) == Scanned(['x', a, b] + r.text, r.rest, r.closed)
  {
    Regroup('\\', 'x', a, b, tail, StringBody(tail).text);
    var tail1 := [b] + tail;
    var tail2 := [a] + tail1;
    ScanOrdinary(b, tail);
    ScanOrdinary(a, tail1);
    ScanEscape('x', tail2);
  }

  lemma ScanOdd(c: char, tail: string)
    requires c as int < 128 && !IsPlainChar(c)
    ensures var r := StringBody(tail);
            StringBody(QuoteChar(c) + tail) == Scanned(QuoteChar(c)[1..] + r.text, r.rest, r.closed)
    ensures QuoteChar(c)[1..] != "" && QuoteChar(c)[1] != c
  {
    var q := QuoteChar(c);
    if |q| == 2 {
      assert q == ['\\', q[1]] && Unescape(q[1]) == q[1];
      ScanEscape(q[1], tail);
      assert q[1..] == [q[1]];
    } else {
      var a, b := HexDigits(c);
      ScanHex(a, b, tail);
      assert q[1..] == ['x', a, b];
    }
  }

  lemma HexDigits(c: char) returns (a: char, b: char)
    requires c as int < 128 && !IsPlainChar(c) && |QuoteChar(c)| != 2
    ensures QuoteChar(c) == ['\\', 'x', a, b]
    ensures (IsDigit(a) || IsLetter(a)) && (IsDigit(b) || IsLetter(b))
  {
    a, b := HexDigit(c as int / 16), HexDigit(c as int % 16);
    assert "\\x" + [a, b] == ['\\', 'x', a, b];
  }

  lemma {:induction false} Unquote(s: string, k: string)
    requires IsAscii(s)
    ensures StringBody(QuoteTail(s, k)) == Scanned(Mangle(s), k, true)
  {
    if s == "" {
      assert QuoteTail(s, k) == "\"" + k;
      assert ("\"" + k)[1..] == k;
    } else {
      QuoteTailStep(s, k);
      Unquote(s[1..], k);
      if IsPlainChar(s[0]) {
        ScanPlain(s[0], QuoteTail(s[1..], k));
      } else {
        ScanOdd(s[0], QuoteTail(s[1..], k));
      }
    }
  }

  lemma {:induction false} MangleKeepsPlain(s: string)
    requires IsAscii(s)
    ensures Mangle(s) == s <==> IsPlain(s)
  {
    if s != "" {
      var c, rest := s[0], s[1..];
      assert s == [c] + rest;
      MangleKeepsPlain(rest);
      assert IsPlain(s) <==> IsPlainChar(c) && IsPlain(rest) by {
        assert forall i :: 0 <= i < |rest| ==> rest[i] == s[i + 1];
        if IsPlainChar(c) && IsPlain(rest) {
          assert forall i :: 0 < i < |s| ==> s[i] == rest[i - 1];
        }
      }
      if IsPlainChar(c) {
        assert Mangle(s)[1..] == Mangle(rest);
      } else {
        ScanOdd(c, "");
        assert Mangle(s)[0] == QuoteChar(c)[1];
      }
    }
  }

  /** `%q` and the lexer's escapes are inverse on exactly the plain strings. */
  lemma {:induction false} QuoteRoundTrip(s: string, k: string)
    requires IsAscii(s)
    ensures StringBody(QuoteBody(s) + ("\"" + k)) == Scanned(s, k, true) <==> IsPlain(s)
  {
    Unquote(s, k);
    MangleKeepsPlain(s);
  }

  lemma LexString(s: string, k: string)
    requires IsAscii(s)
    ensures StreamOf(Quote(s) + k) == Cons(Token(STRING, Mangle(s)), StreamOf(k))
  {
    var t := Quote(s) + k;
    assert t == "\"" + QuoteTail(s, k);
    Unquote(s, k);
    assert t[1..] == QuoteTail(s, k);
    QuoteBranch(t);
    LexAs(t, Token(STRING, Mangle(s)), k);
  }
}
