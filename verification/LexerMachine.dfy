/** The scanner: a cursor over its input. */
module LexerMachine {
  import opened Tokens
  import opened LexerSpec

  class Lexer {
    const input: string
    var pos: nat
    var readPos: nat
    var ch: char

    ghost predicate Valid()
      reads this
    {
      && pos <= |input|
      && ch == Head(Rest())
      && readPos == if pos < |input| then pos + 1 else pos
    }

    /** The text from the current rune on. */
    ghost function Rest(): string
      reads this
    {
      if pos <= |input| then input[pos..] else ""
    }

    constructor (text: string)
      ensures Valid() && Rest() == text
    {
      input := text;
      pos, readPos, ch := 0, 0, '\0';
      new;
      ReadChar0();
      assert text[0..] == text;
    }

    /** The first read, which leaves the cursor on the first rune. */
    method ReadChar0()
      requires pos == 0 && readPos == 0
      modifies this
      ensures Valid() && pos == 0
    {
      if readPos >= |input| {
        ch := '\0';
        pos := readPos;
      } else {
        ch := input[readPos];
        pos := readPos;
        readPos := readPos + 1;
      }
    }

    method ReadChar()
      requires Valid()
      modifies this
      ensures Valid()
      ensures Rest() == if old(Rest()) == "" then "" else old(Rest())[1..]
      ensures pos == if old(Rest()) == "" then old(pos) else old(pos) + 1
    {
      if readPos >= |input| {
        ch := '\0';
        pos := readPos;
      } else {
        ch := input[readPos];
        pos := readPos;
        readPos := readPos + 1;
      }
    }

    function PeekChar(): (c: char)
      requires Valid()
      reads this
      ensures c == Second(Rest())
    {
      if readPos >= |input| then '\0' else input[readPos]
    }

    method SkipWhitespaceAndComments()
      requires Valid()
      modifies this
      ensures Valid()
      ensures Rest() == Skip(old(Rest()))
    {
      while true
        invariant Valid()
        invariant Skip(Rest()) == Skip(old(Rest()))
        decreases |input| - pos
      {
        if IsSpace(ch) {
          ReadChar();
          continue;
        }
        if ch == '#' || (ch == '/' && PeekChar() == '/') {
          SkipRestOfLine();
          continue;
        }
        if ch == '/' && PeekChar() == '*' {
          SkipComment();
          continue;
        }
        break;
      }
    }

    method SkipRestOfLine()
      requires Valid() && ch != '\n' && ch != '\0'
      modifies this
      ensures Valid() && pos > old(pos)
      ensures Rest() == SkipLine(old(Rest())[1..])
    {
      ghost var start := Rest();
      while ch != '\n' && ch != '\0'
        invariant Valid() && pos >= old(pos)
        invariant SkipLine(Rest()) == SkipLine(start)
        invariant pos == old(pos) ==> Rest() == start
        decreases |input| - pos
      {
        ReadChar();
      }
    }

    method SkipComment()
      requires Valid() && StartsBlockComment(Rest())
      modifies this
      ensures Valid() && pos > old(pos)
      ensures Rest() == SkipBlock(old(Rest())[2..])
    {
      ReadChar();
      ReadChar();
      while ch != '\0'
        invariant Valid() && pos > old(pos)
        invariant SkipBlock(Rest()) == SkipBlock(old(Rest())[2..])
        decreases |input| - pos
      {
        if ch == '*' && PeekChar() == '/' {
          ReadChar();
          ReadChar();
          return;
        }
        ReadChar();
      }
    }

    method ReadIdentifier() returns (word: string)
      requires Valid()
      modifies this
      ensures Valid()
      ensures var n := WordEnd(old(Rest())); word == old(Rest())[..n] && Rest() == old(Rest())[n..]
    {
      var start := pos;
      while IsLetter(ch) || IsDigit(ch) || ch == '_'
        invariant Valid() && start <= pos
        invariant WordEnd(old(Rest())) == pos - start + WordEnd(Rest())
        decreases |input| - pos
      {
        ReadChar();
      }
      Slices(input, start, pos);
      word := input[start..pos];
    }

    method ReadDigits()
      requires Valid()
      modifies this
      ensures Valid() && pos >= old(pos)
      ensures pos == old(pos) + DigitEnd(old(Rest()))
      ensures Rest() == old(Rest())[DigitEnd(old(Rest()))..]
    {
      while IsDigit(ch)
        invariant Valid() && old(pos) <= pos
        invariant DigitEnd(old(Rest())) == pos - old(pos) + DigitEnd(Rest())
        decreases |input| - pos
      {
        ReadChar();
      }
      Slices(input, old(pos), pos);
    }

    method ReadNumberBody() returns (fraction: bool)
      requires Valid()
      modifies this
      ensures Valid() && pos >= old(pos)
      ensures NumberBody(old(Rest())) == (pos - old(pos), fraction)
      ensures Rest() == old(Rest())[pos - old(pos)..]
    {
      hide StreamOf, NumberBody, DigitEnd, IsDigit;
      ghost var s := Rest();
      ghost var n := DigitEnd(s);
      ReadDigits();
      fraction := ch == '.' && IsDigit(PeekChar());
      if fraction {
        ReadChar();
        ReadDigits();
      }
      NumberBodyFrom(s, s[n..]);
    }

    method ReadNumber() returns (t: Token)
      requires Valid() && IsDigit(ch)
      modifies this
      ensures Valid()
      ensures (t, Rest()) == Number(old(Rest()))
    {
      var start := pos;
      ghost var s := Rest();
      var isDecimal := ReadNumberBody();
      ghost var n := pos - start;
      Drops(s, n, if n < |s| then 1 else 0);
      if ch == 'd' || ch == 'D' {
        isDecimal := true;
        ReadChar();
      }
      var numStr := NumberText(start, n);
      t := Token(if isDecimal then DECIMAL else INT, numStr);
    }

    /** The digits read so far, without the marker that may end them. */
    method NumberText(start: nat, ghost n: nat) returns (text: string)
      requires Valid() && start <= pos && start < |input| && IsDigit(input[start])
      requires NumberBody(input[start..]).0 == n
      requires pos == start + n || (pos == start + n + 1 && (input[start + n] == 'd' || input[start + n] == 'D'))
      ensures text == input[start..][..n]
    {
      Slices(input, start, pos);
      DigitsOnly(input[start..]);
      TrimsMarker(input[start..pos], n);
      text := TrimSuffix(TrimSuffix(input[start..pos], 'd'), 'D');
    }

    method ReadString() returns (text: string, closed: bool)
      requires Valid() && ch == '"'
      modifies this
      ensures Valid()
      ensures Scanned(text, Rest(), closed) == StringBody(old(Rest())[1..])
    {
      ReadChar();
      ghost var s := Rest();
      text := "";
      while true
        invariant Valid()
        invariant var all, tail := StringBody(s), StringBody(Rest());
                  all == Scanned(text + tail.text, tail.rest, tail.closed)
        decreases |input| - pos
      {
        if ch == '\0' || ch == '\n' {
          return text, false;
        }
        if ch == '"' {
          ReadChar();
          break;
        }
        ghost var here := Rest();
        if ch == '\\' {
          ReadChar();
          var c := Unescape(ch);
          ReadChar();
          assert Rest() == if |here| < 2 then "" else here[2..];
          StringStep(text, c, StringBody(Rest()).text);
          text := text + [c];
          continue;
        }
        var c := ch;
        ReadChar();
        StringStep(text, c, StringBody(Rest()).text);
        text := text + [c];
      }
      closed := true;
    }

    /** Scans the next token; at the end of the input the lexer stays there. */
    method NextToken() returns (t: Token)
      requires Valid()
      modifies this
      ensures Valid()
      ensures StreamOf(old(Rest())).Current() == t
      ensures StreamOf(old(Rest())).Advance() == StreamOf(Rest())
      ensures old(pos) <= pos && (t.kind != EOF ==> old(pos) < pos)
    {
      SkipWhitespaceAndComments();
      if ch == '\0' {
        SkipIdempotent(old(Rest()));
        return EOF_TOKEN;
      }
      assert StreamOf(old(Rest())) == TokenThen(Rest());
      t := ScanToken();
    }

    /** The branches of the scanner, from the first character of a token. */
    method ScanToken() returns (t: Token)
      requires Valid() && ch != '\0'
      modifies this
      ensures Valid()
      ensures (t, Rest()) == LexOne(old(Rest()))
    {
      var c := ch;
      if c == ':' {
        if IsLetter(PeekChar()) {
          ReadChar();
          var word := ReadIdentifier();
          return Token(ATOM, word);
        }
        ReadChar();
        return Token(COLON, ":");
      } else if Punctuation(c) != ILLEGAL {
        ReadChar();
        return Token(Punctuation(c), [c]);
      } else if Digraph(c).0 != '\0' {
        var (second, long, short) := Digraph(c);
        if PeekChar() == second {
          ReadChar();
          ReadChar();
          return Token(long, [c, second]);
        }
        ReadChar();
        return Token(short, [c]);
      } else if c == '"' {
        var text, closed := ReadString();
        return Token(if closed then STRING else ILLEGAL, text);
      } else if IsDigit(c) {
        t := ReadNumber();
      } else if IsLetter(c) {
        var word := ReadIdentifier();
        return Token(LookupIdent(word), word);
      } else {
        ReadChar();
        return Token(ILLEGAL, [c]);
      }
    }
  }

  function TrimSuffix(s: string, c: char): string {
    if s != "" && s[|s| - 1] == c then s[..|s| - 1] else s
  }

  lemma Slices(s: string, i: nat, j: nat)
    requires i <= j <= |s|
    ensures s[i..][j - i..] == s[j..] && s[i..][..j - i] == s[i..j]
  {
  }

  lemma Drops(s: string, i: nat, j: nat)
    requires i + j <= |s|
    ensures s[i..][j..] == s[i + j..]
  {
  }

  lemma NumberBodyFrom(s: string, rest: string)
    requires rest == s[DigitEnd(s)..]
    ensures NumberBody(s) ==
      if Head(rest) == '.' && IsDigit(Second(rest)) then (DigitEnd(s) + 1 + DigitEnd(rest[1..]), true)
      else (DigitEnd(s), false)
    ensures Head(rest) == '.' && IsDigit(Second(rest)) ==>
      rest[1..][DigitEnd(rest[1..])..] == s[DigitEnd(s) + 1 + DigitEnd(rest[1..])..]
  {
    if Head(rest) == '.' && IsDigit(Second(rest)) {
      Drops(s, DigitEnd(s), 1);
      Drops(s, DigitEnd(s) + 1, DigitEnd(rest[1..]));
    }
  }

  lemma TrimsMarker(s: string, n: nat)
    requires 0 < n <= |s| && IsDigit(s[n - 1])
    requires n == |s| || (n + 1 == |s| && (s[n] == 'd' || s[n] == 'D'))
    ensures TrimSuffix(TrimSuffix(s, 'd'), 'D') == s[..n]
  {
  }

  lemma DigitPrefix(s: string, i: nat)
    requires i < DigitEnd(s)
    ensures IsDigit(s[i])
  {
    if i > 0 { DigitPrefix(s[1..], i - 1); }
  }

  /** The body of a number never ends in the marker `d`, so trimming takes the marker alone. */
  lemma DigitsOnly(s: string)
    requires s != "" && IsDigit(s[0])
    ensures var n := NumberBody(s).0; n > 0 && IsDigit(s[n - 1])
  {
    var n := DigitEnd(s);
    DigitPrefix(s, n - 1);
    if NumberBody(s).1 {
      var m := DigitEnd(s[n + 1..]);
      assert s[n + 1..][0] == s[n..][1];
      DigitPrefix(s[n + 1..], m - 1);
    }
  }

  lemma {:induction false} SkipIdempotent(s: string)
    ensures Skip(Skip(s)) == Skip(s)
    decreases |s|
  {
    if s != "" && IsSpace(s[0]) {
      SkipIdempotent(s[1..]);
    } else if StartsLineComment(s) {
      SkipIdempotent(SkipLine(s[1..]));
    } else if StartsBlockComment(s) {
      SkipIdempotent(SkipBlock(s[2..]));
    }
  }

  /** One step of the string loop moves one scanned rune from what is left to what is read. */
  lemma StringStep(done: string, c: char, rest: string)
    ensures done + ([c] + rest) == (done + [c]) + rest
  {
  }
}
