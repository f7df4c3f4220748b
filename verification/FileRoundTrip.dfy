/** Printing a file and reading it back, and the formatter of source text. */
module FileRoundTrip {
  import opened Tokens
  import opened Ast
  import opened LexerSpec
  import opened ExprParserSpec
  import opened FileParserSpec
  import opened FormatSpec
  import opened FileTokens
  import opened FileReading
  import opened DeclLexing
  import opened Contents
  import opened FileSettling
  import opened NormalForms
  import opened ClosedFiles
  import opened OpenReading

  /** What formatting a source text ends in. */
  datatype Formatted = Crash | Refused | Text(text: string)

  /** A panic may come from the parser, or from the printer following a nil selector. */
  function FormatSource(src: string): Formatted {
    match ParseTokens(StreamOf(src))
    case Panicked => Crash
    case Done(st, f) =>
      if st.errs != 0 then Refused
      else if !FormattableAll(f.declarations) then Crash
      else Text(Format(f))
  }

  /** Lexing and parsing the printed text of a well-formed file consumes all of it, records no error,
      and finds the file with its signs folded in and the strings the lexer knows. */
  lemma FileReadsBack(f: File)
    requires GoodFile(f)
    ensures FormattableAll(f.declarations)
    ensures ParseTokens(StreamOf(Format(f))) == Done(State(End, 0), BackFile(f))
  {
    hide ParseTokens, Format, GoodFile, WrittenFile;
    FileClosed(f);
    LexFile(f);
    ReadsFile(f);
  }

  /** The printed text of a file in which something is left open is refused, or crashes the parser. */
  lemma OpenFileFails(f: File)
    requires WrittenFile(f) && !GoodFile(f)
    ensures FormattableAll(f.declarations) && !FormatSource(Format(f)).Text?
    ensures ParseTokens(StreamOf(Format(f))) != Done(State(End, 0), NormFile(f))
  {
    hide Format, StreamOf, ParseDeclarations, WrittenDecl, GoodDecl, DeclsThen;
    forall d | d in f.declarations ensures Formattable(d) { WrittenIsFormattable(d); }
    LexFile(f);
    OpenDecls(f.declarations, [], 0);
  }

  /** ROUND TRIP.  The file that is found in the printed text is the one that was printed, signs folded
      in, if and only if nothing in it is left open, its strings are plain and its decimals have a
      fraction. */
  lemma {:induction false} FileRoundTrip(f: File)
    requires WrittenFile(f)
    ensures FormattableAll(f.declarations)
    ensures ParseTokens(StreamOf(Format(f))) == Done(State(End, 0), NormFile(f))
            <==> AllClosed(FileContents(f)) && AllExact(FileContents(f))
  {
    hide ParseTokens, Format, AllExact, AllClosed, GoodDecl, WrittenFile;
    FileClosed(f);
    if GoodFile(f) {
      FileReadsBack(f);
      DeclsExactly(f.declarations);
    } else {
      OpenFileFails(f);
    }
  }

  /** IDEMPOTENCE.  The text of a written file can be formatted if and only if nothing in the file is left
      open; that gives the same text if and only if moreover its strings are plain; and formatting once
      more never changes anything. */
  lemma {:induction false} FormatIsIdempotent(f: File)
    requires WrittenFile(f)
    ensures FormattableAll(f.declarations)
    ensures FormatSource(Format(f)).Text? <==> AllClosed(FileContents(f))
    ensures FormatSource(Format(f)) == Text(Format(f)) <==> AllClosed(FileContents(f)) && AllPlain(FileContents(f))
    ensures AllClosed(FileContents(f)) ==> FormatSource(FormatSource(Format(f)).text) == FormatSource(Format(f))
  {
    hide ParseTokens, Format, AllPlain, AllClosed, GoodFile, WrittenFile;
    FileClosed(f);
    if GoodFile(f) {
      FileReadsBack(f);
      FileSettles(f);
      FileReadsBack(BackFile(f));
    } else {
      OpenFileFails(f);
    }
  }
}
