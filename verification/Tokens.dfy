/** The lexical vocabulary of the rule language: token types, the keyword table,
    the ASCII character classes, and token streams.  Source positions are left out. */
module Tokens {

  /** Token kinds, numbered as the source numbers its constants. */
  type TokenType = n: nat | n < 0x1_0000

  const EOF: TokenType := 0
  const ILLEGAL: TokenType := 1

  // identifiers and literals
  const IDENT: TokenType := 2
  const STRING: TokenType := 3
  const INT: TokenType := 4
  const DECIMAL: TokenType := 5
  const TIMESTAMP: TokenType := 6
  const DATE: TokenType := 7
  const DURATION: TokenType := 8
  const ATOM: TokenType := 9

  // keywords
  const SCHEMA: TokenType := 10
  const ENTITY: TokenType := 11
  const RELATION: TokenType := 12
  const FROM: TokenType := 13
  const TO: TokenType := 14
  const RULE: TokenType := 15
  const READS: TokenType := 16
  const WRITES: TokenType := 17
  const DEPENDS_ON: TokenType := 18
  const SELECT: TokenType := 19
  const WHERE: TokenType := 20
  const GROUP_BY: TokenType := 21
  const HAVING: TokenType := 22
  const SET: TokenType := 23
  const INSERT: TokenType := 24
  const INTO: TokenType := 25
  const AS: TokenType := 26
  const DELETE: TokenType := 27
  const RELATE: TokenType := 28
  const UNRELATE: TokenType := 29
  const MERGE: TokenType := 30
  const SPLIT: TokenType := 31
  const PARTITION: TokenType := 32
  const DISCRIMINATOR: TokenType := 33
  const REANCHOR_RELATIONS: TokenType := 34
  const RETAIN_SOURCES: TokenType := 35
  const RETAIN_SOURCE: TokenType := 36
  const GUARD: TokenType := 37
  const REQUIRED: TokenType := 38
  const OPTIONAL: TokenType := 39
  const TRUE: TokenType := 40
  const FALSE: TokenType := 41
  const NULL: TokenType := 42
  const CHECKPOINT: TokenType := 43
  const AFTER: TokenType := 44
  const PROFILE: TokenType := 45
  const FOR: TokenType := 46
  const REQUIRE: TokenType := 47
  const PRESENT: TokenType := 48
  const IMPLIES: TokenType := 49

  // built-in functions
  const ALL: TokenType := 50
  const ANY: TokenType := 51
  const ALL_EQUAL: TokenType := 52
  const EXISTS: TokenType := 53
  const COUNT: TokenType := 54
  const SUM: TokenType := 55
  const MIN: TokenType := 56
  const MAX: TokenType := 57
  const COALESCE: TokenType := 58
  const IF: TokenType := 59
  const CONCAT: TokenType := 60
  const SUBSTRING: TokenType := 61
  const TRIM: TokenType := 62
  const ABS: TokenType := 63
  const CLAMP: TokenType := 64
  const DATE_ADD: TokenType := 65
  const DATE_DIFF: TokenType := 66
  const EXTRACT: TokenType := 67

  // punctuation
  const DOT: TokenType := 68
  const COMMA: TokenType := 69
  const COLON: TokenType := 70
  const SEMICOLON: TokenType := 71
  const ASSIGN: TokenType := 72
  const LPAREN: TokenType := 73
  const RPAREN: TokenType := 74
  const LBRACE: TokenType := 75
  const RBRACE: TokenType := 76
  const LBRACKET: TokenType := 77
  const RBRACKET: TokenType := 78

  // operators
  const EQUAL: TokenType := 79
  const NOT_EQUAL: TokenType := 80
  const LESS: TokenType := 81
  const LESS_EQ: TokenType := 82
  const GREATER: TokenType := 83
  const GREAT_EQ: TokenType := 84
  const AND: TokenType := 85
  const OR: TokenType := 86
  const NOT: TokenType := 87
  const PLUS: TokenType := 88
  const MINUS: TokenType := 89
  const STAR: TokenType := 90
  const SLASH: TokenType := 91
  const PERCENT: TokenType := 92
  const ARROW: TokenType := 93

  datatype Token = Token(kind: TokenType, literal: string)

  const EOF_TOKEN := Token(EOF, "")

  const LPAREN_TOKEN := Token(LPAREN, "(")
  const RPAREN_TOKEN := Token(RPAREN, ")")
  const COMMA_TOKEN := Token(COMMA, ",")
  const DOT_TOKEN := Token(DOT, ".")
  const MINUS_TOKEN := Token(MINUS, "-")

  /** The end of the file is no token of a stream, and punctuation has one spelling. */
  predicate IsLexed(t: Token) {
    && t.kind != EOF
    && (t.kind == LPAREN ==> t == LPAREN_TOKEN)
    && (t.kind == RPAREN ==> t == RPAREN_TOKEN)
    && (t.kind == COMMA ==> t == COMMA_TOKEN)
    && (t.kind == DOT ==> t == DOT_TOKEN)
    && (t.kind == MINUS ==> t == MINUS_TOKEN)
  }

  /** What is still to be parsed.  A stream ends in an unbounded supply of end-of-file tokens. */
  datatype Toks = End | Cons(head: Token, tail: Toks) {
    function Current(): Token {
      match this case End => EOF_TOKEN case Cons(t, _) => t
    }

    function Advance(): (r: Toks)
      ensures r.Size() == if End? then 0 else Size() - 1
    {
      match this case End => End case Cons(_, rest) => rest
    }

    function Peek(): Token {
      Advance().Current()
    }

    function Size(): nat {
      match this case End => 0 case Cons(_, rest) => 1 + rest.Size()
    }

    /** Every token is one the lexer makes. */
    predicate Proper() {
      match this case End => true case Cons(t, rest) => IsLexed(t) && rest.Proper()
    }
  }

  function LookupIdent(s: string): TokenType {
    match s
    case "schema" => SCHEMA
    case "entity" => ENTITY
    case "relation" => RELATION
    case "from" => FROM
    case "to" => TO
    case "rule" => RULE
    case "reads" => READS
    case "writes" => WRITES
    case "depends_on" => DEPENDS_ON
    case "select" => SELECT
    case "where" => WHERE
    case "group_by" => GROUP_BY
    case "having" => HAVING
    case "set" => SET
    case "insert" => INSERT
    case "into" => INTO
    case "as" => AS
    case "delete" => DELETE
    case "relate" => RELATE
    case "unrelate" => UNRELATE
    case "merge" => MERGE
    case "split" => SPLIT
    case "partition" => PARTITION
    case "discriminator" => DISCRIMINATOR
    case "reanchor_relations" => REANCHOR_RELATIONS
    case "retain_sources" => RETAIN_SOURCES
    case "retain_source" => RETAIN_SOURCE
    case "guard" => GUARD
    case "required" => REQUIRED
    case "optional" => OPTIONAL
    case "true" => TRUE
    case "false" => FALSE
    case "null" => NULL
    case "checkpoint" => CHECKPOINT
    case "after" => AFTER
    case "profile" => PROFILE
    case "for" => FOR
    case "require" => REQUIRE
    case "present" => PRESENT
    case "implies" => IMPLIES
    case "and" => AND
    case "or" => OR
    case "not" => NOT
    case "all" => ALL
    case "any" => ANY
    case "all_equal" => ALL_EQUAL
    case "exists" => EXISTS
    case "count" => COUNT
    case "sum" => SUM
    case "min" => MIN
    case "max" => MAX
    case "coalesce" => COALESCE
    case "if" => IF
    case "concat" => CONCAT
    case "substring" => SUBSTRING
    case "trim" => TRIM
    case "abs" => ABS
    case "clamp" => CLAMP
    case "date_add" => DATE_ADD
    case "date_diff" => DATE_DIFF
    case "extract" => EXTRACT
    case _ => IDENT
  }

  const SMALL_LETTERS := "abcdefghijklmnopqrstuvwxyz"
  const CAPITAL_LETTERS := "ABCDEFGHIJKLMNOPQRSTUVWXYZ"

  predicate IsSpace(c: char) {
    c == ' ' || '\t' <= c <= '\r'
  }

  predicate IsDigit(c: char) {
    '0' <= c <= '9'
  }

  predicate IsLetter(c: char) {
    'a' <= c <= 'z' || 'A' <= c <= 'Z' || c == '_'
  }

  predicate IsIdentChar(c: char) {
    IsLetter(c) || IsDigit(c)
  }

  /** The lexeme of an identifier, keyword or atom name. */
  predicate IsWord(s: string) {
    s != "" && IsLetter(s[0]) && forall i :: 0 <= i < |s| ==> IsIdentChar(s[i])
  }

  /** A word that is not a keyword: what a declaration may be called. */
  predicate IsName(s: string) {
    IsWord(s) && LookupIdent(s) == IDENT
  }

  predicate IsPathToken(t: TokenType) {
    t == IDENT || t == FROM || t == TO
  }

  /** A word that may stand in a dotted path; `from` and `to` are keywords a path may use. */
  predicate IsPathWord(s: string) {
    IsWord(s) && IsPathToken(LookupIdent(s))
  }

  /** The built-in functions are numbered together, from `all` to `extract`. */
  predicate IsBuiltin(t: TokenType) {
    ALL <= t <= EXTRACT
  }
}
