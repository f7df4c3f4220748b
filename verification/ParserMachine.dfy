/** The parser: two tokens of lookahead over the lexer, and the errors it has recorded. */
module ParserMachine {
  import opened Tokens
  import opened Ast
  import opened LexerSpec
  import opened LexerMachine
  import opened ExprParserSpec
  import opened FileParserSpec

  /** Messages are left out; an error is what was wanted, if anything, and the token there. */
  datatype ParseError = Expected(want: TokenType, got: Token) | UnexpectedToken(got: Token)

  /** How a method that may dereference a nil selector comes back. */
  datatype Run<+T> = Crashed | Returned(value: T) {
    predicate IsFailure() {
      Crashed?
    }

    function PropagateFailure<U>(): Run<U>
      requires Crashed?
    {
      Crashed
    }

    function Extract(): T
      requires Returned?
    {
      value
    }

    /** The run ended as the specification says, in the state it says. */
    ghost predicate Meets(o: Outcome<T>, now: State)
    {
      match o
      case Panicked => Crashed?
      case Done(st, v) => Returned? && value == v && now == st
    }
  }

  class Parser {
    const l: Lexer
    var curToken: Token
    var peekToken: Token
    var errors: seq<ParseError>

    ghost predicate Valid()
      reads this, l
    {
      && l.Valid()
      && (curToken.kind == EOF ==> curToken == EOF_TOKEN && peekToken.kind == EOF)
      && (peekToken.kind == EOF ==> peekToken == EOF_TOKEN && StreamOf(l.Rest()) == End)
    }

    /** The tokens from the current one on. */
    ghost function Stream(): Toks
      reads this, l
    {
      if curToken.kind == EOF then End
      else Cons(curToken, if peekToken.kind == EOF then End else Cons(peekToken, StreamOf(l.Rest())))
    }

    ghost function Now(): State
      reads this, l
    {
      State(Stream(), |errors|)
    }

    constructor (lexer: Lexer)
      requires lexer.Valid()
      modifies lexer
      ensures Valid() && l == lexer
      ensures Now() == State(StreamOf(old(lexer.Rest())), 0)
    {
      l := lexer;
      curToken, peekToken, errors := EOF_TOKEN, EOF_TOKEN, [];
      new;
      peekToken := l.NextToken();
      curToken := peekToken;
      peekToken := l.NextToken();
    }

    method NextToken()
      requires Valid()
      modifies this, l
      ensures Valid() && errors == old(errors)
      ensures Now() == old(Now()).Next()
    {
      curToken := peekToken;
      peekToken := l.NextToken();
    }

    predicate CurTokenIs(t: TokenType)
      reads this
    {
      curToken.kind == t
    }

    predicate PeekTokenIs(t: TokenType)
      reads this
    {
      peekToken.kind == t
    }

    method Error(e: ParseError)
      requires Valid()
      modifies this
      ensures Valid() && errors == old(errors) + [e]
      ensures Now() == old(Now()).Fail()
    {
      errors := errors + [e];
    }

    method ExpectPeek(t: TokenType) returns (ok: bool)
      requires Valid()
      modifies this, l
      ensures Valid()
      ensures (Now(), ok) == old(Now()).Expect(t)
      ensures errors == if ok then old(errors) else old(errors) + [Expected(t, old(peekToken))]
    {
      if PeekTokenIs(t) {
        NextToken();
        return true;
      }
      Error(Expected(t, peekToken));
      return false;
    }

    // ----- expressions -----

    method ParseExpression(precedence: nat) returns (e: Expr)
      requires Valid() && precedence >= LOWEST
      modifies this, l
      ensures Valid()
      ensures (Now(), e) == ExprParserSpec.ParseExpression(old(Now()), precedence)
      decreases Now().Size(), 3
    {
      hide StreamOf;
      e := ParsePrefixExpression();
      if e == Nil {
        return;
      }
      e := ParseTighter(e, precedence);
    }

    /** The loop of `ParseExpression`, from the operand it starts with. */
    method ParseTighter(left: Expr, precedence: nat) returns (e: Expr)
      requires Valid() && precedence >= LOWEST && left != Nil
      modifies this, l
      ensures Valid()
      ensures (Now(), e) == ParseInfixes(old(Now()), precedence, left)
      decreases Now().Size(), 1
    {
      hide StreamOf;
      e := left;
      while !StopsExpression(peekToken.kind) && precedence < Precedence(peekToken.kind)
        invariant Valid() && Now().Size() <= old(Now()).Size()
        invariant ParseInfixes(Now(), precedence, e) == ParseInfixes(old(Now()), precedence, left)
        decreases Now().Size()
      {
        NextToken();
        e := ParseInfixExpression(e);
      }
    }

    method ParseInfixExpression(left: Expr) returns (e: Expr)
      requires Valid() && !CurTokenIs(EOF)
      modifies this, l
      ensures Valid()
      ensures (Now(), e) == ParseInfix(old(Now()), left)
      decreases Now().Size(), 0
    {
      hide StreamOf;
      var op := curToken.kind;
      NextToken();
      var right := ParseExpression(Precedence(op));
      e := Binary(op, left, right);
    }

    method ParsePrefixExpression() returns (e: Expr)
      requires Valid()
      modifies this, l
      ensures Valid()
      ensures (Now(), e) == ParsePrefix(old(Now()))
      decreases Now().Size(), 2
    {
      hide StreamOf;
      var t := curToken.kind;
      if IsPathToken(t) {
        e := ParsePathOrFunction();
      } else if t == STRING {
        e := Lit(LitString, curToken.literal);
      } else if t == INT {
        e := Lit(LitInt, curToken.literal);
      } else if t == DECIMAL {
        e := Lit(LitDecimal, curToken.literal);
      } else if t == TRUE {
        e := Lit(LitBool, "true");
      } else if t == FALSE {
        e := Lit(LitBool, "false");
      } else if t == NULL {
        e := Lit(LitNull, "null");
      } else if t == ATOM {
        e := Lit(LitAtom, curToken.literal);
      } else if t == MINUS && PeekTokenIs(INT) {
        NextToken();
        e := Lit(LitInt, "-" + curToken.literal);
      } else if t == MINUS && PeekTokenIs(DECIMAL) {
        NextToken();
        e := Lit(LitDecimal, "-" + curToken.literal);
      } else if t == MINUS || t == NOT {
        NextToken();
        var right := ParseExpression(PREFIX);
        e := Unary(t, right);
      } else if t == LPAREN {
        NextToken();
        e := ParseExpression(LOWEST);
        var closed := ExpectPeek(RPAREN);
        if !closed {
          e := Nil;
        }
      } else if IsBuiltin(t) {
        e := ParseCall(curToken.literal);
      } else {
        Error(UnexpectedToken(curToken));
        e := Nil;
      }
    }

    method ParsePathOrFunction() returns (e: Expr)
      requires Valid() && !CurTokenIs(EOF)
      modifies this, l
      ensures Valid()
      ensures (Now(), e) == ExprParserSpec.ParsePathOrFunction(old(Now()))
      decreases Now().Size(), 1
    {
      hide StreamOf;
      var name := curToken.literal;
      if PeekTokenIs(LPAREN) {
        match LiteralConstructor(name)
        case Some(kind) =>
          NextToken();
          NextToken();
          var text := curToken.literal;
          var closed := ExpectPeek(RPAREN);
          e := Lit(kind, text);
        case None =>
          e := ParseCall(name);
      } else {
        var path := ParsePathTail(name);
        e := match path case Some(p) => Path(p) case None => Nil;
      }
    }

    method ParsePathTail(name: string) returns (path: Option<string>)
      requires Valid()
      modifies this, l
      ensures Valid()
      ensures (Now(), path) == PathTail(old(Now()), name)
    {
      hide StreamOf;
      var p := name;
      while PeekTokenIs(DOT)
        invariant Valid()
        invariant PathTail(Now(), p) == PathTail(old(Now()), name)
        decreases Now().Size()
      {
        NextToken();
        if !IsPathToken(peekToken.kind) {
          Error(UnexpectedToken(peekToken));
          return None;
        }
        NextToken();
        p := p + "." + curToken.literal;
      }
      return Some(p);
    }

    method ParsePathExpression() returns (path: Option<string>)
      requires Valid()
      modifies this, l
      ensures Valid()
      ensures (Now(), path) == PathExpression(old(Now()))
    {
      hide StreamOf;
      if !IsPathToken(curToken.kind) {
        Error(UnexpectedToken(curToken));
        return None;
      }
      path := ParsePathTail(curToken.literal);
    }

    method ParseCall(name: string) returns (e: Expr)
      requires Valid()
      modifies this, l
      ensures Valid()
      ensures (Now(), e) == ExprParserSpec.ParseCall(old(Now()), name)
      decreases Now().Size(), 0
    {
      hide StreamOf;
      var isCall := ExpectPeek(LPAREN);
      if !isCall {
        return Nil;
      }
      ghost var st1 := Now();
      var args := [];
      if !PeekTokenIs(RPAREN) {
        NextToken();
        var first := ParseExpression(LOWEST);
        args := [first];
        ghost var st2 := Now();
        while PeekTokenIs(COMMA)
          invariant Valid() && Now().Size() < st1.Size()
          invariant ParseMoreArgs(Now(), args) == ParseMoreArgs(st2, [first])
          decreases Now().Size()
        {
          NextToken();
          NextToken();
          var arg := ParseExpression(LOWEST);
          args := args + [arg];
        }
      }
      var closed := ExpectPeek(RPAREN);
      e := if closed then Call(name, args) else Nil;
    }

    // ----- schemas -----

    method SkipDelimiters()
      requires Valid()
      modifies this, l
      ensures Valid()
      ensures Now() == SkipDelimiter(old(Now()))
    {
      hide StreamOf;
      if PeekTokenIs(COMMA) || PeekTokenIs(SEMICOLON) {
        NextToken();
      }
    }

    method SkipSemicolon()
      requires Valid()
      modifies this, l
      ensures Valid()
      ensures Now() == SkipPeeked(old(Now()), SEMICOLON)
    {
      hide StreamOf;
      if PeekTokenIs(SEMICOLON) {
        NextToken();
      }
    }

    method SkipComma()
      requires Valid()
      modifies this, l
      ensures Valid()
      ensures Now() == SkipPeeked(old(Now()), COMMA)
    {
      hide StreamOf;
      if PeekTokenIs(COMMA) {
        NextToken();
      }
    }

    predicate CurTokenEnds(close: TokenType)
      reads this
    {
      CurTokenIs(close) || CurTokenIs(EOF)
    }

    method ExpectPeekEither(a: TokenType, b: TokenType) returns (ok: bool)
      requires Valid()
      modifies this, l
      ensures Valid()
      ensures (Now(), ok) == ExpectEither(old(Now()), a, b)
    {
      hide StreamOf;
      ok := ExpectPeek(a);
      if !ok {
        ok := ExpectPeek(b);
      }
    }

    method ExpectPeekBoth(a: TokenType, b: TokenType) returns (ok: bool)
      requires Valid()
      modifies this, l
      ensures Valid()
      ensures (Now(), ok) == ExpectBoth(old(Now()), a, b)
    {
      hide StreamOf;
      ok := ExpectPeek(a);
      if ok {
        ok := ExpectPeek(b);
      }
    }

    method ParseFieldDecl() returns (field: Option<Field>)
      requires Valid()
      modifies this, l
      ensures Valid()
      ensures (Now(), field) == ParseField(old(Now()))
    {
      hide StreamOf;
      if !CurTokenIs(IDENT) {
        Error(UnexpectedToken(curToken));
        return None;
      }
      var name := curToken.literal;
      var colon := ExpectPeek(COLON);
      if !colon {
        return None;
      }
      NextToken();
      if !CurTokenIs(IDENT) {
        Error(UnexpectedToken(curToken));
        return None;
      }
      var typeName := curToken.literal;
      var required := true;
      if PeekTokenIs(OPTIONAL) {
        NextToken();
        required := false;
      } else if PeekTokenIs(REQUIRED) {
        NextToken();
      }
      SkipDelimiters();
      return Some(Field(name, typeName, required));
    }

    method ParseEntityDecl() returns (entity: Option<Entity>)
      requires Valid()
      modifies this, l
      ensures Valid()
      ensures (Now(), entity) == ParseEntity(old(Now()))
    {
      hide StreamOf;
      var named := ExpectPeek(IDENT);
      if !named {
        return None;
      }
      var kind := curToken.literal;
      var open := ExpectPeek(LBRACE);
      if !open {
        return None;
      }
      NextToken();
      ghost var start := Now();
      var fields := [];
      while !CurTokenEnds(RBRACE)
        invariant Valid()
        invariant ParseFields(Now(), fields) == ParseFields(start, [])
        decreases Now().Size()
      {
        var field := ParseFieldDecl();
        if field.Some? {
          fields := fields + [field.value];
        }
        NextToken();
      }
      return Some(Entity(kind, fields));
    }

    method ParseRelationDecl() returns (rel: Option<Relation>)
      requires Valid()
      modifies this, l
      ensures Valid()
      ensures (Now(), rel) == ParseRelation(old(Now()))
    {
      hide StreamOf;
      var named := ExpectPeek(IDENT);
      if !named {
        return None;
      }
      var kind := curToken.literal;
      var open := ExpectPeek(LBRACE);
      if !open {
        return None;
      }
      NextToken();
      rel := ParseRelationEndpoints(kind);
    }

    method ParseRelationEndpoints(kind: string) returns (rel: Option<Relation>)
      requires Valid()
      modifies this, l
      ensures Valid()
      ensures (Now(), rel) == ParseEndpoints(old(Now()), Relation(kind, "", ""))
    {
      hide StreamOf;
      var fromKind, toKind := "", "";
      while !CurTokenEnds(RBRACE)
        invariant Valid()
        invariant ParseEndpoints(Now(), Relation(kind, fromKind, toKind)) == ParseEndpoints(old(Now()), Relation(kind, "", ""))
        decreases Now().Size()
      {
        if CurTokenIs(FROM) {
          var ok := ExpectPeekBoth(COLON, IDENT);
          if !ok {
            return None;
          }
          fromKind := curToken.literal;
        } else if CurTokenIs(TO) {
          var ok := ExpectPeekBoth(COLON, IDENT);
          if !ok {
            return None;
          }
          toKind := curToken.literal;
        }
        SkipDelimiters();
        NextToken();
      }
      return Some(Relation(kind, fromKind, toKind));
    }

    method ParseSchemaDecl() returns (d: Decl)
      requires Valid()
      modifies this, l
      ensures Valid()
      ensures (Now(), d) == ParseSchema(old(Now()))
    {
      hide StreamOf;
      var open := ExpectPeek(LBRACE);
      if !open {
        return NilDecl;
      }
      NextToken();
      ghost var start := Now();
      var entities, relations := [], [];
      while !CurTokenEnds(RBRACE)
        invariant Valid()
        invariant ParseSchemaBody(Now(), entities, relations) == ParseSchemaBody(start, [], [])
        decreases Now().Size()
      {
        if CurTokenIs(ENTITY) {
          var entity := ParseEntityDecl();
          if entity.Some? {
            entities := entities + [entity.value];
          }
        } else if CurTokenIs(RELATION) {
          var rel := ParseRelationDecl();
          if rel.Some? {
            relations := relations + [rel.value];
          }
        } else {
          Error(UnexpectedToken(curToken));
          return NilDecl;
        }
        NextToken();
      }
      return SchemaDecl(entities, relations);
    }

    method ParseEntityDeclStandalone() returns (d: Decl)
      requires Valid()
      modifies this, l
      ensures Valid()
      ensures (Now(), d) == ParseEntityAlone(old(Now()))
    {
      hide StreamOf;
      var entity := ParseEntityDecl();
      d := if entity.Some? then SchemaDecl([entity.value], []) else NilDecl;
    }

    method ParseRelationDeclStandalone() returns (d: Decl)
      requires Valid()
      modifies this, l
      ensures Valid()
      ensures (Now(), d) == ParseRelationAlone(old(Now()))
    {
      hide StreamOf;
      var rel := ParseRelationDecl();
      d := if rel.Some? then SchemaDecl([], [rel.value]) else NilDecl;
    }

    // ----- string lists and annotations -----

    method ParseStringList() returns (list: seq<string>)
      requires Valid()
      modifies this, l
      ensures Valid()
      ensures (Now(), list) == ParseStringItems(old(Now()).Next(), [])
    {
      hide StreamOf;
      list := [];
      NextToken();
      ghost var start := Now();
      while !CurTokenEnds(RBRACKET)
        invariant Valid()
        invariant ParseStringItems(Now(), list) == ParseStringItems(start, [])
        decreases Now().Size()
      {
        if CurTokenIs(IDENT) || CurTokenIs(STRING) {
          list := list + [curToken.literal];
        }
        SkipComma();
        NextToken();
      }
    }

    method ParseBracketedList() returns (list: Option<seq<string>>)
      requires Valid()
      modifies this, l
      ensures Valid()
      ensures (Now(), list) == ParseBracketed(old(Now()))
    {
      hide StreamOf;
      var ok := ExpectPeekBoth(COLON, LBRACKET);
      if !ok {
        return None;
      }
      var items := ParseStringList();
      return Some(items);
    }

    method ParseRuleAnnotations() returns (notes: Annotations)
      requires Valid()
      modifies this, l
      ensures Valid()
      ensures (Now(), notes) == ParseAnnotations(old(Now()), Annotations([], [], []))
    {
      hide StreamOf;
      notes := Annotations([], [], []);
      while !CurTokenEnds(RPAREN)
        invariant Valid()
        invariant ParseAnnotations(Now(), notes) == ParseAnnotations(old(Now()), Annotations([], [], []))
        decreases Now().Size()
      {
        NextToken();
        if CurTokenIs(READS) {
          var list := ParseBracketedList();
          notes := if list.Some? then notes.(declaredReads := list.value) else notes;
        } else if CurTokenIs(WRITES) {
          var list := ParseBracketedList();
          notes := if list.Some? then notes.(declaredWrites := list.value) else notes;
        } else if CurTokenIs(DEPENDS_ON) {
          var list := ParseBracketedList();
          notes := if list.Some? then notes.(dependsOn := list.value) else notes;
        }
        SkipComma();
      }
    }

    // ----- selectors and assignments -----

    method ParseOptionalClause(keyword: TokenType) returns (e: Expr)
      requires Valid()
      modifies this, l
      ensures Valid()
      ensures (Now(), e) == ParseClause(old(Now()), keyword)
    {
      hide StreamOf;
      e := Nil;
      if PeekTokenIs(keyword) {
        NextToken();
        NextToken();
        e := ParseExpression(LOWEST);
      }
    }

    method ParseSelector() returns (s: Option<Selector>)
      requires Valid()
      modifies this, l
      ensures Valid()
      ensures (Now(), s) == FileParserSpec.ParseSelector(old(Now()))
    {
      hide StreamOf;
      var named := ExpectPeek(IDENT);
      if !named {
        return None;
      }
      var kind := curToken.literal;
      var where := ParseOptionalClause(WHERE);
      var groupBy := ParseOptionalClause(GROUP_BY);
      var having := ParseOptionalClause(HAVING);
      return Some(Selector(kind, where, groupBy, having));
    }

    method ParseAssignments() returns (list: seq<Assignment>)
      requires Valid()
      modifies this, l
      ensures Valid()
      ensures (Now(), list) == FileParserSpec.ParseAssignments(old(Now()))
    {
      hide StreamOf;
      if !CurTokenIs(SET) {
        var ok := ExpectPeek(SET);
        if !ok {
          return [];
        }
      }
      NextToken();
      list := ParseAssignmentItems();
    }

    method ParseAssignmentItems() returns (list: seq<Assignment>)
      requires Valid()
      modifies this, l
      ensures Valid()
      ensures (Now(), list) == ParseAssignmentList(old(Now()), [])
    {
      hide StreamOf;
      list := [];
      while true
        invariant Valid()
        invariant ParseAssignmentList(Now(), list) == ParseAssignmentList(old(Now()), [])
        decreases Now().Size()
      {
        var target := ParsePathExpression();
        if target.None? {
          break;
        }
        var ok := ExpectPeek(ASSIGN);
        if !ok {
          return [];
        }
        NextToken();
        var value := ParseExpression(LOWEST);
        list := list + [Assignment(target.value, value)];
        if PeekTokenIs(COMMA) {
          NextToken();
          NextToken();
          continue;
        }
        SkipSemicolon();
        break;
      }
    }

    method ParseTrailingAssignments() returns (list: seq<Assignment>)
      requires Valid()
      modifies this, l
      ensures Valid()
      ensures (Now(), list) == ParseTrailingSet(old(Now()))
    {
      hide StreamOf;
      list := [];
      if PeekTokenIs(SET) {
        NextToken();
        list := ParseAssignments();
      }
    }

    method ParseColonThenExpression() returns (e: Option<Expr>)
      requires Valid()
      modifies this, l
      ensures Valid()
      ensures (Now(), e) == ParseColonExpression(old(Now()))
    {
      hide StreamOf;
      var ok := ExpectPeek(COLON);
      if !ok {
        return None;
      }
      NextToken();
      var value := ParseExpression(LOWEST);
      return Some(value);
    }

    method ParseColonThenBool() returns (b: Option<bool>)
      requires Valid()
      modifies this, l
      ensures Valid()
      ensures (Now(), b) == ParseColonBool(old(Now()))
    {
      hide StreamOf;
      var ok := ExpectPeek(COLON);
      if !ok {
        return None;
      }
      NextToken();
      if !CurTokenIs(TRUE) && !CurTokenIs(FALSE) {
        Error(UnexpectedToken(curToken));
        return None;
      }
      return Some(CurTokenIs(TRUE));
    }

    method ParseColonThenSelect() returns (s: Option<Option<Selector>>)
      requires Valid()
      modifies this, l
      ensures Valid()
      ensures (Now(), s) == ParseColonSelect(old(Now()))
    {
      hide StreamOf;
      var ok := ExpectPeekBoth(COLON, SELECT);
      if !ok {
        return None;
      }
      var selector := ParseSelector();
      return Some(selector);
    }

    // ----- operators -----

    method ParseSelectAndAssign() returns (r: Run<Option<SelectNode>>)
      requires Valid()
      modifies this, l
      ensures Valid()
      ensures r.Meets(FileParserSpec.ParseSelectAndAssign(old(Now())), Now())
    {
      hide StreamOf;
      var selector := ParseSelector();
      var assignments := ParseTrailingAssignments();
      if selector.None? {
        return Crashed;
      }
      return Returned(Some(SelectNode(selector.value, selector.value.having, assignments)));
    }

    method ParseInsertBody(empty: InsertNode) returns (r: Run<Option<InsertNode>>)
      requires Valid()
      modifies this, l
      ensures Valid()
      ensures r.Meets(InsertBody(old(Now()), empty), Now())
    {
      hide StreamOf;
      var node := empty;
      while !CurTokenEnds(RBRACE)
        invariant Valid()
        invariant InsertBody(Now(), node) == InsertBody(old(Now()), empty)
        decreases Now().Size()
      {
        if CurTokenIs(SELECT) {
          var s := ParseSelector();
          if s.None? {
            return Crashed;
          }
          node := node.(source := s, guard := s.value.having);
        } else if CurTokenIs(DISCRIMINATOR) {
          var e := ParseColonThenExpression();
          if e.None? {
            return Returned(None);
          }
          node := node.(discriminator := e.value);
        }
        SkipDelimiters();
        NextToken();
      }
      return Returned(Some(node));
    }

    method ParseInsertEntity() returns (r: Run<Option<InsertNode>>)
      requires Valid()
      modifies this, l
      ensures Valid()
      ensures r.Meets(FileParserSpec.ParseInsertEntity(old(Now())), Now())
    {
      hide StreamOf;
      var named := ExpectPeek(IDENT);
      if !named {
        return Returned(None);
      }
      var target := curToken.literal;
      var open := ExpectPeek(LBRACE);
      if !open {
        return Returned(None);
      }
      NextToken();
      var node :- ParseInsertBody(InsertNode(target, None, Nil, Nil, []));
      if node.None? {
        return Returned(None);
      }
      var assignments := ParseTrailingAssignments();
      return Returned(Some(node.value.(assignments := assignments)));
    }

    method ParseDeleteBody(empty: DeleteNode) returns (r: Run<Option<DeleteNode>>)
      requires Valid()
      modifies this, l
      ensures Valid()
      ensures r.Meets(DeleteBody(old(Now()), empty), Now())
    {
      hide StreamOf;
      var node := empty;
      while !CurTokenEnds(RBRACE)
        invariant Valid()
        invariant DeleteBody(Now(), node) == DeleteBody(old(Now()), empty)
        decreases Now().Size()
      {
        if CurTokenIs(SELECT) {
          var s := ParseSelector();
          if s.None? {
            return Crashed;
          }
          node := node.(source := s, guard := s.value.having);
        }
        SkipDelimiters();
        NextToken();
      }
      return Returned(Some(node));
    }

    method ParseDeleteEntity() returns (r: Run<Option<DeleteNode>>)
      requires Valid()
      modifies this, l
      ensures Valid()
      ensures r.Meets(FileParserSpec.ParseDeleteEntity(old(Now())), Now())
    {
      hide StreamOf;
      var named := ExpectPeek(IDENT);
      if !named {
        return Returned(None);
      }
      var open := ExpectPeek(LBRACE);
      if !open {
        return Returned(None);
      }
      NextToken();
      r := ParseDeleteBody(DeleteNode(None, Nil));
    }

    method ParseRelationHeader(word: TokenType) returns (name: Option<string>)
      requires Valid()
      modifies this, l
      ensures Valid()
      ensures (Now(), name) == ParseLinkHeader(old(Now()), word)
    {
      hide StreamOf;
      var first := ExpectPeek(IDENT);
      if !first {
        return None;
      }
      var second := ExpectPeekBoth(word, IDENT);
      if !second {
        return None;
      }
      var named := ExpectPeek(AS);
      if !named {
        return None;
      }
      NextToken();
      if !CurTokenIs(IDENT) && !CurTokenIs(STRING) {
        Error(UnexpectedToken(curToken));
        return None;
      }
      name := Some(curToken.literal);
      var open := ExpectPeek(LBRACE);
      if !open {
        return None;
      }
      NextToken();
    }

    method ParseLinkBody(empty: LinkNode) returns (link: Option<LinkNode>)
      requires Valid()
      modifies this, l
      ensures Valid()
      ensures (Now(), link) == LinkBody(old(Now()), empty)
    {
      hide StreamOf;
      var node := empty;
      while !CurTokenEnds(RBRACE)
        invariant Valid()
        invariant LinkBody(Now(), node) == LinkBody(old(Now()), empty)
        decreases Now().Size()
      {
        if CurTokenIs(FROM) {
          var s := ParseColonThenSelect();
          if s.None? {
            return None;
          }
          node := node.(from := s.value);
        } else if CurTokenIs(TO) {
          var s := ParseColonThenSelect();
          if s.None? {
            return None;
          }
          node := node.(to := s.value);
        } else if CurTokenIs(GUARD) {
          var e := ParseColonThenExpression();
          if e.None? {
            return None;
          }
          node := node.(guard := e.value);
        }
        SkipDelimiters();
        NextToken();
      }
      return Some(node);
    }

    method ParseRelateEntities() returns (link: Option<LinkNode>)
      requires Valid()
      modifies this, l
      ensures Valid()
      ensures (Now(), link) == ParseLink(old(Now()), TO)
    {
      hide StreamOf;
      var name := ParseRelationHeader(TO);
      if name.None? {
        return None;
      }
      link := ParseLinkBody(LinkNode(name.value, None, None, Nil));
    }

    method ParseUnrelateEntities() returns (link: Option<LinkNode>)
      requires Valid()
      modifies this, l
      ensures Valid()
      ensures (Now(), link) == ParseLink(old(Now()), FROM)
    {
      hide StreamOf;
      var name := ParseRelationHeader(FROM);
      if name.None? {
        return None;
      }
      link := ParseLinkBody(LinkNode(name.value, None, None, Nil));
    }

    method ParseTargetHeader() returns (target: Option<string>)
      requires Valid()
      modifies this, l
      ensures Valid()
      ensures (Now(), target) == ParseIntoHeader(old(Now()))
    {
      hide StreamOf;
      var first := ExpectPeek(IDENT);
      if !first {
        return None;
      }
      var second := ExpectPeekBoth(INTO, IDENT);
      if !second {
        return None;
      }
      target := Some(curToken.literal);
      var open := ExpectPeek(LBRACE);
      if !open {
        return None;
      }
      NextToken();
    }

    method ParseMergeBody(empty: MergeNode) returns (r: Run<Option<MergeNode>>)
      requires Valid()
      modifies this, l
      ensures Valid()
      ensures r.Meets(MergeBody(old(Now()), empty), Now())
    {
      hide StreamOf;
      var node := empty;
      while !CurTokenEnds(RBRACE)
        invariant Valid()
        invariant MergeBody(Now(), node) == MergeBody(old(Now()), empty)
        decreases Now().Size()
      {
        if CurTokenIs(SELECT) {
          var s := ParseSelector();
          if s.None? {
            return Crashed;
          }
          node := node.(source := s, guard := s.value.having);
        } else if CurTokenIs(DISCRIMINATOR) {
          var e := ParseColonThenExpression();
          if e.None? {
            return Returned(None);
          }
          node := node.(discriminator := e.value);
        } else if CurTokenIs(REANCHOR_RELATIONS) {
          var b := ParseColonThenBool();
          if b.None? {
            return Returned(None);
          }
          node := node.(reanchorRelations := b.value);
        } else if CurTokenIs(RETAIN_SOURCES) {
          var b := ParseColonThenBool();
          if b.None? {
            return Returned(None);
          }
          node := node.(retainSources := b.value);
        }
        SkipDelimiters();
        NextToken();
      }
      return Returned(Some(node));
    }

    method ParseMergeEntities() returns (r: Run<Option<MergeNode>>)
      requires Valid()
      modifies this, l
      ensures Valid()
      ensures r.Meets(FileParserSpec.ParseMergeEntities(old(Now())), Now())
    {
      hide StreamOf;
      var target := ParseTargetHeader();
      if target.None? {
        return Returned(None);
      }
      var node :- ParseMergeBody(MergeNode(target.value, None, Nil, Nil, false, false, []));
      if node.None? {
        return Returned(None);
      }
      var assignments := ParseTrailingAssignments();
      return Returned(Some(node.value.(assignments := assignments)));
    }

    method ParsePartitionBody(empty: Partition) returns (p: Option<Partition>)
      requires Valid()
      modifies this, l
      ensures Valid()
      ensures (Now(), p) == PartitionBody(old(Now()), empty)
    {
      hide StreamOf;
      var part := empty;
      while !CurTokenEnds(RBRACE)
        invariant Valid()
        invariant PartitionBody(Now(), part) == PartitionBody(old(Now()), empty)
        decreases Now().Size()
      {
        if CurTokenIs(DISCRIMINATOR) {
          var e := ParseColonThenExpression();
          if e.None? {
            return None;
          }
          part := part.(discriminator := e.value);
        } else if CurTokenIs(SET) {
          var assignments := ParseAssignments();
          part := part.(assignments := assignments);
        }
        SkipDelimiters();
        NextToken();
      }
      return Some(part);
    }

    method ParsePartition() returns (p: Option<Partition>)
      requires Valid()
      modifies this, l
      ensures Valid()
      ensures (Now(), p) == FileParserSpec.ParsePartition(old(Now()))
    {
      hide StreamOf;
      var named := ExpectPeekEither(STRING, IDENT);
      if !named {
        return None;
      }
      var name := curToken.literal;
      var open := ExpectPeek(LBRACE);
      if !open {
        return None;
      }
      NextToken();
      p := ParsePartitionBody(Partition(name, Nil, []));
    }

    method ParseSplitBody(empty: SplitNode) returns (r: Run<Option<SplitNode>>)
      requires Valid()
      modifies this, l
      ensures Valid()
      ensures r.Meets(SplitBody(old(Now()), empty), Now())
    {
      hide StreamOf;
      var node := empty;
      while !CurTokenEnds(RBRACE)
        invariant Valid()
        invariant SplitBody(Now(), node) == SplitBody(old(Now()), empty)
        decreases Now().Size()
      {
        if CurTokenIs(SELECT) {
          var s := ParseSelector();
          if s.None? {
            return Crashed;
          }
          node := node.(source := s, guard := s.value.having);
        } else if CurTokenIs(RETAIN_SOURCE) {
          var b := ParseColonThenBool();
          if b.None? {
            return Returned(None);
          }
          node := node.(retainSource := b.value);
        } else if CurTokenIs(PARTITION) {
          var part := ParsePartition();
          if part.Some? {
            node := node.(partitions := node.partitions + [part.value]);
          }
        }
        SkipDelimiters();
        NextToken();
      }
      return Returned(Some(node));
    }

    method ParseSplitEntity() returns (r: Run<Option<SplitNode>>)
      requires Valid()
      modifies this, l
      ensures Valid()
      ensures r.Meets(FileParserSpec.ParseSplitEntity(old(Now())), Now())
    {
      hide StreamOf;
      var target := ParseTargetHeader();
      if target.None? {
        return Returned(None);
      }
      r := ParseSplitBody(SplitNode(target.value, None, Nil, false, []));
    }

    method ParseOperator() returns (r: Run<Operator>)
      requires Valid()
      modifies this, l
      ensures Valid()
      ensures r.Meets(FileParserSpec.ParseOperator(old(Now())), Now())
    {
      hide StreamOf;
      if CurTokenIs(SELECT) {
        var n :- ParseSelectAndAssign();
        return Returned(if n.None? then NilOperator else SelectAndAssign(n.value));
      } else if CurTokenIs(INSERT) {
        var n :- ParseInsertEntity();
        return Returned(if n.None? then NilOperator else InsertEntity(n.value));
      } else if CurTokenIs(DELETE) {
        var n :- ParseDeleteEntity();
        return Returned(if n.None? then NilOperator else DeleteEntity(n.value));
      } else if CurTokenIs(RELATE) {
        var n := ParseRelateEntities();
        return Returned(if n.None? then NilOperator else RelateEntities(n.value));
      } else if CurTokenIs(UNRELATE) {
        var n := ParseUnrelateEntities();
        return Returned(if n.None? then NilOperator else UnrelateEntities(n.value));
      } else if CurTokenIs(MERGE) {
        var n :- ParseMergeEntities();
        return Returned(if n.None? then NilOperator else MergeEntities(n.value));
      } else if CurTokenIs(SPLIT) {
        var n :- ParseSplitEntity();
        return Returned(if n.None? then NilOperator else SplitEntity(n.value));
      }
      Error(UnexpectedToken(curToken));
      return Returned(NilOperator);
    }

    // ----- top-level declarations -----

    method ParseRuleDecl() returns (r: Run<Decl>)
      requires Valid()
      modifies this, l
      ensures Valid()
      ensures r.Meets(ParseRule(old(Now())), Now())
    {
      hide StreamOf, FileParserSpec.ParseOperator, FileParserSpec.ParseAnnotations;
      var named := ExpectPeekEither(IDENT, STRING);
      if !named {
        return Returned(NilDecl);
      }
      var id := curToken.literal;
      var notes := Annotations([], [], []);
      if PeekTokenIs(LPAREN) {
        NextToken();
        notes := ParseRuleAnnotations();
      }
      var open := ExpectPeek(LBRACE);
      if !open {
        return Returned(NilDecl);
      }
      NextToken();
      var operator :- ParseOperator();
      SkipSemicolon();
      var closed := ExpectPeek(RBRACE);
      if !closed {
        return Returned(NilDecl);
      }
      SkipSemicolon();
      return Returned(RuleDecl(id, notes.declaredReads, notes.declaredWrites, notes.dependsOn, operator));
    }

    method ParseCheckpointDecl() returns (d: Decl)
      requires Valid()
      modifies this, l
      ensures Valid()
      ensures (Now(), d) == ParseCheckpoint(old(Now()))
    {
      hide StreamOf;
      var named := ExpectPeekEither(IDENT, STRING);
      if !named {
        return NilDecl;
      }
      var key := curToken.literal;
      var after := ExpectPeek(AFTER);
      if !after {
        return NilDecl;
      }
      var rule := ExpectPeekEither(IDENT, STRING);
      if !rule {
        return NilDecl;
      }
      d := CheckpointDecl(key, curToken.literal);
      SkipSemicolon();
    }

    method ParseRequirementDecl() returns (req: Option<Requirement>)
      requires Valid()
      modifies this, l
      ensures Valid()
      ensures (Now(), req) == ParseRequirement(old(Now()))
    {
      hide StreamOf;
      NextToken();
      var path := ParsePathExpression();
      if path.None? {
        return None;
      }
      var ok := ExpectPeekBoth(PRESENT, AS);
      if !ok {
        return None;
      }
      var coded := ExpectPeekEither(IDENT, STRING);
      if !coded {
        return None;
      }
      return Some(Requirement(path.value, curToken.literal));
    }

    method ParseImpliesList() returns (implies: seq<string>)
      requires Valid()
      modifies this, l
      ensures Valid()
      ensures (Now(), implies) == ParseImplies(old(Now()), [])
    {
      hide StreamOf;
      implies := [];
      while !CurTokenEnds(RPAREN)
        invariant Valid()
        invariant ParseImplies(Now(), implies) == ParseImplies(old(Now()), [])
        decreases Now().Size()
      {
        NextToken();
        if CurTokenIs(IMPLIES) {
          var list := ParseBracketedList();
          implies := list.GetOr(implies);
        }
      }
    }

    method ParseRequirementList() returns (reqs: seq<Requirement>)
      requires Valid()
      modifies this, l
      ensures Valid()
      ensures (Now(), reqs) == ParseRequirements(old(Now()), [])
    {
      hide StreamOf;
      reqs := [];
      while !CurTokenEnds(RBRACE)
        invariant Valid()
        invariant ParseRequirements(Now(), reqs) == ParseRequirements(old(Now()), [])
        decreases Now().Size()
      {
        if CurTokenIs(REQUIRE) {
          var req := ParseRequirementDecl();
          if req.Some? {
            reqs := reqs + [req.value];
          }
        }
        SkipSemicolon();
        NextToken();
      }
    }

    method ParseProfileDecl() returns (d: Decl)
      requires Valid()
      modifies this, l
      ensures Valid()
      ensures (Now(), d) == ParseProfile(old(Now()))
    {
      hide StreamOf;
      var named := ExpectPeekEither(IDENT, STRING);
      if !named {
        return NilDecl;
      }
      var key := curToken.literal;
      var scoped := ExpectPeekBoth(FOR, ENTITY);
      if !scoped {
        return NilDecl;
      }
      var kinded := ExpectPeek(IDENT);
      if !kinded {
        return NilDecl;
      }
      var kind := curToken.literal;
      var implies := [];
      if PeekTokenIs(LPAREN) {
        NextToken();
        implies := ParseImpliesList();
      }
      var open := ExpectPeek(LBRACE);
      if !open {
        return NilDecl;
      }
      NextToken();
      var reqs := ParseRequirementList();
      return ProfileDecl(key, kind, implies, reqs);
    }

    method ParseDeclaration() returns (r: Run<Option<Decl>>)
      requires Valid()
      modifies this, l
      ensures Valid()
      ensures r.Meets(FileParserSpec.ParseDeclaration(old(Now())), Now())
    {
      hide StreamOf;
      var d: Decl;
      if CurTokenIs(SCHEMA) {
        d := ParseSchemaDecl();
      } else if CurTokenIs(ENTITY) {
        d := ParseEntityDeclStandalone();
      } else if CurTokenIs(RELATION) {
        d := ParseRelationDeclStandalone();
      } else if CurTokenIs(RULE) {
        d :- ParseRuleDecl();
      } else if CurTokenIs(CHECKPOINT) {
        d := ParseCheckpointDecl();
      } else if CurTokenIs(PROFILE) {
        d := ParseProfileDecl();
      } else if CurTokenIs(SEMICOLON) {
        return Returned(None);
      } else {
        Error(UnexpectedToken(curToken));
        return Returned(None);
      }
      return Returned(Some(d));
    }

    /** Parses the file the lexer holds; it is in error exactly when an error was recorded. */
    method ParseFile() returns (r: Run<File>)
      requires Valid()
      modifies this, l
      ensures Valid()
      ensures match ParseDeclarations(old(Now()), [])
              case Panicked => r.Crashed?
              case Done(st, decls) => r == Returned(File(decls)) && Now() == st && |errors| == st.errs
    {
      hide StreamOf;
      var decls := [];
      while !CurTokenIs(EOF)
        invariant Valid()
        invariant ParseDeclarations(Now(), decls) == ParseDeclarations(old(Now()), [])
        decreases Now().Size()
      {
        var d :- ParseDeclaration();
        if d.Some? {
          decls := decls + [d.value];
        }
        NextToken();
      }
      return Returned(File(decls));
    }
  }

  /** Lexes and parses a whole text; `None` stands for a reported error. */
  method ParseSource(src: string) returns (r: Run<Option<File>>)
    ensures match ParseTokens(StreamOf(src))
            case Panicked => r.Crashed?
            case Done(st, file) => r == Returned(if st.errs == 0 then Some(file) else None)
  {
    var lexer := new Lexer(src);
    var parser := new Parser(lexer);
    var file :- parser.ParseFile();
    return Returned(if parser.errors == [] then Some(file) else None);
  }
}
