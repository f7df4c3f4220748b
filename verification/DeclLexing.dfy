/** The lexer turns the text of a printed file into its tokens. */
module DeclLexing {
  import opened Tokens
  import opened Ast
  import opened LexerSpec
  import opened FormatSpec
  import opened LexerFacts
  import opened ExprRoundTrip
  import opened FileTokens
  import opened FileLexing

  // ----- lists and annotations -----

  lemma {:induction false} LexItems(items: seq<string>, k: string)
    requires AsciiAll(items)
    ensures StreamOf(FormatStringList(items) + k) == ItemsThen(items, StreamOf(k))
    decreases items
  {
    hide StreamOf, Quote;
    if items == [] {
      assert FormatStringList(items) + k == k;
    } else if |items| == 1 {
      LexString(items[0], k);
    } else {
      var rest := FormatStringList(items[1..]);
      Nest3(Quote(items[0]), ", ", rest, k);
      LexString(items[0], ", " + (rest + k));
      LexCommaSpace(rest + k);
      LexItems(items[1..], k);
    }
  }

  lemma LexCommaSpace(k: string)
    ensures StreamOf(", " + k) == Cons(COMMA_TOKEN, StreamOf(k))
  {
    hide StreamOf;
    assert ", " + k == "," + (" " + k);
    LexMarkThenSpace(",", " ", k);
  }

  lemma LexNote(n: Note, k: string)
    requires IsWord(n.keyword) && AsciiAll(n.items)
    ensures StreamOf(FormatNote(n) + k) == NoteThen(n, StreamOf(k))
  {
    hide StreamOf, FormatStringList;
    var list := FormatStringList(n.items);
    Nest6(n.keyword, ":", " ", "[", list, "]", k);
    LexLabel(n.keyword, " ", "[" + (list + ("]" + k)));
    LexMark("[", list + ("]" + k));
    LexItems(n.items, "]" + k);
    LexMark("]", k);
  }

  lemma {:induction false} LexNotes(notes: seq<Note>, k: string)
    requires forall n <- notes :: IsWord(n.keyword) && AsciiAll(n.items)
    ensures StreamOf(JoinNotes(notes) + k) == NotesThen(notes, StreamOf(k))
    decreases notes
  {
    hide StreamOf, FormatNote, NoteThen;
    if notes == [] {
      assert JoinNotes(notes) + k == k;
    } else if |notes| == 1 {
      LexNote(notes[0], k);
    } else {
      var rest := JoinNotes(notes[1..]);
      Nest3(FormatNote(notes[0]), ", ", rest, k);
      LexNote(notes[0], ", " + (rest + k));
      LexCommaSpace(rest + k);
      LexNotes(notes[1..], k);
    }
  }

  /** A text in parentheses behind a space. */
  lemma LexParenthesised(inner: string, k: string)
    ensures StreamOf((" " + "(" + inner + ")") + k) == Cons(LPAREN_TOKEN, StreamOf(inner + (")" + k)))
  {
    hide StreamOf;
    Nest4(" ", "(", inner, ")", k);
    LexBlank(" ", "(" + (inner + (")" + k)));
    LexMark("(", inner + (")" + k));
  }

  lemma LexAnnotations(rs: seq<string>, ws: seq<string>, deps: seq<string>, k: string)
    requires AsciiAll(rs) && AsciiAll(ws) && AsciiAll(deps)
    ensures StreamOf(FormatNotes(NotesOf(rs, ws, deps)) + k) == AnnotationsThen(NotesOf(rs, ws, deps), StreamOf(k))
  {
    hide StreamOf, JoinNotes, NotesThen;
    AnnotationWords();
    var notes := NotesOf(rs, ws, deps);
    if notes == [] {
      assert FormatNotes(notes) + k == k;
    } else {
      LexParenthesised(JoinNotes(notes), k);
      LexNotes(notes, ")" + k);
      LexMark(")", k);
    }
  }

  // ----- schemas -----

  /** Four spaces, a label, a name and the end of its line. */
  lemma {:induction false} LexEntry(w: string, name: string, k: string)
    requires IsWord(w) && (name == "" || IsWord(name))
    ensures StreamOf("    " + (w + (":" + (" " + (name + (";" + ("\n" + k)))))))
         == Cons(Token(LookupIdent(w), w), Cons(COLON_T, NameThen(name, Cons(SEMICOLON_T, StreamOf(k)))))
  {
    hide StreamOf;
    LexIndentedLabel("    ", w, " ", name + (";" + ("\n" + k)));
    if name == "" {
      assert name + (";" + ("\n" + k)) == ";" + ("\n" + k);
    } else {
      LexWord(name, ";" + ("\n" + k));
    }
    LexLineEnd(k);
  }

  lemma LexOptional(k: string)
    ensures StreamOf((" " + "optional") + (";" + ("\n" + k))) == Cons(Token(OPTIONAL, "optional"), Cons(SEMICOLON_T, StreamOf(k)))
  {
    hide StreamOf;
    DeclWords();
    Associate(" ", "optional", ";" + ("\n" + k));
    LexBlank(" ", "optional" + (";" + ("\n" + k)));
    LexWord("optional", ";" + ("\n" + k));
    LexLineEnd(k);
  }

  lemma LexField(f: Field, k: string)
    requires IsName(f.name) && IsName(f.typeName)
    ensures StreamOf(FormatField(f) + k) == FieldThen(f, StreamOf(k))
  {
    hide StreamOf;
    var mark := if f.required then "" else " " + "optional";
    Nest7("    " + f.name, ":", " ", f.typeName, mark, ";", "\n", k);
    Associate("    ", f.name, ":" + (" " + (f.typeName + (mark + (";" + ("\n" + k))))));
    if f.required {
      assert mark + (";" + ("\n" + k)) == ";" + ("\n" + k);
      LexEntry(f.name, f.typeName, k);
    } else {
      var tail := mark + (";" + ("\n" + k));
      LexIndentedLabel("    ", f.name, " ", f.typeName + tail);
      assert tail[0] == ' ';
      LexWord(f.typeName, tail);
      LexOptional(k);
    }
  }

  lemma {:induction false} LexFields(fields: seq<Field>, k: string)
    requires forall f <- fields :: IsName(f.name) && IsName(f.typeName)
    ensures StreamOf(FormatFields(fields) + k) == FieldsThen(fields, StreamOf(k))
    decreases fields
  {
    hide StreamOf, FormatField, FieldThen;
    if fields == [] {
      assert FormatFields(fields) + k == k;
    } else {
      Associate(FormatField(fields[0]), FormatFields(fields[1..]), k);
      LexField(fields[0], FormatFields(fields[1..]) + k);
      LexFields(fields[1..], k);
    }
  }

  lemma LexEntity(e: Entity, k: string)
    requires GoodEntity(e)
    ensures StreamOf(FormatEntity(e) + k) == EntityThen(e, StreamOf(k))
  {
    hide StreamOf, FormatFields, FieldsThen;
    DeclWords();
    var head, body := "  " + "entity" + " " + e.kind + " " + "{" + "\n", FormatFields(e.fields);
    var k1 := "  " + ("}" + ("\n" + k));
    Nest5(head, body, "  ", "}", "\n", k);
    Nest7("  ", "entity", " ", e.kind, " ", "{", "\n", body + k1);
    LexHeader("  ", "entity", e.kind, body + k1);
    LexFields(e.fields, k1);
    LexClose("  ", "\n", k);
  }

  lemma {:induction false} LexEntities(es: seq<Entity>, k: string)
    requires forall e <- es :: GoodEntity(e)
    ensures StreamOf(FormatEntities(es) + k) == EntitiesThen(es, StreamOf(k))
    decreases es
  {
    hide StreamOf, FormatEntity, EntityThen;
    if es == [] {
      assert FormatEntities(es) + k == k;
    } else {
      Associate(FormatEntity(es[0]), FormatEntities(es[1..]), k);
      LexEntity(es[0], FormatEntities(es[1..]) + k);
      LexEntities(es[1..], k);
    }
  }

  lemma LexEndpointKind(w: string, t: TokenType, kind: string, k: string)
    requires IsKeyword(w, t) && (kind == "" || IsName(kind))
    ensures StreamOf(FormatEndpoint(w, kind) + k) == EndpointThen(Token(t, w), kind, StreamOf(k))
  {
    hide StreamOf;
    Nest7("    ", w, ":", " ", kind, ";", "\n", k);
    LexEntry(w, kind, k);
  }

  lemma LexRelation(r: Relation, k: string)
    requires WrittenRelation(r)
    ensures StreamOf(FormatRelation(r) + k) == RelationThen(r, StreamOf(k))
  {
    hide StreamOf, FormatEndpoint, EndpointThen;
    DeclWords();
    LinkWords();
    var head := "  " + "relation" + " " + r.kind + " " + "{" + "\n";
    var e1, e2 := FormatEndpoint("from", r.fromKind), FormatEndpoint("to", r.toKind);
    var k1 := "  " + ("}" + ("\n" + k));
    Nest6(head, e1, e2, "  ", "}", "\n", k);
    Nest7("  ", "relation", " ", r.kind, " ", "{", "\n", e1 + (e2 + k1));
    LexHeader("  ", "relation", r.kind, e1 + (e2 + k1));
    LexEndpointKind("from", FROM, r.fromKind, e2 + k1);
    LexEndpointKind("to", TO, r.toKind, k1);
    LexClose("  ", "\n", k);
  }

  lemma {:induction false} LexRelations(rs: seq<Relation>, k: string)
    requires forall r <- rs :: WrittenRelation(r)
    ensures StreamOf(FormatRelations(rs) + k) == RelationsThen(rs, StreamOf(k))
    decreases rs
  {
    hide StreamOf, FormatRelation, RelationThen;
    if rs == [] {
      assert FormatRelations(rs) + k == k;
    } else {
      Associate(FormatRelation(rs[0]), FormatRelations(rs[1..]), k);
      LexRelation(rs[0], FormatRelations(rs[1..]) + k);
      LexRelations(rs[1..], k);
    }
  }

  lemma LexSchema(d: Decl, k: string)
    requires WrittenDecl(d) && d.SchemaDecl?
    ensures StreamOf(FormatDecl(d) + k) == DeclThen(d, StreamOf(k))
  {
    hide StreamOf, FormatEntities, FormatRelations, EntitiesThen, RelationsThen;
    DeclWords();
    var es, rs := FormatEntities(d.entities), FormatRelations(d.relations);
    Nest7("schema", " ", "{", "\n", es, rs, "}", k);
    LexWordThenSpace("schema", " ", "{" + ("\n" + (es + (rs + ("}" + k)))));
    LexMarkThenSpace("{", "\n", es + (rs + ("}" + k)));
    LexEntities(d.entities, rs + ("}" + k));
    LexRelations(d.relations, "}" + k);
    LexMark("}", k);
  }

  // ----- profiles -----

  lemma LexRequirement(r: Requirement, k: string)
    requires GoodRequirement(r)
    ensures StreamOf(FormatRequirement(r) + k) == RequirementThen(r, StreamOf(k))
  {
    hide StreamOf, PathThen;
    ProfileWords();
    LinkWords();
    var tail := " " + ("as" + (" " + (r.code + (";" + ("\n" + k)))));
    Nest6("  " + "require" + " " + r.field + " " + "present" , " ", "as", " ", r.code, ";" + "\n", k);
    Associate("  " + "require" + " " + r.field + " " + "present" + " " + "as" + " " + r.code, ";", "\n");
    Associate(";", "\n", k);
    Nest6("  ", "require", " ", r.field, " ", "present", tail);
    LexIndented("  ", "require", " ", r.field + (" " + ("present" + tail)));
    LexTarget(r.field, " " + ("present" + tail));
    LexIndented(" ", "present", " ", "as" + (" " + (r.code + (";" + ("\n" + k)))));
    LexWordThenSpace("as", " ", r.code + (";" + ("\n" + k)));
    LexWord(r.code, ";" + ("\n" + k));
    LexLineEnd(k);
  }

  lemma {:induction false} LexRequirements(rs: seq<Requirement>, k: string)
    requires forall r <- rs :: GoodRequirement(r)
    ensures StreamOf(FormatRequirements(rs) + k) == RequirementsThen(rs, StreamOf(k))
    decreases rs
  {
    hide StreamOf, FormatRequirement, RequirementThen;
    if rs == [] {
      assert FormatRequirements(rs) + k == k;
    } else {
      Associate(FormatRequirement(rs[0]), FormatRequirements(rs[1..]), k);
      LexRequirement(rs[0], FormatRequirements(rs[1..]) + k);
      LexRequirements(rs[1..], k);
    }
  }

  lemma LexImplies(implies: seq<string>, k: string)
    requires AsciiAll(implies)
    ensures StreamOf(FormatImplies(implies) + k) == ImpliesThen(implies, StreamOf(k))
  {
    hide StreamOf, FormatNote, NoteThen;
    ProfileWords();
    if implies == [] {
      assert FormatImplies(implies) + k == k;
    } else {
      var n := Note("implies", implies);
      LexParenthesised(FormatNote(n), k);
      LexNote(n, ")" + k);
      LexMark(")", k);
    }
  }

  lemma LexProfile(d: Decl, k: string)
    requires WrittenDecl(d) && d.ProfileDecl?
    ensures StreamOf(FormatDecl(d) + k) == DeclThen(d, StreamOf(k))
  {
    hide StreamOf, FormatRequirements, FormatImplies, RequirementsThen, ImpliesThen;
    ProfileWords();
    DeclWords();
    var i, rs := FormatImplies(d.implies), FormatRequirements(d.requirements);
    var head := "profile" + " " + d.key + " " + "for" + " " + "entity";
    var body := i + (" " + ("{" + ("\n" + (rs + ("}" + k)))));
    Nest6(head + " " + d.entityKind + i, " ", "{", "\n", rs, "}", k);
    Nest4(head, " ", d.entityKind, i, " " + ("{" + ("\n" + (rs + ("}" + k)))));
    Nest7("profile", " ", d.key, " ", "for", " ", "entity", " " + (d.entityKind + body));
    LexWordThenSpace("profile", " ", d.key + (" " + ("for" + (" " + ("entity" + (" " + (d.entityKind + body)))))));
    LexWordThenSpace(d.key, " ", "for" + (" " + ("entity" + (" " + (d.entityKind + body)))));
    LexWordThenSpace("for", " ", "entity" + (" " + (d.entityKind + body)));
    LexWordThenSpace("entity", " ", d.entityKind + body);
    ImpliesStart(d.implies, " " + ("{" + ("\n" + (rs + ("}" + k)))));
    LexWord(d.entityKind, body);
    LexImplies(d.implies, " " + ("{" + ("\n" + (rs + ("}" + k)))));
    LexOpen(rs + ("}" + k));
    LexRequirements(d.requirements, "}" + k);
    LexMark("}", k);
  }

  lemma ImpliesStart(implies: seq<string>, k: string)
    requires k != "" && k[0] == ' '
    ensures (FormatImplies(implies) + k)[0] == ' '
  {
  }

  // ----- checkpoints and rules -----

  lemma LexCheckpoint(d: Decl, k: string)
    requires WrittenDecl(d) && d.CheckpointDecl?
    ensures StreamOf(FormatDecl(d) + k) == DeclThen(d, StreamOf(k))
  {
    hide StreamOf;
    DeclWords();
    var tail := d.after + (";" + k);
    Nest3("checkpoint" + " " + d.key + " " + "after" + " ", d.after, ";", k);
    Nest6("checkpoint", " ", d.key, " ", "after", " ", tail);
    LexWordThenSpace("checkpoint", " ", d.key + (" " + ("after" + (" " + tail))));
    LexWordThenSpace(d.key, " ", "after" + (" " + tail));
    LexWordThenSpace("after", " ", tail);
    LexWord(d.after, ";" + k);
    LexMark(";", k);
  }

  lemma NotesStart(notes: seq<Note>, k: string)
    requires k != "" && k[0] == ' '
    ensures (FormatNotes(notes) + k)[0] == ' '
  {
  }

  lemma {:induction false} LexRule(d: Decl, k: string)
    requires WrittenDecl(d) && d.RuleDecl?
    ensures StreamOf(FormatDecl(d) + k) == DeclThen(d, StreamOf(k))
  {
    hide StreamOf, FormatOperator, OperatorThen, FormatNotes, NotesOf, AnnotationsThen;
    DeclWords();
    var notes := NotesOf(d.declaredReads, d.declaredWrites, d.dependsOn);
    var n, op := FormatNotes(notes), FormatOperator(d.operator, "  ");
    var body := op + ("\n" + ("}" + k));
    var tail := " " + ("{" + ("\n" + body));
    Nest7("rule" + " " + d.id + n, " ", "{", "\n", op, "\n", "}", k);
    Nest4("rule", " ", d.id, n, tail);
    LexWordThenSpace("rule", " ", d.id + (n + tail));
    NotesStart(notes, tail);
    LexWord(d.id, n + tail);
    LexAnnotations(d.declaredReads, d.declaredWrites, d.dependsOn, tail);
    LexOpen(body);
    LexOperatorText(d.operator, "  ", "\n" + ("}" + k));
    LexBlank("\n", "}" + k);
    LexMark("}", k);
  }

  lemma LexDecl(d: Decl, k: string)
    requires WrittenDecl(d)
    ensures StreamOf(FormatDecl(d) + k) == DeclThen(d, StreamOf(k))
  {
    hide StreamOf, FormatDecl, DeclThen;
    match d
    case SchemaDecl(_, _) => LexSchema(d, k);
    case RuleDecl(_, _, _, _, _) => LexRule(d, k);
    case CheckpointDecl(_, _) => LexCheckpoint(d, k);
    case ProfileDecl(_, _, _, _) => LexProfile(d, k);
  }

  lemma {:induction false} LexDecls(ds: seq<Decl>, k: string)
    requires forall d <- ds :: WrittenDecl(d)
    ensures FormattableAll(ds) && StreamOf(FormatDecls(ds) + k) == DeclsThen(ds, StreamOf(k))
    decreases ds
  {
    hide StreamOf, FormatDecl, DeclThen;
    if ds == [] {
      assert FormatDecls(ds) + k == k;
    } else if |ds| == 1 {
      LexDecl(ds[0], k);
    } else {
      LexDecls(ds[1..], k);
      WrittenIsFormattable(ds[0]);
      var rest := FormatDecls(ds[1..]) + k;
      Nest3(FormatDecl(ds[0]), "\n\n", FormatDecls(ds[1..]), k);
      LexDecl(ds[0], "\n\n" + rest);
      LexSpaces("\n\n", rest);
    }
  }

  /** The lexer reads a printed file as the tokens of its declarations. */
  lemma LexFile(f: File)
    requires WrittenFile(f)
    ensures FormattableAll(f.declarations) && StreamOf(Format(f)) == DeclsThen(f.declarations, End)
  {
    hide FormatDecls, DeclsThen;
    LexDecls(f.declarations, "\n");
    LexSpaces("\n", "");
    assert "\n" + "" == "\n";
    assert StreamOf("") == End;
  }
}
