/** What the parser makes of declarations that are written otherwise than the printer writes them: clauses in
    any order, other delimiters or none, marks that say nothing new, and names as strings. */
module OtherSpellings {
  import opened Tokens
  import opened Ast
  import opened ExprParserSpec
  import opened FileParserSpec
  import opened ExprRoundTrip
  import opened FileTokens
  import opened FileReading

  /** What ends a clause: a semicolon, a comma, or nothing. */
  datatype Delimiter = Bare | Semi | Comma

  function DelimiterThen(d: Delimiter, k: Toks): Toks {
    match d case Bare => k case Semi => Cons(SEMICOLON_T, k) case Comma => Cons(COMMA_TOKEN, k)
  }

  /** No clause of a body starts with a delimiter. */
  predicate StartsClause(k: Toks) {
    k.Current().kind != SEMICOLON && k.Current().kind != COMMA
  }

  lemma AfterDelimiter(t: Token, d: Delimiter, k: Toks, errs: nat)
    requires StartsClause(k)
    ensures SkipDelimiter(State(Cons(t, DelimiterThen(d, k)), errs)).Next() == State(k, errs)
  {
  }

  // ----- schemas -----

  datatype Mark = Unmarked | MarkedRequired | MarkedOptional

  datatype FieldForm = FieldForm(name: string, typeName: string, mark: Mark, delimiter: Delimiter)

  function FieldFormThen(f: FieldForm, k: Toks): Toks {
    var rest := DelimiterThen(f.delimiter, k);
    Cons(Id(f.name), Cons(COLON_T, Cons(Id(f.typeName),
      match f.mark
      case Unmarked => rest
      case MarkedRequired => Cons(Token(REQUIRED, "required"), rest)
      case MarkedOptional => Cons(Token(OPTIONAL, "optional"), rest))))
  }

  function FieldFormsThen(fs: seq<FieldForm>, k: Toks): Toks {
    if fs == [] then k else FieldFormThen(fs[0], FieldFormsThen(fs[1..], k))
  }

  lemma ReadsFieldForm(f: FieldForm, done: seq<Field>, k: Toks, errs: nat)
    requires StartsClause(k) && k.Current().kind != REQUIRED && k.Current().kind != OPTIONAL
    ensures ParseFields(State(FieldFormThen(f, k), errs), done)
         == ParseFields(State(k, errs), done + [Field(f.name, f.typeName, f.mark != MarkedOptional)])
  {
    hide ParseFields;
    var st := State(FieldFormThen(f, k), errs);
    var (st1, field) := ParseField(st);
    assert field == Some(Field(f.name, f.typeName, f.mark != MarkedOptional)) && st1.Next() == State(k, errs);
    ParseFieldsStep(st, done);
  }

  lemma ParseFieldsStep(st: State, done: seq<Field>)
    requires !AtEnd(st, RBRACE)
    ensures var (st1, field) := ParseField(st);
            ParseFields(st, done) == ParseFields(st1.Next(), if field.Some? then done + [field.value] else done)
  {
    hide ParseField;
  }

  function FieldsOf(fs: seq<FieldForm>): seq<Field> {
    if fs == [] then [] else [Field(fs[0].name, fs[0].typeName, fs[0].mark != MarkedOptional)] + FieldsOf(fs[1..])
  }

  /** A field is required unless it is marked optional, however it ends. */
  lemma {:induction false} ReadsFieldForms(fs: seq<FieldForm>, done: seq<Field>, k: Toks, errs: nat)
    ensures ParseFields(State(FieldFormsThen(fs, Cons(RBRACE_T, k)), errs), done) == (State(Cons(RBRACE_T, k), errs), done + FieldsOf(fs))
    decreases |fs|
  {
    hide ParseFields, FieldFormThen, FieldsOf;
    if fs == [] {
      NoFields(done, k, errs);
    } else {
      FieldFormsStart(fs[1..], Cons(RBRACE_T, k));
      var field := Field(fs[0].name, fs[0].typeName, fs[0].mark != MarkedOptional);
      ReadsFieldForm(fs[0], done, FieldFormsThen(fs[1..], Cons(RBRACE_T, k)), errs);
      ReadsFieldForms(fs[1..], done + [field], k, errs);
      assert FieldsOf(fs) == [field] + FieldsOf(fs[1..]) by { FirstField(fs); }
      assert done + [field] + FieldsOf(fs[1..]) == done + ([field] + FieldsOf(fs[1..]));
    }
  }

  lemma NoFields(done: seq<Field>, k: Toks, errs: nat)
    ensures ParseFields(State(Cons(RBRACE_T, k), errs), done) == (State(Cons(RBRACE_T, k), errs), done) && done + FieldsOf([]) == done
  {
  }

  lemma FirstField(fs: seq<FieldForm>)
    requires fs != []
    ensures FieldsOf(fs) == [Field(fs[0].name, fs[0].typeName, fs[0].mark != MarkedOptional)] + FieldsOf(fs[1..])
  {
  }

  lemma FieldFormsStart(fs: seq<FieldForm>, k: Toks)
    requires k.Current().kind == RBRACE
    ensures FieldFormsThen(fs, k).Current().kind in {IDENT, RBRACE}
  {
  }

  /** One end of a relation. */
  datatype EndForm = EndForm(isFrom: bool, kind: string, delimiter: Delimiter)

  function EndFormsThen(es: seq<EndForm>, k: Toks): Toks {
    if es == [] then k
    else
      Cons(if es[0].isFrom then FROM_W else TO_W,
           Cons(COLON_T, Cons(Id(es[0].kind), DelimiterThen(es[0].delimiter, EndFormsThen(es[1..], k)))))
  }

  /** The kind at the last end of one direction, if there is one. */
  function LastEnd(es: seq<EndForm>, isFrom: bool, otherwise: string): string {
    if es == [] then otherwise
    else if es[|es| - 1].isFrom == isFrom then es[|es| - 1].kind
    else LastEnd(es[..|es| - 1], isFrom, otherwise)
  }

  lemma {:induction false} LastEndFirst(es: seq<EndForm>, isFrom: bool, otherwise: string)
    requires es != []
    ensures LastEnd(es, isFrom, otherwise) == LastEnd(es[1..], isFrom, if es[0].isFrom == isFrom then es[0].kind else otherwise)
    decreases |es|
  {
    if |es| > 1 {
      assert es[..|es| - 1][1..] == es[1..][..|es| - 2];
      LastEndFirst(es[..|es| - 1], isFrom, otherwise);
    }
  }

  /** The ends of a relation may stand in any order; of two ends in one direction the last counts. */
  lemma {:induction false} ReadsEndForms(es: seq<EndForm>, rel: Relation, k: Toks, errs: nat)
    ensures ParseEndpoints(State(EndFormsThen(es, Cons(RBRACE_T, k)), errs), rel)
         == (State(Cons(RBRACE_T, k), errs),
             Some(Relation(rel.kind, LastEnd(es, true, rel.fromKind), LastEnd(es, false, rel.toKind))))
    decreases |es|
  {
    if es != [] {
      var e, k1 := es[0], EndFormsThen(es[1..], Cons(RBRACE_T, k));
      var rel1 := if e.isFrom then rel.(fromKind := e.kind) else rel.(toKind := e.kind);
      AfterDelimiter(Id(e.kind), e.delimiter, k1, errs);
      LastEndFirst(es, true, rel.fromKind);
      LastEndFirst(es, false, rel.toKind);
      ReadsEndForms(es[1..], rel1, k, errs);
    }
  }

  datatype Item = EntityItem(kind: string, fields: seq<FieldForm>) | RelationItem(kind: string, ends: seq<EndForm>)

  function ItemThen(i: Item, k: Toks): Toks {
    match i
    case EntityItem(kind, fields) => Cons(ENTITY_W, Cons(Id(kind), Cons(LBRACE_T, FieldFormsThen(fields, Cons(RBRACE_T, k)))))
    case RelationItem(kind, ends) =>
      Cons(Token(RELATION, "relation"), Cons(Id(kind), Cons(LBRACE_T, EndFormsThen(ends, Cons(RBRACE_T, k)))))
  }

  function ItemsThen(items: seq<Item>, k: Toks): Toks {
    if items == [] then k else ItemThen(items[0], ItemsThen(items[1..], k))
  }

  function EntityOf(i: Item): Entity
    requires i.EntityItem?
  {
    Entity(i.kind, FieldsOf(i.fields))
  }

  function RelationOf(i: Item): Relation
    requires i.RelationItem?
  {
    Relation(i.kind, LastEnd(i.ends, true, ""), LastEnd(i.ends, false, ""))
  }

  function EntitiesOf(items: seq<Item>): seq<Entity> {
    if items == [] then []
    else if items[0].EntityItem? then [EntityOf(items[0])] + EntitiesOf(items[1..])
    else EntitiesOf(items[1..])
  }

  function RelationsOf(items: seq<Item>): seq<Relation> {
    if items == [] then []
    else if items[0].RelationItem? then [RelationOf(items[0])] + RelationsOf(items[1..])
    else RelationsOf(items[1..])
  }

  lemma ReadsItem(i: Item, k: Toks, errs: nat)
    ensures i.EntityItem? ==> ParseEntity(State(ItemThen(i, k), errs)) == (State(Cons(RBRACE_T, k), errs), Some(EntityOf(i)))
    ensures i.RelationItem? ==> ParseRelation(State(ItemThen(i, k), errs)) == (State(Cons(RBRACE_T, k), errs), Some(RelationOf(i)))
  {
    match i
    case EntityItem(_, fields) =>
      ReadsFieldForms(fields, [], k, errs);
      assert [] + FieldsOf(fields) == FieldsOf(fields);
    case RelationItem(kind, ends) => ReadsEndForms(ends, Relation(kind, "", ""), k, errs);
  }

  function MoreEntities(es: seq<Entity>, i: Item): seq<Entity> {
    if i.EntityItem? then es + [EntityOf(i)] else es
  }

  function MoreRelations(rs: seq<Relation>, i: Item): seq<Relation> {
    if i.RelationItem? then rs + [RelationOf(i)] else rs
  }

  lemma ReadsOneItem(i: Item, es: seq<Entity>, rs: seq<Relation>, k: Toks, errs: nat)
    ensures ParseSchemaBody(State(ItemThen(i, k), errs), es, rs) == ParseSchemaBody(State(k, errs), MoreEntities(es, i), MoreRelations(rs, i))
  {
    hide ParseEntity, ParseRelation, EntityOf, RelationOf, FieldFormsThen, EndFormsThen;
    ReadsItem(i, k, errs);
  }

  /** Entities and relations may be mixed; each keep their order. */
  lemma {:induction false} ReadsMixed(items: seq<Item>, es: seq<Entity>, rs: seq<Relation>, k: Toks, errs: nat)
    ensures ParseSchemaBody(State(ItemsThen(items, Cons(RBRACE_T, k)), errs), es, rs)
         == (State(Cons(RBRACE_T, k), errs), SchemaDecl(es + EntitiesOf(items), rs + RelationsOf(items)))
    decreases |items|
  {
    hide ParseSchemaBody, EntityOf, RelationOf, ItemThen, MoreEntities, MoreRelations, EntitiesOf, RelationsOf;
    if items == [] {
      NoItems(es, rs, k, errs);
    } else {
      ReadsOneItem(items[0], es, rs, ItemsThen(items[1..], Cons(RBRACE_T, k)), errs);
      ReadsMixed(items[1..], MoreEntities(es, items[0]), MoreRelations(rs, items[0]), k, errs);
      FirstItem(items, es, rs);
    }
  }

  lemma NoItems(es: seq<Entity>, rs: seq<Relation>, k: Toks, errs: nat)
    ensures ParseSchemaBody(State(Cons(RBRACE_T, k), errs), es, rs) == (State(Cons(RBRACE_T, k), errs), SchemaDecl(es, rs))
    ensures es + EntitiesOf([]) == es && rs + RelationsOf([]) == rs
  {
  }

  lemma Joined<T>(s: seq<T>, x: T, t: seq<T>)
    ensures s + [x] + t == s + ([x] + t)
  {
  }

  lemma FirstItem(items: seq<Item>, es: seq<Entity>, rs: seq<Relation>)
    requires items != []
    ensures MoreEntities(es, items[0]) + EntitiesOf(items[1..]) == es + EntitiesOf(items)
    ensures MoreRelations(rs, items[0]) + RelationsOf(items[1..]) == rs + RelationsOf(items)
  {
    hide EntityOf, RelationOf;
    if items[0].EntityItem? {
      Joined(es, EntityOf(items[0]), EntitiesOf(items[1..]));
    } else {
      Joined(rs, RelationOf(items[0]), RelationsOf(items[1..]));
    }
  }

  /** A declaration of one entity or one relation is a schema of it. */
  lemma ReadsAlone(i: Item, k: Toks, errs: nat)
    ensures ParseDeclaration(State(ItemThen(i, k), errs))
         == Done(State(Cons(RBRACE_T, k), errs),
                 Some(if i.EntityItem? then SchemaDecl([EntityOf(i)], []) else SchemaDecl([], [RelationOf(i)])))
  {
    hide ParseEntity, ParseRelation, ItemsThen, EntityOf, RelationOf;
    ReadsItem(i, k, errs);
  }

  // ----- between declarations, and their names -----

  /** Semicolons between declarations say nothing. */
  lemma SemicolonIsNothing(k: Toks, ds: seq<Decl>, errs: nat)
    ensures ParseDeclarations(State(Cons(SEMICOLON_T, k), errs), ds) == ParseDeclarations(State(k, errs), ds)
  {
    hide ParseSchema, ParseRule, ParseProfile, ParseCheckpoint, ParseEntityAlone, ParseRelationAlone;
  }

  /** Where the parser would take either of two tokens, the second one is taken and counted as an error. */
  lemma SecondChoiceIsAnError(st: State, a: TokenType, b: TokenType)
    requires a != b
    ensures var (st1, ok) := ExpectEither(st, a, b);
      && (ok <==> st.PeekIs(a) || st.PeekIs(b))
      && st1.errs == st.errs + if st.PeekIs(a) then 0 else if st.PeekIs(b) then 1 else 2
  {
  }

  predicate IsNameToken(t: Token) {
    t.kind == IDENT || t.kind == STRING
  }

  /** The names of a checkpoint and of its rule may be strings, but each that is counts as an error; and it
      needs no semicolon. */
  lemma ReadsCheckpointNamed(key: Token, after: Token, semicolon: bool, k: Toks, errs: nat)
    requires IsNameToken(key) && IsNameToken(after) && k.Current().kind != SEMICOLON
    ensures
      var rest := if semicolon then Cons(SEMICOLON_T, k) else k;
      var ts := Cons(Token(CHECKPOINT, "checkpoint"), Cons(key, Cons(Token(AFTER, "after"), Cons(after, rest))));
      var found := (if key.kind == STRING then 1 else 0) + if after.kind == STRING then 1 else 0;
      ParseCheckpoint(State(ts, errs))
      == (State(Cons(if semicolon then SEMICOLON_T else after, k), errs + found), CheckpointDecl(key.literal, after.literal))
  {
  }

  // ----- lists -----

  /** The items of a list are strings or identifiers, with or without a comma. */
  datatype ListForm = ListForm(item: Token, comma: bool)

  function ListFormsThen(fs: seq<ListForm>, k: Toks): Toks {
    if fs == [] then k
    else Cons(fs[0].item, if fs[0].comma then Cons(COMMA_TOKEN, ListFormsThen(fs[1..], k)) else ListFormsThen(fs[1..], k))
  }

  function LiteralsOf(fs: seq<ListForm>): seq<string> {
    if fs == [] then [] else [fs[0].item.literal] + LiteralsOf(fs[1..])
  }

  lemma {:induction false} ReadsListForms(fs: seq<ListForm>, done: seq<string>, k: Toks, errs: nat)
    requires forall f <- fs :: IsNameToken(f.item)
    ensures ParseStringItems(State(ListFormsThen(fs, Cons(RBRACKET_T, k)), errs), done)
         == (State(Cons(RBRACKET_T, k), errs), done + LiteralsOf(fs))
    decreases |fs|
  {
    if fs == [] {
      assert done + LiteralsOf(fs) == done;
    } else {
      assert fs[0] in fs && forall f <- fs[1..] :: f in fs;
      var k1 := ListFormsThen(fs[1..], Cons(RBRACKET_T, k));
      assert |fs| > 1 ==> fs[1] in fs && fs[1..][0] == fs[1];
      assert k1.Current().kind != COMMA;
      ReadsListForms(fs[1..], done + [fs[0].item.literal], k, errs);
      assert done + [fs[0].item.literal] + LiteralsOf(fs[1..]) == done + LiteralsOf(fs);
    }
  }

  // ----- annotations -----

  /** One annotation of a rule. */
  datatype NoteForm = NoteForm(word: Token, items: seq<ListForm>, comma: bool)

  predicate IsNoteForm(n: NoteForm) {
    n.word.kind in {READS, WRITES, DEPENDS_ON} && forall f <- n.items :: IsNameToken(f.item)
  }

  function NoteFormThen(n: NoteForm, k: Toks): Toks {
    Cons(n.word, Cons(COLON_T, Cons(LBRACKET_T, ListFormsThen(n.items, Cons(RBRACKET_T, if n.comma then Cons(COMMA_TOKEN, k) else k)))))
  }

  function NoteFormsThen(ns: seq<NoteForm>, k: Toks): Toks {
    if ns == [] then k else NoteFormThen(ns[0], NoteFormsThen(ns[1..], k))
  }

  /** The last list of one kind, if there is one. */
  function LastNote(ns: seq<NoteForm>, kind: TokenType, otherwise: seq<string>): seq<string> {
    if ns == [] then otherwise
    else if ns[|ns| - 1].word.kind == kind then LiteralsOf(ns[|ns| - 1].items)
    else LastNote(ns[..|ns| - 1], kind, otherwise)
  }

  lemma {:induction false} LastNoteFirst(ns: seq<NoteForm>, kind: TokenType, otherwise: seq<string>)
    requires ns != []
    ensures LastNote(ns, kind, otherwise) == LastNote(ns[1..], kind, if ns[0].word.kind == kind then LiteralsOf(ns[0].items) else otherwise)
    decreases |ns|
  {
    hide LiteralsOf;
    if |ns| > 1 {
      assert ns[..|ns| - 1][1..] == ns[1..][..|ns| - 2];
      LastNoteFirst(ns[..|ns| - 1], kind, otherwise);
    }
  }

  function Noted(a: Annotations, ns: seq<NoteForm>): Annotations {
    Annotations(LastNote(ns, READS, a.declaredReads), LastNote(ns, WRITES, a.declaredWrites), LastNote(ns, DEPENDS_ON, a.dependsOn))
  }

  lemma OneNote(n: NoteForm, a: Annotations)
    ensures Noted(a, [n]) == Annotations(if n.word.kind == READS then LiteralsOf(n.items) else a.declaredReads,
                                         if n.word.kind == WRITES then LiteralsOf(n.items) else a.declaredWrites,
                                         if n.word.kind == DEPENDS_ON then LiteralsOf(n.items) else a.dependsOn)
  {
    hide LiteralsOf;
    assert [n][..0] == [] && [n][0] == n;
    assert forall kind, otherwise :: LastNote([n], kind, otherwise) == if n.word.kind == kind then LiteralsOf(n.items) else LastNote([], kind, otherwise);
  }

  lemma ReadsNoteForm(t: Token, n: NoteForm, k: Toks, a: Annotations, errs: nat) returns (t': Token)
    requires IsNoteForm(n) && t.kind != RPAREN && t.kind != EOF && k.Current().kind != COMMA
    ensures t'.kind != RPAREN && t'.kind != EOF
    ensures ParseAnnotations(State(Cons(t, NoteFormThen(n, k)), errs), a) == ParseAnnotations(State(Cons(t', k), errs), Noted(a, [n]))
  {
    hide ParseStringItems;
    var rest := if n.comma then Cons(COMMA_TOKEN, k) else k;
    ReadsListForms(n.items, [], rest, errs);
    assert [] + LiteralsOf(n.items) == LiteralsOf(n.items);
    assert ParseBracketed(State(NoteFormThen(n, k), errs)) == (State(Cons(RBRACKET_T, rest), errs), Some(LiteralsOf(n.items)));
    t' := if n.comma then COMMA_TOKEN else RBRACKET_T;
    assert SkipPeeked(State(Cons(RBRACKET_T, rest), errs), COMMA) == State(Cons(t', k), errs);
    OneNote(n, a);
    hide LastNote, ListFormsThen, LiteralsOf, ParseBracketed;
    assert State(Cons(t, NoteFormThen(n, k)), errs).Next() == State(NoteFormThen(n, k), errs);
  }

  /** The annotations of a rule may stand in any order, with commas or without; of two lists of one kind the
      last counts. */
  lemma {:induction false} ReadsNoteForms(t: Token, ns: seq<NoteForm>, k: Toks, a: Annotations, errs: nat)
    requires (forall n <- ns :: IsNoteForm(n)) && t.kind != RPAREN && t.kind != EOF && k.Current().kind != COMMA
    ensures ParseAnnotations(State(Cons(t, NoteFormsThen(ns, Cons(RPAREN_TOKEN, k))), errs), a)
         == (State(Cons(RPAREN_TOKEN, k), errs), Noted(a, ns))
    decreases |ns|
  {
    var end := Cons(RPAREN_TOKEN, k);
    if ns == [] {
      ReadsNotesEnd(t, k, a, errs);
    } else {
      hide ParseAnnotations, LastNote, NoteFormThen;
      assert ns[0] in ns && forall n <- ns[1..] :: n in ns;
      var k1 := NoteFormsThen(ns[1..], end);
      NoteFormsStart(ns[1..], end);
      var t1 := ReadsNoteForm(t, ns[0], k1, a, errs);
      ReadsNoteForms(t1, ns[1..], k, Noted(a, [ns[0]]), errs);
      NotedFirst(ns, a);
    }
  }

  lemma NoteFormsStart(ns: seq<NoteForm>, k: Toks)
    requires (forall n <- ns :: IsNoteForm(n)) && k.Current().kind != COMMA
    ensures NoteFormsThen(ns, k).Current().kind != COMMA
  {
    if ns != [] { assert ns[0] in ns; }
  }

  lemma NotedFirst(ns: seq<NoteForm>, a: Annotations)
    requires ns != []
    ensures Noted(a, ns) == Noted(Noted(a, [ns[0]]), ns[1..])
  {
    OneNote(ns[0], a);
    hide LiteralsOf, LastNote;
    LastNoteFirst(ns, READS, a.declaredReads);
    LastNoteFirst(ns, WRITES, a.declaredWrites);
    LastNoteFirst(ns, DEPENDS_ON, a.dependsOn);
  }

  // ----- operator bodies -----

  /** One clause of the body of an operator. */
  datatype Clause =
    | Source(s: Selector, delimiter: Delimiter)
    | Discriminator(e: Expr, delimiter: Delimiter)
    | From(s: Selector, delimiter: Delimiter)
    | To(s: Selector, delimiter: Delimiter)
    | Guard(e: Expr, delimiter: Delimiter)
    | Retain(b: bool, delimiter: Delimiter)
    | Reanchor(b: bool, delimiter: Delimiter)
    | RetainOne(b: bool, delimiter: Delimiter)
    | Part(p: Partition, delimiter: Delimiter)

  predicate IsClause(c: Clause) {
    if c.Source? || c.From? || c.To? then GoodSelector(c.s) else if c.Discriminator? || c.Guard? then Lexical(c.e)
    else c.Part? ==> GoodPartition(c.p)
  }

  function ClauseFormThen(c: Clause, k: Toks): Toks {
    var rest := DelimiterThen(c.delimiter, k);
    match c
    case Source(s, _) => SourceThen(s, rest)
    case Discriminator(e, _) => Cons(Token(DISCRIMINATOR, "discriminator"), Cons(COLON_T, ExprThen(e, rest)))
    case From(s, _) => Cons(FROM_W, Cons(COLON_T, SourceThen(s, rest)))
    case To(s, _) => Cons(TO_W, Cons(COLON_T, SourceThen(s, rest)))
    case Guard(e, _) => Cons(Token(GUARD, "guard"), Cons(COLON_T, ExprThen(e, rest)))
    case Retain(b, _) => Cons(Token(RETAIN_SOURCES, "retain_sources"), Cons(COLON_T, Cons(BoolToken(b), rest)))
    case RetainOne(b, _) => Cons(Token(RETAIN_SOURCE, "retain_source"), Cons(COLON_T, Cons(BoolToken(b), rest)))
    case Part(p, _) => PartitionThen(p, rest)
    case Reanchor(b, _) => Cons(Token(REANCHOR_RELATIONS, "reanchor_relations"), Cons(COLON_T, Cons(BoolToken(b), rest)))
  }

  function ClausesThen(cs: seq<Clause>, k: Toks): Toks {
    if cs == [] then Cons(RBRACE_T, k) else ClauseFormThen(cs[0], ClausesThen(cs[1..], k))
  }

  /** What follows a clause: the next one, or the end of the body. */
  predicate GoesOn(k: Toks) {
    k.Current().kind in {SELECT, DISCRIMINATOR, FROM, TO, GUARD, RETAIN_SOURCES, REANCHOR_RELATIONS, RETAIN_SOURCE, PARTITION, RBRACE}
  }

  lemma ClausesGoOn(cs: seq<Clause>, k: Toks)
    ensures GoesOn(ClausesThen(cs, k))
  {
  }

  lemma DelimiterEnds(d: Delimiter, k: Toks)
    requires GoesOn(k)
    ensures EndsSelector(DelimiterThen(d, k)) && StartsClause(k)
  {
  }

  function LinkWith(n: LinkNode, c: Clause): LinkNode {
    match c
    case From(s, _) => n.(from := Some(BackSelector(s)))
    case To(s, _) => n.(to := Some(BackSelector(s)))
    case Guard(e, _) => n.(guard := ReadBack(e))
    case _ => n
  }

  function LinkWithAll(n: LinkNode, cs: seq<Clause>): LinkNode
    decreases |cs|
  {
    if cs == [] then n else LinkWithAll(LinkWith(n, cs[0]), cs[1..])
  }

  function InsertWith(n: InsertNode, c: Clause): InsertNode {
    match c
    case Source(s, _) => n.(source := Some(BackSelector(s)), guard := ReadBack(s.having))
    case Discriminator(e, _) => n.(discriminator := ReadBack(e))
    case _ => n
  }

  function MergeWith(n: MergeNode, c: Clause): MergeNode {
    match c
    case Source(s, _) => n.(source := Some(BackSelector(s)), guard := ReadBack(s.having))
    case Discriminator(e, _) => n.(discriminator := ReadBack(e))
    case Retain(b, _) => n.(retainSources := b)
    case Reanchor(b, _) => n.(reanchorRelations := b)
    case _ => n
  }

  function InsertWithAll(n: InsertNode, cs: seq<Clause>): InsertNode
    decreases |cs|
  {
    if cs == [] then n else InsertWithAll(InsertWith(n, cs[0]), cs[1..])
  }

  function MergeWithAll(n: MergeNode, cs: seq<Clause>): MergeNode
    decreases |cs|
  {
    if cs == [] then n else MergeWithAll(MergeWith(n, cs[0]), cs[1..])
  }

  function DeleteWith(n: DeleteNode, c: Clause): DeleteNode {
    if c.Source? then DeleteNode(Some(BackSelector(c.s)), ReadBack(c.s.having)) else n
  }

  function DeleteWithAll(n: DeleteNode, cs: seq<Clause>): DeleteNode
    decreases |cs|
  {
    if cs == [] then n else DeleteWithAll(DeleteWith(n, cs[0]), cs[1..])
  }

  function SplitWith(n: SplitNode, c: Clause): SplitNode {
    match c
    case Source(s, _) => n.(source := Some(BackSelector(s)), guard := ReadBack(s.having))
    case RetainOne(b, _) => n.(retainSource := b)
    case Part(p, _) => n.(partitions := n.partitions + [BackPartition(p)])
    case _ => n
  }

  function SplitWithAll(n: SplitNode, cs: seq<Clause>): SplitNode
    decreases |cs|
  {
    if cs == [] then n else SplitWithAll(SplitWith(n, cs[0]), cs[1..])
  }

  lemma ReadsDeleteClause(c: Clause, k: Toks, n: DeleteNode, errs: nat)
    requires c.Source? && IsClause(c) && GoesOn(k)
    ensures DeleteBody(State(ClauseFormThen(c, k), errs), n) == DeleteBody(State(k, errs), DeleteWith(n, c))
  {
    hide ParseExpression, ExprThen, Lexical, ReadBack, ParseSelector, SelectorThen;
    DelimiterEnds(c.delimiter, k);
    var t := ReadsSelector(SELECT_W, c.s, DelimiterThen(c.delimiter, k), errs);
    AfterDelimiter(t, c.delimiter, k, errs);
  }

  lemma ReadsSplitClause(c: Clause, k: Toks, n: SplitNode, errs: nat)
    requires (c.Source? || c.RetainOne? || c.Part?) && IsClause(c) && GoesOn(k)
    ensures SplitBody(State(ClauseFormThen(c, k), errs), n) == SplitBody(State(k, errs), SplitWith(n, c))
  {
    hide ParseExpression, ExprThen, Lexical, ReadBack, ParseSelector, SelectorThen, ParsePartition, BackPartition;
    var rest := DelimiterThen(c.delimiter, k);
    DelimiterEnds(c.delimiter, k);
    if c.Source? {
      var t := ReadsSelector(SELECT_W, c.s, rest, errs);
      AfterDelimiter(t, c.delimiter, k, errs);
    } else if c.Part? {
      ReadsPartition(c.p, rest, errs);
      AfterDelimiter(RBRACE_T, c.delimiter, k, errs);
    } else {
      AfterDelimiter(BoolToken(c.b), c.delimiter, k, errs);
    }
  }

  lemma ReadsLinkClause(c: Clause, k: Toks, n: LinkNode, errs: nat)
    requires (c.From? || c.To? || c.Guard?) && IsClause(c) && GoesOn(k)
    ensures LinkBody(State(ClauseFormThen(c, k), errs), n) == LinkBody(State(k, errs), LinkWith(n, c))
  {
    hide ParseExpression, ExprThen, Lexical, ReadBack, ParseSelector, SelectorThen;
    var rest := DelimiterThen(c.delimiter, k);
    DelimiterEnds(c.delimiter, k);
    if c.Guard? {
      var t := ReadsColonExpr(Token(GUARD, "guard"), c.e, rest, errs);
      AfterDelimiter(t, c.delimiter, k, errs);
    } else {
      var t := ReadsEndpoint(if c.From? then FROM_W else TO_W, c.s, rest, errs);
      AfterDelimiter(t, c.delimiter, k, errs);
    }
  }

  lemma ReadsInsertClause(c: Clause, k: Toks, n: InsertNode, errs: nat)
    requires (c.Source? || c.Discriminator?) && IsClause(c) && GoesOn(k)
    ensures InsertBody(State(ClauseFormThen(c, k), errs), n) == InsertBody(State(k, errs), InsertWith(n, c))
  {
    hide ParseExpression, ExprThen, Lexical, ReadBack, ParseSelector, SelectorThen;
    var rest := DelimiterThen(c.delimiter, k);
    DelimiterEnds(c.delimiter, k);
    if c.Source? {
      var t := ReadsSelector(SELECT_W, c.s, rest, errs);
      AfterDelimiter(t, c.delimiter, k, errs);
    } else {
      var t := ReadsColonExpr(Token(DISCRIMINATOR, "discriminator"), c.e, rest, errs);
      AfterDelimiter(t, c.delimiter, k, errs);
    }
  }

  lemma ReadsMergeClause(c: Clause, k: Toks, n: MergeNode, errs: nat)
    requires (c.Source? || c.Discriminator? || c.Retain? || c.Reanchor?) && IsClause(c) && GoesOn(k)
    ensures MergeBody(State(ClauseFormThen(c, k), errs), n) == MergeBody(State(k, errs), MergeWith(n, c))
  {
    hide ParseExpression, ExprThen, Lexical, ReadBack, ParseSelector, SelectorThen;
    var rest := DelimiterThen(c.delimiter, k);
    DelimiterEnds(c.delimiter, k);
    if c.Source? {
      var t := ReadsSelector(SELECT_W, c.s, rest, errs);
      AfterDelimiter(t, c.delimiter, k, errs);
    } else if c.Discriminator? {
      var t := ReadsColonExpr(Token(DISCRIMINATOR, "discriminator"), c.e, rest, errs);
      AfterDelimiter(t, c.delimiter, k, errs);
    } else {
      AfterDelimiter(BoolToken(c.b), c.delimiter, k, errs);
    }
  }

  /** The clauses of a relation may stand in any order, and end in any way; the last of a kind counts. */
  lemma {:induction false} ReadsLinkClauses(cs: seq<Clause>, n: LinkNode, k: Toks, errs: nat)
    requires forall c <- cs :: (c.From? || c.To? || c.Guard?) && IsClause(c)
    ensures LinkBody(State(ClausesThen(cs, k), errs), n) == (State(Cons(RBRACE_T, k), errs), Some(LinkWithAll(n, cs)))
    decreases |cs|
  {
    if cs != [] {
      assert cs[0] in cs && forall c <- cs[1..] :: c in cs;
      ClausesGoOn(cs[1..], k);
      hide LinkBody, LinkWith, IsClause, ClauseFormThen, GoesOn;
      ReadsLinkClause(cs[0], ClausesThen(cs[1..], k), n, errs);
      ReadsLinkClauses(cs[1..], LinkWith(n, cs[0]), k, errs);
    }
  }

  /** So may those of an insertion. */
  lemma {:induction false} ReadsInsertClauses(cs: seq<Clause>, n: InsertNode, k: Toks, errs: nat)
    requires forall c <- cs :: (c.Source? || c.Discriminator?) && IsClause(c)
    ensures InsertBody(State(ClausesThen(cs, k), errs), n) == Done(State(Cons(RBRACE_T, k), errs), Some(InsertWithAll(n, cs)))
    decreases |cs|
  {
    if cs != [] {
      assert cs[0] in cs && forall c <- cs[1..] :: c in cs;
      ClausesGoOn(cs[1..], k);
      hide InsertBody, InsertWith, IsClause, ClauseFormThen, GoesOn;
      ReadsInsertClause(cs[0], ClausesThen(cs[1..], k), n, errs);
      ReadsInsertClauses(cs[1..], InsertWith(n, cs[0]), k, errs);
    }
  }

  /** And those of a merge. */
  lemma {:induction false} ReadsMergeClauses(cs: seq<Clause>, n: MergeNode, k: Toks, errs: nat)
    requires forall c <- cs :: (c.Source? || c.Discriminator? || c.Retain? || c.Reanchor?) && IsClause(c)
    ensures MergeBody(State(ClausesThen(cs, k), errs), n) == Done(State(Cons(RBRACE_T, k), errs), Some(MergeWithAll(n, cs)))
    decreases |cs|
  {
    if cs != [] {
      assert cs[0] in cs && forall c <- cs[1..] :: c in cs;
      ClausesGoOn(cs[1..], k);
      hide MergeBody, MergeWith, IsClause, ClauseFormThen, GoesOn;
      ReadsMergeClause(cs[0], ClausesThen(cs[1..], k), n, errs);
      ReadsMergeClauses(cs[1..], MergeWith(n, cs[0]), k, errs);
    }
  }

  /** Of the selectors of a deletion the last counts. */
  lemma {:induction false} ReadsDeleteClauses(cs: seq<Clause>, n: DeleteNode, k: Toks, errs: nat)
    requires forall c <- cs :: c.Source? && IsClause(c)
    ensures DeleteBody(State(ClausesThen(cs, k), errs), n) == Done(State(Cons(RBRACE_T, k), errs), Some(DeleteWithAll(n, cs)))
    decreases |cs|
  {
    if cs != [] {
      assert cs[0] in cs && forall c <- cs[1..] :: c in cs;
      ClausesGoOn(cs[1..], k);
      hide DeleteBody, DeleteWith, IsClause, ClauseFormThen, GoesOn;
      ReadsDeleteClause(cs[0], ClausesThen(cs[1..], k), n, errs);
      ReadsDeleteClauses(cs[1..], DeleteWith(n, cs[0]), k, errs);
    }
  }

  /** The clauses of a split may stand in any order; its partitions keep theirs. */
  lemma {:induction false} ReadsSplitClauses(cs: seq<Clause>, n: SplitNode, k: Toks, errs: nat)
    requires forall c <- cs :: (c.Source? || c.RetainOne? || c.Part?) && IsClause(c)
    ensures SplitBody(State(ClausesThen(cs, k), errs), n) == Done(State(Cons(RBRACE_T, k), errs), Some(SplitWithAll(n, cs)))
    decreases |cs|
  {
    if cs != [] {
      assert cs[0] in cs && forall c <- cs[1..] :: c in cs;
      ClausesGoOn(cs[1..], k);
      hide SplitBody, SplitWith, IsClause, ClauseFormThen, GoesOn;
      ReadsSplitClause(cs[0], ClausesThen(cs[1..], k), n, errs);
      ReadsSplitClauses(cs[1..], SplitWith(n, cs[0]), k, errs);
    }
  }
}
