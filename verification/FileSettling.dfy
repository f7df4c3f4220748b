/** Printing a file that was read back: the text is the same if every string of the file is plain, and
    shorter if not. */
module FileSettling {
  import opened Tokens
  import opened Ast
  import opened FormatSpec
  import opened LexerFacts
  import opened ExprRoundTrip
  import opened FileTokens
  import opened Settling
  import opened Contents

  lemma SettlesPair(a: string, a': string, p: bool, b: string, b': string, q: bool, glue: string)
    requires Settles(a, a', p) && Settles(b, b', q)
    ensures Settles(a + glue + b, a' + glue + b', p && q)
  {
  }

  lemma ClauseSettles(e: Expr)
    requires GoodExpr(e)
    ensures GoodExpr(ReadBack(e)) && ReadBack(ReadBack(e)) == ReadBack(e) && (ReadBack(e) == Nil <==> e == Nil)
    ensures Settles(FormatExpr(e), FormatExpr(ReadBack(e)), PlainContent(Shown(e)))
  {
    if e != Nil {
      ExprSettles(e);
      PrintableIsLexical(ReadBack(e));
    }
  }

  lemma SelectorSettles(s: Selector, indent: string)
    requires GoodSelector(s)
    ensures GoodSelector(BackSelector(s)) && BackSelector(BackSelector(s)) == BackSelector(s)
    ensures Settles(FormatSelector(s, indent), FormatSelector(BackSelector(s), indent), AllPlain(SelectorContents(s)))
  {
    hide FormatExpr, ReadBack, PlainContent, GoodExpr;
    ClauseSettles(s.where);
    ClauseSettles(s.groupBy);
    ClauseSettles(s.having);
    assert AllPlain(SelectorContents(s)) <==>
           PlainContent(Shown(s.where)) && PlainContent(Shown(s.groupBy)) && PlainContent(Shown(s.having));
  }

  lemma {:induction false} AssignmentsSettle(assigns: seq<Assignment>, indent: string)
    requires GoodAssignments(assigns)
    ensures GoodAssignments(BackAssignments(assigns)) && BackAssignments(BackAssignments(assigns)) == BackAssignments(assigns)
    ensures Settles(JoinAssignments(assigns, indent), JoinAssignments(BackAssignments(assigns), indent), AllPlain(AssignmentContents(assigns)))
    decreases assigns
  {
    hide FormatAssignment, ReadBack, PlainExpr, Lexical, AllPlain, Settles, IsPath;
    if assigns != [] {
      var a, a' := assigns[0], BackAssignments(assigns)[0];
      AssignmentSettles(a);
      AssignmentsSettle(assigns[1..], indent);
      PlainCons(Shown(a.value), AssignmentContents(assigns[1..]));
      var rest, rest' := JoinAssignments(assigns[1..], indent), JoinAssignments(BackAssignments(assigns[1..]), indent);
      assert BackAssignments(assigns)[1..] == BackAssignments(assigns[1..]);
      if |assigns| == 1 {
        assert AssignmentContents(assigns[1..]) == [];
        NothingIsPlain();
      } else {
        SettlesPair(FormatAssignment(a), FormatAssignment(a'), PlainExpr(a.value), rest, rest',
                    AllPlain(AssignmentContents(assigns[1..])), "," + ("\n" + indent + "    "));
        JoinedAssignments(assigns, indent);
        JoinedAssignments(BackAssignments(assigns), indent);
      }
    } else {
      NothingIsPlain();
      SettledAlready("");
    }
  }

  lemma JoinedAssignments(assigns: seq<Assignment>, indent: string)
    requires |assigns| > 1
    ensures JoinAssignments(assigns, indent)
         == FormatAssignment(assigns[0]) + ("," + ("\n" + indent + "    ")) + JoinAssignments(assigns[1..], indent)
  {
    hide FormatAssignment;
    assert FormatAssignment(assigns[0]) + "," + ("\n" + indent + "    ")
        == FormatAssignment(assigns[0]) + ("," + ("\n" + indent + "    "));
  }

  lemma SettledAlready(s: string)
    ensures Settles(s, s, true)
  {
  }

  lemma AssignmentSettles(a: Assignment)
    requires IsPath(a.target) && Lexical(a.value)
    ensures var v := ReadBack(a.value);
            && Lexical(v) && ReadBack(v) == v
            && Settles(FormatAssignment(a), FormatAssignment(Assignment(a.target, v)), PlainExpr(a.value))
  {
    hide FormatExpr, ReadBack, PlainExpr, Lexical;
    ExprSettles(a.value);
    PrintableIsLexical(ReadBack(a.value));
  }

  lemma SourceSettles(s: Option<Selector>, guard: Expr, indent: string)
    requires GoodSource(s, guard)
    ensures GoodSource(BackSource(s), ReadBack(guard)) && BackSource(BackSource(s)) == BackSource(s)
    ensures ReadBack(ReadBack(guard)) == ReadBack(guard)
    ensures Settles(FormatSelector(s.value, indent), FormatSelector(BackSource(s).value, indent), AllPlain(SourceContents(s)))
  {
    hide FormatSelector, ReadBack, AllPlain, GoodExpr;
    SelectorSettles(s.value, indent);
    ClauseSettles(guard);
  }

  lemma NamesArePlain(name: string)
    ensures PlainContent(Named(name))
  {
  }

  lemma LinkSettles(n: LinkNode, keyword: string, word: string, indent: string)
    requires GoodLink(n)
    ensures GoodLink(BackLink(n)) && BackLink(BackLink(n)) == BackLink(n)
    ensures Settles(FormatLink(n, keyword, word, indent), FormatLink(BackLink(n), keyword, word, indent), AllPlain(LinkContents(n)))
  {
    hide FormatSelector, FormatExpr, ReadBack, GoodExpr, PlainContent;
    SelectorSettles(n.from.value, indent + "    ");
    SelectorSettles(n.to.value, indent + "    ");
    ClauseSettles(n.guard);
    PlainParts(SourceContents(n.from) + SourceContents(n.to), [Shown(n.guard), Named(n.relation)]);
    PlainParts(SourceContents(n.from), SourceContents(n.to));
    TwoContents(Shown(n.guard), Named(n.relation));
    NamesArePlain(n.relation);
  }

  lemma PartitionSettles(p: Partition, indent: string)
    requires GoodPartition(p)
    ensures GoodPartition(BackPartition(p)) && BackPartition(BackPartition(p)) == BackPartition(p)
    ensures Settles(FormatPartition(p, indent), FormatPartition(BackPartition(p), indent), AllPlain(PartitionContents(p)))
  {
    hide JoinAssignments, FormatExpr, ReadBack, GoodExpr, GoodAssignments, PlainExpr, Quote, Mangle, IsPlain, IsAscii;
    QuoteSettles(p.name);
    ClauseSettles(p.discriminator);
    AssignmentsSettle(p.assignments, indent + "    ");
    var head := [Quoted(p.name), Shown(p.discriminator)];
    PlainParts(head, AssignmentContents(p.assignments));
    assert AllPlain(head) <==> PlainContent(head[0]) && PlainContent(head[1]);
  }

  lemma {:induction false} PartitionsSettle(ps: seq<Partition>, indent: string)
    requires forall p <- ps :: GoodPartition(p)
    ensures forall p <- BackPartitions(ps) :: GoodPartition(p)
    ensures BackPartitions(BackPartitions(ps)) == BackPartitions(ps)
    ensures Settles(FormatPartitions(ps, indent), FormatPartitions(BackPartitions(ps), indent), AllPlain(PartitionsContents(ps)))
    decreases ps
  {
    hide GoodPartition, BackPartition, FormatPartition, PartitionContents, PlainContent;
    if ps != [] {
      PartitionSettles(ps[0], indent);
      PartitionsSettle(ps[1..], indent);
      PlainParts(PartitionContents(ps[0]), PartitionsContents(ps[1..]));
      assert BackPartitions(ps)[1..] == BackPartitions(ps[1..]);
    }
  }

  /** An operator that was read back prints as it did, or shorter if a string was not plain. */
  lemma OperatorSettles(op: Operator, indent: string)
    requires GoodOperator(op)
    ensures GoodOperator(BackOperator(op)) && BackOperator(BackOperator(op)) == BackOperator(op)
    ensures Settles(FormatOperator(op, indent), FormatOperator(BackOperator(op), indent), AllPlain(OperatorContents(op)))
  {
    hide GoodSelector, ReadBack, BackAssignments, BackPartitions, BackLink, GoodExpr, GoodAssignments, GoodPartition, GoodLink,
      FormatSelector, JoinAssignments, FormatPartitions, FormatLink, FormatExpr, FormatFlag, FormatIntoHeader,
      PlainContent, SourceContents, SelectorContents, LinkContents, PartitionsContents, AssignmentContents;
    match op
    case SelectAndAssign(n) => SelectSettles(n, indent);
    case InsertEntity(n) => InsertSettles(n, indent);
    case DeleteEntity(n) => SourceSettles(n.source, n.guard, indent + "  ");
    case RelateEntities(n) => LinkSettles(n, "relate", "to", indent);
    case UnrelateEntities(n) => LinkSettles(n, "unrelate", "from", indent);
    case MergeEntities(n) => MergeSettles(n, indent);
    case SplitEntity(n) =>
      SourceSettles(n.source, n.guard, indent + "  ");
      PartitionsSettle(n.partitions, indent);
      PlainParts(SourceContents(n.source), PartitionsContents(n.partitions));
  }

  lemma SelectSettles(n: SelectNode, indent: string)
    requires GoodOperator(SelectAndAssign(n))
    ensures var m := BackOperator(SelectAndAssign(n)).select;
            && GoodOperator(SelectAndAssign(m)) && BackOperator(SelectAndAssign(m)).select == m
            && Settles(FormatSelect(n, indent), FormatSelect(m, indent), AllPlain(OperatorContents(SelectAndAssign(n))))
  {
    hide GoodSelector, ReadBack, GoodExpr, GoodAssignments, FormatSelector, JoinAssignments, PlainContent, SelectorContents;
    SelectorSettles(n.selector, indent);
    ClauseSettles(n.guard) by { GuardIsGood(n.selector); }
    AssignmentsSettle(n.assignments, indent);
    PlainParts(SelectorContents(n.selector), AssignmentContents(n.assignments));
  }

  lemma GuardIsGood(s: Selector)
    requires GoodSelector(s)
    ensures GoodExpr(s.having)
  {
  }

  lemma InsertSettles(n: InsertNode, indent: string)
    requires GoodOperator(InsertEntity(n))
    ensures var m := BackOperator(InsertEntity(n)).insert;
            && GoodOperator(InsertEntity(m)) && BackOperator(InsertEntity(m)).insert == m
            && Settles(FormatInsert(n, indent), FormatInsert(m, indent), AllPlain(OperatorContents(InsertEntity(n))))
  {
    hide GoodSelector, ReadBack, GoodExpr, GoodAssignments, FormatSelector, FormatExpr, JoinAssignments, PlainContent, SourceContents;
    SourceSettles(n.source, n.guard, indent + "  ");
    ClauseSettles(n.discriminator);
    AssignmentsSettle(n.assignments, indent);
    PlainParts(SourceContents(n.source) + [Shown(n.discriminator)], AssignmentContents(n.assignments));
    PlainParts(SourceContents(n.source), [Shown(n.discriminator)]);
  }

  lemma MergeSettles(n: MergeNode, indent: string)
    requires GoodOperator(MergeEntities(n))
    ensures var m := BackOperator(MergeEntities(n)).merge;
            && GoodOperator(MergeEntities(m)) && BackOperator(MergeEntities(m)).merge == m
            && Settles(FormatMerge(n, indent), FormatMerge(m, indent), AllPlain(OperatorContents(MergeEntities(n))))
  {
    hide GoodSelector, ReadBack, GoodExpr, GoodAssignments, FormatSelector, FormatExpr, JoinAssignments, PlainContent,
      SourceContents, FormatFlag, FormatIntoHeader;
    SourceSettles(n.source, n.guard, indent + "  ");
    ClauseSettles(n.discriminator);
    AssignmentsSettle(n.assignments, indent);
    PlainParts(SourceContents(n.source) + [Shown(n.discriminator)], AssignmentContents(n.assignments));
    PlainParts(SourceContents(n.source), [Shown(n.discriminator)]);
  }

  lemma {:induction false} ItemsSettle(items: seq<string>)
    requires AsciiAll(items)
    ensures AsciiAll(MangleAll(items)) && MangleAll(MangleAll(items)) == MangleAll(items)
    ensures Settles(FormatStringList(items), FormatStringList(MangleAll(items)), AllPlain(ItemContents(items)))
    decreases items
  {
    hide IsAscii, IsPlain, Mangle, Quote, Settles, AllPlain;
    if items != [] {
      QuoteSettles(items[0]);
      ItemsSettle(items[1..]);
      PlainCons(Quoted(items[0]), ItemContents(items[1..]));
      assert MangleAll(items)[1..] == MangleAll(items[1..]);
      if |items| == 1 {
        assert ItemContents(items[1..]) == [];
        NothingIsPlain();
      } else {
        SettlesPair(Quote(items[0]), Quote(Mangle(items[0])), IsPlain(items[0]),
                    FormatStringList(items[1..]), FormatStringList(MangleAll(items[1..])), AllPlain(ItemContents(items[1..])), ", ");
      }
    } else {
      NothingIsPlain();
      SettledAlready("");
    }
  }

  // ----- declarations -----

  function BackNotes(notes: seq<Note>): (r: seq<Note>)
    ensures |r| == |notes|
  {
    if notes == [] then [] else [Note(notes[0].keyword, MangleAll(notes[0].items))] + BackNotes(notes[1..])
  }

  function NotesContents(notes: seq<Note>): seq<Content> {
    if notes == [] then [] else ItemContents(notes[0].items) + NotesContents(notes[1..])
  }

  predicate AsciiNotes(notes: seq<Note>) {
    forall n <- notes :: AsciiAll(n.items)
  }

  lemma NoteSettles(n: Note)
    requires AsciiAll(n.items)
    ensures Settles(FormatNote(n), FormatNote(Note(n.keyword, MangleAll(n.items))), AllPlain(ItemContents(n.items)))
  {
    hide AllPlain, AsciiAll, FormatStringList;
    ItemsSettle(n.items);
  }

  lemma {:induction false} NotesSettle(notes: seq<Note>)
    requires AsciiNotes(notes)
    ensures Settles(JoinNotes(notes), JoinNotes(BackNotes(notes)), AllPlain(NotesContents(notes)))
    decreases notes
  {
    hide FormatNote, Settles, AllPlain, AsciiAll, MangleAll, ItemContents;
    NothingIsPlain();
    if notes == [] {
      SettledAlready("");
    } else {
      var n, n' := notes[0], BackNotes(notes)[0];
      NoteSettles(n);
      NotesSettle(notes[1..]);
      PlainParts(ItemContents(n.items), NotesContents(notes[1..]));
      assert BackNotes(notes)[1..] == BackNotes(notes[1..]);
      if |notes| == 1 {
        assert NotesContents(notes[1..]) == [];
      } else {
        SettlesPair(FormatNote(n), FormatNote(n'), AllPlain(ItemContents(n.items)),
                    JoinNotes(notes[1..]), JoinNotes(BackNotes(notes[1..])), AllPlain(NotesContents(notes[1..])), ", ");
      }
    }
  }

  lemma {:induction false} NotesAppend(a: seq<Note>, b: seq<Note>)
    ensures BackNotes(a + b) == BackNotes(a) + BackNotes(b)
    ensures NotesContents(a + b) == NotesContents(a) + NotesContents(b)
    decreases a
  {
    if a == [] {
      assert a + b == b;
    } else {
      assert (a + b)[1..] == a[1..] + b;
      NotesAppend(a[1..], b);
    }
  }

  /** An annotation is written if it has items. */
  function NoteIfAny(keyword: string, items: seq<string>): seq<Note> {
    if items == [] then [] else [Note(keyword, items)]
  }

  lemma NoteAlone(keyword: string, items: seq<string>)
    ensures BackNotes(NoteIfAny(keyword, items)) == NoteIfAny(keyword, MangleAll(items))
    ensures NotesContents(NoteIfAny(keyword, items)) == ItemContents(items)
  {
    hide MangleAll;
    if items != [] {
      assert [Note(keyword, items)][1..] == [];
      assert BackNotes([Note(keyword, items)]) == [Note(keyword, MangleAll(items))] + BackNotes([]);
      assert NotesContents([Note(keyword, items)]) == ItemContents(items) + NotesContents([]);
    }
  }

  lemma BackNotesOf(rs: seq<string>, ws: seq<string>, deps: seq<string>)
    ensures BackNotes(NotesOf(rs, ws, deps)) == NotesOf(MangleAll(rs), MangleAll(ws), MangleAll(deps))
    ensures NotesContents(NotesOf(rs, ws, deps)) == ItemContents(rs) + ItemContents(ws) + ItemContents(deps)
  {
    hide BackNotes, NotesContents, MangleAll, ItemContents;
    var a, b, c := NoteIfAny("reads", rs), NoteIfAny("writes", ws), NoteIfAny("depends_on", deps);
    assert NotesOf(rs, ws, deps) == a + b + c;
    NoteAlone("reads", rs);
    NoteAlone("writes", ws);
    NoteAlone("depends_on", deps);
    NotesAppend(a + b, c);
    NotesAppend(a, b);
  }

  lemma AnnotationsSettle(rs: seq<string>, ws: seq<string>, deps: seq<string>)
    requires AsciiAll(rs) && AsciiAll(ws) && AsciiAll(deps)
    ensures Settles(FormatNotes(NotesOf(rs, ws, deps)), FormatNotes(NotesOf(MangleAll(rs), MangleAll(ws), MangleAll(deps))),
                    AllPlain(ItemContents(rs) + ItemContents(ws) + ItemContents(deps)))
  {
    hide AllPlain, AsciiAll, JoinNotes, BackNotes, NotesContents, MangleAll, ItemContents;
    BackNotesOf(rs, ws, deps);
    NotesSettle(NotesOf(rs, ws, deps));
  }

  lemma RuleSettles(d: Decl)
    requires GoodDecl(d) && d.RuleDecl?
    ensures GoodDecl(BackDecl(d)) && BackDecl(BackDecl(d)) == BackDecl(d) && Formattable(d) && Formattable(BackDecl(d))
    ensures Settles(FormatDecl(d), FormatDecl(BackDecl(d)), AllPlain(DeclContents(d)))
  {
    hide AllPlain, AsciiAll, FormatOperator, FormatNotes, NotesOf, GoodOperator, BackOperator, MangleAll, ItemContents, OperatorContents, IsName;
    var rs, ws, deps, op := d.declaredReads, d.declaredWrites, d.dependsOn, d.operator;
    GoodHasSelectors(op);
    ItemsSettle(rs);
    ItemsSettle(ws);
    ItemsSettle(deps);
    OperatorSettles(op, "  ");
    GoodHasSelectors(BackOperator(op));
    AnnotationsSettle(rs, ws, deps);
    PlainParts(ItemContents(rs) + ItemContents(ws) + ItemContents(deps), OperatorContents(op));
  }

  lemma GoodHasSelectors(op: Operator)
    requires GoodOperator(op)
    ensures HasSelectors(op)
  {
  }

  lemma DeclSettles(d: Decl)
    requires GoodDecl(d)
    ensures GoodDecl(BackDecl(d)) && BackDecl(BackDecl(d)) == BackDecl(d) && Formattable(d) && Formattable(BackDecl(d))
    ensures Settles(FormatDecl(d), FormatDecl(BackDecl(d)), AllPlain(DeclContents(d)))
  {
    hide AllPlain, AsciiAll, MangleAll, ItemContents, FormatStringList, FormatRequirements, IsName;
    NothingIsPlain();
    match d
    case RuleDecl(_, _, _, _, _) => RuleSettles(d);
    case SchemaDecl(_, rs) => RelationsArePlain(rs);
    case ProfileDecl(_, _, implies, _) =>
      ItemsSettle(implies);
      ItemsEmpty(implies);
    case _ =>
  }

  lemma ItemsEmpty(items: seq<string>)
    ensures items == [] ==> ItemContents(items) == []
  {
  }

  lemma {:induction false} DeclsSettle(ds: seq<Decl>)
    requires forall d <- ds :: GoodDecl(d)
    ensures (forall d <- BackDecls(ds) :: GoodDecl(d)) && BackDecls(BackDecls(ds)) == BackDecls(ds)
    ensures FormattableAll(ds) && FormattableAll(BackDecls(ds))
    ensures Settles(FormatDecls(ds), FormatDecls(BackDecls(ds)), AllPlain(DeclsContents(ds)))
    decreases ds
  {
    hide FormatDecl, GoodDecl, BackDecl, Formattable, Settles, AllPlain, DeclContents;
    NothingIsPlain();
    if ds == [] {
      SettledAlready("");
    } else {
      DeclSettles(ds[0]);
      DeclsSettle(ds[1..]);
      PlainParts(DeclContents(ds[0]), DeclsContents(ds[1..]));
      assert BackDecls(ds)[1..] == BackDecls(ds[1..]);
      if |ds| == 1 {
        assert DeclsContents(ds[1..]) == [];
      } else {
        SettlesPair(FormatDecl(ds[0]), FormatDecl(BackDecl(ds[0])), AllPlain(DeclContents(ds[0])),
                    FormatDecls(ds[1..]), FormatDecls(BackDecls(ds[1..])), AllPlain(DeclsContents(ds[1..])), "\n\n");
      }
    }
  }

  /** SETTLING.  A file that was read back is well formed and is read back as it is; its text is that
      of the file before if and only if every string of that file is plain, and shorter otherwise. */
  lemma FileSettles(f: File)
    requires GoodFile(f)
    ensures GoodFile(BackFile(f)) && BackFile(BackFile(f)) == BackFile(f)
    ensures FormattableAll(f.declarations) && FormattableAll(BackFile(f).declarations)
    ensures Settles(Format(f), Format(BackFile(f)), AllPlain(FileContents(f)))
  {
    hide FormatDecls, GoodDecl, AllPlain;
    DeclsSettle(f.declarations);
  }
}
