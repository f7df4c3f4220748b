/** How formatted declarations are laid out, written out line by line. */
module Layout {
  import opened Tokens
  import opened Ast
  import opened FormatSpec

  /** Appending a text piece by piece appends it. */
  lemma Glue(x: string, a: string, b: string, c: string, abc: string)
    requires a + b + c == abc
    ensures x + a + b + c == x + abc
  {
  }

  // ----- expressions -----

  /** Every operation is parenthesised, and every operator is its sign. */
  lemma OperationText(l: Expr, r: Expr)
    ensures var a, b := FormatExpr(l), FormatExpr(r);
      && FormatExpr(Binary(EQUAL, l, r)) == "(" + a + " == " + b + ")" && FormatExpr(Binary(NOT_EQUAL, l, r)) == "(" + a + " != " + b + ")"
      && FormatExpr(Binary(LESS, l, r)) == "(" + a + " < " + b + ")" && FormatExpr(Binary(LESS_EQ, l, r)) == "(" + a + " <= " + b + ")"
      && FormatExpr(Binary(GREATER, l, r)) == "(" + a + " > " + b + ")" && FormatExpr(Binary(GREAT_EQ, l, r)) == "(" + a + " >= " + b + ")"
      && FormatExpr(Binary(AND, l, r)) == "(" + a + " && " + b + ")" && FormatExpr(Binary(OR, l, r)) == "(" + a + " || " + b + ")"
  {
    hide FormatExpr;
    Operation(EQUAL, " == ", l, r);
    Operation(NOT_EQUAL, " != ", l, r);
    Operation(LESS, " < ", l, r);
    Operation(LESS_EQ, " <= ", l, r);
    Operation(GREATER, " > ", l, r);
    Operation(GREAT_EQ, " >= ", l, r);
    Operation(AND, " && ", l, r);
    Operation(OR, " || ", l, r);
  }

  lemma ArithmeticText(l: Expr, r: Expr)
    ensures var a, b := FormatExpr(l), FormatExpr(r);
      && FormatExpr(Binary(PLUS, l, r)) == "(" + a + " + " + b + ")" && FormatExpr(Binary(MINUS, l, r)) == "(" + a + " - " + b + ")"
      && FormatExpr(Binary(STAR, l, r)) == "(" + a + " * " + b + ")" && FormatExpr(Binary(SLASH, l, r)) == "(" + a + " / " + b + ")"
      && FormatExpr(Binary(PERCENT, l, r)) == "(" + a + " % " + b + ")"
      && FormatExpr(Unary(MINUS, r)) == "-" + b && FormatExpr(Unary(NOT, r)) == "!" + b
  {
    Operation(PLUS, " + ", l, r);
    Operation(MINUS, " - ", l, r);
    Operation(STAR, " * ", l, r);
    Operation(SLASH, " / ", l, r);
    Operation(PERCENT, " % ", l, r);
  }

  lemma Operation(op: TokenType, sign: string, l: Expr, r: Expr)
    requires " " + OpText(op) + " " == sign
    ensures FormatExpr(Binary(op, l, r)) == "(" + FormatExpr(l) + sign + FormatExpr(r) + ")"
  {
    assert "(" + FormatExpr(l) + " " + OpText(op) + " " == "(" + FormatExpr(l) + (" " + OpText(op) + " ");
  }

  /** The operands of a call are separated by commas, and the other literals are constructors of strings. */
  lemma CallText(name: string, a: Expr, b: Expr, text: string)
    ensures FormatExpr(Call(name, [])) == name + "()" && FormatExpr(Call(name, [a])) == name + "(" + FormatExpr(a) + ")"
    ensures FormatExpr(Call(name, [a, b])) == name + "(" + FormatExpr(a) + ", " + FormatExpr(b) + ")"
    ensures FormatExpr(Lit(LitTimestamp, text)) == "ts(" + Quote(text) + ")" && FormatExpr(Lit(LitDate, text)) == "date(" + Quote(text) + ")"
    ensures FormatExpr(Lit(LitDuration, text)) == "dur(" + Quote(text) + ")" && FormatExpr(Lit(LitAtom, text)) == ":" + text
  {
    assert [a, b][1..] == [b] && JoinExprs([a, b]) == FormatExpr(a) + ", " + JoinExprs([b]) && JoinExprs([b]) == FormatExpr(b);
    assert JoinExprs([a]) == FormatExpr(a) && JoinExprs([]) == "";
    hide FormatExpr, JoinExprs, Quote;
    assert name + "(" + (FormatExpr(a) + ", " + FormatExpr(b)) + ")" == name + "(" + FormatExpr(a) + ", " + FormatExpr(b) + ")";
    assert "(" + ")" == "()" && "ts" + "(" == "ts(" && "date" + "(" == "date(" && "dur" + "(" == "dur(";
  }

  // ----- schemas, checkpoints and profiles -----

  lemma FieldLine(name: string, typeName: string)
    ensures FormatField(Field(name, typeName, true)) == "    " + name + ": " + typeName + ";\n"
    ensures FormatField(Field(name, typeName, false)) == "    " + name + ": " + typeName + " optional;\n"
  {
    assert " " + "optional" + ";" + "\n" == " optional;\n" && ";" + "\n" == ";\n" && ":" + " " == ": ";
  }

  /** Entities stand before relations. */
  lemma SchemaLines(es: seq<Entity>, rs: seq<Relation>)
    ensures FormatDecl(SchemaDecl(es, rs)) == "schema {\n" + FormatEntities(es) + FormatRelations(rs) + "}"
  {
    hide FormatEntities, FormatRelations;
    assert "schema" + " " + "{" + "\n" == "schema {\n";
  }

  lemma EntityLines(kind: string, fields: seq<Field>)
    ensures FormatEntity(Entity(kind, fields)) == "  entity " + kind + " {\n" + FormatFields(fields) + "  }\n"
  {
    assert "  " + "entity" + " " == "  entity " && " " + "{" + "\n" == " {\n" && "  " + "}" + "\n" == "  }\n";
  }

  lemma RelationLines(kind: string, from: string, to: string)
    ensures FormatRelation(Relation(kind, from, to)) ==
      "  relation " + kind + " {\n" + ("    from: " + from + ";\n") + ("    to: " + to + ";\n") + "  }\n"
  {
    assert "  " + "relation" + " " == "  relation " && " " + "{" + "\n" == " {\n" && "  " + "}" + "\n" == "  }\n";
    assert "    " + "from" + ":" + " " == "    from: " && "    " + "to" + ":" + " " == "    to: " && ";" + "\n" == ";\n";
  }

  lemma CheckpointLine(key: string, after: string)
    ensures FormatDecl(CheckpointDecl(key, after)) == "checkpoint " + key + " after " + after + ";"
  {
    assert "checkpoint" + " " == "checkpoint " && " " + "after" + " " == " after ";
  }

  lemma ProfileLines(key: string, kind: string, implies: seq<string>, rs: seq<Requirement>)
    ensures FormatDecl(ProfileDecl(key, kind, implies, rs)) ==
      "profile " + key + " for entity " + kind + FormatImplies(implies) + " {\n"
      + FormatRequirements(rs)
      + "}"
  {
    hide FormatImplies, FormatRequirements;
    assert "profile" + " " == "profile ";
    Glue("profile " + key, " ", "for", " ", " for ");
    Glue("profile " + key + " for ", "entity", " ", kind, "entity " + kind);
    assert "profile " + key + " for " + ("entity " + kind) == "profile " + key + " for entity " + kind;
    Glue("profile " + key + " for entity " + kind + FormatImplies(implies), " ", "{", "\n", " {\n");
  }

  lemma RequirementLine(field: string, code: string)
    ensures FormatRequirement(Requirement(field, code)) == "  require " + field + " present as " + code + ";\n"
  {
    assert "  " + "require" + " " == "  require " && " " + "present" + " " + "as" + " " == " present as " && ";" + "\n" == ";\n";
  }

  lemma ImpliesText(implied: string)
    ensures FormatImplies([implied]) == " (implies: [" + Quote(implied) + "])" && FormatImplies([]) == ""
  {
    NoteText("implies", implied);
    hide Quote, FormatNote;
    var x := Quote(implied);
    assert " " + "(" == " (" && " (" + ("implies" + ": [" + x + "]") + ")" == " (" + ("implies" + ": [") + x + ("]" + ")");
    assert " (" + ("implies" + ": [") == " (implies: [" && "]" + ")" == "])";
  }

  // ----- rules -----

  /** A clause stands on a line of its own, and what is absent on none. */
  lemma ClauseLine(indent: string, keyword: string, e: Expr)
    ensures FormatClause(indent, keyword, Nil) == ""
    ensures e != Nil ==> FormatClause(indent, keyword, e) == indent + keyword + " " + FormatExpr(e) + "\n"
  {
  }

  lemma SelectorLines(s: Selector, indent: string)
    ensures FormatSelector(s, indent) ==
      (indent + "select " + s.kind + "\n")
      + FormatClause(indent, "where", s.where)
      + FormatClause(indent, "group_by", s.groupBy)
      + FormatClause(indent, "having", s.having)
  {
    hide FormatClause;
    assert indent + "select" + " " == indent + "select " by { assert "select" + " " == "select "; }
  }

  lemma AssignmentLines(a: Assignment, b: Assignment, indent: string)
    ensures FormatAssignments([a, b], indent) ==
      indent + "set " + a.target + " = " + FormatExpr(a.value) + ",\n"
      + (indent + "    " + b.target + " = " + FormatExpr(b.value) + ";")
  {
    hide FormatExpr;
    assert [a, b][1..] == [b];
    assert "set" + " " == "set " && " " + "=" + " " == " = " && "," + "\n" == ",\n";
    assert JoinAssignments([b], indent) == b.target + " = " + FormatExpr(b.value);
  }

  /** A rule: its name, its annotations, its operator, and its closing brace on a line of its own. */
  lemma RuleLines(id: string, rs: seq<string>, ws: seq<string>, deps: seq<string>, op: Operator)
    requires HasSelectors(op)
    ensures FormatDecl(RuleDecl(id, rs, ws, deps, op)) ==
      "rule " + id + FormatNotes(NotesOf(rs, ws, deps)) + " {\n"
      + FormatOperator(op, "  ")
      + "\n}"
  {
    hide FormatNotes, NotesOf, FormatOperator;
    var x := "rule " + id + FormatNotes(NotesOf(rs, ws, deps));
    assert "rule" + " " == "rule ";
    Glue(x, " ", "{", "\n", " {\n");
    Glue(x + " {\n" + FormatOperator(op, "  "), "", "\n", "}", "\n}");
    assert x + " {\n" + FormatOperator(op, "  ") + "" == x + " {\n" + FormatOperator(op, "  ");
  }

  lemma NotesText(r: string, w: string, d: string)
    ensures FormatNotes(NotesOf([], [], [])) == ""
    ensures FormatNotes(NotesOf([r], [w], [d])) ==
      " (" + ("reads: [" + Quote(r) + "], ") + ("writes: [" + Quote(w) + "], ") + ("depends_on: [" + Quote(d) + "]") + ")"
  {
    hide Quote;
    var a, b, c := Note("reads", [r]), Note("writes", [w]), Note("depends_on", [d]);
    assert [a] + [b] + [c] == [a, b, c] && [a, b, c][1..] == [b, c] && [b, c][1..] == [c];
    assert NotesOf([r], [w], [d]) == [a, b, c] && NotesOf([], [], []) == [];
    NoteText("reads", r);
    NoteText("writes", w);
    NoteText("depends_on", d);
    hide FormatNote, NotesOf;
    assert JoinNotes([b, c]) == FormatNote(b) + ", " + FormatNote(c);
    assert JoinNotes([a, b, c]) == FormatNote(a) + ", " + (FormatNote(b) + ", " + FormatNote(c));
    NoteComma("reads", Quote(r), "reads: [");
    NoteComma("writes", Quote(w), "writes: [");
    NoteComma("depends_on", Quote(d), "depends_on: [");
    var x, y, z := "reads: [" + Quote(r) + "], ", "writes: [" + Quote(w) + "], ", "depends_on: [" + Quote(d) + "]";
    assert FormatNotes([a, b, c]) == " " + "(" + (x + (y + z)) + ")";
    assert " " + "(" == " (" && " (" + (x + (y + z)) == " (" + x + y + z;
  }

  lemma NoteComma(keyword: string, items: string, start: string)
    requires keyword + ": [" == start
    ensures keyword + ": [" + items + "]" == start + items + "]" && keyword + ": [" + items + "]" + ", " == start + items + "], "
  {
    assert "]" + ", " == "], ";
  }

  lemma NoteText(keyword: string, item: string)
    ensures FormatNote(Note(keyword, [item])) == keyword + ": [" + Quote(item) + "]"
  {
    hide Quote;
    assert ":" + " " + "[" == ": [";
  }

  lemma InsertLines(target: string, s: Selector, e: Expr, assigns: seq<Assignment>)
    requires assigns != []
    ensures FormatOperator(InsertEntity(InsertNode(target, Some(s), e, s.having, assigns)), "  ") ==
      ("  insert " + target + " {\n")
      + FormatSelector(s, "    ")
      + FormatSetting("    ", "discriminator", e)
      + "  }\n"
      + FormatAssignments(assigns, "  ")
  {
    hide FormatExpr, FormatSelector, FormatAssignments, FormatSetting;
    assert "  " + "insert" + " " == "  insert " && "  " + "  " == "    ";
    Glue("  insert " + target, " ", "{", "\n", " {\n");
    Glue(("  insert " + target + " {\n") + FormatSelector(s, "    ") + FormatSetting("    ", "discriminator", e), "  ", "}", "\n", "  }\n");
  }

  lemma DiscriminatorLine(e: Expr, indent: string)
    requires e != Nil
    ensures FormatSetting(indent, "discriminator", e) == indent + "discriminator: " + FormatExpr(e) + ";\n"
    ensures FormatSetting(indent, "guard", e) == indent + "guard: " + FormatExpr(e) + ";\n"
  {
    hide FormatExpr;
    assert "discriminator" + ":" + " " == "discriminator: " && "guard" + ":" + " " == "guard: " && ";" + "\n" == ";\n";
  }

  lemma DeleteLines(s: Selector)
    ensures FormatOperator(DeleteEntity(DeleteNode(Some(s), s.having)), "  ") == "  delete " + s.kind + " {\n" + FormatSelector(s, "    ") + "  };"
  {
    hide FormatSelector;
    assert "  " + "delete" + " " == "  delete " && " " + "{" + "\n" == " {\n" && "  " + "  " == "    " && "  " + "}" + ";" == "  };";
  }

  lemma LinkLine(a: string, b: string, name: string, keyword: string, word: string)
    ensures "  " + keyword + " " + a + " " + word + " " + b + (" " + "as" + " " + name + " " + "{" + "\n")
         == "  " + keyword + " " + a + " " + word + " " + b + " as " + name + " {\n"
  {
    var x := "  " + keyword + " " + a + " " + word + " " + b;
    assert " " + "as" + " " == " as ";
    Glue(" as " + name, " ", "{", "\n", " {\n");
    assert x + (" as " + name + " {\n") == x + " as " + name + " {\n";
  }

  lemma LinkLines(n: LinkNode, keyword: string, word: string)
    requires n.from.Some? && n.to.Some?
    ensures FormatLink(n, keyword, word, "  ") ==
      ("  " + keyword + " " + n.from.value.kind + " " + word + " " + n.to.value.kind + " as " + n.relation + " {\n")
      + "    from:\n"
      + FormatSelector(n.from.value, "      ")
      + "    to:\n"
      + FormatSelector(n.to.value, "      ")
      + FormatSetting("    ", "guard", n.guard)
      + "  };"
  {
    hide FormatExpr, FormatSelector, FormatSetting;
    LinkLine(n.from.value.kind, n.to.value.kind, n.relation, keyword, word);
    assert "  " + "  " + "from" + ":" + "\n" == "    from:\n" && "  " + "  " + "to" + ":" + "\n" == "    to:\n";
    assert "  " + "    " == "      " && "  " + "  " == "    ";
    var x := "  " + keyword + " " + n.from.value.kind + " " + word + " " + n.to.value.kind + " as " + n.relation + " {\n" + "    from:\n"
      + FormatSelector(n.from.value, "      ") + "    to:\n" + FormatSelector(n.to.value, "      ") + FormatSetting("    ", "guard", n.guard);
    Glue(x, "  ", "}", ";", "  };");
  }

  lemma IntoLine(keyword: string, kind: string, target: string)
    ensures FormatIntoHeader(keyword, kind, target, "  ") == "  " + keyword + " " + kind + " into " + target + " {\n"
  {
    var x := "  " + keyword + " " + kind;
    Glue(x, " ", "into", " ", " into ");
    Glue(x + " into " + target, " ", "{", "\n", " {\n");
  }

  lemma FlagLine(indent: string, name: string)
    ensures FormatFlag(indent, name, true) == indent + name + ": true;\n" && FormatFlag(indent, name, false) == indent + name + ": false;\n"
  {
    Flag(indent, name, "true", ": true;\n");
    Flag(indent, name, "false", ": false;\n");
  }

  lemma Flag(indent: string, name: string, word: string, end: string)
    requires ":" + " " + word + ";" + "\n" == end
    ensures indent + name + ":" + " " + word + ";" + "\n" == indent + name + end
  {
    var x := indent + name;
    Glue(x, ":", " ", word, ": " + word);
    Glue(x, ": " + word, ";", "\n", end);
  }

  lemma MergeLines(n: MergeNode)
    requires n.source.Some? && n.assignments == []
    ensures FormatOperator(MergeEntities(n), "  ") ==
      FormatIntoHeader("merge", n.source.value.kind, n.target, "  ")
      + FormatSelector(n.source.value, "    ")
      + FormatSetting("    ", "discriminator", n.discriminator)
      + FormatFlag("    ", "retain_sources", n.retainSources)
      + FormatFlag("    ", "reanchor_relations", n.reanchorRelations)
      + "  }\n"
  {
    hide FormatExpr, FormatSelector, FormatIntoHeader, FormatSetting, FormatFlag;
    assert "  " + "  " == "    ";
    var x := FormatIntoHeader("merge", n.source.value.kind, n.target, "  ") + FormatSelector(n.source.value, "    ")
      + FormatSetting("    ", "discriminator", n.discriminator) + FormatFlag("    ", "retain_sources", n.retainSources)
      + FormatFlag("    ", "reanchor_relations", n.reanchorRelations);
    Glue(x, "  ", "}", "\n", "  }\n");
    assert x + "  }\n" + "" == x + "  }\n";
  }

  lemma PartitionLines(p: Partition)
    requires p.assignments != []
    ensures FormatPartition(p, "  ") ==
      ("    partition " + Quote(p.name) + " {\n")
      + FormatSetting("      ", "discriminator", p.discriminator)
      + (FormatAssignments(p.assignments, "      ") + "\n")
      + "    }\n"
  {
    hide FormatExpr, FormatAssignments, Quote, FormatSetting;
    var x := "    partition " + Quote(p.name);
    assert "  " + "  " + "partition" + " " == "    partition " && "  " + "    " == "      ";
    Glue(x, " ", "{", "\n", " {\n");
    var y := x + " {\n" + FormatSetting("      ", "discriminator", p.discriminator) + (FormatAssignments(p.assignments, "      ") + "\n");
    Glue(y, "  ", "  ", "}", "    }");
    assert "    }" + "\n" == "    }\n" && y + "    }" + "\n" == y + ("    }" + "\n");
  }

  lemma SplitLines(n: SplitNode)
    requires n.source.Some?
    ensures FormatOperator(SplitEntity(n), "  ") ==
      FormatIntoHeader("split", n.source.value.kind, n.target, "  ")
      + FormatSelector(n.source.value, "    ")
      + FormatFlag("    ", "retain_source", n.retainSource)
      + FormatPartitions(n.partitions, "  ")
      + "  };"
  {
    hide FormatSelector, FormatPartitions, FormatIntoHeader, FormatFlag;
    assert "  " + "  " == "    ";
    var x := FormatIntoHeader("split", n.source.value.kind, n.target, "  ") + FormatSelector(n.source.value, "    ")
      + FormatFlag("    ", "retain_source", n.retainSource) + FormatPartitions(n.partitions, "  ");
    Glue(x, "  ", "}", ";", "  };");
  }

  /** Declarations are a blank line apart, and the text ends with a line. */
  lemma FileLines(d: Decl, e: Decl)
    requires Formattable(d) && Formattable(e)
    ensures Format(File([d])) == FormatDecl(d) + "\n" && Format(File([d, e])) == FormatDecl(d) + "\n\n" + FormatDecl(e) + "\n"
  {
    hide FormatDecl;
    assert [d, e][1..] == [e] && FormatDecls([e]) == FormatDecl(e);
    assert FormatDecls([d, e]) == FormatDecl(d) + "\n\n" + FormatDecls([e]) && FormatDecls([d]) == FormatDecl(d);
  }
}
