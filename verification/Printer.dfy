/** The declaration printers, which append to one shared builder in loops, proved to write what the
    functions of `FormatSpec` say.  `false` means that the printer followed a nil pointer. */
module Printer {
  import opened Ast
  import opened FormatSpec

  class Builder {
    var text: string

    constructor ()
      ensures text == ""
    {
      text := "";
    }

    method WriteString(s: string)
      modifies this
      ensures text == old(text) + s
    {
      text := text + s;
    }
  }

  lemma Grow(start: string, a: string, b: string)
    ensures (start + a) + b == start + (a + b)
  {
  }

  method PrintClause(sb: Builder, indent: string, keyword: string, e: Expr)
    modifies sb
    ensures sb.text == old(sb.text) + FormatClause(indent, keyword, e)
  {
    if e != Nil {
      sb.WriteString(indent + keyword + " " + FormatExpr(e) + "\n");
    }
  }

  method PrintSelector(sb: Builder, s: Selector, indent: string)
    modifies sb
    ensures sb.text == old(sb.text) + FormatSelector(s, indent)
  {
    hide FormatClause;
    var head := indent + "select" + " " + s.kind + "\n";
    sb.WriteString(head);
    PrintClause(sb, indent, "where", s.where);
    PrintClause(sb, indent, "group_by", s.groupBy);
    PrintClause(sb, indent, "having", s.having);
    Grow(old(sb.text), head, FormatClause(indent, "where", s.where));
    Grow(old(sb.text), head + FormatClause(indent, "where", s.where), FormatClause(indent, "group_by", s.groupBy));
    Grow(old(sb.text), head + FormatClause(indent, "where", s.where) + FormatClause(indent, "group_by", s.groupBy),
         FormatClause(indent, "having", s.having));
  }

  /** What the assignments from the `i`-th on still add, separator included. */
  function RestOfAssignments(assigns: seq<Assignment>, i: nat, indent: string): string
    requires i <= |assigns|
  {
    if i == |assigns| then ""
    else (if i > 0 then "," + ("\n" + indent + "    ") else "") + JoinAssignments(assigns[i..], indent)
  }

  lemma RestStep(assigns: seq<Assignment>, i: nat, indent: string)
    requires i < |assigns|
    ensures RestOfAssignments(assigns, i, indent)
         == (if i > 0 then "," + ("\n" + indent + "    ") else "") + (FormatAssignment(assigns[i]) + RestOfAssignments(assigns, i + 1, indent))
  {
    var rest := assigns[i..];
    assert rest[0] == assigns[i] && rest[1..] == assigns[i + 1..];
    if i + 1 == |assigns| {
      assert FormatAssignment(assigns[i]) + "" == FormatAssignment(assigns[i]);
    } else {
      var sep := "\n" + indent + "    ";
      assert FormatAssignment(assigns[i]) + "," + sep + JoinAssignments(rest[1..], indent)
          == FormatAssignment(assigns[i]) + ("," + sep + JoinAssignments(rest[1..], indent));
    }
  }

  method PrintAssignments(sb: Builder, assigns: seq<Assignment>, indent: string)
    modifies sb
    ensures sb.text == old(sb.text) + FormatAssignments(assigns, indent)
  {
    hide JoinAssignments, FormatAssignment;
    var start := sb.text;
    sb.WriteString(indent + "set" + " ");
    ghost var head := indent + "set" + " ";
    ghost var done := "";
    assert head + done == head;
    assert assigns[0..] == assigns;
    EmptyJoin(assigns, indent);
    for i := 0 to |assigns|
      invariant done + RestOfAssignments(assigns, i, indent) == JoinAssignments(assigns, indent)
      invariant sb.text == start + (head + done)
    {
      RestStep(assigns, i, indent);
      ghost var sep := if i > 0 then "," + ("\n" + indent + "    ") else "";
      if i > 0 {
        sb.WriteString("," + ("\n" + indent + "    "));
      }
      sb.WriteString(FormatAssignment(assigns[i]));
      Regroup(start, head, done, sep, FormatAssignment(assigns[i]), RestOfAssignments(assigns, i + 1, indent));
      done := done + sep + FormatAssignment(assigns[i]);
    }
    assert done + "" == done;
    sb.WriteString(";");
    Grow(start, head + done, ";");
  }

  lemma EmptyJoin(assigns: seq<Assignment>, indent: string)
    ensures "" + RestOfAssignments(assigns, 0, indent) == JoinAssignments(assigns, indent)
  {
    assert assigns[0..] == assigns;
  }

  lemma Regroup(start: string, head: string, done: string, sep: string, a: string, rest: string)
    ensures start + (head + done) + sep + a == start + (head + (done + sep + a))
    ensures sep == "" ==> start + (head + done) + a == start + (head + (done + sep + a))
    ensures (done + sep + a) + rest == done + (sep + (a + rest))
  {
    assert start + (head + done) + sep + a == start + (head + (done + sep + a));
    assert (done + sep + a) + rest == done + (sep + (a + rest));
  }

  method PrintAnyAssignments(sb: Builder, assigns: seq<Assignment>, indent: string)
    modifies sb
    ensures sb.text == old(sb.text) + FormatAnyAssignments(assigns, indent)
  {
    hide FormatAssignments;
    if assigns != [] {
      PrintAssignments(sb, assigns, indent);
    }
  }

  method PrintSetting(sb: Builder, indent: string, name: string, e: Expr)
    modifies sb
    ensures sb.text == old(sb.text) + FormatSetting(indent, name, e)
  {
    if e != Nil {
      sb.WriteString(indent + name + ":" + " " + FormatExpr(e) + ";" + "\n");
    }
  }

  method PrintSelect(sb: Builder, n: SelectNode, indent: string)
    modifies sb
    ensures sb.text == old(sb.text) + FormatSelect(n, indent)
  {
    hide FormatSelector, FormatAnyAssignments;
    PrintSelector(sb, n.selector, indent);
    PrintAnyAssignments(sb, n.assignments, indent);
    Grow(old(sb.text), FormatSelector(n.selector, indent), FormatAnyAssignments(n.assignments, indent));
  }

  method PrintInsert(sb: Builder, n: InsertNode, indent: string) returns (ok: bool)
    modifies sb
    ensures ok <==> n.source.Some?
    ensures ok ==> sb.text == old(sb.text) + FormatInsert(n, indent)
  {
    hide FormatSelector, FormatSetting, FormatAnyAssignments;
    var t := sb.text;
    var head := indent + "insert" + " " + n.target + " " + "{" + "\n";
    sb.WriteString(head);
    if n.source.None? { return false; }
    var s, d := FormatSelector(n.source.value, indent + "  "), FormatSetting(indent + "  ", "discriminator", n.discriminator);
    PrintSelector(sb, n.source.value, indent + "  ");
    PrintSetting(sb, indent + "  ", "discriminator", n.discriminator);
    sb.WriteString(indent + "}" + "\n");
    PrintAnyAssignments(sb, n.assignments, indent);
    ok := true;
    Grow(t, head, s);
    Grow(t, head + s, d);
    Grow(t, head + s + d, indent + "}" + "\n");
    Grow(head + s + d, indent, "}");
    Grow(head + s + d, indent + "}", "\n");
    Grow(t, head + s + d + indent + "}" + "\n", FormatAnyAssignments(n.assignments, indent));
  }

  method PrintDelete(sb: Builder, n: DeleteNode, indent: string) returns (ok: bool)
    modifies sb
    ensures ok <==> n.source.Some?
    ensures ok ==> sb.text == old(sb.text) + FormatDelete(n, indent)
  {
    hide FormatSelector;
    if n.source.None? { return false; }
    var t := sb.text;
    var head, s := indent + "delete" + " " + n.source.value.kind + " " + "{" + "\n", FormatSelector(n.source.value, indent + "  ");
    sb.WriteString(head);
    PrintSelector(sb, n.source.value, indent + "  ");
    sb.WriteString(indent + "}" + ";");
    ok := true;
    Grow(t, head, s);
    Grow(t, head + s, indent + "}" + ";");
    Grow(head + s, indent, "}");
    Grow(head + s, indent + "}", ";");
  }

  /** `relate` and `unrelate`, whose printers differ in their two words alone. */
  method PrintLink(sb: Builder, n: LinkNode, keyword: string, word: string, indent: string) returns (ok: bool)
    modifies sb
    ensures ok <==> n.from.Some? && n.to.Some?
    ensures ok ==> sb.text == old(sb.text) + FormatLink(n, keyword, word, indent)
  {
    hide FormatSelector, FormatSetting;
    if n.from.None? || n.to.None? { return false; }
    var t := sb.text;
    var head := indent + keyword + " " + n.from.value.kind + " " + word + " " + n.to.value.kind
              + (" " + "as" + " " + n.relation + " " + "{" + "\n");
    var l1, l2 := indent + "  " + "from" + ":" + "\n", indent + "  " + "to" + ":" + "\n";
    var s1, s2 := FormatSelector(n.from.value, indent + "    "), FormatSelector(n.to.value, indent + "    ");
    var g := FormatSetting(indent + "  ", "guard", n.guard);
    sb.WriteString(head);
    sb.WriteString(l1);
    PrintSelector(sb, n.from.value, indent + "    ");
    sb.WriteString(l2);
    PrintSelector(sb, n.to.value, indent + "    ");
    PrintSetting(sb, indent + "  ", "guard", n.guard);
    sb.WriteString(indent + "}" + ";");
    ok := true;
    Grow(t, head, l1);
    Grow(t, head + l1, s1);
    Grow(t, head + l1 + s1, l2);
    Grow(t, head + l1 + s1 + l2, s2);
    Grow(t, head + l1 + s1 + l2 + s2, g);
    Grow(t, head + l1 + s1 + l2 + s2 + g, indent + "}" + ";");
    Grow(head + l1 + s1 + l2 + s2 + g, indent, "}");
    Grow(head + l1 + s1 + l2 + s2 + g, indent + "}", ";");
  }

  method PrintMerge(sb: Builder, n: MergeNode, indent: string) returns (ok: bool)
    modifies sb
    ensures ok <==> n.source.Some?
    ensures ok ==> sb.text == old(sb.text) + FormatMerge(n, indent)
  {
    hide FormatSelector, FormatSetting, FormatIntoHeader, FormatFlag, FormatAnyAssignments;
    if n.source.None? { return false; }
    var t, in2 := sb.text, indent + "  ";
    var head, s := FormatIntoHeader("merge", n.source.value.kind, n.target, indent), FormatSelector(n.source.value, in2);
    var d := FormatSetting(in2, "discriminator", n.discriminator);
    var f1, f2 := FormatFlag(in2, "retain_sources", n.retainSources), FormatFlag(in2, "reanchor_relations", n.reanchorRelations);
    sb.WriteString(head);
    PrintSelector(sb, n.source.value, in2);
    PrintSetting(sb, in2, "discriminator", n.discriminator);
    sb.WriteString(f1);
    sb.WriteString(f2);
    sb.WriteString(indent + "}" + "\n");
    PrintAnyAssignments(sb, n.assignments, indent);
    ok := true;
    Grow(t, head, s);
    Grow(t, head + s, d);
    Grow(t, head + s + d, f1);
    Grow(t, head + s + d + f1, f2);
    Grow(t, head + s + d + f1 + f2, indent + "}" + "\n");
    Grow(head + s + d + f1 + f2, indent, "}");
    Grow(head + s + d + f1 + f2, indent + "}", "\n");
    Grow(t, head + s + d + f1 + f2 + indent + "}" + "\n", FormatAnyAssignments(n.assignments, indent));
  }

  method PrintPartition(sb: Builder, p: Partition, indent: string)
    modifies sb
    ensures sb.text == old(sb.text) + FormatPartition(p, indent)
  {
    hide FormatSetting, FormatAssignments, Quote;
    var t := sb.text;
    var head := indent + "  " + "partition" + " " + Quote(p.name) + " " + "{" + "\n";
    var d := FormatSetting(indent + "    ", "discriminator", p.discriminator);
    ghost var a := if p.assignments == [] then "" else FormatAssignments(p.assignments, indent + "    ") + "\n";
    sb.WriteString(head);
    PrintSetting(sb, indent + "    ", "discriminator", p.discriminator);
    if p.assignments != [] {
      PrintAssignments(sb, p.assignments, indent + "    ");
      sb.WriteString("\n");
      Grow(t + head + d, FormatAssignments(p.assignments, indent + "    "), "\n");
    }
    assert sb.text == t + head + d + a;
    sb.WriteString(indent + "  " + "}" + "\n");
    Grow(t, head, d);
    Grow(t, head + d, a);
    Grow(t, head + d + a, indent + "  " + "}" + "\n");
    Grow(head + d + a, indent, "  ");
    Grow(head + d + a, indent + "  ", "}");
    Grow(head + d + a, indent + "  " + "}", "\n");
  }

  method PrintSplit(sb: Builder, n: SplitNode, indent: string) returns (ok: bool)
    modifies sb
    ensures ok <==> n.source.Some?
    ensures ok ==> sb.text == old(sb.text) + FormatSplit(n, indent)
  {
    hide FormatSelector, FormatIntoHeader, FormatFlag, FormatPartition;
    if n.source.None? { return false; }
    var t, in2 := sb.text, indent + "  ";
    var head, s := FormatIntoHeader("split", n.source.value.kind, n.target, indent), FormatSelector(n.source.value, in2);
    var f := FormatFlag(in2, "retain_source", n.retainSource);
    sb.WriteString(head);
    PrintSelector(sb, n.source.value, in2);
    sb.WriteString(f);
    Grow(t, head, s);
    Grow(t, head + s, f);
    var ps := FormatPartitions(n.partitions, indent);
    assert n.partitions[0..] == n.partitions;
    for i := 0 to |n.partitions|
      invariant sb.text + FormatPartitions(n.partitions[i..], indent) == t + (head + s + f) + ps
    {
      assert n.partitions[i..][0] == n.partitions[i] && n.partitions[i..][1..] == n.partitions[i + 1..];
      Grow(sb.text, FormatPartition(n.partitions[i], indent), FormatPartitions(n.partitions[i + 1..], indent));
      PrintPartition(sb, n.partitions[i], indent);
    }
    assert sb.text + "" == sb.text;
    sb.WriteString(indent + "}" + ";");
    ok := true;
    Grow(t, head + s + f, ps);
    Grow(t, head + s + f + ps, indent + "}" + ";");
    Grow(head + s + f + ps, indent, "}");
    Grow(head + s + f + ps, indent + "}", ";");
  }

  method PrintOperator(sb: Builder, op: Operator, indent: string) returns (ok: bool)
    modifies sb
    ensures ok <==> HasSelectors(op)
    ensures ok ==> sb.text == old(sb.text) + FormatOperator(op, indent)
  {
    hide FormatSelect, FormatInsert, FormatDelete, FormatLink, FormatMerge, FormatSplit;
    match op
    case NilOperator => ok := true;
    case SelectAndAssign(n) => PrintSelect(sb, n, indent); ok := true;
    case InsertEntity(n) => ok := PrintInsert(sb, n, indent);
    case DeleteEntity(n) => ok := PrintDelete(sb, n, indent);
    case RelateEntities(n) => ok := PrintLink(sb, n, "relate", "to", indent);
    case UnrelateEntities(n) => ok := PrintLink(sb, n, "unrelate", "from", indent);
    case MergeEntities(n) => ok := PrintMerge(sb, n, indent);
    case SplitEntity(n) => ok := PrintSplit(sb, n, indent);
  }

  // ----- declarations -----

  method PrintEntity(sb: Builder, e: Entity)
    modifies sb
    ensures sb.text == old(sb.text) + FormatEntity(e)
  {
    hide FormatField;
    var t := sb.text;
    var head, body := "  " + "entity" + " " + e.kind + " " + "{" + "\n", FormatFields(e.fields);
    sb.WriteString(head);
    assert e.fields[0..] == e.fields;
    for i := 0 to |e.fields|
      invariant sb.text + FormatFields(e.fields[i..]) == t + head + body
    {
      assert e.fields[i..][0] == e.fields[i] && e.fields[i..][1..] == e.fields[i + 1..];
      Grow(sb.text, FormatField(e.fields[i]), FormatFields(e.fields[i + 1..]));
      sb.WriteString(FormatField(e.fields[i]));
    }
    assert sb.text + "" == sb.text;
    sb.WriteString("  " + "}" + "\n");
    Grow(t, head, body);
    Grow(t, head + body, "  " + "}" + "\n");
    Grow(head + body, "  ", "}");
    Grow(head + body, "  " + "}", "\n");
  }

  method PrintSchema(sb: Builder, entities: seq<Entity>, relations: seq<Relation>)
    modifies sb
    ensures sb.text == old(sb.text) + FormatDecl(SchemaDecl(entities, relations))
  {
    hide FormatEntity, FormatRelation;
    var t := sb.text;
    var head, es, rs := "schema" + " " + "{" + "\n", FormatEntities(entities), FormatRelations(relations);
    sb.WriteString(head);
    assert entities[0..] == entities;
    for i := 0 to |entities|
      invariant sb.text + FormatEntities(entities[i..]) == t + head + es
    {
      assert entities[i..][0] == entities[i] && entities[i..][1..] == entities[i + 1..];
      Grow(sb.text, FormatEntity(entities[i]), FormatEntities(entities[i + 1..]));
      PrintEntity(sb, entities[i]);
    }
    assert sb.text + "" == sb.text;
    assert relations[0..] == relations;
    for i := 0 to |relations|
      invariant sb.text + FormatRelations(relations[i..]) == t + head + es + rs
    {
      assert relations[i..][0] == relations[i] && relations[i..][1..] == relations[i + 1..];
      Grow(sb.text, FormatRelation(relations[i]), FormatRelations(relations[i + 1..]));
      sb.WriteString(FormatRelation(relations[i]));
    }
    assert sb.text + "" == sb.text;
    sb.WriteString("}");
    Grow(t, head, es);
    Grow(t, head + es, rs);
    Grow(t, head + es + rs, "}");
  }

  method PrintProfile(sb: Builder, key: string, kind: string, implies: seq<string>, requirements: seq<Requirement>)
    modifies sb
    ensures sb.text == old(sb.text) + FormatDecl(ProfileDecl(key, kind, implies, requirements))
  {
    hide FormatRequirement, FormatNote;
    var t := sb.text;
    var head, i, rs := "profile" + " " + key + " " + "for" + " " + "entity" + " " + kind, FormatImplies(implies), FormatRequirements(requirements);
    sb.WriteString(head);
    if implies != [] {
      sb.WriteString(i);
    }
    assert sb.text == t + head + i by { assert t + head + "" == t + head; }
    sb.WriteString(" " + "{" + "\n");
    var open := t + head + i + (" " + "{" + "\n");
    assert requirements[0..] == requirements;
    for j := 0 to |requirements|
      invariant sb.text + FormatRequirements(requirements[j..]) == open + rs
    {
      assert requirements[j..][0] == requirements[j] && requirements[j..][1..] == requirements[j + 1..];
      Grow(sb.text, FormatRequirement(requirements[j]), FormatRequirements(requirements[j + 1..]));
      sb.WriteString(FormatRequirement(requirements[j]));
    }
    assert sb.text + "" == sb.text;
    sb.WriteString("}");
    Grow(t, head, i);
    Grow(t, head + i, " " + "{" + "\n");
    Grow(head + i, " ", "{");
    Grow(head + i, " " + "{", "\n");
    Grow(t, head + i + " " + "{" + "\n", rs);
    Grow(t, head + i + " " + "{" + "\n" + rs, "}");
  }

  method PrintRule(sb: Builder, d: Decl) returns (ok: bool)
    requires d.RuleDecl?
    modifies sb
    ensures ok <==> Formattable(d)
    ensures ok ==> sb.text == old(sb.text) + FormatDecl(d)
  {
    hide FormatNote, FormatOperator, HasSelectors;
    var t := sb.text;
    sb.WriteString("rule" + " " + d.id);
    var annotations: seq<Note> := [];
    if d.declaredReads != [] {
      annotations := annotations + [Note("reads", d.declaredReads)];
    }
    if d.declaredWrites != [] {
      annotations := annotations + [Note("writes", d.declaredWrites)];
    }
    if d.dependsOn != [] {
      annotations := annotations + [Note("depends_on", d.dependsOn)];
    }
    assert annotations == NotesOf(d.declaredReads, d.declaredWrites, d.dependsOn);
    var head, notes := "rule" + " " + d.id, FormatNotes(annotations);
    if annotations != [] {
      sb.WriteString(notes);
    }
    assert sb.text == t + head + notes by { assert t + head + "" == t + head; }
    sb.WriteString(" " + "{" + "\n");
    ok := PrintOperator(sb, d.operator, "  ");
    if !ok { return; }
    sb.WriteString("\n" + "}");
    var op := FormatOperator(d.operator, "  ");
    Grow(t, head, notes);
    Grow(t, head + notes, " " + "{" + "\n");
    Grow(head + notes, " ", "{");
    Grow(head + notes, " " + "{", "\n");
    Grow(t, head + notes + " " + "{" + "\n", op);
    Grow(t, head + notes + " " + "{" + "\n" + op, "\n" + "}");
    Grow(head + notes + " " + "{" + "\n" + op, "\n", "}");
  }

  method PrintDecl(sb: Builder, d: Decl) returns (ok: bool)
    modifies sb
    ensures ok <==> Formattable(d)
    ensures ok ==> sb.text == old(sb.text) + FormatDecl(d)
  {
    hide FormatEntities, FormatRelations, FormatNotes, FormatOperator, FormatImplies, FormatRequirements, HasSelectors;
    ok := true;
    match d
    case NilDecl => ok := false;
    case SchemaDecl(entities, relations) => PrintSchema(sb, entities, relations);
    case RuleDecl(_, _, _, _, _) => ok := PrintRule(sb, d);
    case CheckpointDecl(_, _) => sb.WriteString(FormatDecl(d));
    case ProfileDecl(key, kind, implies, requirements) => PrintProfile(sb, key, kind, implies, requirements);
  }

  /** What the declarations from the `i`-th on still add, separator included. */
  function RestOfDecls(ds: seq<Decl>, i: nat): string
    requires i <= |ds| && FormattableAll(ds)
  {
    if i == |ds| then "" else (if i > 0 then "\n\n" else "") + FormatDecls(ds[i..])
  }

  lemma RestOfDeclsStep(ds: seq<Decl>, i: nat)
    requires i < |ds| && FormattableAll(ds)
    ensures RestOfDecls(ds, i) == (if i > 0 then "\n\n" else "") + (FormatDecl(ds[i]) + RestOfDecls(ds, i + 1))
  {
    hide FormatDecl, Formattable;
    var rest := ds[i..];
    assert rest[0] == ds[i] && rest[1..] == ds[i + 1..];
    if i + 1 == |ds| {
      assert FormatDecl(ds[i]) + "" == FormatDecl(ds[i]);
    } else {
      Grow(FormatDecl(ds[i]), "\n\n", FormatDecls(rest[1..]));
    }
  }

  /** The text of a file, or `false` where the printer follows a nil pointer. */
  method PrintFile(f: File) returns (ok: bool, text: string)
    ensures ok <==> FormattableAll(f.declarations)
    ensures ok ==> text == Format(f)
  {
    hide FormatDecl, Formattable;
    var sb := new Builder();
    var ds := f.declarations;
    text := "";
    assert ds[0..] == ds;
    for i := 0 to |ds|
      invariant fresh(sb)
      invariant forall j :: 0 <= j < i ==> Formattable(ds[j])
      invariant FormattableAll(ds) ==> sb.text + RestOfDecls(ds, i) == FormatDecls(ds)
    {
      ghost var before := sb.text;
      ghost var sep := if i > 0 then "\n\n" else "";
      if i > 0 {
        sb.WriteString("\n\n");
      }
      assert sb.text == before + sep by { assert before + "" == before; }
      ok := PrintDecl(sb, ds[i]);
      if !ok { return; }
      if FormattableAll(ds) {
        RestOfDeclsStep(ds, i);
        Grow(before, sep, FormatDecl(ds[i]) + RestOfDecls(ds, i + 1));
        Grow(before + sep, FormatDecl(ds[i]), RestOfDecls(ds, i + 1));
      }
    }
    assert sb.text + "" == sb.text;
    sb.WriteString("\n");
    ok, text := true, sb.text;
  }
}
