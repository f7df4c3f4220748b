/** Lowering the operators of rules.  The selectors of two of them are completed in place. */
module RuleLowering {
  import opened Ast
  import opened Semantics
  import opened Lowering
  import opened LoweringMeaning
  import opened FieldPaths
  import opened RuleReads
  import K = TermKinds

  datatype SelectorView = SelectorView(kind: string, where: Expr, groupBy: Expr, cardinality: string, count: nat)

  class SelectorNode {
    var kind: string
    var where: Expr
    var groupBy: Expr
    var cardinalityKind: string
    var cardinalityCount: nat

    /** A parsed selector; its cardinality is always "any". */
    constructor (s: Selector)
      ensures View() == Parsed(s)
    {
      kind, where, groupBy, cardinalityKind, cardinalityCount := s.kind, s.where, s.groupBy, "any", 0;
    }

    function View(): SelectorView
      reads this
    {
      SelectorView(kind, where, groupBy, cardinalityKind, cardinalityCount)
    }
  }

  function Parsed(s: Selector): SelectorView {
    SelectorView(s.kind, s.where, s.groupBy, "any", 0)
  }

  // ----- parts -----

  /** A clause that may be absent. */
  function LowerOptional(mk: Maker, e: Expr): Option<Option<Term>> {
    if e == Nil then Some(None)
    else match Lower(mk, e) case None => None case Some(t) => Some(Some(t))
  }

  function LowerView(mk: Maker, v: SelectorView): Option<LoweredSelector> {
    match LowerOptional(mk, v.where)
    case None => None
    case Some(where) =>
      match LowerOptional(mk, v.groupBy)
      case None => None
      case Some(groupBy) =>
        var counted := v.cardinality == "exactly" || v.cardinality == "at_least";
        Some(LoweredSelector(v.kind, where, groupBy, if counted then v.cardinality else "any", if counted then v.count else 0))
  }

  function LowerAssignments(mk: Maker, assigns: seq<Assignment>): (r: Option<seq<LoweredAssignment>>)
    ensures r.Some? ==> |r.value| == |assigns| && forall i :: 0 <= i < |assigns| ==> r.value[i].target == assigns[i].target
  {
    if assigns == [] then Some([])
    else
      match (Lower(mk, assigns[0].value), LowerAssignments(mk, assigns[1..]))
      case (Some(t), Some(rest)) => Some([LoweredAssignment(assigns[0].target, t)] + rest)
      case _ => None
  }

  /** A guard that holds of every group: all of its members satisfy one equals one. */
  const DEFAULT_GROUP_GUARD := Node(K.ALL_MEMBERS, [BoolTerm(true)])

  lemma {:induction false} EveryoneIs(w: World, members: seq<Semantics.Entity>)
    ensures EvalMembers(w, members, BoolTerm(true), false) == Bool(true)
    decreases |members|
  {
    hide Eval;
    if members != [] {
      BoolTermEval(w, Bound([members[0]]), true);
      EveryoneIs(w, members[1..]);
    }
  }

  /** An omitted guard never excludes a group. */
  lemma DefaultGuardHolds(w: World, sc: Scope)
    requires sc.Group? && sc.members != []
    ensures Eval(w, sc, DEFAULT_GROUP_GUARD) == Bool(true) && CollectFieldPaths(DEFAULT_GROUP_GUARD) == []
  {
    QuantifierEval(w, sc, BoolTerm(true));
    EveryoneIs(w, sc.members);
    CollectBool(true);
    CollectPair(BoolTerm(true), BoolTerm(true));
    CollectNode(K.ALL_MEMBERS, [BoolTerm(true)]);
  }

  function LowerGuard(mk: Maker, guard: Expr): Option<Term> {
    if guard == Nil then Some(DEFAULT_GROUP_GUARD) else Lower(mk, guard)
  }

  // ----- select and assign -----

  function AtLeastOne(v: SelectorView): SelectorView {
    if v.cardinality == "any" then v.(cardinality := "at_least", count := 1) else v
  }

  /** Without a `group by` the first path of `where`, or else the first target, groups. */
  function CompleteSelect(v: SelectorView, assigns: seq<Assignment>): SelectorView {
    if v.groupBy != Nil then v
    else
      var paths := CollectAstFieldPaths(v.where);
      AtLeastOne(if paths != [] then v.(groupBy := Path(paths[0]))
                 else if assigns != [] then v.(groupBy := Path(assigns[0].target)) else v)
  }

  /** What lowering returns, and what it leaves in the selector. */
  function SelectResult(mk: Maker, v: SelectorView, guard: Expr, assigns: seq<Assignment>): (Option<LoweredOperator>, SelectorView) {
    var values := LowerAssignments(mk, assigns);
    if values.None? then (None, v)
    else
      var v1 := CompleteSelect(v, assigns);
      var s, g := LowerView(mk, v1), LowerGuard(mk, guard);
      if s.None? || g.None? then (None, v1) else (Some(LoweredSelect(s.value, g.value, values.value)), v1)
  }

  // ----- what that is -----

  /** The first path written in an expression. */
  function LeftmostPath(e: Expr): Option<string>
    decreases e
  {
    match e
    case Path(p) => Some(p)
    case Unary(_, r) => LeftmostPath(r)
    case Binary(_, l, r) => if LeftmostPath(l).Some? then LeftmostPath(l) else LeftmostPath(r)
    case Call(_, args) => LeftmostOf(args)
    case _ => None
  }

  function LeftmostOf(es: seq<Expr>): Option<string>
    decreases es
  {
    if es == [] then None else if LeftmostPath(es[0]).Some? then LeftmostPath(es[0]) else LeftmostOf(es[1..])
  }

  lemma {:induction false} FirstIsLeftmost(e: Expr)
    ensures LeftmostPath(e) == if CollectAstFieldPaths(e) == [] then None else Some(CollectAstFieldPaths(e)[0])
    decreases e
  {
    match e
    case Unary(_, r) => FirstIsLeftmost(r);
    case Binary(_, l, r) => FirstIsLeftmost(l); FirstIsLeftmost(r);
    case Call(_, args) => FirstOfAll(args);
    case _ =>
  }

  lemma {:induction false} FirstOfAll(es: seq<Expr>)
    ensures LeftmostOf(es) == if CollectAstAll(es) == [] then None else Some(CollectAstAll(es)[0])
    decreases es
  {
    if es != [] {
      FirstIsLeftmost(es[0]);
      FirstOfAll(es[1..]);
    }
  }

  ghost predicate AllLower(mk: Maker, assigns: seq<Assignment>) {
    forall a <- assigns :: Lower(mk, a.value).Some?
  }

  predicate ClauseLowers(mk: Maker, e: Expr) {
    e == Nil || Lower(mk, e).Some?
  }

  /** A lowered clause, which is absent where the written one is. */
  predicate IsClause(mk: Maker, e: Expr, t: Option<Term>) {
    if e == Nil then t == None else t.Some? && Lower(mk, e) == t
  }

  /** A lowered selector: its clauses, and a cardinality that is counted, or none. */
  predicate IsSelector(mk: Maker, v: SelectorView, s: LoweredSelector) {
    && s.kind == v.kind && IsClause(mk, v.where, s.where) && IsClause(mk, v.groupBy, s.groupBy)
    && (s.cardinality, s.count) == if v.cardinality in {"exactly", "at_least"} then (v.cardinality, v.count) else ("any", 0)
  }

  /** A lowered guard; an omitted one asks of all members that `true` holds. */
  predicate IsGuard(mk: Maker, guard: Expr, t: Term) {
    if guard == Nil then t == Term(K.ALL_MEMBERS, "", None, [BoolTerm(true)]) else Lower(mk, guard) == Some(t)
  }

  ghost predicate AreValues(mk: Maker, assigns: seq<Assignment>, values: seq<LoweredAssignment>) {
    && |values| == |assigns|
    && forall i :: 0 <= i < |assigns| ==> values[i].target == assigns[i].target && Lower(mk, assigns[i].value) == Some(values[i].value)
  }

  /** A selector completed with a group: nothing of it changes if it was grouped already, and an uncounted one
      selects at least one member. */
  predicate Completed(v: SelectorView, w: SelectorView, group: Expr) {
    && w.kind == v.kind && w.where == v.where && w.groupBy == (if v.groupBy != Nil then v.groupBy else group)
    && (w.cardinality, w.count) == if v.groupBy == Nil && v.cardinality == "any" then ("at_least", 1) else (v.cardinality, v.count)
  }

  /** What groups a selection by default: the first path of `where`, else the first target, else nothing. */
  function DefaultGroup(where: Expr, assigns: seq<Assignment>): Expr {
    match LeftmostPath(where)
    case Some(p) => Path(p)
    case None => if assigns != [] then Path(assigns[0].target) else Nil
  }

  lemma {:induction false} ValuesMean(mk: Maker, assigns: seq<Assignment>)
    ensures LowerAssignments(mk, assigns).Some? <==> AllLower(mk, assigns)
    ensures LowerAssignments(mk, assigns).Some? ==> AreValues(mk, assigns, LowerAssignments(mk, assigns).value)
    decreases |assigns|
  {
    hide Lower;
    if assigns != [] {
      ValuesMean(mk, assigns[1..]);
      assert assigns[0] in assigns && forall a <- assigns :: a == assigns[0] || a in assigns[1..];
    }
  }

  lemma SelectorMeans(mk: Maker, v: SelectorView)
    ensures LowerView(mk, v).Some? <==> ClauseLowers(mk, v.where) && ClauseLowers(mk, v.groupBy)
    ensures LowerView(mk, v).Some? ==> IsSelector(mk, v, LowerView(mk, v).value)
  {
    hide Lower;
  }

  lemma GuardMeans(mk: Maker, guard: Expr)
    ensures LowerGuard(mk, guard).Some? <==> ClauseLowers(mk, guard)
    ensures LowerGuard(mk, guard).Some? ==> IsGuard(mk, guard, LowerGuard(mk, guard).value)
  {
    hide Lower;
  }

  /** A lowered selection, and the selector it leaves: nothing is done where an assignment does not lower. */
  ghost predicate IsSelect(mk: Maker, v: SelectorView, guard: Expr, assigns: seq<Assignment>, r: Option<LoweredOperator>, w: SelectorView) {
    && (if AllLower(mk, assigns) then Completed(v, w, DefaultGroup(v.where, assigns)) else w == v)
    && (r.Some? <==> AllLower(mk, assigns) && ClauseLowers(mk, w.where) && ClauseLowers(mk, w.groupBy) && ClauseLowers(mk, guard))
    && (r.Some? ==> r.value.LoweredSelect? && IsSelector(mk, w, r.value.selector) && IsGuard(mk, guard, r.value.guard)
                    && AreValues(mk, assigns, r.value.assignments))
  }

  /** A lowered insertion, and the selector it leaves, which is completed before anything is lowered. */
  ghost predicate IsInsert(mk: Maker, v: SelectorView, target: string, discriminator: Expr, guard: Expr, assigns: seq<Assignment>,
                           r: Option<LoweredOperator>, w: SelectorView) {
    && Completed(v, w, Path(v.kind + ".id"))
    && (r.Some? <==> AllLower(mk, assigns) && ClauseLowers(mk, w.where) && ClauseLowers(mk, w.groupBy) && ClauseLowers(mk, guard)
                     && Lower(mk, discriminator).Some?)
    && (r.Some? ==> r.value.LoweredInsert? && IsSelector(mk, w, r.value.selector) && IsGuard(mk, guard, r.value.guard)
                    && AreValues(mk, assigns, r.value.assignments) && r.value.target == target
                    && Lower(mk, discriminator) == Some(r.value.discriminator))
  }

  lemma SelectMeans(mk: Maker, v: SelectorView, guard: Expr, assigns: seq<Assignment>)
    ensures var (r, w) := SelectResult(mk, v, guard, assigns); IsSelect(mk, v, guard, assigns, r, w)
  {
    hide Lower, LowerView, LowerAssignments, LowerGuard, AllLower, IsSelector, IsGuard, AreValues, ClauseLowers, LeftmostPath, CollectAstFieldPaths;
    FirstIsLeftmost(v.where);
    ValuesMean(mk, assigns);
    SelectorMeans(mk, CompleteSelect(v, assigns));
    GuardMeans(mk, guard);
  }

  lemma InsertMeans(mk: Maker, v: SelectorView, target: string, discriminator: Expr, guard: Expr, assigns: seq<Assignment>)
    ensures var (r, w) := InsertResult(mk, v, target, discriminator, guard, assigns);
            IsInsert(mk, v, target, discriminator, guard, assigns, r, w)
  {
    hide Lower, LowerView, LowerAssignments, LowerGuard, AllLower, IsSelector, IsGuard, AreValues, ClauseLowers;
    ValuesMean(mk, assigns);
    SelectorMeans(mk, CompleteInsert(v));
    GuardMeans(mk, guard);
  }

  /** Lowers a selection, whose selector it completes where it names no group. */
  method LowerSelectAndAssign(mk: Maker, node: SelectorNode, guard: Expr, assigns: seq<Assignment>) returns (r: Option<LoweredOperator>)
    modifies node
    ensures (r, node.View()) == SelectResult(mk, old(node.View()), guard, assigns)
    ensures IsSelect(mk, old(node.View()), guard, assigns, r, node.View())
  {
    SelectMeans(mk, node.View(), guard, assigns);
    hide IsSelect, Lower, LowerAssignments, LowerView, LowerGuard;
    var values := LowerAssignments(mk, assigns);
    if values.None? { return None; }
    if node.groupBy == Nil {
      if node.where != Nil {
        var wherePaths := CollectAstFieldPaths(node.where);
        if |wherePaths| > 0 {
          node.groupBy := Path(wherePaths[0]);
        }
      }
      if node.groupBy == Nil && |values.value| > 0 {
        node.groupBy := Path(values.value[0].target);
      }
      if node.cardinalityKind == "any" {
        node.cardinalityKind, node.cardinalityCount := "at_least", 1;
      }
    }
    var s := LowerView(mk, node.View());
    if s.None? { return None; }
    var g := LowerGuard(mk, guard);
    return if g.None? then None else Some(LoweredSelect(s.value, g.value, values.value));
  }

  // ----- insert -----

  function CompleteInsert(v: SelectorView): SelectorView {
    if v.groupBy != Nil then v else AtLeastOne(v.(groupBy := Path(v.kind + ".id")))
  }

  function InsertResult(mk: Maker, v: SelectorView, target: string, discriminator: Expr, guard: Expr, assigns: seq<Assignment>)
    : (Option<LoweredOperator>, SelectorView)
  {
    var v1 := CompleteInsert(v);
    var s, values := LowerView(mk, v1), LowerAssignments(mk, assigns);
    var d, g := Lower(mk, discriminator), LowerGuard(mk, guard);
    if s.None? || values.None? || d.None? || g.None? then (None, v1)
    else (Some(LoweredInsert(s.value, target, d.value, g.value, values.value)), v1)
  }

  /** A missing selector is refused before anything is read from it. */
  method LowerInsertEntity(mk: Maker, node: SelectorNode?, target: string, discriminator: Expr, guard: Expr, assigns: seq<Assignment>)
    returns (r: Option<LoweredOperator>)
    modifies node
    ensures node == null ==> r == None
    ensures node != null ==> (r, node.View()) == InsertResult(mk, old(node.View()), target, discriminator, guard, assigns)
    ensures node != null ==> IsInsert(mk, old(node.View()), target, discriminator, guard, assigns, r, node.View())
  {
    if node != null { InsertMeans(mk, node.View(), target, discriminator, guard, assigns); }
    hide IsInsert, Lower, LowerAssignments, LowerView, LowerGuard;
    if node != null && node.groupBy == Nil {
      node.groupBy := Path(node.kind + ".id");
      if node.cardinalityKind == "any" {
        node.cardinalityKind, node.cardinalityCount := "at_least", 1;
      }
    }
    if node == null { return None; }
    var s := LowerView(mk, node.View());
    if s.None? { return None; }
    var values := LowerAssignments(mk, assigns);
    if values.None? { return None; }
    var d := Lower(mk, discriminator);
    if d.None? { return None; }
    var g := LowerGuard(mk, guard);
    return if g.None? then None else Some(LoweredInsert(s.value, target, d.value, g.value, values.value));
  }

  // ----- twice -----

  /** LOWERING AGAIN.  The completed selector lowers, or fails to lower, as the written one did, and
      is not completed any further. */
  lemma LoweringAgain(mk: Maker, v: SelectorView, target: string, discriminator: Expr, guard: Expr, assigns: seq<Assignment>)
    ensures var (r, v1) := SelectResult(mk, v, guard, assigns); SelectResult(mk, v1, guard, assigns) == (r, v1)
    ensures var (r, v1) := InsertResult(mk, v, target, discriminator, guard, assigns);
            InsertResult(mk, v1, target, discriminator, guard, assigns) == (r, v1)
  {
    assert CompleteSelect(CompleteSelect(v, assigns), assigns) == CompleteSelect(v, assigns);
    assert CompleteInsert(CompleteInsert(v)) == CompleteInsert(v);
  }

  method LowerSelectTwice(mk: Maker, node: SelectorNode, guard: Expr, assigns: seq<Assignment>)
    returns (first: Option<LoweredOperator>, second: Option<LoweredOperator>)
    modifies node
    ensures first == second
  {
    LoweringAgain(mk, node.View(), "", Nil, guard, assigns);
    first := LowerSelectAndAssign(mk, node, guard, assigns);
    second := LowerSelectAndAssign(mk, node, guard, assigns);
  }

  method LowerInsertTwice(mk: Maker, node: SelectorNode?, target: string, discriminator: Expr, guard: Expr, assigns: seq<Assignment>)
    returns (first: Option<LoweredOperator>, second: Option<LoweredOperator>)
    modifies node
    ensures first == second
  {
    if node != null { LoweringAgain(mk, node.View(), target, discriminator, guard, assigns); }
    first := LowerInsertEntity(mk, node, target, discriminator, guard, assigns);
    second := LowerInsertEntity(mk, node, target, discriminator, guard, assigns);
  }
}
