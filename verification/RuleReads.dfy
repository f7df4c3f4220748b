/** The reads derived for a rule, and why they suffice: two states that agree on them evaluate every
    expression of the rule alike. */
module RuleReads {
  import opened Ast
  import opened Semantics
  import opened FieldPaths
  import opened SortedTexts
  import K = TermKinds

  datatype LoweredSelector = LoweredSelector(kind: string, where: Option<Term>, groupBy: Option<Term>,
                                             cardinality: string, count: nat)

  datatype LoweredAssignment = LoweredAssignment(target: string, value: Term)

  datatype LoweredPartition = LoweredPartition(discriminator: Term, assignments: seq<LoweredAssignment>)

  datatype LoweredOperator =
    | LoweredSelect(selector: LoweredSelector, guard: Term, assignments: seq<LoweredAssignment>)
    | LoweredInsert(selector: LoweredSelector, target: string, discriminator: Term, guard: Term,
                    assignments: seq<LoweredAssignment>)
    | LoweredDelete(selector: LoweredSelector, guard: Term)
    | LoweredRelate(relation: string, from: LoweredSelector, to: LoweredSelector, guard: Term)
    | LoweredUnrelate(relation: string, from: LoweredSelector, to: LoweredSelector, guard: Term)
    | LoweredMerge(selector: LoweredSelector, target: string, discriminator: Term, retain: bool, reanchor: bool,
                   guard: Term, assignments: seq<LoweredAssignment>)
    | LoweredSplit(selector: LoweredSelector, target: string, retain: bool, partitions: seq<LoweredPartition>,
                   guard: Term)

  // ----- the expressions of a rule -----

  function SelectorTerms(s: LoweredSelector): seq<Term> {
    (if s.where.Some? then [s.where.value] else []) + (if s.groupBy.Some? then [s.groupBy.value] else [])
  }

  function Values(assigns: seq<LoweredAssignment>): seq<Term> {
    if assigns == [] then [] else [assigns[0].value] + Values(assigns[1..])
  }

  function PartitionTerms(ps: seq<LoweredPartition>): seq<Term> {
    if ps == [] then [] else [ps[0].discriminator] + Values(ps[0].assignments) + PartitionTerms(ps[1..])
  }

  /** Every expression of a rule but the guard of a relation. */
  function MemberTerms(op: LoweredOperator): seq<Term> {
    match op
    case LoweredSelect(s, g, assigns) => SelectorTerms(s) + [g] + Values(assigns)
    case LoweredInsert(s, _, d, g, assigns) => SelectorTerms(s) + [g, d] + Values(assigns)
    case LoweredDelete(s, g) => SelectorTerms(s) + [g]
    case LoweredRelate(_, from, to, _) => SelectorTerms(from) + SelectorTerms(to)
    case LoweredUnrelate(_, from, to, _) => SelectorTerms(from) + SelectorTerms(to)
    case LoweredMerge(s, _, d, _, _, g, assigns) => SelectorTerms(s) + [g, d] + Values(assigns)
    case LoweredSplit(s, _, _, ps, g) => SelectorTerms(s) + [g] + PartitionTerms(ps)
  }

  /** A clause of a selector. */
  predicate IsClauseOf(s: LoweredSelector, e: Term) {
    s.where == Some(e) || s.groupBy == Some(e)
  }

  predicate IsValueOf(assigns: seq<LoweredAssignment>, e: Term) {
    exists a <- assigns :: a.value == e
  }

  /** What a rule evaluates: the clauses of its selectors, its guard, its discriminators and its assignments;
      of a relation, which has two selectors, the guard is apart. */
  predicate IsPartOf(op: LoweredOperator, e: Term) {
    || (IsLink(op) && (IsClauseOf(op.from, e) || IsClauseOf(op.to, e)))
    || (!IsLink(op) && (IsClauseOf(op.selector, e) || op.guard == e))
    || ((op.LoweredInsert? || op.LoweredMerge?) && op.discriminator == e)
    || ((op.LoweredSelect? || op.LoweredInsert? || op.LoweredMerge?) && IsValueOf(op.assignments, e))
    || (op.LoweredSplit? && exists p <- op.partitions :: p.discriminator == e || IsValueOf(p.assignments, e))
  }

  lemma {:induction false} ValuesAre(assigns: seq<LoweredAssignment>, e: Term)
    ensures e in Values(assigns) <==> IsValueOf(assigns, e)
    decreases |assigns|
  {
    if assigns != [] {
      ValuesAre(assigns[1..], e);
      assert forall a :: a in assigns <==> a == assigns[0] || a in assigns[1..];
    }
  }

  lemma {:induction false} PartitionTermsAre(ps: seq<LoweredPartition>, e: Term)
    ensures e in PartitionTerms(ps) <==> exists p <- ps :: p.discriminator == e || IsValueOf(p.assignments, e)
    decreases |ps|
  {
    hide Values, IsValueOf;
    if ps != [] {
      PartitionTermsAre(ps[1..], e);
      ValuesAre(ps[0].assignments, e);
      assert forall p :: p in ps <==> p == ps[0] || p in ps[1..];
    }
  }

  lemma PartsAreTerms(op: LoweredOperator, e: Term)
    ensures IsPartOf(op, e) <==> e in MemberTerms(op)
  {
    hide Values, PartitionTerms, IsValueOf;
    match op
    case LoweredSplit(_, _, _, ps, _) => PartitionTermsAre(ps, e);
    case LoweredSelect(_, _, assigns) => ValuesAre(assigns, e);
    case LoweredInsert(_, _, _, _, assigns) => ValuesAre(assigns, e);
    case LoweredMerge(_, _, _, _, _, _, assigns) => ValuesAre(assigns, e);
    case _ =>
  }

  predicate IsLink(op: LoweredOperator) {
    op.LoweredRelate? || op.LoweredUnrelate?
  }

  predicate HasPrefix(s: string, p: string) {
    p <= s
  }

  /** The guard of a relation names its endpoints, and reads the fields of their kinds. */
  function EndpointPath(p: string, fromKind: string, toKind: string): string {
    if HasPrefix(p, "from.") then fromKind + "." + p[5..]
    else if HasPrefix(p, "to.") then toKind + "." + p[3..]
    else p
  }

  function PathsOf(ts: seq<Term>): set<string> {
    Elements(CollectAll(ts))
  }

  function EndpointPaths(ps: seq<string>, fromKind: string, toKind: string): set<string> {
    set p | p in ps :: EndpointPath(p, fromKind, toKind)
  }

  function GuardPaths(g: Term, fromKind: string, toKind: string): set<string> {
    EndpointPaths(CollectFieldPaths(g), fromKind, toKind)
  }

  /** The paths a rule reads. */
  function ReadSet(op: LoweredOperator): set<string> {
    PathsOf(MemberTerms(op)) + if IsLink(op) then GuardPaths(op.guard, op.from.kind, op.to.kind) else {}
  }

  /** A path some part of a rule names, or the guard of a relation by its endpoints. */
  ghost predicate IsReadBy(op: LoweredOperator, p: string) {
    || (exists e :: IsPartOf(op, e) && p in CollectFieldPaths(e))
    || (IsLink(op) && exists q <- CollectFieldPaths(op.guard) ::
          p == (if "from." <= q then op.from.kind + q[4..] else if "to." <= q then op.to.kind + q[2..] else q))
  }

  lemma {:induction false} PathsOfSome(ts: seq<Term>, p: string)
    ensures p in PathsOf(ts) <==> exists e <- ts :: p in CollectFieldPaths(e)
    decreases |ts|
  {
    hide CollectFieldPaths;
    if ts != [] {
      PathsOfSome(ts[1..], p);
      assert PathsOf(ts) == Elements(CollectFieldPaths(ts[0])) + PathsOf(ts[1..]);
      assert forall e :: e in ts <==> e == ts[0] || e in ts[1..];
    }
  }

  lemma EndpointPathIs(q: string, fromKind: string, toKind: string)
    ensures EndpointPath(q, fromKind, toKind) == if "from." <= q then fromKind + q[4..] else if "to." <= q then toKind + q[2..] else q
  {
    if "from." <= q {
      assert q[4] == "from."[4] && q[4..] == "." + q[5..];
    } else if "to." <= q {
      assert q[2] == "to."[2] && q[2..] == "." + q[3..];
    }
  }

  lemma ReadByParts(op: LoweredOperator)
    ensures forall p :: p in ReadSet(op) <==> IsReadBy(op, p)
  {
    hide PathsOf, CollectFieldPaths, MemberTerms, IsPartOf, EndpointPath;
    forall p ensures p in ReadSet(op) <==> IsReadBy(op, p) {
      PathsOfSome(MemberTerms(op), p);
      forall e ensures IsPartOf(op, e) <==> e in MemberTerms(op) { PartsAreTerms(op, e); }
      if IsLink(op) {
        forall q | q in CollectFieldPaths(op.guard)
          ensures EndpointPath(q, op.from.kind, op.to.kind)
               == if "from." <= q then op.from.kind + q[4..] else if "to." <= q then op.to.kind + q[2..] else q
        {
          EndpointPathIs(q, op.from.kind, op.to.kind);
        }
      }
    }
  }

  // ----- deriving them -----

  lemma {:induction false} CollectAppend(ts: seq<Term>, us: seq<Term>)
    ensures PathsOf(ts + us) == PathsOf(ts) + PathsOf(us)
    decreases ts
  {
    if ts == [] {
      assert ts + us == us;
    } else {
      assert (ts + us)[1..] == ts[1..] + us;
      CollectAppend(ts[1..], us);
      assert PathsOf(ts) == Elements(CollectFieldPaths(ts[0])) + PathsOf(ts[1..]);
      assert PathsOf(ts + us) == Elements(CollectFieldPaths(ts[0])) + PathsOf(ts[1..] + us);
    }
  }

  lemma PathsOfOne(t: Term)
    ensures PathsOf([t]) == Elements(CollectFieldPaths(t)) && PathsOf([]) == {}
  {
    assert [t][1..] == [];
    assert CollectAll([t]) == CollectFieldPaths(t) + CollectAll([]);
  }

  lemma PathsOfTwo(t: Term, u: Term)
    ensures PathsOf([t, u]) == Elements(CollectFieldPaths(t)) + Elements(CollectFieldPaths(u))
  {
    assert [t, u] == [t] + [u];
    CollectAppend([t], [u]);
    PathsOfOne(t);
    PathsOfOne(u);
  }

  method AddPaths(seen: set<string>, t: Term) returns (r: set<string>)
    ensures r == seen + Elements(CollectFieldPaths(t))
  {
    r := seen;
    var paths := CollectFieldPaths(t);
    for i := 0 to |paths|
      invariant r == seen + Elements(paths[..i])
    {
      r := r + {paths[i]};
      assert paths[..i + 1] == paths[..i] + [paths[i]];
    }
    assert paths[..|paths|] == paths;
  }

  lemma OneMorePath(ps: seq<string>, i: nat, fromKind: string, toKind: string)
    requires i < |ps|
    ensures EndpointPaths(ps[..i + 1], fromKind, toKind)
         == EndpointPaths(ps[..i], fromKind, toKind) + {EndpointPath(ps[i], fromKind, toKind)}
  {
    assert ps[..i + 1] == ps[..i] + [ps[i]];
    assert ps[i] in ps[..i + 1];
  }

  method AddGuardPaths(seen: set<string>, g: Term, fromKind: string, toKind: string) returns (r: set<string>)
    ensures r == seen + GuardPaths(g, fromKind, toKind)
  {
    r := seen;
    var paths := CollectFieldPaths(g);
    for i := 0 to |paths|
      invariant r == seen + EndpointPaths(paths[..i], fromKind, toKind)
    {
      var p := paths[i];
      OneMorePath(paths, i, fromKind, toKind);
      if HasPrefix(p, "from.") {
        r := r + {fromKind + "." + p[5..]};
      } else if HasPrefix(p, "to.") {
        r := r + {toKind + "." + p[3..]};
      } else {
        r := r + {p};
      }
    }
    assert paths[..|paths|] == paths;
  }

  method AddSelector(seen: set<string>, s: LoweredSelector) returns (r: set<string>)
    ensures r == seen + PathsOf(SelectorTerms(s))
  {
    r := seen;
    if s.where.Some? {
      r := AddPaths(r, s.where.value);
      PathsOfOne(s.where.value);
    }
    if s.groupBy.Some? {
      r := AddPaths(r, s.groupBy.value);
      PathsOfOne(s.groupBy.value);
    }
    CollectAppend(if s.where.Some? then [s.where.value] else [], if s.groupBy.Some? then [s.groupBy.value] else []);
  }

  method AddValues(seen: set<string>, assigns: seq<LoweredAssignment>) returns (r: set<string>)
    ensures r == seen + PathsOf(Values(assigns))
  {
    r := seen;
    assert assigns[0..] == assigns;
    for i := 0 to |assigns|
      invariant r + PathsOf(Values(assigns[i..])) == seen + PathsOf(Values(assigns))
    {
      assert assigns[i..][0] == assigns[i] && assigns[i..][1..] == assigns[i + 1..];
      CollectAppend([assigns[i].value], Values(assigns[i + 1..]));
      PathsOfOne(assigns[i].value);
      r := AddPaths(r, assigns[i].value);
    }
    assert assigns[|assigns|..] == [];
  }

  method AddPartitions(seen: set<string>, ps: seq<LoweredPartition>) returns (r: set<string>)
    ensures r == seen + PathsOf(PartitionTerms(ps))
  {
    r := seen;
    assert ps[0..] == ps;
    for i := 0 to |ps|
      invariant r + PathsOf(PartitionTerms(ps[i..])) == seen + PathsOf(PartitionTerms(ps))
    {
      assert ps[i..][0] == ps[i] && ps[i..][1..] == ps[i + 1..];
      CollectAppend([ps[i].discriminator] + Values(ps[i].assignments), PartitionTerms(ps[i + 1..]));
      CollectAppend([ps[i].discriminator], Values(ps[i].assignments));
      PathsOfOne(ps[i].discriminator);
      r := AddPaths(r, ps[i].discriminator);
      r := AddValues(r, ps[i].assignments);
    }
    assert ps[|ps|..] == [];
  }

  /** The derived reads are the one strictly sorted list of the paths the rule reads, whatever the
      order in which the map of seen paths is walked. */
  method DeriveRuleReads(op: LoweredOperator) returns (declared: seq<string>)
    ensures Sorted(declared) && Elements(declared) == ReadSet(op)
    ensures forall p :: p in declared <==> IsReadBy(op, p)
  {
    ReadByParts(op);
    hide IsReadBy;
    hide CollectAll, CollectFieldPaths, Values, PartitionTerms, SelectorTerms;
    var seen: set<string> := {};
    match op {
      case LoweredSelect(s, g, assigns) =>
        CollectAppend(SelectorTerms(s) + [g], Values(assigns));
        CollectAppend(SelectorTerms(s), [g]);
        PathsOfOne(g);
        seen := AddSelector(seen, s);
        seen := AddPaths(seen, g);
        seen := AddValues(seen, assigns);
      case LoweredInsert(s, _, d, g, assigns) =>
        CollectAppend(SelectorTerms(s) + [g, d], Values(assigns));
        CollectAppend(SelectorTerms(s), [g, d]);
        PathsOfTwo(g, d);
        seen := AddSelector(seen, s);
        seen := AddPaths(seen, g);
        seen := AddPaths(seen, d);
        seen := AddValues(seen, assigns);
      case LoweredDelete(s, g) =>
        CollectAppend(SelectorTerms(s), [g]);
        PathsOfOne(g);
        seen := AddSelector(seen, s);
        seen := AddPaths(seen, g);
      case LoweredRelate(_, from, to, g) =>
        CollectAppend(SelectorTerms(from), SelectorTerms(to));
        seen := AddSelector(seen, from);
        seen := AddSelector(seen, to);
        seen := AddGuardPaths(seen, g, from.kind, to.kind);
      case LoweredUnrelate(_, from, to, g) =>
        CollectAppend(SelectorTerms(from), SelectorTerms(to));
        seen := AddSelector(seen, from);
        seen := AddSelector(seen, to);
        seen := AddGuardPaths(seen, g, from.kind, to.kind);
      case LoweredMerge(s, _, d, _, _, g, assigns) =>
        CollectAppend(SelectorTerms(s) + [g, d], Values(assigns));
        CollectAppend(SelectorTerms(s), [g, d]);
        PathsOfTwo(g, d);
        seen := AddSelector(seen, s);
        seen := AddPaths(seen, g);
        seen := AddPaths(seen, d);
        seen := AddValues(seen, assigns);
      case LoweredSplit(s, _, _, ps, g) =>
        CollectAppend(SelectorTerms(s) + [g], PartitionTerms(ps));
        CollectAppend(SelectorTerms(s), [g]);
        PathsOfOne(g);
        seen := AddSelector(seen, s);
        seen := AddPaths(seen, g);
        seen := AddPartitions(seen, ps);
    }
    declared := SortedKeys(seen);
  }

  // ----- the frame -----

  /** Two entities hold the same under every path of the list. */
  ghost predicate Agree(declared: set<string>, a: Semantics.Entity, b: Semantics.Entity) {
    a.kind == b.kind && forall name :: a.kind + "." + name in declared ==> Lookup(a, name) == Lookup(b, name)
  }

  ghost predicate AgreeAll(declared: set<string>, xs: seq<Semantics.Entity>, ys: seq<Semantics.Entity>) {
    |xs| == |ys| && forall i :: 0 <= i < |xs| ==> Agree(declared, xs[i], ys[i])
  }

  /** An entity, or a group and maybe one of its members, before and after a change. */
  ghost predicate AgreeScopes(declared: set<string>, s: Scope, t: Scope) {
    match (s, t)
    case (Bound(xs), Bound(ys)) => |xs| != 2 && AgreeAll(declared, xs, ys)
    case (Group(xs, a), Group(ys, b)) =>
      AgreeAll(declared, xs, ys) && (a.Some? <==> b.Some?) && (a.Some? ==> Agree(declared, a.value, b.value))
    case _ => false
  }

  ghost predicate MembersFetchAlike(w: World, xs: seq<Semantics.Entity>, ys: seq<Semantics.Entity>, paths: seq<string>) {
    && |xs| == |ys|
    && forall i, p :: 0 <= i < |xs| && p in paths ==> BoundField(w, [xs[i]], p) == BoundField(w, [ys[i]], p)
  }

  /** A term can only tell two scopes apart by the fields it fetches. */
  ghost predicate FetchesAlike(w: World, s: Scope, t: Scope, paths: seq<string>) {
    && s.Group? == t.Group?
    && (forall p <- paths :: BoundField(w, Readable(s), p) == BoundField(w, Readable(t), p))
    && (s.Group? ==> MembersFetchAlike(w, s.members, t.members, paths))
  }

  lemma PathsWithin(t: Term, i: nat)
    requires i < |t.args|
    ensures forall p <- CollectFieldPaths(t.args[i]) :: p in CollectFieldPaths(t)
  {
    AllWithin(t.args, i);
  }

  lemma {:induction false} AllWithin(ts: seq<Term>, i: nat)
    requires i < |ts|
    ensures forall p <- CollectFieldPaths(ts[i]) :: p in CollectAll(ts)
    decreases ts
  {
    if i > 0 {
      assert ts[1..][i - 1] == ts[i];
      AllWithin(ts[1..], i - 1);
    }
  }

  lemma LeafEval(w: World, s: Scope, t: Scope, e: Term)
    requires FetchesAlike(w, s, t, CollectFieldPaths(e)) && TakesField(e.kind) && e.kind != K.DATE_EXTRACT
    ensures Eval(w, s, e) == Eval(w, t, e)
  {
    hide BoundField;
    if WellShaped(e) {
      assert e.field in CollectFieldPaths(e);
      if IsReduction(e.kind) { SameReduction(w, s, t, e.kind, e.field); }
    }
  }

  /** FRAME.  Scopes that fetch alike evaluate alike. */
  lemma {:induction false} SameFetchesSameValue(w: World, s: Scope, t: Scope, e: Term)
    requires FetchesAlike(w, s, t, CollectFieldPaths(e))
    ensures Eval(w, s, e) == Eval(w, t, e)
    decreases e, 1
  {
    hide Applied, EqualResults, LessResults, ReadField, ReadExists, Reduction, CollectFieldPaths;
    if TakesField(e.kind) && e.kind != K.DATE_EXTRACT {
      LeafEval(w, s, t, e);
    } else {
      forall i | 0 <= i < |e.args| ensures Eval(w, s, e.args[i]) == Eval(w, t, e.args[i]) {
        PathsWithin(e, i);
        SameFetchesSameValue(w, s, t, e.args[i]);
      }
      ListsEval(w, s, t, e.args, true);
      ListsEval(w, s, t, e.args, false);
      if s.Group? && |e.args| == 1 {
        MembersEval(w, s.members, t.members, e, e.kind == K.ANY_MEMBERS);
      }
    }
  }

  lemma SameReduction(w: World, s: Scope, t: Scope, kind: K.TermKind, path: string)
    requires s.Group? == t.Group? && (s.Group? ==> MembersFetchAlike(w, s.members, t.members, [path]))
    ensures Reduction(w, s, kind, path) == Reduction(w, t, kind, path)
  {
    if s.Group? && s.members != [] {
      var xs := seq(|s.members|, i requires 0 <= i < |s.members| => BoundField(w, [s.members[i]], path));
      var ys := seq(|t.members|, i requires 0 <= i < |t.members| => BoundField(w, [t.members[i]], path));
      assert path in [path];
      assert xs == ys;
    }
  }

  lemma {:induction false} ListsEval(w: World, s: Scope, t: Scope, es: seq<Term>, stop: bool)
    requires forall e <- es :: Eval(w, s, e) == Eval(w, t, e)
    ensures EvalUntil(w, s, es, stop) == EvalUntil(w, t, es, stop)
    ensures EvalFirst(w, s, es) == EvalFirst(w, t, es) && EvalValues(w, s, es) == EvalValues(w, t, es)
    decreases es
  {
    hide Eval;
    if es != [] {
      assert es[0] in es;
      ListsEval(w, s, t, es[1..], stop);
    }
  }

  lemma {:induction false} MembersEval(w: World, xs: seq<Semantics.Entity>, ys: seq<Semantics.Entity>, e: Term, stop: bool)
    requires |e.args| == 1 && MembersFetchAlike(w, xs, ys, CollectFieldPaths(e))
    ensures EvalMembers(w, xs, e.args[0], stop) == EvalMembers(w, ys, e.args[0], stop)
    decreases e, 0, |xs|
  {
    hide Eval;
    if xs != [] {
      PathsWithin(e, 0);
      assert FetchesAlike(w, Bound([xs[0]]), Bound([ys[0]]), CollectFieldPaths(e.args[0]));
      SameFetchesSameValue(w, Bound([xs[0]]), Bound([ys[0]]), e.args[0]);
      MembersEval(w, xs[1..], ys[1..], e, stop);
    }
  }

  lemma FetchOne(w: World, declared: set<string>, a: Semantics.Entity, b: Semantics.Entity, path: string)
    requires Agree(declared, a, b) && path in declared
    ensures BoundField(w, [a], path) == BoundField(w, [b], path)
  {
  }

  lemma FetchReadable(w: World, declared: set<string>, xs: seq<Semantics.Entity>, ys: seq<Semantics.Entity>, path: string)
    requires AgreeAll(declared, xs, ys) && |xs| != 2 && path in declared
    ensures BoundField(w, xs, path) == BoundField(w, ys, path)
  {
    if xs != [] {
      assert Agree(declared, xs[0], ys[0]);
    }
  }

  lemma AgreeFetches(w: World, declared: set<string>, s: Scope, t: Scope, paths: seq<string>)
    requires AgreeScopes(declared, s, t) && forall p <- paths :: p in declared
    ensures FetchesAlike(w, s, t, paths)
  {
    hide BoundField;
    forall p | p in paths ensures BoundField(w, Readable(s), p) == BoundField(w, Readable(t), p) {
      FetchReadable(w, declared, Readable(s), Readable(t), p);
    }
    if s.Group? {
      forall i, p | 0 <= i < |s.members| && p in paths
        ensures BoundField(w, [s.members[i]], p) == BoundField(w, [t.members[i]], p)
      {
        FetchOne(w, declared, s.members[i], t.members[i], p);
      }
    }
  }

  lemma {:induction false} TermReads(ts: seq<Term>, t: Term)
    requires t in ts
    ensures forall p <- CollectFieldPaths(t) :: p in PathsOf(ts)
  {
    var i :| 0 <= i < |ts| && ts[i] == t;
    AllWithin(ts, i);
  }

  /** READS SUFFICE.  Two states that agree on the derived reads of a rule evaluate every where,
      group-by, guard, discriminator and assignment of it alike. */
  lemma ReadsSuffice(w: World, op: LoweredOperator, declared: seq<string>, s: Scope, t: Scope, e: Term)
    requires Elements(declared) == ReadSet(op) && IsPartOf(op, e) && AgreeScopes(Elements(declared), s, t)
    ensures Eval(w, s, e) == Eval(w, t, e)
  {
    PartsAreTerms(op, e);
    hide Eval, FetchesAlike, AgreeScopes;
    TermReads(MemberTerms(op), e);
    AgreeFetches(w, Elements(declared), s, t, CollectFieldPaths(e));
    SameFetchesSameValue(w, s, t, e);
  }

  lemma FetchPair(w: World, declared: set<string>, a: Semantics.Entity, b: Semantics.Entity,
                  a': Semantics.Entity, b': Semantics.Entity, path: string)
    requires Agree(declared, a, a') && Agree(declared, b, b') && EndpointPath(path, a.kind, b.kind) in declared
    ensures BoundField(w, [a, b], path) == BoundField(w, [a', b'], path)
  {
    match SplitFieldPath(path)
    case None =>
    case Some((kind, name)) =>
      if kind == "from" {
        assert path[..5] == "from." && path[5..] == name;
      } else if kind == "to" {
        assert path[..3] == "to." && path[3..] == name;
        assert path[0] == 't';
      } else {
        PrefixIsKind(kind, name);
      }
  }

  lemma DotPosition(kind: string, name: string, word: string)
    requires '.' !in kind && '.' !in word && HasPrefix(kind + "." + name, word + ".")
    ensures kind == word
  {
    var p := kind + "." + name;
    assert p[|kind|] == '.' && p[|word|] == (word + ".")[|word|] == '.';
    assert forall i :: 0 <= i < |word| ==> p[i] == (word + ".")[i] == word[i];
    assert forall i :: 0 <= i < |kind| ==> p[i] == kind[i];
    assert |kind| == |word|;
  }

  /** A path that starts with `from.` or `to.` names that before its first dot. */
  lemma PrefixIsKind(kind: string, name: string)
    requires '.' !in kind
    ensures HasPrefix(kind + "." + name, "from.") ==> kind == "from"
    ensures HasPrefix(kind + "." + name, "to.") ==> kind == "to"
  {
    assert "from" + "." == "from." && "to" + "." == "to.";
    if HasPrefix(kind + "." + name, "from.") { DotPosition(kind, name, "from"); }
    if HasPrefix(kind + "." + name, "to.") { DotPosition(kind, name, "to"); }
  }

  /** GUARD READS SUFFICE.  Two pairs of endpoints that agree on the derived reads satisfy the guard
      of a relation alike, however the guard names them. */
  lemma GuardReadsSuffice(w: World, op: LoweredOperator, declared: seq<string>, a: Semantics.Entity, b: Semantics.Entity,
                          a': Semantics.Entity, b': Semantics.Entity)
    requires IsLink(op) && Elements(declared) == ReadSet(op) && a.kind == op.from.kind && b.kind == op.to.kind
    requires Agree(Elements(declared), a, a') && Agree(Elements(declared), b, b')
    ensures Eval(w, Bound([a, b]), op.guard) == Eval(w, Bound([a', b']), op.guard)
  {
    hide Eval, BoundField;
    forall p | p in CollectFieldPaths(op.guard) ensures BoundField(w, [a, b], p) == BoundField(w, [a', b'], p) {
      assert EndpointPath(p, a.kind, b.kind) in GuardPaths(op.guard, a.kind, b.kind);
      FetchPair(w, Elements(declared), a, b, a', b', p);
    }
    SameFetchesSameValue(w, Bound([a, b]), Bound([a', b']), op.guard);
  }
}
