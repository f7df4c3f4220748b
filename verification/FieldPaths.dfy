/** The field paths of expressions, before and after lowering. */
module FieldPaths {
  import opened Tokens
  import opened Ast
  import opened Semantics
  import opened Lowering
  import K = TermKinds

  /** The paths a lowered expression reads; the field of an extraction is a unit, not a path. */
  function CollectFieldPaths(t: Term): seq<string>
    decreases t
  {
    (if t.field != "" && t.kind != K.DATE_EXTRACT then [t.field] else []) + CollectAll(t.args)
  }

  function CollectAll(ts: seq<Term>): seq<string>
    decreases ts
  {
    if ts == [] then [] else CollectFieldPaths(ts[0]) + CollectAll(ts[1..])
  }

  function CollectAstFieldPaths(e: Expr): seq<string>
    decreases e
  {
    match e
    case Path(p) => [p]
    case Unary(_, r) => CollectAstFieldPaths(r)
    case Binary(_, l, r) => CollectAstFieldPaths(l) + CollectAstFieldPaths(r)
    case Call(_, args) => CollectAstAll(args)
    case _ => []
  }

  function CollectAstAll(es: seq<Expr>): seq<string>
    decreases es
  {
    if es == [] then [] else CollectAstFieldPaths(es[0]) + CollectAstAll(es[1..])
  }

  /** The names that lowering does not read: units written as bare names, and empty paths. */
  function Unread(e: Expr): multiset<string>
    decreases e, 1
  {
    match e
    case Path(p) => if p == "" then multiset{p} else multiset{}
    case Unary(_, r) => Unread(r)
    case Binary(_, l, r) => Unread(l) + Unread(r)
    case Call(name, args) =>
      if ShapeOf(ToLower(name)).ExtractCall? && |args| == 2 then
        (if args[0].Path? then multiset{args[0].path} else Unread(args[0])) + Unread(args[1])
      else UnreadAll(args)
    case _ => multiset{}
  }

  function UnreadAll(es: seq<Expr>): multiset<string>
    decreases es, 0
  {
    if es == [] then multiset{} else Unread(es[0]) + UnreadAll(es[1..])
  }

  lemma CollectPair(l: Term, r: Term)
    ensures multiset(CollectAll([l, r])) == multiset(CollectFieldPaths(l)) + multiset(CollectFieldPaths(r))
    ensures CollectAll([l]) == CollectFieldPaths(l)
  {
    assert [l, r][1..] == [r] && [r][1..] == [] && [l][1..] == [];
    assert CollectAll([r]) == CollectFieldPaths(r) + CollectAll([]);
    assert CollectAll([l]) == CollectFieldPaths(l) + CollectAll([]);
  }

  lemma CollectNode(kind: K.TermKind, ts: seq<Term>)
    ensures CollectFieldPaths(Node(kind, ts)) == CollectAll(ts)
  {
  }

  lemma NoPaths()
    ensures CollectFieldPaths(Node(K.COUNT, [])) == [] && CollectAstAll([]) == [] && UnreadAll([]) == multiset{}
  {
  }

  lemma CollectLiteral(v: Value)
    ensures CollectFieldPaths(LiteralTerm(v)) == []
  {
  }

  /** PATHS KEPT.  A lowered expression reads the paths its source names, each as often, save for the
      units of `extract`. */
  lemma {:induction false} LoweringKeepsPaths(mk: Maker, e: Expr)
    requires Lower(mk, e).Some?
    ensures multiset(CollectFieldPaths(Lower(mk, e).value)) + Unread(e) == multiset(CollectAstFieldPaths(e))
    decreases e, 1
  {
    hide CollectFieldPaths, ParseInt, ParseDuration;
    match e
    case Path(p) => CollectField(K.FIELD, p);
    case Lit(kind, text) => LiteralKeepsPaths(mk, kind, text);
    case Unary(op, right) => UnaryKeepsPaths(mk, op, right);
    case Binary(op, left, right) =>
      LoweringKeepsPaths(mk, left);
      LoweringKeepsPaths(mk, right);
      CollectBinary(op, Lower(mk, left).value, Lower(mk, right).value);
    case Call(name, args) => CallKeepsPaths(mk, name, args);
  }

  lemma LiteralKeepsPaths(mk: Maker, kind: LitKind, text: string)
    requires Lower(mk, Lit(kind, text)).Some?
    ensures CollectFieldPaths(Lower(mk, Lit(kind, text)).value) == []
  {
    hide CollectFieldPaths, ParseInt, ParseDuration;
    if kind == LitBool { CollectBool(text == "true"); } else { CollectLiteral(Lower(mk, Lit(kind, text)).value.literal.value); }
  }

  lemma {:induction false} UnaryKeepsPaths(mk: Maker, op: TokenType, right: Expr)
    requires Lower(mk, Unary(op, right)).Some?
    ensures multiset(CollectFieldPaths(Lower(mk, Unary(op, right)).value)) + Unread(Unary(op, right))
         == multiset(CollectAstFieldPaths(Unary(op, right)))
    decreases right, 2
  {
    hide CollectFieldPaths, ParseInt, ParseDuration;
    if op == MINUS && IsNumber(right) {
      CollectLiteral(Lower(mk, Unary(op, right)).value.literal.value);
    } else {
      LoweringKeepsPaths(mk, right);
      var r := Lower(mk, right).value;
      var zero := LiteralTerm(IntValue(0));
      CollectPair(r, r);
      CollectPair(zero, r);
      CollectLiteral(IntValue(0));
      CollectNode(K.NOT, [r]);
      CollectNode(K.SUBTRACT, [zero, r]);
    }
  }

  lemma CollectField(kind: K.TermKind, path: string)
    requires kind != K.DATE_EXTRACT
    ensures CollectFieldPaths(FieldTerm(kind, path)) == if path == "" then [] else [path]
  {
  }

  lemma CollectBool(b: bool)
    ensures CollectFieldPaths(BoolTerm(b)) == []
  {
    hide CollectFieldPaths;
    var one, other := LiteralTerm(IntValue(1)), LiteralTerm(IntValue(if b then 1 else 0));
    CollectNode(K.EQUAL, [one, other]);
    CollectPair(one, other);
    CollectLiteral(IntValue(1));
    CollectLiteral(IntValue(0));
    assert |multiset(CollectAll([one, other]))| == 0;
  }

  lemma CollectBinary(op: TokenType, l: Term, r: Term)
    requires BinaryTerm(op, l, r).Some?
    ensures multiset(CollectFieldPaths(BinaryTerm(op, l, r).value)) == multiset(CollectFieldPaths(l)) + multiset(CollectFieldPaths(r))
  {
    hide CollectFieldPaths;
    CollectPair(l, r);
    CollectPair(r, l);
    CollectNode(K.EQUAL, [l, r]);
    CollectNode(K.LESS, [l, r]);
    CollectNode(K.LESS, [r, l]);
    CollectPair(Node(K.EQUAL, [l, r]), l);
    CollectPair(Node(K.LESS, [r, l]), l);
    CollectPair(Node(K.LESS, [l, r]), l);
    CollectNode(K.NOT, [Node(K.EQUAL, [l, r])]);
    CollectNode(K.NOT, [Node(K.LESS, [r, l])]);
    CollectNode(K.NOT, [Node(K.LESS, [l, r])]);
    CollectNode(K.ALL, [l, r]);
    CollectNode(K.ANY, [l, r]);
    if ArithmeticKind(op).Some? { CollectNode(ArithmeticKind(op).value, [l, r]); }
  }

  lemma {:induction false} ListKeepsPaths(mk: Maker, es: seq<Expr>)
    requires LowerAll(mk, es).Some?
    ensures multiset(CollectAll(LowerAll(mk, es).value)) + UnreadAll(es) == multiset(CollectAstAll(es))
    decreases es, 0
  {
    hide Lower, CollectFieldPaths, Unread, CollectAstFieldPaths;
    if es != [] {
      LoweringKeepsPaths(mk, es[0]);
      ListKeepsPaths(mk, es[1..]);
      assert LowerAll(mk, es).value[1..] == LowerAll(mk, es[1..]).value;
    }
  }

  lemma {:induction false} CallKeepsPaths(mk: Maker, name: string, args: seq<Expr>)
    requires LowerCall(mk, ShapeOf(ToLower(name)), args).Some?
    ensures multiset(CollectFieldPaths(LowerCall(mk, ShapeOf(ToLower(name)), args).value)) + Unread(Call(name, args))
         == multiset(CollectAstAll(args))
    decreases args, 2
  {
    hide Lower, CollectFieldPaths, CollectAstAll, UnreadAll, ShapeOf, ToLower;
    var shape := ShapeOf(ToLower(name));
    match shape
    case CountCall => NoPaths();
    case FieldCall(kind) =>
      ShapeIsNoExtraction(ToLower(name));
      FieldKeepsPath(kind, args);
    case QuantifierCall(one, many) =>
      ListKeepsPaths(mk, args);
      CollectNode(one, LowerAll(mk, args).value);
      CollectNode(many, LowerAll(mk, args).value);
    case PlainCall(kind, _) =>
      ListKeepsPaths(mk, args);
      CollectNode(kind, LowerAll(mk, args).value);
    case ExtractCall =>
      LoweringKeepsPaths(mk, args[1]);
      ExtractKeepsPaths(UnitOf(args[0]).value, Lower(mk, args[1]).value, name, args);
  }

  lemma ExtractKeepsPaths(unit: string, value: Term, name: string, args: seq<Expr>)
    requires |args| == 2 && UnitOf(args[0]) == Some(unit) && ShapeOf(ToLower(name)) == ExtractCall
    requires multiset(CollectFieldPaths(value)) + Unread(args[1]) == multiset(CollectAstFieldPaths(args[1]))
    ensures multiset(CollectFieldPaths(Term(K.DATE_EXTRACT, unit, None, [value]))) + Unread(Call(name, args)) == multiset(CollectAstAll(args))
  {
    hide CollectFieldPaths, CollectAstAll, UnreadAll, ShapeOf, ToLower, CollectAstFieldPaths;
    ExtractPaths(unit, value);
    CollectAstTwo(args);
    if args[0].Path? { PathPaths(args[0]); } else { StringPaths(args[0]); }
  }

  lemma FieldKeepsPath(kind: K.TermKind, args: seq<Expr>)
    requires kind != K.DATE_EXTRACT && |args| == 1 && args[0].Path?
    ensures multiset(CollectFieldPaths(FieldTerm(kind, args[0].path))) + UnreadAll(args) == multiset(CollectAstAll(args))
  {
    var p := args[0].path;
    CollectField(kind, p);
    assert args[1..] == [] && UnreadAll([]) == multiset{} && CollectAstAll([]) == [];
    assert CollectAstFieldPaths(args[0]) == [p];
    assert CollectAstAll(args) == [p] + [];
    assert Unread(args[0]) == if p == "" then multiset{p} else multiset{};
  }

  lemma PathPaths(e: Expr)
    requires e.Path?
    ensures CollectAstFieldPaths(e) == [e.path]
  {
  }

  lemma StringPaths(e: Expr)
    requires e.Lit?
    ensures CollectAstFieldPaths(e) == [] && Unread(e) == multiset{}
  {
  }

  lemma CollectAstTwo(args: seq<Expr>)
    requires |args| == 2
    ensures CollectAstAll(args) == CollectAstFieldPaths(args[0]) + CollectAstFieldPaths(args[1])
  {
    assert args[1..][1..] == [] && args[1..][0] == args[1];
    assert CollectAstAll(args[1..]) == CollectAstFieldPaths(args[1]) + CollectAstAll([]);
  }

  lemma ShapeIsNoExtraction(name: string)
    ensures ShapeOf(name).FieldCall? ==> ShapeOf(name).kind != K.DATE_EXTRACT
  {
  }

  lemma ExtractPaths(unit: string, t: Term)
    ensures CollectFieldPaths(Term(K.DATE_EXTRACT, unit, None, [t])) == CollectFieldPaths(t)
  {
    CollectPair(t, t);
    assert [] + CollectAll([t]) == CollectAll([t]);
  }
}
