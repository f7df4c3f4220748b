/** The grammar the Pratt parser recognises: concrete trees, their tokens and their meaning,
    and the proof that the parser finds the one precedence-correct tree of what it consumes. */
module Pratt {
  import opened Tokens
  import opened Ast
  import opened ExprParserSpec

  /** A concrete tree keeps every token it was made from, parentheses included. */
  datatype Cst =
    | Prim(token: Token)
    | Dotted(head: Token, names: seq<Token>)
    | Negated(number: Token)
    | Prefixed(op: Token, arg: Cst)
    | Group(inner: Cst)
    | Constructed(name: Token, payload: Token)
    | Applied(name: Token, args: seq<Cst>)
    | Infixed(left: Cst, op: Token, right: Cst)

  /** The tokens of a tree, in order, followed by `k`. */
  function Then(c: Cst, k: Toks): Toks
    decreases c
  {
    match c
    case Prim(t) => Cons(t, k)
    case Dotted(h, names) => Cons(h, DotsThen(names, k))
    case Negated(t) => Cons(MINUS_TOKEN, Cons(t, k))
    case Prefixed(op, arg) => Cons(op, Then(arg, k))
    case Group(inner) => Cons(LPAREN_TOKEN, Then(inner, Cons(RPAREN_TOKEN, k)))
    case Constructed(name, payload) => Cons(name, Cons(LPAREN_TOKEN, Cons(payload, Cons(RPAREN_TOKEN, k))))
    case Applied(name, args) =>
      var close := Cons(RPAREN_TOKEN, k);
      Cons(name, Cons(LPAREN_TOKEN, if args == [] then close else Then(args[0], MoreThen(args[1..], close))))
    case Infixed(l, op, r) => Then(l, Cons(op, Then(r, k)))
  }

  function DotsThen(names: seq<Token>, k: Toks): Toks {
    if names == [] then k else Cons(DOT_TOKEN, Cons(names[0], DotsThen(names[1..], k)))
  }

  /** The arguments after the first, each behind its comma. */
  function MoreThen(args: seq<Cst>, k: Toks): Toks
    decreases args
  {
    if args == [] then k else Cons(COMMA_TOKEN, Then(args[0], MoreThen(args[1..], k)))
  }

  function First(c: Cst): Token {
    match c
    case Prim(t) => t
    case Dotted(h, _) => h
    case Negated(_) => MINUS_TOKEN
    case Prefixed(op, _) => op
    case Group(_) => LPAREN_TOKEN
    case Constructed(name, _) => name
    case Applied(name, _) => name
    case Infixed(l, _, _) => First(l)
  }

  function Last(c: Cst): Token {
    match c
    case Prim(t) => t
    case Dotted(h, names) => if names == [] then h else names[|names| - 1]
    case Negated(t) => t
    case Prefixed(_, arg) => Last(arg)
    case Group(_) => RPAREN_TOKEN
    case Constructed(_, _) => RPAREN_TOKEN
    case Applied(_, _) => RPAREN_TOKEN
    case Infixed(_, _, r) => Last(r)
  }

  /** The abstract tree: parentheses gone, a sign directly before a number part of the number. */
  function Erase(c: Cst): (e: Expr)
    decreases c
  {
    match c
    case Prim(t) =>
      if t.kind == STRING then Lit(LitString, t.literal)
      else if t.kind == INT then Lit(LitInt, t.literal)
      else if t.kind == DECIMAL then Lit(LitDecimal, t.literal)
      else if t.kind == TRUE then Lit(LitBool, "true")
      else if t.kind == FALSE then Lit(LitBool, "false")
      else if t.kind == NULL then Lit(LitNull, "null")
      else Lit(LitAtom, t.literal)
    case Dotted(h, names) => Path(h.literal + DotText(names))
    case Negated(t) => Lit(if t.kind == INT then LitInt else LitDecimal, "-" + t.literal)
    case Prefixed(op, arg) => Unary(op.kind, Erase(arg))
    case Group(inner) => Erase(inner)
    case Constructed(name, payload) =>
      Lit(LiteralConstructor(name.literal).GetOr(LitAtom), payload.literal)
    case Applied(name, args) => Call(name.literal, EraseAll(args))
    case Infixed(l, op, r) => Binary(op.kind, Erase(l), Erase(r))
  }

  function EraseAll(args: seq<Cst>): (es: seq<Expr>)
    ensures |es| == |args|
    decreases args
  {
    if args == [] then [] else [Erase(args[0])] + EraseAll(args[1..])
  }

  function DotText(names: seq<Token>): string {
    if names == [] then "" else "." + names[0].literal + DotText(names[1..])
  }

  predicate IsPrimitive(t: TokenType) {
    t == STRING || t == INT || t == DECIMAL || t == TRUE || t == FALSE || t == NULL || t == ATOM
  }

  /** The operators `c` exposes to its left and right bind tighter than `p`. */
  predicate Binds(c: Cst, p: nat) {
    c.Infixed? ==> Precedence(c.op.kind) > p
  }

  /** Precedence-correct trees: operators of one level associate to the left, an operand of a
      prefix operator exposes nothing looser, and a sign directly before a number is the number's. */
  predicate Legal(c: Cst)
    decreases c
  {
    match c
    case Prim(t) => IsPrimitive(t.kind)
    case Dotted(h, names) => IsPathToken(h.kind) && forall t <- names :: IsPathToken(t.kind)
    case Negated(t) => t.kind == INT || t.kind == DECIMAL
    case Prefixed(op, arg) =>
      && (op.kind == MINUS || op.kind == NOT) && Legal(arg) && Binds(arg, PREFIX)
      && (op.kind == MINUS ==> First(arg).kind != INT && First(arg).kind != DECIMAL)
    case Group(inner) => Legal(inner)
    case Constructed(name, _) => IsPathToken(name.kind) && LiteralConstructor(name.literal).Some?
    case Applied(name, args) =>
      && (IsBuiltin(name.kind) || (IsPathToken(name.kind) && LiteralConstructor(name.literal).None?))
      && (forall a <- args :: Legal(a))
    case Infixed(l, op, r) =>
      var p := Precedence(op.kind);
      p > LOWEST && Legal(l) && Binds(l, p - 1) && Legal(r) && Binds(r, p)
  }

  /** The precedence table also lists `(` and `.`; an ordinary tree uses neither as an operator. */
  predicate Ordinary(c: Cst)
    decreases c
  {
    match c
    case Prefixed(_, arg) => Ordinary(arg)
    case Group(inner) => Ordinary(inner)
    case Applied(_, args) => forall a <- args :: Ordinary(a)
    case Infixed(l, op, r) => Precedence(op.kind) < PREFIX && Ordinary(l) && Ordinary(r)
    case _ => true
  }

  /** What may follow a tree whose exposed operators all bind tighter than `p`. */
  predicate Follows(k: Toks, p: nat) {
    Precedence(k.Current().kind) <= p + 1 && Precedence(k.Current().kind) < PREFIX
  }

  lemma FirstOf(c: Cst, k: Toks)
    ensures Then(c, k).Cons? && Then(c, k).head == First(c)
    ensures Legal(c) ==> First(c).kind != RPAREN && First(c).kind != EOF
  {
  }

  // ----- every legal tree is what the parser makes of its tokens -----

  lemma {:induction false} PathTailParses(prev: Token, names: seq<Token>, path: string, k: Toks, errs: nat)
    requires forall t <- names :: IsPathToken(t.kind)
    requires k.Current().kind != DOT
    ensures PathTail(State(Cons(prev, DotsThen(names, k)), errs), path)
         == (State(Cons(if names == [] then prev else names[|names| - 1], k), errs), Some(path + DotText(names)))
    decreases names
  {
    if names == [] {
      assert path + "" == path;
    } else {
      var step := path + "." + names[0].literal;
      PathTailParses(names[0], names[1..], step, k, errs);
      assert step + DotText(names[1..]) == path + DotText(names);
    }
  }

  /** The loop leaves a tree alone when what follows does not bind tighter. */
  lemma Stops(prev: Token, k: Toks, p: nat, e: Expr, errs: nat)
    requires Precedence(k.Current().kind) <= p && LOWEST <= p
    ensures ParseInfixes(State(Cons(prev, k), errs), p, e) == (State(Cons(prev, k), errs), e)
  {
  }

  /** The loop takes an operator that binds tighter, with the operand behind it. */
  lemma TakesOperator(prev: Token, op: Token, rest: Toks, p: nat, left: Expr, errs: nat)
    requires LOWEST <= p < Precedence(op.kind)
    ensures ParseInfixes(State(Cons(prev, Cons(op, rest)), errs), p, left)
         == var (st, right) := ParseExpression(State(rest, errs), Precedence(op.kind)); ParseInfixes(st, p, Binary(op.kind, left, right))
  {
    hide ParseExpression;
    assert State(Cons(prev, Cons(op, rest)), errs).Next().Next() == State(rest, errs);
  }

  lemma {:induction false} MoreArgsParse(prev: Token, args: seq<Cst>, done: seq<Expr>, k: Toks, errs: nat)
      returns (last: Token)
    requires forall a <- args :: Legal(a) && Ordinary(a)
    requires k.Current().kind == RPAREN
    ensures ParseMoreArgs(State(Cons(prev, MoreThen(args, k)), errs), done)
         == (State(Cons(last, k), errs), done + EraseAll(args))
    decreases args
  {
    last := prev;
    if args == [] {
      assert done + EraseAll(args) == done;
    } else {
      var k1 := MoreThen(args[1..], k);
      Reads(args[0], k1, LOWEST, errs);
      last := MoreArgsParse(Last(args[0]), args[1..], done + [Erase(args[0])], k, errs);
      assert done + [Erase(args[0])] + EraseAll(args[1..]) == done + EraseAll(args);
    }
  }

  lemma {:induction false} CallParses(name: Token, args: seq<Cst>, k: Toks, errs: nat)
    requires forall a <- args :: Legal(a) && Ordinary(a)
    ensures ParseCall(State(Then(Applied(name, args), k), errs), name.literal)
         == (State(Cons(RPAREN_TOKEN, k), errs), Call(name.literal, EraseAll(args)))
    decreases args
  {
    var close := Cons(RPAREN_TOKEN, k);
    if args != [] {
      var k1 := MoreThen(args[1..], close);
      var st := State(Cons(LPAREN_TOKEN, Then(args[0], k1)), errs);
      FirstOf(args[0], k1);
      assert !st.PeekIs(RPAREN);
      assert st.Next() == State(Then(args[0], k1), errs);
      Reads(args[0], k1, LOWEST, errs);
      var last := MoreArgsParse(Last(args[0]), args[1..], [Erase(args[0])], close, errs);
      assert [Erase(args[0])] + EraseAll(args[1..]) == EraseAll(args);
    }
  }

  lemma {:induction false} PrefixedParses(op: Token, arg: Cst, k: Toks, errs: nat)
    requires Legal(Prefixed(op, arg)) && Ordinary(arg)
    requires Precedence(k.Current().kind) < PREFIX
    ensures ParsePrefix(State(Cons(op, Then(arg, k)), errs)) == (State(Cons(Last(arg), k), errs), Unary(op.kind, Erase(arg)))
    decreases arg, 3
  {
    FirstOf(arg, k);
    var st := State(Cons(op, Then(arg, k)), errs);
    assert st.Next() == State(Then(arg, k), errs);
    Reads(arg, k, PREFIX, errs);
  }

  lemma {:induction false} GroupParses(inner: Cst, k: Toks, errs: nat)
    requires Legal(inner) && Ordinary(inner)
    ensures ParsePrefix(State(Cons(LPAREN_TOKEN, Then(inner, Cons(RPAREN_TOKEN, k))), errs)) == (State(Cons(RPAREN_TOKEN, k), errs), Erase(inner))
    decreases inner, 3
  {
    var st := State(Cons(LPAREN_TOKEN, Then(inner, Cons(RPAREN_TOKEN, k))), errs);
    assert st.Next() == State(Then(inner, Cons(RPAREN_TOKEN, k)), errs);
    Reads(inner, Cons(RPAREN_TOKEN, k), LOWEST, errs);
  }

  /** Any tree that is not an infix application is read by the prefix parser alone. */
  lemma {:induction false} PrefixParses(c: Cst, k: Toks, errs: nat)
    requires Legal(c) && Ordinary(c) && !c.Infixed?
    requires Precedence(k.Current().kind) < PREFIX
    ensures ParsePrefix(State(Then(c, k), errs)) == (State(Cons(Last(c), k), errs), Erase(c))
    decreases c, 0
  {
    hide ParseCall, ParseExpression, ParseInfixes, PathTail;
    match c
    case Prim(t) =>
    case Dotted(h, names) => PathTailParses(h, names, h.literal, k, errs);
    case Negated(t) =>
    case Prefixed(op, arg) => PrefixedParses(op, arg, k, errs);
    case Group(inner) => GroupParses(inner, k, errs);
    case Constructed(name, payload) =>
    case Applied(name, args) => CallParses(name, args, k, errs);
  }

  /** Reading a legal tree at level `p` leaves the loop of that level holding the whole tree. */
  lemma {:induction false} Completes(c: Cst, k: Toks, p: nat, q: nat, errs: nat)
    requires Legal(c) && Ordinary(c) && Binds(c, q) && LOWEST <= p <= q && Follows(k, q)
    ensures Erase(c) != Nil
    ensures ParseExpression(State(Then(c, k), errs), p)
         == ParseInfixes(State(Cons(Last(c), k), errs), p, Erase(c))
    decreases c, 1
  {
    hide ParsePrefix, ParseInfixes, Precedence;
    match c
    case Infixed(l, op, r) =>
      var level := Precedence(op.kind);
      Completes(l, Cons(op, Then(r, k)), p, level - 1, errs);
      Completes(r, k, level, level, errs);
      Stops(Last(r), k, level, Erase(r), errs);
      FirstOf(r, k);
      TakesOperator(Last(l), op, Then(r, k), p, Erase(l), errs);
    case _ =>
      PrefixParses(c, k, errs);
  }

  /** COMPLETENESS.  Every precedence-correct tree is what the parser makes of its tokens,
      and it consumes those tokens and no more. */
  lemma {:induction false} Reads(c: Cst, k: Toks, p: nat, errs: nat)
    requires Legal(c) && Ordinary(c) && Binds(c, p) && LOWEST <= p
    requires Precedence(k.Current().kind) <= p && Precedence(k.Current().kind) < PREFIX
    ensures ParseExpression(State(Then(c, k), errs), p) == (State(Cons(Last(c), k), errs), Erase(c))
    ensures Erase(c) != Nil
    decreases c, 2
  {
    Completes(c, k, p, p, errs);
    Stops(Last(c), k, p, Erase(c), errs);
  }

  // ----- whatever the parser accepts is a legal tree -----

  /** The tree `c` explains a run from `before` to `after`: those are its tokens, and the run
      stopped on its last one. */
  ghost predicate Explains(c: Cst, k: Toks, before: State, after: State, e: Expr) {
    && Legal(c) && Erase(c) == e
    && before.toks == Then(c, k)
    && after.toks == Cons(Last(c), k)
  }

  /** The four tokens at the head of a proper stream are lexed tokens. */
  lemma ProperHeads(ts: Toks)
    requires ts.Proper()
    ensures ts.Cons? ==> IsLexed(ts.head) && ts.tail.Proper()
    ensures ts.Cons? && ts.tail.Cons? ==> IsLexed(ts.tail.head) && ts.tail.tail.Proper()
    ensures ts.Cons? && ts.tail.Cons? && ts.tail.tail.Cons? ==>
      IsLexed(ts.tail.tail.head) && ts.tail.tail.tail.Proper()
    ensures ts.Cons? && ts.tail.Cons? && ts.tail.tail.Cons? && ts.tail.tail.tail.Cons? ==>
      IsLexed(ts.tail.tail.tail.head) && ts.tail.tail.tail.tail.Proper()
  {
    if ts.Cons? && ts.tail.Cons? {
      var third := ts.tail.tail;
      assert ts.tail.Proper() && third.Proper();
      assert third.Cons? ==> third.tail.Proper();
    }
  }

  lemma {:induction false} ProperAfter(c: Cst, k: Toks)
    requires Then(c, k).Proper()
    ensures k.Proper() && IsLexed(Last(c))
    decreases c
  {
    match c
    case Prim(_) =>
    case Dotted(h, names) => ProperAfterDots(names, k);
    case Negated(_) =>
    case Prefixed(_, arg) => ProperAfter(arg, k);
    case Group(inner) => ProperAfter(inner, Cons(RPAREN_TOKEN, k));
    case Constructed(_, _) => ProperHeads(Then(c, k));
    case Applied(_, args) =>
      ProperHeads(Then(c, k));
      if args != [] {
        ProperAfter(args[0], MoreThen(args[1..], Cons(RPAREN_TOKEN, k)));
        ProperAfterMore(args[1..], Cons(RPAREN_TOKEN, k));
      }
    case Infixed(l, op, r) => ProperAfter(l, Cons(op, Then(r, k))); ProperAfter(r, k);
  }

  lemma {:induction false} ProperAfterDots(names: seq<Token>, k: Toks)
    requires DotsThen(names, k).Proper()
    ensures k.Proper() && forall t <- names :: IsLexed(t)
    decreases names
  {
    if names != [] { ProperAfterDots(names[1..], k); }
  }

  lemma {:induction false} ProperAfterMore(args: seq<Cst>, k: Toks)
    requires MoreThen(args, k).Proper()
    ensures k.Proper()
    decreases args
  {
    if args != [] {
      ProperAfter(args[0], MoreThen(args[1..], k));
      ProperAfterMore(args[1..], k);
    }
  }

  lemma {:induction false} ExplainPath(st: State, path: string) returns (names: seq<Token>, k: Toks)
    requires st.toks.Proper() && st.toks.Cons?
    requires PathTail(st, path).0.errs == st.errs
    ensures forall t <- names :: IsPathToken(t.kind)
    ensures st.toks == Cons(st.Current(), DotsThen(names, k))
    ensures PathTail(st, path) == (State(Cons(if names == [] then st.Current() else names[|names| - 1], k), st.errs), Some(path + DotText(names)))
    decreases st.Size()
  {
    if !st.PeekIs(DOT) {
      names, k := [], st.toks.tail;
      assert path + "" == path;
    } else {
      var name := st.Next().Next();
      var step := path + "." + name.Current().literal;
      var more;
      more, k := ExplainPath(name, step);
      names := [name.Current()] + more;
      assert step + DotText(more) == path + DotText(names);
    }
  }

  lemma {:induction false} ExplainMoreArgs(st: State, done: seq<Expr>) returns (args: seq<Cst>, k: Toks)
    requires st.toks.Proper() && st.toks.Cons?
    requires ParseMoreArgs(st, done).0.errs == st.errs
    ensures forall a <- args :: Legal(a)
    ensures st.toks == Cons(st.Current(), MoreThen(args, k))
    ensures var (st1, all) := ParseMoreArgs(st, done);
            all == done + EraseAll(args) && st1.toks.Cons? && st1.toks.tail == k
    decreases st.Size(), 0
  {
    hide ParseExpression, Precedence;
    if !st.PeekIs(COMMA) {
      args, k := [], st.toks.tail;
      assert done + EraseAll([]) == done;
    } else {
      var st0 := st.Next().Next();
      var (st1, arg) := ParseExpression(st0, LOWEST);
      var c, k1 := Explain(st0, LOWEST);
      ProperAfter(c, k1);
      var more;
      more, k := ExplainMoreArgs(st1, done + [arg]);
      args := [c] + more;
      assert done + [arg] + EraseAll(more) == done + EraseAll(args);
    }
  }

  lemma {:induction false} ExplainCall(st: State, name: string) returns (args: seq<Cst>, k: Toks)
    requires st.toks.Proper() && st.toks.Cons?
    requires ParseCall(st, name).0.errs == st.errs
    ensures forall a <- args :: Legal(a)
    ensures st.toks == Then(Applied(st.Current(), args), k)
    ensures ParseCall(st, name) == (State(Cons(RPAREN_TOKEN, k), st.errs), Call(name, EraseAll(args)))
    decreases st.Size(), 1
  {
    var st1 := st.Next();
    ProperHeads(st.toks);
    if st1.PeekIs(RPAREN) {
      args, k := [], st1.toks.tail.tail;
    } else {
      var st2 := st1.Next();
      var (st3, first) := ParseExpression(st2, LOWEST);
      var c, k1 := Explain(st2, LOWEST);
      ProperAfter(c, k1);
      var more, k2 := ExplainMoreArgs(st3, [first]);
      ProperAfterMore(more, k2);
      ProperHeads(k2);
      args, k := [c] + more, k2.tail;
      assert [first] + EraseAll(more) == EraseAll(args);
    }
  }

  lemma {:induction false} ExplainPathOrFunction(st: State) returns (c: Cst, k: Toks)
    requires st.toks.Proper() && IsPathToken(st.Current().kind)
    requires ParsePathOrFunction(st).0.errs == st.errs
    ensures !c.Infixed?
    ensures Explains(c, k, st, ParsePathOrFunction(st).0, ParsePathOrFunction(st).1)
    decreases st.Size(), 2
  {
    hide ParseCall, ParseExpression, ParseInfixes, PathTail, Precedence;
    var cur := st.Current();
    ProperHeads(st.toks);
    if st.PeekIs(LPAREN) {
      if LiteralConstructor(cur.literal).Some? {
        var arg := st.Next().Next();
        c, k := Constructed(cur, arg.Current()), arg.toks.tail.tail;
      } else {
        var args;
        args, k := ExplainCall(st, cur.literal);
        c := Applied(cur, args);
      }
    } else {
      var names;
      names, k := ExplainPath(st, cur.literal);
      c := Dotted(cur, names);
    }
  }

  lemma {:induction false} ExplainPrefix(st: State) returns (c: Cst, k: Toks)
    requires st.toks.Proper()
    requires ParsePrefix(st).0.errs == st.errs
    ensures !c.Infixed?
    ensures Explains(c, k, st, ParsePrefix(st).0, ParsePrefix(st).1)
    decreases st.Size(), 3
  {
    hide ParsePathOrFunction, ParseCall, ParseExpression, ParseInfixes, PathTail, Precedence;
    var cur := st.Current();
    ProperHeads(st.toks);
    if IsPathToken(cur.kind) {
      c, k := ExplainPathOrFunction(st);
    } else if IsPrimitive(cur.kind) {
      c, k := Prim(cur), st.toks.tail;
    } else if cur.kind == MINUS && (st.PeekIs(INT) || st.PeekIs(DECIMAL)) {
      c, k := Negated(st.Peek()), st.toks.tail.tail;
    } else if cur.kind == MINUS || cur.kind == NOT {
      var arg;
      arg, k := Explain(st.Next(), PREFIX);
      FirstOf(arg, k);
      c := Prefixed(cur, arg);
    } else if cur.kind == LPAREN {
      var inner, k1 := Explain(st.Next(), LOWEST);
      ProperAfter(inner, k1);
      ProperHeads(k1);
      c, k := Group(inner), k1.tail;
    } else {
      var args;
      args, k := ExplainCall(st, cur.literal);
      c := Applied(cur, args);
    }
  }

  /** The loop extends a tree it can explain into another one it can explain. */
  lemma {:induction false} ExplainInfixes(st: State, p: nat, left: Cst, k0: Toks) returns (c: Cst, k: Toks)
    requires Legal(left) && Binds(left, p) && LOWEST <= p
    requires st.toks == Cons(Last(left), k0) && k0.Proper()
    requires left.Infixed? ==> Precedence(k0.Current().kind) <= Precedence(left.op.kind)
    requires ParseInfixes(st, p, Erase(left)).0.errs == st.errs
    ensures Then(c, k) == Then(left, k0) && Binds(c, p) && Precedence(k.Current().kind) <= p
    ensures Explains(c, k, State(Then(left, k0), st.errs), ParseInfixes(st, p, Erase(left)).0, ParseInfixes(st, p, Erase(left)).1)
    decreases st.Size(), 2
  {
    if StopsExpression(st.Peek().kind) || p >= Precedence(st.Peek().kind) {
      c, k := left, k0;
    } else {
      var op := st.Next();
      var level := Precedence(op.Current().kind);
      var (st1, right) := ParseExpression(op.Next(), level);
      var r, k1 := Explain(op.Next(), level);
      ProperAfter(r, k1);
      var bigger := Infixed(left, op.Current(), r);
      assert Then(bigger, k1) == Then(left, k0);
      c, k := ExplainInfixes(st1, p, bigger, k1);
    }
  }

  /** SOUNDNESS.  Whenever the parser records no error, what it consumed is a precedence-correct
      tree, what it returns is that tree's meaning, and it stopped where nothing binds tighter. */
  lemma {:induction false} Explain(st: State, p: nat) returns (c: Cst, k: Toks)
    requires st.toks.Proper() && LOWEST <= p
    requires ParseExpression(st, p).0.errs == st.errs
    ensures Explains(c, k, st, ParseExpression(st, p).0, ParseExpression(st, p).1)
    ensures Binds(c, p) && Precedence(k.Current().kind) <= p
    decreases st.Size(), 4
  {
    var (st1, prefix) := ParsePrefix(st);
    var left, k0 := ExplainPrefix(st);
    ProperAfter(left, k0);
    c, k := ExplainInfixes(st1, p, left, k0);
  }
}
