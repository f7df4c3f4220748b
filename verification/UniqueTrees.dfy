/** One token stream has one precedence-correct reading: the same tree, parentheses included. */
module UniqueTrees {
  import opened Tokens
  import opened ExprParserSpec
  import opened Pratt

  /** An operator and its right operand. */
  datatype Tail = Tail(op: Token, right: Cst)

  /** The operand a tree starts with, and the operators applied to it one after another. */
  function Leftmost(c: Cst): Cst {
    if c.Infixed? then Leftmost(c.left) else c
  }

  function TailsOf(c: Cst): seq<Tail> {
    if c.Infixed? then TailsOf(c.left) + [Tail(c.op, c.right)] else []
  }

  function Extend(left: Cst, tails: seq<Tail>): Cst {
    if tails == [] then left else Infixed(Extend(left, tails[..|tails| - 1]), tails[|tails| - 1].op, tails[|tails| - 1].right)
  }

  function TailsThen(tails: seq<Tail>, k: Toks): Toks {
    if tails == [] then k else Cons(tails[0].op, Then(tails[0].right, TailsThen(tails[1..], k)))
  }

  predicate ReadyTail(t: Tail, p: nat) {
    var level := Precedence(t.op.kind);
    p < level < PREFIX && Legal(t.right) && Ordinary(t.right) && Binds(t.right, level)
  }

  /** Operators that bind tighter than `p`, none tighter than the one before it. */
  predicate ReadyTails(tails: seq<Tail>, p: nat) {
    && (forall t <- tails :: ReadyTail(t, p))
    && (forall i :: 0 < i < |tails| ==> Precedence(tails[i].op.kind) <= Precedence(tails[i - 1].op.kind))
  }

  lemma {:induction false} TailsSnoc(tails: seq<Tail>, t: Tail, k: Toks)
    ensures TailsThen(tails + [t], k) == TailsThen(tails, Cons(t.op, Then(t.right, k)))
    decreases tails
  {
    if tails == [] {
      assert (tails + [t])[1..] == [];
    } else {
      assert (tails + [t])[1..] == tails[1..] + [t];
      TailsSnoc(tails[1..], t, k);
    }
  }

  lemma {:induction false} Decompose(c: Cst, k: Toks, p: nat)
    requires Legal(c) && Ordinary(c) && Binds(c, p)
    ensures Extend(Leftmost(c), TailsOf(c)) == c && Then(c, k) == Then(Leftmost(c), TailsThen(TailsOf(c), k))
    ensures ReadyTails(TailsOf(c), p) && Legal(Leftmost(c)) && Ordinary(Leftmost(c)) && !Leftmost(c).Infixed?
    ensures c.Infixed? ==> TailsOf(c)[|TailsOf(c)| - 1].op == c.op
    decreases c
  {
    hide ReadyTails, Precedence;
    if c.Infixed? {
      var tails := TailsOf(c.left);
      Decompose(c.left, Cons(c.op, Then(c.right, k)), Precedence(c.op.kind) - 1);
      TailsSnoc(tails, Tail(c.op, c.right), k);
      assert TailsOf(c)[..|tails|] == tails;
      assert tails != [] ==> c.left.Infixed? && Precedence(c.op.kind) <= Precedence(c.left.op.kind);
      ReadySnoc(tails, Tail(c.op, c.right), p);
    } else {
      NoTails(p);
    }
  }

  lemma NoTails(p: nat)
    ensures ReadyTails([], p)
  {
  }

  lemma ReadySnoc(tails: seq<Tail>, t: Tail, p: nat)
    requires ReadyTail(t, p) && ReadyTails(tails, Precedence(t.op.kind) - 1)
    requires tails != [] ==> Precedence(t.op.kind) <= Precedence(tails[|tails| - 1].op.kind)
    ensures ReadyTails(tails + [t], p)
  {
    forall x | x in tails ensures ReadyTail(x, p) { assert ReadyTail(x, Precedence(t.op.kind) - 1); }
  }

  lemma ConsumesTwo(t: Token, u: Token, k: Toks)
    ensures Cons(t, Cons(u, k)).Size() == k.Size() + 2
  {
  }

  lemma AppliedThen(name: Token, args: seq<Cst>, k: Toks)
    requires args != []
    ensures var inner := Then(args[0], MoreThen(args[1..], Cons(RPAREN_TOKEN, k)));
            Then(Applied(name, args), k) == Cons(name, Cons(LPAREN_TOKEN, inner)) && Then(Applied(name, args), k).Size() == inner.Size() + 2
  {
  }

  lemma {:induction false} Consumes(c: Cst, k: Toks)
    ensures Then(c, k).Size() > k.Size()
    decreases c
  {
    match c
    case Prim(_) =>
    case Dotted(_, names) => ConsumesDots(names, k);
    case Negated(_) =>
    case Prefixed(_, arg) => Consumes(arg, k);
    case Group(inner) => Consumes(inner, Cons(RPAREN_TOKEN, k));
    case Constructed(name, payload) => ConsumesTwo(name, LPAREN_TOKEN, Cons(payload, Cons(RPAREN_TOKEN, k)));
    case Applied(name, args) =>
      if args != [] {
        AppliedThen(name, args, k);
        Consumes(args[0], MoreThen(args[1..], Cons(RPAREN_TOKEN, k)));
        ConsumesMore(args[1..], Cons(RPAREN_TOKEN, k));
      } else {
        ConsumesTwo(name, LPAREN_TOKEN, Cons(RPAREN_TOKEN, k));
      }
    case Infixed(l, op, r) => Consumes(l, Cons(op, Then(r, k))); Consumes(r, k);
  }

  lemma {:induction false} ConsumesDots(names: seq<Token>, k: Toks)
    ensures DotsThen(names, k).Size() >= k.Size()
    decreases names
  {
    if names != [] { ConsumesDots(names[1..], k); }
  }

  lemma {:induction false} ConsumesMore(args: seq<Cst>, k: Toks)
    ensures MoreThen(args, k).Size() >= k.Size()
    decreases args
  {
    if args != [] {
      Consumes(args[0], MoreThen(args[1..], k));
      ConsumesMore(args[1..], k);
    }
  }

  lemma {:induction false} SameDots(names: seq<Token>, k: Toks, names': seq<Token>, k': Toks)
    requires DotsThen(names, k) == DotsThen(names', k') && k.Current().kind != DOT && k'.Current().kind != DOT
    ensures names == names' && k == k'
    decreases names
  {
    if names != [] && names' != [] {
      SameDots(names[1..], k, names'[1..], k');
      assert names == [names[0]] + names[1..] && names' == [names'[0]] + names'[1..];
    }
  }

  predicate Finished(k: Toks, p: nat) {
    Precedence(k.Current().kind) <= p && Precedence(k.Current().kind) < PREFIX
  }

  lemma {:induction false} SameTails(tails: seq<Tail>, k: Toks, tails': seq<Tail>, k': Toks, p: nat)
    requires LOWEST <= p && ReadyTails(tails, p) && ReadyTails(tails', p) && Finished(k, p) && Finished(k', p)
    requires TailsThen(tails, k) == TailsThen(tails', k')
    ensures tails == tails' && k == k'
    decreases TailsThen(tails, k).Size(), 1
  {
    TailsStart(tails, k, p);
    TailsStart(tails', k', p);
    if tails != [] && tails' != [] {
      var t, t' := tails[0], tails'[0];
      assert ReadyTail(t, p) && ReadyTail(t', p);
      var k1, k1' := TailsThen(tails[1..], k), TailsThen(tails'[1..], k');
      var level := Precedence(t.op.kind);
      FinishedBefore(tails, k, p);
      FinishedBefore(tails', k', p);
      SameTree(t.right, k1, t'.right, k1', level);
      Consumes(t.right, k1);
      ReadyRest(tails, p);
      ReadyRest(tails', p);
      SameTails(tails[1..], k, tails'[1..], k', p);
      assert tails == [t] + tails[1..] && tails' == [t'] + tails'[1..];
    }
  }

  lemma TailsStart(tails: seq<Tail>, k: Toks, p: nat)
    requires ReadyTails(tails, p)
    ensures tails != [] ==> Precedence(TailsThen(tails, k).Current().kind) > p
  {
    if tails != [] { assert ReadyTail(tails[0], p); }
  }

  lemma ReadyRest(tails: seq<Tail>, p: nat)
    requires tails != [] && ReadyTails(tails, p)
    ensures ReadyTails(tails[1..], p)
  {
    hide ReadyTail;
    assert forall i :: 0 < i < |tails[1..]| ==> tails[1..][i] == tails[i + 1] && tails[1..][i - 1] == tails[i];
  }

  /** The operand of the first operator ends where the next one does not bind tighter. */
  lemma FinishedBefore(tails: seq<Tail>, k: Toks, p: nat)
    requires tails != [] && ReadyTails(tails, p) && Finished(k, p)
    ensures Finished(TailsThen(tails[1..], k), Precedence(tails[0].op.kind))
  {
    assert ReadyTail(tails[0], p);
    if |tails| > 1 { assert ReadyTail(tails[1], p) && tails[1..][0] == tails[1]; }
  }

  lemma {:induction false} SameMore(args: seq<Cst>, k: Toks, args': seq<Cst>, k': Toks)
    requires forall a <- args :: Legal(a) && Ordinary(a)
    requires forall a <- args' :: Legal(a) && Ordinary(a)
    requires k.Current().kind == RPAREN && k'.Current().kind == RPAREN && MoreThen(args, k) == MoreThen(args', k')
    ensures args == args' && k == k'
    decreases MoreThen(args, k).Size(), 1
  {
    if args != [] && args' != [] {
      var k1, k1' := MoreThen(args[1..], k), MoreThen(args'[1..], k');
      SameTree(args[0], k1, args'[0], k1', LOWEST);
      Consumes(args[0], k1);
      SameMore(args[1..], k, args'[1..], k');
      assert args == [args[0]] + args[1..] && args' == [args'[0]] + args'[1..];
    }
  }

  lemma {:induction false} SameApplied(name: Token, args: seq<Cst>, k: Toks, args': seq<Cst>, k': Toks)
    requires forall a <- args :: Legal(a) && Ordinary(a)
    requires forall a <- args' :: Legal(a) && Ordinary(a)
    requires Then(Applied(name, args), k) == Then(Applied(name, args'), k')
    ensures args == args' && k == k'
    decreases Then(Applied(name, args), k).Size(), 0
  {
    var close, close' := Cons(RPAREN_TOKEN, k), Cons(RPAREN_TOKEN, k');
    if args != [] { FirstOf(args[0], MoreThen(args[1..], close)); }
    if args' != [] { FirstOf(args'[0], MoreThen(args'[1..], close')); }
    if args != [] && args' != [] {
      var k1, k1' := MoreThen(args[1..], close), MoreThen(args'[1..], close');
      AppliedThen(name, args, k);
      AppliedThen(name, args', k');
      SameTree(args[0], k1, args'[0], k1', LOWEST);
      Consumes(args[0], k1);
      SameMore(args[1..], close, args'[1..], close');
      assert args == [args[0]] + args[1..] && args' == [args'[0]] + args'[1..];
    }
  }

  /** The first tokens of an operand tell what kind it is of. */
  lemma SameKind(c: Cst, k: Toks, c': Cst, k': Toks)
    requires Legal(c) && Legal(c') && !c.Infixed? && !c'.Infixed? && Then(c, k) == Then(c', k')
    requires k.Current().kind != LPAREN && k'.Current().kind != LPAREN
    ensures (c.Prim? <==> c'.Prim?) && (c.Dotted? <==> c'.Dotted?) && (c.Negated? <==> c'.Negated?)
    ensures (c.Prefixed? <==> c'.Prefixed?) && (c.Group? <==> c'.Group?)
    ensures (c.Constructed? <==> c'.Constructed?) && (c.Applied? <==> c'.Applied?)
  {
    if c.Prefixed? { FirstOf(c.arg, k); }
    if c'.Prefixed? { FirstOf(c'.arg, k'); }
  }

  lemma {:induction false} SameOperand(c: Cst, k: Toks, c': Cst, k': Toks)
    requires Legal(c) && Ordinary(c) && !c.Infixed? && Legal(c') && Ordinary(c') && !c'.Infixed? && Then(c, k) == Then(c', k')
    requires Precedence(k.Current().kind) < PREFIX && Precedence(k'.Current().kind) < PREFIX
    ensures c == c' && k == k'
    decreases Then(c, k).Size(), 1
  {
    SameKind(c, k, c', k');
    match c
    case Prim(_) =>
    case Dotted(_, names) => SameDots(names, k, c'.names, k');
    case Negated(_) =>
    case Prefixed(_, arg) => SameTree(arg, k, c'.arg, k', PREFIX);
    case Group(inner) => SameTree(inner, Cons(RPAREN_TOKEN, k), c'.inner, Cons(RPAREN_TOKEN, k'), LOWEST);
    case Constructed(_, _) =>
    case Applied(name, args) => SameApplied(name, args, k, c'.args, k');
  }

  lemma {:induction false} SameTree(c: Cst, k: Toks, c': Cst, k': Toks, p: nat)
    requires Legal(c) && Ordinary(c) && Binds(c, p) && Legal(c') && Ordinary(c') && Binds(c', p) && LOWEST <= p
    requires Finished(k, p) && Finished(k', p) && Then(c, k) == Then(c', k')
    ensures c == c' && k == k'
    decreases Then(c, k).Size(), 2
  {
    hide Then, TailsThen, ReadyTails, Leftmost, TailsOf, Extend, Precedence, Legal, Ordinary;
    Decompose(c, k, p);
    Decompose(c', k', p);
    var l, l', ts, ts' := Leftmost(c), Leftmost(c'), TailsOf(c), TailsOf(c');
    OperandEnds(ts, k, p);
    OperandEnds(ts', k', p);
    SameOperand(l, TailsThen(ts, k), l', TailsThen(ts', k'));
    Consumes(l, TailsThen(ts, k));
    SameTails(ts, k, ts', k', p);
  }

  lemma OperandEnds(tails: seq<Tail>, k: Toks, p: nat)
    requires ReadyTails(tails, p) && Finished(k, p)
    ensures Precedence(TailsThen(tails, k).Current().kind) < PREFIX
  {
    if tails != [] { assert ReadyTail(tails[0], p); }
  }

  /** UNIQUENESS.  Two precedence-correct readings of one token stream are the same tree. */
  lemma UniqueReading(c: Cst, k: Toks, c': Cst, k': Toks, p: nat)
    requires Legal(c) && Ordinary(c) && Binds(c, p) && Legal(c') && Ordinary(c') && Binds(c', p) && LOWEST <= p
    requires Precedence(k.Current().kind) <= p && Precedence(k.Current().kind) < PREFIX
    requires Precedence(k'.Current().kind) <= p && Precedence(k'.Current().kind) < PREFIX
    requires Then(c, k) == Then(c', k')
    ensures c == c' && k == k'
  {
    SameTree(c, k, c', k', p);
  }
}
