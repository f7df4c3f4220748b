/** Signed 64-bit arithmetic, with the kernel's overflow checks as it writes them. */
module Int64 {
  import opened Ast

  const TWO_63 := 0x8000_0000_0000_0000
  const TWO_64 := 0x1_0000_0000_0000_0000
  const MIN_INT64 := -TWO_63
  const MAX_INT64 := TWO_63 - 1

  predicate InRange(n: int) {
    MIN_INT64 <= n <= MAX_INT64
  }

  type Word = n: int | InRange(n)

  /** The two's complement value a 64-bit operation leaves. */
  function Wrap(n: int): (r: Word)
    ensures InRange(n) <==> r == n
  {
    (n + TWO_63) % TWO_64 - TWO_63
  }

  lemma WrapCongruent(n: int) returns (q: int)
    ensures Wrap(n) == n - q * TWO_64
  {
    q := (n + TWO_63) / TWO_64;
  }

  /** How many times `k` goes into `m`. */
  function Times(m: nat, k: nat): (q: int)
    requires k != 0
    ensures q >= 0
  {
    m / k
  }

  /** Division that truncates toward zero; the quotient of the least integer by -1 wraps. */
  function Quotient(a: int, b: int): Word
    requires b != 0
  {
    Wrap(if (a < 0) == (b < 0) then Times(Abs(a), Abs(b)) else -(Times(Abs(a), Abs(b))))
  }

  function Remainder(a: int, b: int): int
    requires b != 0
  {
    if a < 0 then -(Abs(a) % Abs(b)) else Abs(a) % Abs(b)
  }

  function Abs(n: int): nat {
    if n < 0 then -n else n
  }

  /** Negation wraps around for the least number. */
  function Negated(n: Word): Word {
    var m: int := n;
    Wrap(-m)
  }

  /** Negation, where there is one. */
  function Negation(n: Word): Option<Word> {
    var m: int := n;
    Exactly(-m)
  }

  function Exactly(n: int): Option<Word> {
    if InRange(n) then Some(n) else None
  }

  function AddInt64(a: Word, b: Word): Option<Word> {
    var sum := Wrap(a + b);
    if (b > 0 && sum < a) || (b < 0 && sum > a) then None else Some(sum)
  }

  function SubInt64(a: Word, b: Word): Option<Word> {
    var diff := Wrap(a - b);
    if (b > 0 && diff > a) || (b < 0 && diff < a) then None else Some(diff)
  }

  function MulInt64(a: Word, b: Word): Option<Word> {
    if a == 0 || b == 0 then Some(0)
    else
      var prod := Wrap(a * b);
      if Quotient(prod, b) != a || (a == -1 && b == MIN_INT64) then None else Some(prod)
  }

  function DivInt64(a: Word, b: Word): Option<Word> {
    if b == 0 || (a == MIN_INT64 && b == -1) then None else Some(Quotient(a, b))
  }

  function ModInt64(a: Word, b: Word): Option<Word> {
    if b == 0 || (a == MIN_INT64 && b == -1) then None else Some(Wrap(Remainder(a, b)))
  }

  lemma AddIsExact(a: int, b: int)
    requires InRange(a) && InRange(b)
    ensures AddInt64(a, b) == Exactly(a + b) && SubInt64(a, b) == Exactly(a - b)
  {
    var q := WrapCongruent(a + b);
    var p := WrapCongruent(a - b);
  }

  lemma DivideNat(m: nat, k: nat)
    requires k >= 1
    ensures m == Times(m, k) * k + m % k && m % k < k && Times(m, k) <= m && Times(m, k) * k <= m
    ensures k >= 2 && m >= 1 ==> Times(m, k) < m
  {
    var q := Times(m, k);
    assert m == q * k + m % k;
    if k >= 2 { assert q * k >= q * 2 by { MulMono(q, 2, k); } } else { assert q * k == q; }
  }

  /** The quotient of two integers without its fraction. */
  function Truncated(a: int, b: int): int
    requires b != 0
  {
    if (a < 0) == (b < 0) then Abs(a) / Abs(b) else 0 - Abs(a) / Abs(b)
  }

  /** The check of a quotient refuses zero divisors and what does not fit, and nothing else. */
  lemma DivIsExact(a: Word, b: Word)
    ensures DivInt64(a, b) == if b == 0 then None else Exactly(Truncated(a, b))
  {
    if b != 0 && !(a == MIN_INT64 && b == -1) {
      QuotientFits(a, b);
      hide Quotient;
      assert Truncated(a, b) == if (a < 0) == (b < 0) then Times(Abs(a), Abs(b)) else -(Times(Abs(a), Abs(b)));
      DivideNat(Abs(a), Abs(b));
    } else if b != 0 {
      assert Abs(a) / Abs(b) == TWO_63;
    }
  }

  /** The remainder is what the truncated quotient leaves, of the sign of the dividend. */
  lemma ModIsExact(a: Word, b: Word)
    ensures ModInt64(a, b) == if b == 0 || (a == MIN_INT64 && b == -1) then None else Exactly(a - b * Truncated(a, b))
  {
    if b != 0 {
      assert InRange(b) && InRange(a);
      var m, k: nat := Abs(a), Abs(b);
      DivideNat(m, k);
      var q: int := m / k;
      assert q == Times(m, k);
      assert m == q * k + m % k && 0 <= m % k < k;
      SignedProduct(b, Truncated(a, b), k, q);
      assert b * Truncated(a, b) == if a < 0 then -(q * k) else q * k;
      assert Remainder(a, b) == a - b * Truncated(a, b);
      var r: int := m % k;
      assert Remainder(a, b) == (if a < 0 then -r else r) && 0 <= r < k <= TWO_63;
    }
  }

  lemma SignedProduct(b: int, t: int, k: int, q: int)
    requires (b == k || b == -k) && (t == q || t == -q)
    ensures b * t == if (b == k) == (t == q) then q * k else -(q * k)
  {
    if b == k && t == q { assert b * t == q * k; }
    else if b == k { assert b * t == -(q * k); }
    else if t == q { assert b * t == -(q * k); }
    else { assert b * t == q * k; }
  }

  lemma MulMono(q: nat, j: nat, k: nat)
    requires j <= k
    ensures q * j <= q * k
  {
  }

  lemma OneMore(q: nat, j: nat, k: nat)
    ensures q > j ==> q * k >= j * k + k
  {
    if q > j { MulMono(k, j + 1, q); }
  }

  lemma MulAbs(a: int, b: int)
    ensures Abs(a * b) == Abs(a) * Abs(b)
    ensures a * b > 0 ==> (a < 0) == (b < 0)
    ensures a * b < 0 ==> (a < 0) != (b < 0)
  {
    if a < 0 && b < 0 { assert a * b == (-a) * (-b); }
    else if a < 0 { assert a * b == -((-a) * b); }
    else if b < 0 { assert a * b == -(a * (-b)); }
  }

  /** The quotient does not wrap but in one case. */
  lemma QuotientFits(p: int, b: int)
    requires b != 0 && InRange(p) && InRange(b) && !(p == MIN_INT64 && b == -1)
    ensures Quotient(p, b) == if (p < 0) == (b < 0) then Times(Abs(p), Abs(b)) else -(Times(Abs(p), Abs(b)))
  {
    hide Times;
    DivideNat(Abs(p), Abs(b));
  }

  lemma DivideBack(a: nat, b: nat)
    requires b != 0
    ensures Times(a * b, b) == a
  {
    hide Times;
    DivideNat(a * b, b);
    var q := Times(a * b, b);
    OneMore(q, a, b);
    OneMore(a, q, b);
  }

  lemma ProductDividesBack(a: int, b: int)
    requires a != 0 && b != 0 && InRange(a) && InRange(b) && InRange(a * b) && !(a * b == MIN_INT64 && b == -1)
    ensures Quotient(a * b, b) == a
  {
    hide Times;
    MulAbs(a, b);
    DivideBack(Abs(a), Abs(b));
    QuotientFits(a * b, b);
    assert a * b != 0 by { MulMono(Abs(a), 1, Abs(b)); }
  }

  /** A product that wrapped around does not divide back. */
  lemma OverflowDoesNot(a: int, b: int, prod: int)
    requires a != 0 && b != 0 && InRange(a) && InRange(b) && !InRange(a * b) && prod == Wrap(a * b)
    requires !(prod == MIN_INT64 && b == -1)
    ensures Quotient(prod, b) != a
  {
    hide Wrap, Quotient;
    var q := QuotientSize(prod, b);
    if Abs(a) == q { JustTooBig(a, b); }
  }

  lemma QuotientSize(p: int, b: int) returns (q: int)
    requires b != 0 && InRange(p) && InRange(b) && !(p == MIN_INT64 && b == -1)
    ensures Quotient(p, b) == (if (p < 0) == (b < 0) then q else -q) && q >= 0 && q * Abs(b) <= Abs(p)
  {
    hide Wrap, Quotient, Times;
    q := Times(Abs(p), Abs(b));
    QuotientFits(p, b);
    DivideNat(Abs(p), Abs(b));
  }

  lemma JustTooBig(a: int, b: int)
    requires Abs(a) * Abs(b) <= TWO_63 && !InRange(a * b)
    ensures a * b == TWO_63 && Wrap(a * b) == MIN_INT64 && (a < 0) == (b < 0)
  {
    MulAbs(a, b);
  }

  /** The check behind a product refuses exactly the products that do not fit, but for one pair: the
      least integer times -1 is taken to be the least integer.  The guard names the operands in the
      other order, which the division by the second operand had already caught. */
  lemma MulIsExactButOnce(a: Word, b: Word)
    ensures MulInt64(a, b) == Exactly(a * b) <==> !(a == MIN_INT64 && b == -1)
    ensures a == MIN_INT64 && b == -1 ==> MulInt64(a, b) == Some(MIN_INT64)
  {
    assert Times(TWO_63, 1) == TWO_63;
    hide Times;
    if a == 0 || b == 0 {
      assert a * b == 0;
    } else if a == MIN_INT64 && b == -1 {
      assert a * b == TWO_63;
    } else if a == -1 && b == MIN_INT64 {
      assert a * b == TWO_63;
    } else if !InRange(a * b) {
      if !(Wrap(a * b) == MIN_INT64 && b == -1) { OverflowDoesNot(a, b, Wrap(a * b)); }
    } else if !(a * b == MIN_INT64 && b == -1) {
      ProductDividesBack(a, b);
    }
  }
}
