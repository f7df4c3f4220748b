/** Texts in byte order, and the one strictly sorted list of a set of them. */
module SortedTexts {
  /** Byte order on texts. */
  predicate Before(a: string, b: string)
    decreases |a|
  {
    b != "" && (a == "" || a[0] < b[0] || (a[0] == b[0] && Before(a[1..], b[1..])))
  }

  lemma {:induction false} BeforeIsTotal(a: string, b: string)
    ensures Before(a, b) || a == b || Before(b, a)
    ensures !(Before(a, b) && Before(b, a)) && !Before(a, a)
    decreases |a|
  {
    if a != "" && b != "" && a[0] == b[0] {
      BeforeIsTotal(a[1..], b[1..]);
      if a[1..] == b[1..] { assert a == [a[0]] + a[1..] == [b[0]] + b[1..] == b; }
    }
    if a != "" { BeforeIsTotal(a[1..], a[1..]); }
  }

  lemma {:induction false} BeforeIsTransitive(a: string, b: string, c: string)
    requires Before(a, b) && Before(b, c)
    ensures Before(a, c)
    decreases |a|
  {
    if a != "" && a[0] == b[0] == c[0] { BeforeIsTransitive(a[1..], b[1..], c[1..]); }
  }

  /** Two texts go on differently from here, the first with the smaller character. */
  predicate PartsAt(a: string, b: string, n: nat) {
    n < |a| && n < |b| && a[..n] == b[..n] && a[n] < b[n]
  }

  lemma AlikeBefore(a: string, b: string, n: nat)
    requires PartsAt(a, b, n)
    ensures forall i :: 0 <= i < n ==> a[i] == b[i]
  {
    assert forall i :: 0 <= i < n ==> a[..n][i] == a[i] && b[..n][i] == b[i];
  }

  /** A text stands before those that it begins, and before those with a greater character where they first part. */
  lemma {:induction false} BeforeMeans(a: string, b: string)
    ensures Before(a, b) <==> a < b || exists n: nat :: PartsAt(a, b, n)
    decreases |a|
  {
    if a != "" && b != "" && a[0] == b[0] {
      BeforeMeans(a[1..], b[1..]);
      assert a == [a[0]] + a[1..] && b == [a[0]] + b[1..];
      if n: nat :| PartsAt(a[1..], b[1..], n) {
        assert a[..n + 1] == [a[0]] + a[1..][..n] && b[..n + 1] == [a[0]] + b[1..][..n];
        assert PartsAt(a, b, n + 1);
      }
      if n: nat :| PartsAt(a, b, n) {
        assert a[1..][..n - 1] == a[..n][1..] && b[1..][..n - 1] == b[..n][1..];
        assert PartsAt(a[1..], b[1..], n - 1);
      }
    } else if a != "" && b != "" {
      assert a[0] < b[0] ==> PartsAt(a, b, 0);
      forall n: nat | PartsAt(a, b, n) ensures n == 0 { AlikeBefore(a, b, n); }
    }
  }

  ghost predicate Sorted(s: seq<string>) {
    forall i, j :: 0 <= i < j < |s| ==> Before(s[i], s[j])
  }

  function Elements(s: seq<string>): set<string> {
    set x | x in s
  }

  /** Two strictly sorted lists of the same texts are the same list. */
  lemma {:induction false} SortedIsUnique(s: seq<string>, t: seq<string>)
    requires Sorted(s) && Sorted(t) && Elements(s) == Elements(t)
    ensures s == t
    decreases |s|
  {
    SameEmptiness(s, t);
    if s != [] {
      assert s[0] in Elements(s);
      var j :| 0 <= j < |t| && t[j] == s[0];
      assert t[0] in Elements(t);
      var i :| 0 <= i < |s| && s[i] == t[0];
      BeforeIsTotal(s[0], t[0]);
      assert s[0] == t[0];
      SameTail(s, t);
      SameTail(t, s);
      SortedIsUnique(s[1..], t[1..]);
      assert s == [s[0]] + s[1..] && t == [t[0]] + t[1..];
    }
  }

  lemma SameEmptiness(s: seq<string>, t: seq<string>)
    requires Elements(s) == Elements(t)
    ensures s == [] <==> t == []
  {
    if s != [] || t != [] {
      var x := if s != [] then s[0] else t[0];
      assert x in Elements(s) && x in Elements(t);
    }
  }

  lemma SameTail(s: seq<string>, t: seq<string>)
    requires s != [] && t != [] && s[0] == t[0] && Sorted(s) && Sorted(t) && Elements(s) == Elements(t)
    ensures Elements(s[1..]) <= Elements(t[1..])
  {
    forall x | x in s[1..] ensures x in t[1..] {
      var i :| 0 <= i < |s[1..]| && s[1..][i] == x;
      assert s[i + 1] == x && Before(s[0], x);
      BeforeIsTotal(x, x);
      assert x in Elements(s);
      var j :| 0 <= j < |t| && t[j] == x;
      assert t[1..][j - 1] == x;
    }
  }

  /** Puts one more text into a sorted list. */
  method Insert(s: seq<string>, x: string) returns (r: seq<string>)
    requires Sorted(s) && x !in s
    ensures Sorted(r) && Elements(r) == Elements(s) + {x}
  {
    var i := 0;
    while i < |s| && Before(s[i], x)
      invariant 0 <= i <= |s|
      invariant forall j :: 0 <= j < i ==> Before(s[j], x)
    {
      i := i + 1;
    }
    r := s[..i] + [x] + s[i..];
    forall j | i <= j < |s| ensures Before(x, s[j]) {
      BeforeIsTotal(x, s[i]);
      if i < j { BeforeIsTransitive(x, s[i], s[j]); }
    }
    assert s == s[..i] + s[i..];
  }

  /** Collects the keys of a map in whatever order they come, and sorts them. */
  method SortedKeys(seen: set<string>) returns (r: seq<string>)
    ensures Sorted(r) && Elements(r) == seen
  {
    r := [];
    var rest := seen;
    while rest != {}
      invariant rest <= seen && Sorted(r) && Elements(r) == seen - rest
      decreases |rest|
    {
      var p :| p in rest;
      assert p !in Elements(r);
      r := Insert(r, p);
      rest := rest - {p};
    }
  }
}
