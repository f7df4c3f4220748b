/** For which initial states the clause on readiness means what it says: exactly when its counts
    are redundant, and exactly when passing it pairs the cases of the two sides. */
module RegressionExactly {
  import opened Ast
  import opened Evidence
  import opened Comparability
  import opened MetricRegression

  ghost predicate Distinct(states: seq<string>) {
    forall i, j :: 0 <= i < j < |states| ==> states[i] != states[j]
  }

  ghost predicate OneState(states: seq<string>) {
    forall i, j :: 0 <= i < j < |states| ==> states[i] == states[j]
  }

  /** What the clause asks case by case, and of the counts. */
  ghost predicate Passes(b: seq<Compared>, c: seq<Compared>) {
    NoneRegresses(b, c) && ReadyCount(b) <= ReadyCount(c)
  }

  /** Whatever is ready, the counts refuse nothing that the cases do not. */
  ghost predicate CountsRedundant(sb: seq<string>, sc: seq<string>) {
    forall b, c :: InitialStates(b) == sb && InitialStates(c) == sc && NoneRegresses(b, c) ==> ReadyCount(b) <= ReadyCount(c)
  }

  /** Whatever is ready, sides that pass can be paired. */
  ghost predicate AlwaysPaired(sb: seq<string>, sc: seq<string>) {
    forall b, c :: InitialStates(b) == sb && InitialStates(c) == sc && Passes(b, c) ==> exists f :: Pairs(f, b, c)
  }

  /** Cases of these states, of which none but one is ready. */
  function Marked(states: seq<string>, only: int): (cases: seq<Compared>)
    ensures |cases| == |states| && InitialStates(cases) == states
    ensures forall i :: 0 <= i < |cases| ==> cases[i] == Sample(states[i], i == only)
  {
    seq(|states|, i requires 0 <= i < |states| => Sample(states[i], i == only))
  }

  lemma {:induction false} CountMarked(states: seq<string>, only: int)
    ensures ReadyCount(Marked(states, only)) == if 0 <= only < |states| then 1 else 0
    decreases |states|
  {
    if states != [] {
      var n := |states| - 1;
      assert Marked(states, only)[..n] == Marked(states[..n], only);
      CountMarked(states[..n], only);
    }
  }

  /** The map holds the last case of a state. */
  lemma {:induction false} LastStands(cases: seq<Compared>, i: nat)
    requires i < |cases|
    ensures var m, s := ByInitialState(cases), cases[i].artifact.initialState;
            s in m && exists j :: i <= j < |cases| && m[s] == cases[j] && cases[j].artifact.initialState == s
    decreases |cases|
  {
    var n := |cases| - 1;
    if i < n {
      LastStands(cases[..n], i);
      var m, s := ByInitialState(cases[..n]), cases[i].artifact.initialState;
      var j :| i <= j < n && m[s] == cases[..n][j] && cases[..n][j].artifact.initialState == s;
      assert cases[..n][j] == cases[j];
      if cases[n].artifact.initialState == s { assert ByInitialState(cases)[s] == cases[n]; } else { assert ByInitialState(cases)[s] == cases[j]; }
    } else {
      assert ByInitialState(cases)[cases[n].artifact.initialState] == cases[n];
    }
  }

  /** Nothing regresses from a baseline whose only ready case is not the last one of its state, or is of
      a state the candidate does not answer. */
  lemma HiddenMark(sb: seq<string>, sc: seq<string>, i: int, m: int)
    requires forall s <- sc :: s in sb
    requires 0 <= i < |sb| ==> sb[i] !in sc || exists j :: i < j < |sb| && sb[j] == sb[i]
    ensures NoneRegresses(Marked(sb, i), Marked(sc, m))
  {
    var b, c := Marked(sb, i), Marked(sc, m);
    forall n | 0 <= n < |c| ensures NoWorse(b, c[n]) {
      assert sc[n] in sb;
      var k :| 0 <= k < |sb| && sb[k] == sc[n];
      var k' := k;
      if 0 <= i < |sb| && sb[i] == sc[n] {
        var j :| i < j < |sb| && sb[j] == sb[i];
        k' := j;
      }
      LastStands(b, k');
    }
  }

  lemma StatesAgree(b: seq<Compared>, sb: seq<string>)
    requires InitialStates(b) == sb
    ensures Distinct(sb) <==> DistinctStates(b)
  {
  }

  /** A side that repeats a state cannot answer every one of as many different ones. */
  lemma {:induction false} Unanswered(sb: seq<string>, sc: seq<string>) returns (k: nat)
    requires Distinct(sb) && !Distinct(sc) && |sb| == |sc|
    ensures k < |sb| && sb[k] !in sc
  {
    if forall k :: 0 <= k < |sb| ==> sb[k] in sc {
      var b, c := Marked(sb, -1), Marked(sc, -1);
      CountStates(b);
      assert StateSet(b) <= StateSet(c) by {
        forall s | s in StateSet(b) ensures s in StateSet(c) {
          var x :| x in b && x.artifact.initialState == s;
          var n :| 0 <= n < |sb| && b[n] == x;
          assert sb[n] in sc;
          var m :| 0 <= m < |sc| && sc[m] == s;
          assert c[m] in c;
        }
      }
      SubsetCount(StateSet(b), StateSet(c));
      FewerStates(c);
      assert false;
    }
    k :| 0 <= k < |sb| && sb[k] !in sc;
  }

  lemma {:induction false} FewerStates(cases: seq<Compared>)
    ensures |StateSet(cases)| <= |cases| && (|StateSet(cases)| == |cases| ==> DistinctStates(cases))
    decreases |cases|
  {
    if cases != [] {
      var front, last := cases[..|cases| - 1], cases[|cases| - 1];
      assert cases == front + [last];
      FewerStates(front);
      StatesSnoc(front, last);
      hide StateSet;
      if |StateSet(cases)| == |cases| { AddsState(front, last); }
    }
  }

  lemma AddsState(front: seq<Compared>, last: Compared)
    requires DistinctStates(front) && last.artifact.initialState !in StateSet(front)
    ensures DistinctStates(front + [last])
  {
    assert forall i :: 0 <= i < |front| ==> front[i] in front;
  }

  lemma Repeated(states: seq<string>) returns (i: nat)
    requires !Distinct(states)
    ensures i < |states| && exists j :: i < j < |states| && states[j] == states[i]
  {
    var x, y :| 0 <= x < y < |states| && states[x] == states[y];
    i := x;
  }

  /** EXACTLY WHEN THE COUNTS ARE REDUNDANT.  Over sides that are as long, and of which the baseline
      knows every state of the candidate, the comparison of counts refuses nothing of its own,
      whatever is ready, if and only if no side repeats a state. */
  lemma CountsRedundantExactly(sb: seq<string>, sc: seq<string>)
    requires |sb| == |sc| && forall s <- sc :: s in sb
    ensures CountsRedundant(sb, sc) <==> Distinct(sb) && Distinct(sc)
  {
    if Distinct(sb) && Distinct(sc) {
      forall b, c | InitialStates(b) == sb && InitialStates(c) == sc && NoneRegresses(b, c) ensures ReadyCount(b) <= ReadyCount(c) {
        StatesAgree(b, sb);
        StatesAgree(c, sc);
        AggregateIsRedundant(b, c);
      }
    } else {
      var i: nat;
      if !Distinct(sb) { i := Repeated(sb); } else { i := Unanswered(sb, sc); }
      HiddenMark(sb, sc, i, -1);
      CountMarked(sb, i);
      CountMarked(sc, -1);
    }
  }

  // ----- pairing -----

  lemma {:induction false} CountUpdate(cases: seq<Compared>, p: nat, x: Compared)
    requires p < |cases|
    ensures ReadyCount(cases[p := x]) + (if cases[p].assessment.ready then 1 else 0) == ReadyCount(cases) + if x.assessment.ready then 1 else 0
    decreases |cases|
  {
    var n := |cases| - 1;
    if p == n {
      assert cases[p := x][..n] == cases[..n];
    } else {
      assert cases[p := x][..n] == cases[..n][p := x];
      CountUpdate(cases[..n], p, x);
    }
  }

  lemma {:induction false} CountAll(cases: seq<Compared>)
    ensures ReadyCount(cases) <= |cases|
    ensures (forall x <- cases :: x.assessment.ready) ==> ReadyCount(cases) == |cases|
    ensures ReadyCount(cases) > 0 ==> exists p :: 0 <= p < |cases| && cases[p].assessment.ready
    decreases |cases|
  {
    if cases != [] {
      var front := cases[..|cases| - 1];
      CountAll(front);
      if ReadyCount(front) > 0 {
        var p :| 0 <= p < |front| && front[p].assessment.ready;
        assert cases[p].assessment.ready;
      }
      assert forall x <- front :: x in cases;
    }
  }

  /** A baseline case the last candidate case may be paired with, when the counts do not drop. */
  lemma Partner(b: seq<Compared>, c: seq<Compared>) returns (p: nat)
    requires |b| == |c| > 0 && ReadyCount(b) <= ReadyCount(c)
    ensures p < |b| && (b[p].assessment.ready ==> c[|c| - 1].assessment.ready)
    ensures !b[p].assessment.ready && c[|c| - 1].assessment.ready ==> ReadyCount(b) == 0
  {
    var last := c[|c| - 1];
    CountAll(b);
    CountAll(c[..|c| - 1]);
    p := 0;
    if last.assessment.ready {
      if ReadyCount(b) > 0 { p :| 0 <= p < |b| && b[p].assessment.ready; }
    } else {
      var x :| x in b && !x.assessment.ready;
      p :| 0 <= p < |b| && b[p] == x;
    }
  }

  /** The pairing `g` of all candidate cases but the last, where the last baseline case stands at `p`;
      and the last candidate case paired with the case that stood there. */
  function Grown(g: seq<nat>, p: nat): (f: seq<nat>)
    ensures |f| == |g| + 1 && f[|g|] == p
    ensures forall i :: 0 <= i < |g| ==> f[i] == if g[i] == p then |g| else g[i]
  {
    seq(|g|, i requires 0 <= i < |g| => if g[i] == p then |g| else g[i]) + [p]
  }

  lemma GrownIsOntoAndOneToOne(g: seq<nat>, p: nat)
    requires p <= |g| && forall i :: 0 <= i < |g| ==> g[i] < |g|
    requires forall i, j :: 0 <= i < j < |g| ==> g[i] != g[j]
    requires forall k :: 0 <= k < |g| ==> k in g
    ensures forall i, j :: 0 <= i < j <= |g| ==> Grown(g, p)[i] != Grown(g, p)[j]
    ensures forall k :: 0 <= k <= |g| ==> k in Grown(g, p)
  {
    var f, n := Grown(g, p), |g|;
    forall k | 0 <= k <= n ensures k in f {
      if k == p {
        assert f[n] == k;
      } else {
        var wanted := if k == n then p else k;
        assert wanted in g;
        var i :| 0 <= i < n && g[i] == wanted;
        assert f[i] == k;
      }
    }
  }

  lemma PairsGrow(b: seq<Compared>, c: seq<Compared>, g: seq<nat>, p: nat)
    requires |b| == |c| == |g| + 1 && p <= |g| && Pairs(g, b[p := b[|g|]][..|g|], c[..|g|])
    requires b[p].artifact.initialState == c[|g|].artifact.initialState
    requires b[p].assessment.ready ==> c[|g|].assessment.ready
    ensures Pairs(Grown(g, p), b, c)
  {
    var f, n := Grown(g, p), |g|;
    var b', c' := b[p := b[n]][..n], c[..n];
    GrownIsOntoAndOneToOne(g, p);
    forall i | 0 <= i < n ensures f[i] < |b| && b[f[i]] == b'[g[i]] && c[i] == c'[i] {
      assert g[i] < |b'|;
    }
  }

  /** Cases of one state can be paired as soon as the counts do not drop. */
  lemma {:induction false} PairOneState(b: seq<Compared>, c: seq<Compared>, s: string) returns (f: seq<nat>)
    requires |b| == |c| && ReadyCount(b) <= ReadyCount(c)
    requires (forall i :: 0 <= i < |b| ==> b[i].artifact.initialState == s)
    requires (forall i :: 0 <= i < |c| ==> c[i].artifact.initialState == s)
    ensures Pairs(f, b, c)
    decreases |c|
  {
    if c == [] { return []; }
    hide Pairs, NoneRegresses, ReadyCount;
    var n := |c| - 1;
    var p := Partner(b, c);
    CountUpdate(b, p, b[n]);
    var g := PairOneState(b[p := b[n]][..n], c[..n], s);
    assert |g| == n by { PairsLength(g, b[p := b[n]][..n], c[..n]); }
    PairsGrow(b, c, g, p);
    f := Grown(g, p);
  }

  lemma PairsLength(f: seq<nat>, b: seq<Compared>, c: seq<Compared>)
    requires Pairs(f, b, c)
    ensures |f| == |c|
  {
  }

  /** The candidate case that a pairing gives a baseline case. */
  lemma PairedCase(f: seq<nat>, b: seq<Compared>, c: seq<Compared>, k: nat) returns (n: nat)
    requires Pairs(f, b, c) && k < |b|
    ensures n < |c| && c[n].artifact.initialState == b[k].artifact.initialState
    ensures b[k].assessment.ready ==> c[n].assessment.ready
  {
    assert k in f;
    n :| 0 <= n < |f| && f[n] == k;
  }

  /** A state nobody answers cannot be paired, though both sides pass if nothing is ready. */
  lemma {:induction false} UnansweredNotPaired(sb: seq<string>, sc: seq<string>, k: nat)
    requires (forall s <- sc :: s in sb) && k < |sb| && sb[k] !in sc
    ensures !AlwaysPaired(sb, sc)
  {
    hide Pairs, NoneRegresses, ReadyCount;
    var b, c := Marked(sb, -1), Marked(sc, -1);
    HiddenMark(sb, sc, -1, -1);
    CountMarked(sb, -1);
    CountMarked(sc, -1);
    forall f ensures !Pairs(f, b, c) {
      if Pairs(f, b, c) {
        var n := PairedCase(f, b, c, k);
        assert false;
      }
    }
  }

  /** A ready case hidden behind another one of its state can only be paired with the one ready case of
      the candidate, which is of another state. */
  lemma {:induction false} HiddenNotPaired(sb: seq<string>, sc: seq<string>, i: nat, m: nat)
    requires (forall s <- sc :: s in sb) && i < |sb| && m < |sc| && sc[m] != sb[i]
    requires exists j :: i < j < |sb| && sb[j] == sb[i]
    ensures !AlwaysPaired(sb, sc)
  {
    hide Pairs, NoneRegresses, ReadyCount;
    var b, c := Marked(sb, i), Marked(sc, m);
    HiddenMark(sb, sc, i, m);
    CountMarked(sb, i);
    CountMarked(sc, m);
    forall f ensures !Pairs(f, b, c) {
      if Pairs(f, b, c) {
        var n := PairedCase(f, b, c, i);
        assert false;
      }
    }
  }

  lemma NotPaired(sb: seq<string>, sc: seq<string>)
    requires |sb| == |sc| && (forall s <- sc :: s in sb) && !OneState(sb) && !(Distinct(sb) && Distinct(sc))
    ensures !AlwaysPaired(sb, sc)
  {
    hide AlwaysPaired;
    if k: nat :| k < |sb| && sb[k] !in sc {
      UnansweredNotPaired(sb, sc, k);
    } else if Distinct(sb) {
      var k := Unanswered(sb, sc);
      assert false;
    } else {
      var i := Repeated(sb);
      var m := OtherState(sb, sc, i);
      HiddenNotPaired(sb, sc, i, m);
    }
  }

  lemma OtherState(sb: seq<string>, sc: seq<string>, i: nat) returns (m: nat)
    requires i < |sb| && !OneState(sb) && forall k :: 0 <= k < |sb| ==> sb[k] in sc
    ensures m < |sc| && sc[m] != sb[i]
  {
    var x, y :| 0 <= x < y < |sb| && sb[x] != sb[y];
    var k := if sb[x] == sb[i] then y else x;
    assert sb[k] in sc;
    m :| 0 <= m < |sc| && sc[m] == sb[k];
  }

  /** EXACTLY WHEN PASSING IS A PAIRING.  Over such sides, whatever is ready, passing pairs the cases
      one to one with nothing ready becoming unready if and only if no side repeats a state, or there
      is but one. */
  lemma PairedExactly(sb: seq<string>, sc: seq<string>)
    requires |sb| == |sc| && forall s <- sc :: s in sb
    ensures AlwaysPaired(sb, sc) <==> (Distinct(sb) && Distinct(sc)) || OneState(sb)
  {
    if (Distinct(sb) && Distinct(sc)) || OneState(sb) {
      forall b, c | InitialStates(b) == sb && InitialStates(c) == sc && Passes(b, c) ensures exists f :: Pairs(f, b, c) {
        var f := PairedIf(b, c, sb, sc);
      }
    } else {
      NotPaired(sb, sc);
    }
  }

  lemma PairedIf(b: seq<Compared>, c: seq<Compared>, sb: seq<string>, sc: seq<string>) returns (f: seq<nat>)
    requires InitialStates(b) == sb && InitialStates(c) == sc && Passes(b, c) && |sb| == |sc|
    requires (Distinct(sb) && Distinct(sc)) || OneState(sb)
    requires forall s <- sc :: s in sb
    ensures Pairs(f, b, c)
  {
    if Distinct(sb) && Distinct(sc) {
      StatesAgree(b, sb);
      StatesAgree(c, sc);
      f := PairDistinct(b, c);
    } else {
      var s := if sb == [] then "" else sb[0];
      forall i | 0 <= i < |c| ensures c[i].artifact.initialState == s {
        assert sc[i] in sc && sc[i] in sb;
      }
      f := PairOneState(b, c, s);
    }
  }

  /** BOTH CLAUSES TOGETHER.  Evidence that is comparable and does not regress, over a corpus that
      repeats no case or is all one case, pairs the cases of the corpus with nothing becoming unready;
      and over any other corpus the clauses do not promise it. */
  lemma {:induction false} ClausesTogether(identity: Identity, required: string, candidate: Candidate, e: ComparisonEvidence, corpus: seq<string>)
    requires Injective(identity) && identity(corpus) == e.comparison.corpus
    requires Comparable(identity, required, candidate, Some(e)) && NotRegressed(required, candidate, Some(e))
    ensures Distinct(corpus) || OneState(corpus) ==> exists f :: Pairs(f, e.baseline, e.candidate)
    ensures !Distinct(corpus) && !OneState(corpus) ==> !AlwaysPaired(corpus, corpus)
  {
    hide Pairs, NoneRegresses, ReadyCount, AlwaysPaired, CasesFit;
    ComparableSidesAlign(identity, required, candidate, e, corpus);
    if Distinct(corpus) || OneState(corpus) { var f := PairedIf(e.baseline, e.candidate, corpus, corpus); }
    if !Distinct(corpus) && !OneState(corpus) { NotPaired(corpus, corpus); }
  }
}
