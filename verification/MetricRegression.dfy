/** No regression of readiness from the baseline to the candidate. */
module MetricRegression {
  import opened Ast
  import opened Evidence

  /** A case may be counted: its artifacts are there, with verified invariants. */
  predicate Countable(c: Compared) {
    c.artifact.id != "" && c.assessment.id != "" && c.artifact.invariants != ""
  }

  function ReadyCount(cases: seq<Compared>): nat {
    if cases == [] then 0
    else ReadyCount(cases[..|cases| - 1]) + if cases[|cases| - 1].assessment.ready then 1 else 0
  }

  /** The cases by initial state; the last one of a state stands for it. */
  function ByInitialState(cases: seq<Compared>): (m: map<string, Compared>)
    ensures forall d :: d in m <==> exists i :: 0 <= i < |cases| && cases[i].artifact.initialState == d
  {
    if cases == [] then map[]
    else
      var n := |cases| - 1;
      assert forall i :: 0 <= i < n ==> cases[..n][i] == cases[i];
      ByInitialState(cases[..n])[cases[n].artifact.initialState := cases[n]]
  }

  /** The candidate's case has a baseline case, and is ready if that one is. */
  ghost predicate NoWorse(baseline: seq<Compared>, c: Compared) {
    var m := ByInitialState(baseline);
    c.artifact.initialState in m && (m[c.artifact.initialState].assessment.ready ==> c.assessment.ready)
  }

  ghost predicate CasesFit(cases: seq<Compared>, required: string) {
    forall i :: 0 <= i < |cases| ==> Countable(cases[i]) && cases[i].assessment.profile == required
  }

  ghost predicate NoneRegresses(baseline: seq<Compared>, candidate: seq<Compared>) {
    forall i :: 0 <= i < |candidate| ==> NoWorse(baseline, candidate[i])
  }

  ghost predicate Aligned(required: string, candidate: Candidate, evidence: Option<ComparisonEvidence>) {
    && candidate.id != "" && evidence.Some? && required != ""
    && evidence.value.comparison.id != "" && evidence.value.comparison.profile == required
    && evidence.value.baseline != [] && evidence.value.candidate != []
  }

  ghost predicate NotRegressed(required: string, candidate: Candidate, evidence: Option<ComparisonEvidence>) {
    && Aligned(required, candidate, evidence)
    && var b, c := evidence.value.baseline, evidence.value.candidate;
       && |b| == |c| && CasesFit(b, required) && CasesFit(c, required) && NoneRegresses(b, c)
       && ReadyCount(b) <= ReadyCount(c)
  }

  // ----- the same, case by case -----

  /** The last case of a state. */
  ghost predicate LastOf(cases: seq<Compared>, state: string, k: nat) {
    && k < |cases| && cases[k].artifact.initialState == state
    && forall j :: k < j < |cases| ==> cases[j].artifact.initialState != state
  }

  /** The last baseline case of the same state is there, and is not ready, or this one is. */
  ghost predicate StaysReady(baseline: seq<Compared>, c: Compared) {
    exists k: nat :: LastOf(baseline, c.artifact.initialState, k) && (baseline[k].assessment.ready ==> c.assessment.ready)
  }

  function ReadyIndices(cases: seq<Compared>): set<nat> {
    set i: nat | i < |cases| && cases[i].assessment.ready
  }

  lemma LastOfSnoc(cases: seq<Compared>, state: string, k: nat)
    requires cases != []
    ensures var n := |cases| - 1;
            LastOf(cases, state, k) <==> if cases[n].artifact.initialState == state then k == n else LastOf(cases[..n], state, k)
  {
  }

  lemma {:induction false} MapHoldsLast(cases: seq<Compared>, state: string)
    ensures var m := ByInitialState(cases);
            && (state in m ==> exists k: nat :: LastOf(cases, state, k))
            && (forall k: nat | LastOf(cases, state, k) :: state in m && k < |cases| && m[state] == cases[k])
    decreases |cases|
  {
    if cases == [] {
      assert forall k: nat :: !LastOf(cases, state, k);
    } else {
      hide LastOf;
      var n := |cases| - 1;
      MapHoldsLast(cases[..n], state);
      forall k: nat ensures LastOf(cases, state, k) <==> if cases[n].artifact.initialState == state then k == n else LastOf(cases[..n], state, k) {
        LastOfSnoc(cases, state, k);
      }
      if state in ByInitialState(cases) && cases[n].artifact.initialState != state {
        var k: nat :| LastOf(cases[..n], state, k);
        assert LastOf(cases, state, k);
      } else {
        assert cases[n].artifact.initialState == state ==> LastOf(cases, state, n);
      }
    }
  }

  lemma {:induction false} ReadyCounted(cases: seq<Compared>)
    ensures ReadyCount(cases) == |ReadyIndices(cases)|
    decreases |cases|
  {
    if cases != [] {
      var n := |cases| - 1;
      ReadyCounted(cases[..n]);
      assert ReadyIndices(cases) == ReadyIndices(cases[..n]) + if cases[n].assessment.ready then {n} else {};
    }
  }

  lemma NoWorseMeans(baseline: seq<Compared>, c: Compared)
    ensures NoWorse(baseline, c) <==> StaysReady(baseline, c)
  {
    MapHoldsLast(baseline, c.artifact.initialState);
  }

  lemma NotRegressedMeans(required: string, candidate: Candidate, e: ComparisonEvidence)
    ensures NotRegressed(required, candidate, Some(e)) <==>
      var b, c := e.baseline, e.candidate;
      && candidate.id != "" && e.comparison.id != "" && e.comparison.profile == required != "" && c != [] && |b| == |c|
      && (forall x <- b + c :: x.artifact.id != "" && x.artifact.invariants != "" && x.assessment.id != "" && x.assessment.profile == required)
      && (forall x <- c :: StaysReady(b, x))
      && |ReadyIndices(b)| <= |ReadyIndices(c)|
  {
    hide NoWorse, StaysReady, ReadyCount, ReadyIndices;
    var b, c := e.baseline, e.candidate;
    ReadyCounted(b);
    ReadyCounted(c);
    forall x | x in c ensures NoWorse(b, x) <==> StaysReady(b, x) { NoWorseMeans(b, x); }
    assert forall x :: x in b + c <==> x in b || x in c;
  }

  lemma NoneReady()
    ensures ByInitialState([]) == map[] && ReadyCount([]) == 0
  {
  }

  lemma OneMoreCase(cases: seq<Compared>, i: nat)
    requires i < |cases|
    ensures ByInitialState(cases[..i + 1]) == ByInitialState(cases[..i])[cases[i].artifact.initialState := cases[i]]
    ensures ReadyCount(cases[..i + 1]) == ReadyCount(cases[..i]) + if cases[i].assessment.ready then 1 else 0
  {
    assert cases[..i + 1][..i] == cases[..i];
  }

  method NoMetricRegression(required: string, candidate: Candidate, evidence: Option<ComparisonEvidence>) returns (r: ClauseResult)
    ensures r == Passed <==> NotRegressed(required, candidate, evidence)
    ensures r == Passed <==>
      && candidate.id != "" && evidence.Some?
      && var e, b, c := evidence.value, evidence.value.baseline, evidence.value.candidate;
         && e.comparison.id != "" && e.comparison.profile == required != "" && c != [] && |b| == |c|
         && (forall x <- b + c :: x.artifact.id != "" && x.artifact.invariants != "" && x.assessment.id != "" && x.assessment.profile == required)
         && (forall x <- c :: StaysReady(b, x))
         && |ReadyIndices(b)| <= |ReadyIndices(c)|
    ensures r == Failed ==> Aligned(required, candidate, evidence)
  {
    hide ByInitialState, ReadyCount, ReadyIndices, StaysReady;
    if evidence.Some? { NotRegressedMeans(required, candidate, evidence.value); }
    if candidate.id == "" || evidence.None? { return Unestablished; }
    var comparison := evidence.value.comparison;
    if comparison.id == "" || required == "" { return Unestablished; }
    if comparison.profile != required { return Unestablished; }
    var b, c := evidence.value.baseline, evidence.value.candidate;
    if |b| == 0 || |c| == 0 { return Unestablished; }
    if |b| != |c| { return Failed; }
    NoneReady();
    assert b[..0] == [];
    var baselineByInitialState: map<string, Compared> := map[];
    var baselineReadyCount := 0;
    for i := 0 to |b|
      invariant baselineByInitialState == ByInitialState(b[..i]) && baselineReadyCount == ReadyCount(b[..i])
      invariant forall j :: 0 <= j < i ==> Countable(b[j]) && b[j].assessment.profile == required
    {
      OneMoreCase(b, i);
      if b[i].artifact.id == "" || b[i].assessment.id == "" { return Unestablished; }
      if b[i].assessment.profile != required { return Failed; }
      if b[i].artifact.invariants == "" { return Unestablished; }
      if b[i].assessment.ready {
        baselineReadyCount := baselineReadyCount + 1;
      }
      baselineByInitialState := baselineByInitialState[b[i].artifact.initialState := b[i]];
    }
    assert b[..|b|] == b && c[..0] == [];
    NoneReady();
    var candidateReadyCount := 0;
    for i := 0 to |c|
      invariant candidateReadyCount == ReadyCount(c[..i])
      invariant forall j :: 0 <= j < i ==> Countable(c[j]) && c[j].assessment.profile == required && NoWorse(b, c[j])
    {
      OneMoreCase(c, i);
      if c[i].artifact.id == "" || c[i].assessment.id == "" { return Unestablished; }
      if c[i].assessment.profile != required { return Failed; }
      if c[i].artifact.invariants == "" { return Unestablished; }
      if c[i].artifact.initialState !in baselineByInitialState { return Failed; }
      var bReady := baselineByInitialState[c[i].artifact.initialState].assessment.ready;
      var cReady := c[i].assessment.ready;
      if cReady {
        candidateReadyCount := candidateReadyCount + 1;
      }
      if bReady && !cReady { return Failed; }
    }
    assert c[..|c|] == c;
    if candidateReadyCount < baselineReadyCount { return Failed; }
    return Passed;
  }

  // ----- what passing means -----

  ghost predicate DistinctStates(cases: seq<Compared>) {
    forall i, j :: 0 <= i < j < |cases| ==> cases[i].artifact.initialState != cases[j].artifact.initialState
  }

  function StateSet(cases: seq<Compared>): set<string> {
    set c | c in cases :: c.artifact.initialState
  }

  function ReadyStates(cases: seq<Compared>): set<string> {
    set c | c in cases && c.assessment.ready :: c.artifact.initialState
  }

  lemma StatesSnoc(front: seq<Compared>, last: Compared)
    ensures StateSet(front + [last]) == StateSet(front) + {last.artifact.initialState}
    ensures ReadyStates(front + [last]) == ReadyStates(front) + if last.assessment.ready then {last.artifact.initialState} else {}
    ensures ReadyStates(front) <= StateSet(front)
  {
    var cases := front + [last];
    assert last in cases;
    forall c | c in front ensures c in cases {}
  }

  lemma {:induction false} CountStates(cases: seq<Compared>)
    requires DistinctStates(cases)
    ensures |StateSet(cases)| == |cases| && |ReadyStates(cases)| == ReadyCount(cases)
    decreases |cases|
  {
    if cases != [] {
      var front, last := cases[..|cases| - 1], cases[|cases| - 1];
      assert cases == front + [last];
      CountStates(front);
      NewState(front, last);
      StatesSnoc(front, last);
      hide StateSet, ReadyStates;
    }
  }

  lemma NewState(front: seq<Compared>, last: Compared)
    requires DistinctStates(front + [last])
    ensures last.artifact.initialState !in StateSet(front)
  {
    forall c | c in front ensures c.artifact.initialState != last.artifact.initialState {
      var i :| 0 <= i < |front| && front[i] == c;
      assert (front + [last])[i] == c && (front + [last])[|front|] == last;
    }
  }

  /** With distinct initial states the map holds each baseline case under its own state. */
  lemma {:induction false} OwnState(cases: seq<Compared>, i: nat)
    requires DistinctStates(cases) && i < |cases|
    ensures cases[i].artifact.initialState in ByInitialState(cases)
    ensures ByInitialState(cases)[cases[i].artifact.initialState] == cases[i]
    decreases |cases|
  {
    var n := |cases| - 1;
    if i < n { OwnState(cases[..n], i); }
  }

  lemma SubsetOfSameSize(a: set<string>, b: set<string>)
    requires a <= b && |a| == |b|
    ensures a == b
  {
    assert |b - a| == 0;
    assert b == a + (b - a);
  }

  lemma SubsetCount(a: set<string>, b: set<string>)
    requires a <= b
    ensures |a| <= |b|
  {
    assert b == a + (b - a);
  }

  /** The states of the two sides are the same, and the ready ones stay ready. */
  lemma SameStates(b: seq<Compared>, c: seq<Compared>)
    requires DistinctStates(b) && DistinctStates(c) && |b| == |c| && NoneRegresses(b, c)
    ensures StateSet(b) == StateSet(c) && ReadyStates(b) <= ReadyStates(c)
  {
    CountStates(b);
    CountStates(c);
    forall s | s in StateSet(c) ensures s in StateSet(b) {
      var x :| x in c && x.artifact.initialState == s;
      var i :| 0 <= i < |c| && c[i] == x;
      assert NoWorse(b, c[i]);
      var j :| 0 <= j < |b| && b[j].artifact.initialState == s;
      assert b[j] in b;
    }
    SubsetOfSameSize(StateSet(c), StateSet(b));
    forall s | s in ReadyStates(b) ensures s in ReadyStates(c) {
      var x :| x in b && x.assessment.ready && x.artifact.initialState == s;
      var j :| 0 <= j < |b| && b[j] == x;
      assert s in StateSet(b);
      var y :| y in c && y.artifact.initialState == s;
      var i :| 0 <= i < |c| && c[i] == y;
      OwnState(b, j);
      assert NoWorse(b, c[i]);
    }
  }

  /** THE AGGREGATE IS REDUNDANT.  Over distinct initial states the comparison of counts can never be
      what refuses: it follows from the comparison case by case. */
  lemma AggregateIsRedundant(b: seq<Compared>, c: seq<Compared>)
    requires DistinctStates(b) && DistinctStates(c) && |b| == |c| && NoneRegresses(b, c)
    ensures ReadyCount(b) <= ReadyCount(c)
  {
    SameStates(b, c);
    CountStates(b);
    CountStates(c);
    SubsetCount(ReadyStates(b), ReadyStates(c));
  }

  /** A one-to-one pairing of the candidate's cases with those of the baseline, state by state, in
      which nothing ready becomes unready. */
  ghost predicate Pairs(f: seq<nat>, b: seq<Compared>, c: seq<Compared>) {
    && |f| == |c| && (forall i :: 0 <= i < |f| ==> f[i] < |b|)
    && (forall i :: 0 <= i < |f| ==> b[f[i]].artifact.initialState == c[i].artifact.initialState)
    && (forall i :: 0 <= i < |f| ==> (b[f[i]].assessment.ready ==> c[i].assessment.ready))
    && (forall i, j :: 0 <= i < j < |f| ==> f[i] != f[j])
    && (forall k :: 0 <= k < |b| ==> k in f)
  }

  lemma PairDistinct(b: seq<Compared>, c: seq<Compared>) returns (f: seq<nat>)
    requires DistinctStates(b) && DistinctStates(c) && |b| == |c| && NoneRegresses(b, c)
    ensures Pairs(f, b, c)
  {
    hide StateSet, ReadyStates, ByInitialState, ReadyCount, NoWorse;
    f := [];
    for n := 0 to |c|
      invariant |f| == n && forall i :: 0 <= i < n ==> f[i] < |b| && b[f[i]].artifact.initialState == c[i].artifact.initialState
      invariant forall i :: 0 <= i < n ==> (b[f[i]].assessment.ready ==> c[i].assessment.ready)
    {
      var j := BaselineOf(b, c, n);
      f := f + [j];
    }
    forall k | 0 <= k < |b| ensures k in f {
      var i := CandidateOf(b, c, k);
      assert f[i] == k;
    }
  }

  /** PASSING IS A BIJECTION.  Over distinct initial states a passing clause pairs every candidate case
      with its own baseline case and every baseline case with its own candidate case, and no pair goes
      from ready to not ready. */
  lemma PassingIsBijection(required: string, candidate: Candidate, e: ComparisonEvidence) returns (f: seq<nat>)
    requires NotRegressed(required, candidate, Some(e)) && DistinctStates(e.baseline) && DistinctStates(e.candidate)
    ensures Pairs(f, e.baseline, e.candidate)
  {
    f := PairDistinct(e.baseline, e.candidate);
  }

  lemma BaselineOf(b: seq<Compared>, c: seq<Compared>, n: nat) returns (j: nat)
    requires DistinctStates(b) && n < |c| && NoneRegresses(b, c)
    ensures j < |b| && b[j].artifact.initialState == c[n].artifact.initialState && (b[j].assessment.ready ==> c[n].assessment.ready)
  {
    assert NoWorse(b, c[n]);
    j :| 0 <= j < |b| && b[j].artifact.initialState == c[n].artifact.initialState;
    OwnState(b, j);
  }

  lemma CandidateOf(b: seq<Compared>, c: seq<Compared>, k: nat) returns (i: nat)
    requires DistinctStates(b) && DistinctStates(c) && |b| == |c| && NoneRegresses(b, c) && k < |b|
    ensures i < |c| && c[i].artifact.initialState == b[k].artifact.initialState
  {
    SameStates(b, c);
    assert b[k] in b && b[k].artifact.initialState in StateSet(b);
    var y :| y in c && y.artifact.initialState == b[k].artifact.initialState;
    i :| 0 <= i < |c| && c[i] == y;
  }

  function Sample(state: string, ready: bool): Compared {
    Compared(Artifact("a", "k", "w", state, "v"), Assessment("s", "a", "p", ready))
  }

  /** Without distinct states it is not: two candidate cases of one state hide the regression of another
      state, and only the counts refuse. */
  lemma AggregateMatters()
    ensures var b, c := [Sample("x", true), Sample("y", false)], [Sample("y", false), Sample("y", false)];
            DistinctStates(b) && |b| == |c| && NoneRegresses(b, c) && ReadyCount(b) > ReadyCount(c)
  {
    var b, c := [Sample("x", true), Sample("y", false)], [Sample("y", false), Sample("y", false)];
    OwnState(b, 1);
    assert b[..1] == [Sample("x", true)] && c[..1] == [Sample("y", false)];
    assert b[..1][..0] == [] && c[..1][..0] == [];
  }

  /** And the clause may pass although a ready case of the baseline was never answered. */
  lemma PassingWithoutBijection(candidate: Candidate, comparison: Comparison)
    requires candidate.id != "" && comparison.id != "" && comparison.profile == "p"
    ensures var b, c := [Sample("x", true), Sample("y", false)], [Sample("y", true), Sample("y", true)];
            && NotRegressed("p", candidate, Some(ComparisonEvidence(comparison, b, c)))
            && "x" in StateSet(b) && "x" !in StateSet(c)
  {
    var b, c := [Sample("x", true), Sample("y", false)], [Sample("y", true), Sample("y", true)];
    OwnState(b, 1);
    assert b[..1] == [Sample("x", true)] && c[..1] == [Sample("y", true)];
    assert b[..1][..0] == [] && c[..1][..0] == [];
    assert b[0] in b;
  }
}
