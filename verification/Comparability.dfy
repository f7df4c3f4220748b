/** Comparability: both sides answer the question the comparison names. */
module Comparability {
  import opened Ast
  import opened Evidence

  /** How a corpus is identified: by the digests of its cases in order. */
  type Identity = seq<string> -> string

  predicate VerifyCorpusIdentity(identity: Identity, digests: seq<string>, corpus: string) {
    digests != [] && corpus != "" && identity(digests) == corpus
  }

  predicate Supplied(c: Compared) {
    c.artifact.id != "" && c.assessment.id != ""
  }

  /** The artifact and its assessment belong to this side of the comparison. */
  predicate Belongs(c: Compared, checkpoint: string, comparison: Comparison) {
    && c.artifact.checkpoint == checkpoint && c.artifact.world == comparison.world
    && c.assessment.artifact == c.artifact.id && c.assessment.profile == comparison.profile
  }

  ghost predicate Covers(identity: Identity, cases: seq<Compared>, checkpoint: string, comparison: Comparison) {
    && (forall c <- cases :: Supplied(c) && Belongs(c, checkpoint, comparison))
    && VerifyCorpusIdentity(identity, InitialStates(cases), comparison.corpus)
  }

  method SideCovers(identity: Identity, cases: seq<Compared>, checkpoint: string, comparison: Comparison) returns (r: ClauseResult, ok: bool)
    ensures ok <==>
      && (forall c <- cases ::
            && c.artifact.id != "" && c.artifact.checkpoint == checkpoint && c.artifact.world == comparison.world
            && c.assessment.id != "" && c.assessment.artifact == c.artifact.id && c.assessment.profile == comparison.profile)
      && cases != [] && comparison.corpus != "" && identity(InitialStates(cases)) == comparison.corpus
    ensures ok <==> Covers(identity, cases, checkpoint, comparison)
    ensures !ok ==> r != Passed && (r == Unestablished ==> exists c <- cases :: !Supplied(c))
  {
    var digests: seq<string> := [];
    for i := 0 to |cases|
      invariant digests == InitialStates(cases[..i])
      invariant forall j :: 0 <= j < i ==> Supplied(cases[j]) && Belongs(cases[j], checkpoint, comparison)
    {
      var artifact, assessment := cases[i].artifact, cases[i].assessment;
      assert cases[i] in cases;
      if artifact.id == "" || assessment.id == "" {
        return Unestablished, false;
      }
      if artifact.checkpoint != checkpoint {
        return Failed, false;
      }
      if artifact.world != comparison.world {
        return Failed, false;
      }
      if assessment.artifact != artifact.id {
        return Failed, false;
      }
      if assessment.profile != comparison.profile {
        return Failed, false;
      }
      digests := digests + [artifact.initialState];
      assert cases[..i + 1] == cases[..i] + [cases[i]];
    }
    assert cases[..|cases|] == cases;
    if !VerifyCorpusIdentity(identity, digests, comparison.corpus) {
      return Failed, false;
    }
    return Passed, true;
  }

  ghost predicate Comparable(identity: Identity, required: string, candidate: Candidate, evidence: Option<ComparisonEvidence>) {
    && candidate.id != "" && evidence.Some? && required != ""
    && var e := evidence.value;
       && e.comparison.id != "" && e.comparison.profile == required && candidate.checkpoint == e.comparison.candidate
       && Covers(identity, e.baseline, e.comparison.baseline, e.comparison)
       && Covers(identity, e.candidate, e.comparison.candidate, e.comparison)
  }

  /** Passes exactly when each side holds artifacts of its own declaration, in the world and under the profile
      that are compared, and its cases are those of the corpus. */
  method ComparisonCorpus(identity: Identity, required: string, candidate: Candidate, evidence: Option<ComparisonEvidence>)
    returns (r: ClauseResult)
    ensures r == Passed <==> Comparable(identity, required, candidate, evidence)
    ensures r == Passed <==>
      && candidate.id != "" && evidence.Some?
      && var e, c := evidence.value, evidence.value.comparison;
         && c.id != "" && c.profile == required != "" && candidate.checkpoint == c.candidate && c.corpus != ""
         && e.baseline != [] && e.candidate != []
         && identity(InitialStates(e.baseline)) == c.corpus && identity(InitialStates(e.candidate)) == c.corpus
         && (forall x <- e.baseline ::
               && x.artifact.id != "" && x.artifact.checkpoint == c.baseline && x.artifact.world == c.world
               && x.assessment.id != "" && x.assessment.artifact == x.artifact.id && x.assessment.profile == required)
         && (forall x <- e.candidate ::
               && x.artifact.id != "" && x.artifact.checkpoint == c.candidate && x.artifact.world == c.world
               && x.assessment.id != "" && x.assessment.artifact == x.artifact.id && x.assessment.profile == required)
    ensures r == Failed ==> candidate.id != "" && evidence.Some? && evidence.value.comparison.id != "" && evidence.value.comparison.profile == required
  {
    if candidate.id == "" || evidence.None? { return Unestablished; }
    var comparison := evidence.value.comparison;
    if comparison.id == "" || required == "" { return Unestablished; }
    if comparison.profile != required { return Unestablished; }
    if candidate.checkpoint != comparison.candidate { return Failed; }
    if evidence.value.baseline == [] { return Unestablished; }
    var result, ok := SideCovers(identity, evidence.value.baseline, comparison.baseline, comparison);
    if !ok { return result; }
    if evidence.value.candidate == [] { return Unestablished; }
    result, ok := SideCovers(identity, evidence.value.candidate, comparison.candidate, comparison);
    if !ok { return result; }
    return Passed;
  }

  ghost predicate Injective(identity: Identity) {
    forall a, b :: identity(a) == identity(b) ==> a == b
  }

  /** Two sides that are comparable ran the same cases in the same order: those of the corpus. */
  lemma ComparableSidesAlign(identity: Identity, required: string, candidate: Candidate, e: ComparisonEvidence, corpus: seq<string>)
    requires Injective(identity) && identity(corpus) == e.comparison.corpus
    requires Comparable(identity, required, candidate, Some(e))
    ensures InitialStates(e.baseline) == corpus && InitialStates(e.candidate) == corpus
    ensures |e.baseline| == |e.candidate| == |corpus|
  {
  }
}
