/** Promotion evidence: what a comparison is answered with, and the clauses that check it. */
module Evidence {

  datatype Artifact = Artifact(id: string, checkpoint: string, world: string, initialState: string, invariants: string)
  datatype Assessment = Assessment(id: string, artifact: string, profile: string, ready: bool)
  datatype Compared = Compared(artifact: Artifact, assessment: Assessment)

  datatype Comparison = Comparison(id: string, corpus: string, world: string, profile: string, baseline: string,
                                   candidate: string, baselinePlan: string, candidatePlan: string)

  datatype ComparisonEvidence = ComparisonEvidence(comparison: Comparison, baseline: seq<Compared>, candidate: seq<Compared>)

  datatype ClauseResult = Passed | Failed | Unestablished

  /** The checkpoint under consideration, and the profile its target requires. */
  datatype Candidate = Candidate(id: string, checkpoint: string)

  function InitialStates(cases: seq<Compared>): (r: seq<string>)
    ensures |r| == |cases|
    ensures forall i :: 0 <= i < |cases| ==> r[i] == cases[i].artifact.initialState
  {
    seq(|cases|, i requires 0 <= i < |cases| => cases[i].artifact.initialState)
  }
}
