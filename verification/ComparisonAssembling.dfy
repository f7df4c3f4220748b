/** Gathering the evidence of a comparison, case by case in the order of its corpus. */
module ComparisonAssembling {
  import opened Ast
  import opened Evidence
  import opened Comparability

  datatype MissingReason = NotExecuted | NotAnswered | NotAttempted | CheckpointNotSealed | NotAssessed

  datatype MissingCase = MissingCase(baseline: bool, digest: string, execution: string, reason: MissingReason)

  /** What re-executing one execution gave. */
  datatype Rehydrated = IntegrityFailure | Absent | Pending | Unattempted | Answered(checkpoints: seq<Artifact>, assessments: seq<Assessment>)

  datatype Side = Side(plan: string, checkpoint: string, executor: string, policy: nat)

  /** The identity a run is bound under, if it can be bound; and what its execution left. */
  datatype Stores = Stores(bind: (Side, string, string) -> Option<string>, rehydrate: string -> Rehydrated)

  /** The first sealed artifact of a declaration. */
  function ArtifactFor(artifacts: seq<Artifact>, checkpoint: string): (r: Option<Artifact>)
    ensures r.Some? ==> r.value in artifacts && r.value.checkpoint == checkpoint
    ensures r.None? ==> forall a <- artifacts :: a.checkpoint != checkpoint
  {
    if artifacts == [] then None
    else if artifacts[0].checkpoint == checkpoint then Some(artifacts[0])
    else ArtifactFor(artifacts[1..], checkpoint)
  }

  function AssessmentFor(assessments: seq<Assessment>, artifact: string, profile: string): (r: Option<Assessment>)
    ensures r.Some? ==> r.value in assessments && r.value.artifact == artifact && r.value.profile == profile
    ensures r.None? ==> forall a <- assessments :: a.artifact != artifact || a.profile != profile
  {
    if assessments == [] then None
    else if assessments[0].artifact == artifact && assessments[0].profile == profile then Some(assessments[0])
    else AssessmentFor(assessments[1..], artifact, profile)
  }

  datatype CaseOutcome = Fault | Missing(reason: MissingReason) | Evidenced(compared: Compared)

  function CaseOf(r: Rehydrated, checkpoint: string, profile: string): CaseOutcome {
    match r
    case IntegrityFailure => Fault
    case Absent => Missing(NotExecuted)
    case Pending => Missing(NotAnswered)
    case Unattempted => Missing(NotAttempted)
    case Answered(checkpoints, assessments) =>
      var artifact := ArtifactFor(checkpoints, checkpoint);
      if artifact.None? || artifact.value.id == "" then Missing(CheckpointNotSealed)
      else
        match AssessmentFor(assessments, artifact.value.id, profile)
        case None => Missing(NotAssessed)
        case Some(a) => Evidenced(Compared(artifact.value, a))
  }

  /** The first artifact of a declaration. */
  ghost predicate FirstArtifact(cs: seq<Artifact>, checkpoint: string, i: nat) {
    i < |cs| && cs[i].checkpoint == checkpoint && forall j :: 0 <= j < i ==> cs[j].checkpoint != checkpoint
  }

  /** The first assessment of an artifact under a profile. */
  ghost predicate FirstAssessment(xs: seq<Assessment>, artifact: string, profile: string, k: nat) {
    && k < |xs| && xs[k].artifact == artifact && xs[k].profile == profile
    && forall j :: 0 <= j < k ==> xs[j].artifact != artifact || xs[j].profile != profile
  }

  /** What one execution has to show for a declaration under a profile, or why it has nothing. */
  ghost predicate Shows(r: Rehydrated, checkpoint: string, profile: string, o: CaseOutcome) {
    match o
    case Fault => r.IntegrityFailure?
    case Missing(NotExecuted) => r.Absent?
    case Missing(NotAnswered) => r.Pending?
    case Missing(NotAttempted) => r.Unattempted?
    case Missing(CheckpointNotSealed) => r.Answered? && forall i: nat :: FirstArtifact(r.checkpoints, checkpoint, i) ==> r.checkpoints[i].id == ""
    case Missing(NotAssessed) =>
      r.Answered? && (exists i: nat ::
        && FirstArtifact(r.checkpoints, checkpoint, i) && r.checkpoints[i].id != ""
        && (forall k: nat :: !FirstAssessment(r.assessments, r.checkpoints[i].id, profile, k)))
    case Evidenced(c) =>
      r.Answered? && (exists i: nat, k: nat ::
        && FirstArtifact(r.checkpoints, checkpoint, i) && c.artifact == r.checkpoints[i] && c.artifact.id != ""
        && FirstAssessment(r.assessments, c.artifact.id, profile, k) && c.assessment == r.assessments[k])
  }

  lemma {:induction false} ArtifactIsFirst(cs: seq<Artifact>, checkpoint: string)
    ensures ArtifactFor(cs, checkpoint).Some? ==> exists i: nat :: FirstArtifact(cs, checkpoint, i) && cs[i] == ArtifactFor(cs, checkpoint).value
    ensures ArtifactFor(cs, checkpoint).None? ==> forall i: nat :: !FirstArtifact(cs, checkpoint, i)
    decreases |cs|
  {
    if cs != [] {
      if cs[0].checkpoint == checkpoint {
        assert FirstArtifact(cs, checkpoint, 0);
      } else {
        ArtifactIsFirst(cs[1..], checkpoint);
        if i: nat :| FirstArtifact(cs[1..], checkpoint, i) && ArtifactFor(cs, checkpoint) == Some(cs[1..][i]) {
          assert FirstArtifact(cs, checkpoint, i + 1);
        }
      }
    }
  }

  lemma {:induction false} AssessmentIsFirst(xs: seq<Assessment>, artifact: string, profile: string)
    ensures AssessmentFor(xs, artifact, profile).Some? ==>
      exists k: nat :: FirstAssessment(xs, artifact, profile, k) && xs[k] == AssessmentFor(xs, artifact, profile).value
    ensures AssessmentFor(xs, artifact, profile).None? ==> forall k: nat :: !FirstAssessment(xs, artifact, profile, k)
    decreases |xs|
  {
    if xs != [] {
      if xs[0].artifact == artifact && xs[0].profile == profile {
        assert FirstAssessment(xs, artifact, profile, 0);
      } else {
        AssessmentIsFirst(xs[1..], artifact, profile);
        if k: nat :| FirstAssessment(xs[1..], artifact, profile, k) && AssessmentFor(xs, artifact, profile) == Some(xs[1..][k]) {
          assert FirstAssessment(xs, artifact, profile, k + 1);
        }
      }
    }
  }

  lemma OneFirst(cs: seq<Artifact>, checkpoint: string, i: nat, j: nat)
    requires FirstArtifact(cs, checkpoint, i) && FirstArtifact(cs, checkpoint, j)
    ensures i == j
  {
  }

  lemma OneFirstAssessment(xs: seq<Assessment>, artifact: string, profile: string, i: nat, j: nat)
    requires FirstAssessment(xs, artifact, profile, i) && FirstAssessment(xs, artifact, profile, j)
    ensures i == j
  {
  }

  lemma OutcomeShows(r: Rehydrated, checkpoint: string, profile: string)
    ensures Shows(r, checkpoint, profile, CaseOf(r, checkpoint, profile))
  {
    hide FirstArtifact, FirstAssessment, ArtifactFor, AssessmentFor;
    if r.Answered? {
      ArtifactIsFirst(r.checkpoints, checkpoint);
      forall i: nat, j: nat | FirstArtifact(r.checkpoints, checkpoint, i) && FirstArtifact(r.checkpoints, checkpoint, j) ensures i == j {
        OneFirst(r.checkpoints, checkpoint, i, j);
      }
      if ArtifactFor(r.checkpoints, checkpoint).Some? {
        AssessmentIsFirst(r.assessments, ArtifactFor(r.checkpoints, checkpoint).value.id, profile);
      }
    }
  }

  /** ONE OUTCOME.  An execution shows one thing for a declaration under a profile, and the case is that. */
  lemma OneOutcome(r: Rehydrated, checkpoint: string, profile: string, o: CaseOutcome)
    ensures Shows(r, checkpoint, profile, o) <==> o == CaseOf(r, checkpoint, profile)
  {
    OutcomeShows(r, checkpoint, profile);
    if Shows(r, checkpoint, profile, o) { ShowsOne(r, checkpoint, profile, o, CaseOf(r, checkpoint, profile)); }
  }

  lemma ShowsOne(r: Rehydrated, checkpoint: string, profile: string, o: CaseOutcome, o': CaseOutcome)
    requires Shows(r, checkpoint, profile, o) && Shows(r, checkpoint, profile, o')
    ensures o == o'
  {
    hide FirstArtifact, FirstAssessment;
    if r.Answered? {
      forall i: nat, j: nat | FirstArtifact(r.checkpoints, checkpoint, i) && FirstArtifact(r.checkpoints, checkpoint, j) ensures i == j {
        OneFirst(r.checkpoints, checkpoint, i, j);
      }
      forall a, i: nat, j: nat | FirstAssessment(r.assessments, a, profile, i) && FirstAssessment(r.assessments, a, profile, j) ensures i == j {
        OneFirstAssessment(r.assessments, a, profile, i, j);
      }
    }
  }

  method AssembleCase(stores: Stores, execution: string, checkpoint: string, profile: string) returns (o: CaseOutcome)
    ensures o == CaseOf(stores.rehydrate(execution), checkpoint, profile)
    ensures Shows(stores.rehydrate(execution), checkpoint, profile, o)
  {
    OutcomeShows(stores.rehydrate(execution), checkpoint, profile);
    var rehydrated := stores.rehydrate(execution);
    match rehydrated {
      case IntegrityFailure => return Fault;
      case Absent => return Missing(NotExecuted);
      case Pending => return Missing(NotAnswered);
      case Unattempted => return Missing(NotAttempted);
      case Answered(checkpoints, assessments) =>
        var artifact: Option<Artifact> := None;
        assert checkpoints[0..] == checkpoints;
        for i := 0 to |checkpoints|
          invariant artifact == None && ArtifactFor(checkpoints, checkpoint) == ArtifactFor(checkpoints[i..], checkpoint)
        {
          assert checkpoints[i..][0] == checkpoints[i] && checkpoints[i..][1..] == checkpoints[i + 1..];
          if checkpoints[i].checkpoint == checkpoint {
            artifact := Some(checkpoints[i]);
            break;
          }
        }
        if artifact.None? || artifact.value.id == "" {
          return Missing(CheckpointNotSealed);
        }
        assert assessments[0..] == assessments;
        for i := 0 to |assessments|
          invariant AssessmentFor(assessments, artifact.value.id, profile) == AssessmentFor(assessments[i..], artifact.value.id, profile)
        {
          assert assessments[i..][0] == assessments[i] && assessments[i..][1..] == assessments[i + 1..];
          if assessments[i].artifact == artifact.value.id && assessments[i].profile == profile {
            return Evidenced(Compared(artifact.value, assessments[i]));
          }
        }
        return Missing(NotAssessed);
    }
  }

  /** What became of one case of a corpus on one side. */
  function OutcomeOf(stores: Stores, side: Side, c: Comparison, digest: string): CaseOutcome {
    match stores.bind(side, digest, c.world)
    case None => Fault
    case Some(execution) => CaseOf(stores.rehydrate(execution), side.checkpoint, c.profile)
  }

  function CasesOf(stores: Stores, side: Side, c: Comparison, corpus: seq<string>): seq<Compared> {
    if corpus == [] then []
    else
      var rest, last := CasesOf(stores, side, c, corpus[..|corpus| - 1]), OutcomeOf(stores, side, c, corpus[|corpus| - 1]);
      if last.Evidenced? then rest + [last.compared] else rest
  }

  function MissingOf(stores: Stores, side: Side, c: Comparison, corpus: seq<string>, baseline: bool): seq<MissingCase> {
    if corpus == [] then []
    else
      var digest := corpus[|corpus| - 1];
      var rest, last := MissingOf(stores, side, c, corpus[..|corpus| - 1], baseline), OutcomeOf(stores, side, c, digest);
      if last.Missing? then rest + [MissingCase(baseline, digest, stores.bind(side, digest, c.world).value, last.reason)] else rest
  }

  /** Each case of a side is what the execution bound to a case of the corpus shows. */
  ghost predicate Accounts(stores: Stores, side: Side, c: Comparison, corpus: seq<string>, baseline: bool,
                           cases: seq<Compared>, missing: seq<MissingCase>) {
    && (forall x <- cases :: exists d, e :: IsCase(stores, side, c, corpus, d, e) && Shows(stores.rehydrate(e), side.checkpoint, c.profile, Evidenced(x)))
    && (forall m <- missing ::
          && m.baseline == baseline && IsCase(stores, side, c, corpus, m.digest, m.execution)
          && Shows(stores.rehydrate(m.execution), side.checkpoint, c.profile, Missing(m.reason)))
    && |cases| + |missing| == |corpus|
  }

  ghost predicate IsCase(stores: Stores, side: Side, c: Comparison, corpus: seq<string>, digest: string, execution: string) {
    digest in corpus && stores.bind(side, digest, c.world) == Some(execution)
  }

  lemma AccountsMore(stores: Stores, side: Side, c: Comparison, front: seq<string>, digest: string, baseline: bool,
                     cases: seq<Compared>, missing: seq<MissingCase>)
    requires Accounts(stores, side, c, front, baseline, cases, missing) && !OutcomeOf(stores, side, c, digest).Fault?
    ensures var o := OutcomeOf(stores, side, c, digest);
            Accounts(stores, side, c, front + [digest], baseline, if o.Evidenced? then cases + [o.compared] else cases,
                     if o.Missing? then missing + [MissingCase(baseline, digest, stores.bind(side, digest, c.world).value, o.reason)] else missing)
  {
    hide CaseOf, Shows;
    var e := stores.bind(side, digest, c.world).value;
    OutcomeShows(stores.rehydrate(e), side.checkpoint, c.profile);
    forall d, x | IsCase(stores, side, c, front, d, x) ensures IsCase(stores, side, c, front + [digest], d, x) {}
    assert digest in front + [digest];
    assert IsCase(stores, side, c, front + [digest], digest, e);
  }

  lemma {:induction false} SideAccounts(stores: Stores, side: Side, c: Comparison, corpus: seq<string>, baseline: bool)
    requires NoFault(stores, side, c, corpus)
    ensures Accounts(stores, side, c, corpus, baseline, CasesOf(stores, side, c, corpus), MissingOf(stores, side, c, corpus, baseline))
    decreases |corpus|
  {
    hide OutcomeOf, Accounts;
    if corpus == [] {
      NothingToAccount(stores, side, c, baseline);
    } else {
      var front, digest := corpus[..|corpus| - 1], corpus[|corpus| - 1];
      assert corpus == front + [digest] && digest in corpus;
      assert NoFault(stores, side, c, front);
      SideAccounts(stores, side, c, front, baseline);
      AccountsMore(stores, side, c, front, digest, baseline, CasesOf(stores, side, c, front), MissingOf(stores, side, c, front, baseline));
    }
  }

  lemma NothingToAccount(stores: Stores, side: Side, c: Comparison, baseline: bool)
    ensures Accounts(stores, side, c, [], baseline, [], [])
  {
  }

  /** Every case of a corpus can be bound, and none of their executions fails its integrity. */
  ghost predicate Sound(stores: Stores, side: Side, c: Comparison, corpus: seq<string>) {
    forall d <- corpus :: stores.bind(side, d, c.world).Some? && !stores.rehydrate(stores.bind(side, d, c.world).value).IntegrityFailure?
  }

  lemma SoundIsNoFault(stores: Stores, side: Side, c: Comparison, corpus: seq<string>)
    ensures Sound(stores, side, c, corpus) <==> NoFault(stores, side, c, corpus)
  {
    forall d | d in corpus
      ensures OutcomeOf(stores, side, c, d).Fault?
         <==> !(stores.bind(side, d, c.world).Some? && !stores.rehydrate(stores.bind(side, d, c.world).value).IntegrityFailure?)
    {
    }
  }

  predicate NoFault(stores: Stores, side: Side, c: Comparison, corpus: seq<string>) {
    forall d <- corpus :: !OutcomeOf(stores, side, c, d).Fault?
  }

  method AssembleSide(stores: Stores, side: Side, c: Comparison, corpus: seq<string>, baseline: bool)
    returns (ok: bool, cases: seq<Compared>, missing: seq<MissingCase>)
    ensures ok <==> NoFault(stores, side, c, corpus)
    ensures ok <==> Sound(stores, side, c, corpus)
    ensures ok ==> Accounts(stores, side, c, corpus, baseline, cases, missing)
    ensures ok ==> cases == CasesOf(stores, side, c, corpus) && missing == MissingOf(stores, side, c, corpus, baseline)
  {
    hide Accounts, Sound, Shows, CaseOf;
    SoundIsNoFault(stores, side, c, corpus);
    if NoFault(stores, side, c, corpus) { SideAccounts(stores, side, c, corpus, baseline); }
    ok, cases, missing := true, [], [];
    for i := 0 to |corpus|
      invariant ok && forall j :: 0 <= j < i ==> !OutcomeOf(stores, side, c, corpus[j]).Fault?
      invariant cases == CasesOf(stores, side, c, corpus[..i]) && missing == MissingOf(stores, side, c, corpus[..i], baseline)
    {
      assert corpus[..i + 1][..i] == corpus[..i] && corpus[i] in corpus;
      var execution := stores.bind(side, corpus[i], c.world);
      if execution.None? { return false, [], []; }
      var outcome := AssembleCase(stores, execution.value, side.checkpoint, c.profile);
      match outcome {
        case Fault => return false, [], [];
        case Missing(reason) => missing := missing + [MissingCase(baseline, corpus[i], execution.value, reason)];
        case Evidenced(compared) => cases := cases + [compared];
      }
    }
    assert corpus[..|corpus|] == corpus;
  }

  datatype Assembly = Assembly(complete: bool, evidence: Option<ComparisonEvidence>, missing: seq<MissingCase>)

  method AssembleComparison(stores: Stores, c: Comparison, baseline: Side, candidate: Side, corpus: seq<string>)
    returns (r: Option<Assembly>)
    ensures r.Some? <==> NoFault(stores, baseline, c, corpus) && NoFault(stores, candidate, c, corpus)
    ensures r.Some? <==> Sound(stores, baseline, c, corpus) && Sound(stores, candidate, c, corpus)
    ensures r.Some? ==> r.value.missing == MissingOf(stores, baseline, c, corpus, true) + MissingOf(stores, candidate, c, corpus, false)
    ensures r.Some? ==> (r.value.complete <==> r.value.missing == []) && (r.value.complete <==> r.value.evidence.Some?)
    ensures r.Some? && r.value.complete ==>
      var e := r.value.evidence.value;
      && e.comparison == c && Accounts(stores, baseline, c, corpus, true, e.baseline, [])
      && Accounts(stores, candidate, c, corpus, false, e.candidate, [])
    ensures r.Some? && r.value.complete ==>
      r.value.evidence.value == ComparisonEvidence(c, CasesOf(stores, baseline, c, corpus), CasesOf(stores, candidate, c, corpus))
  {
    hide Accounts, Sound;
    var ok, baselineCases, missing := AssembleSide(stores, baseline, c, corpus, true);
    if !ok { return None; }
    var candidateCases, more;
    ok, candidateCases, more := AssembleSide(stores, candidate, c, corpus, false);
    if !ok { return None; }
    missing := missing + more;
    var complete := |missing| == 0;
    r := Some(Assembly(complete, if complete then Some(ComparisonEvidence(c, baselineCases, candidateCases)) else None, missing));
  }

  // ----- what the evidence says -----

  /** Rehydrating an execution gives artifacts of the case and the world it was bound to. */
  ghost predicate Authentic(stores: Stores) {
    forall side, digest, world :: stores.bind(side, digest, world).Some? ==>
      var r := stores.rehydrate(stores.bind(side, digest, world).value);
      r.Answered? ==>
        && (forall a <- r.checkpoints :: a.initialState == digest && a.world == world)
        && (forall a <- r.assessments :: a.id != "")
  }

  function MissingDigests(ms: seq<MissingCase>): (r: seq<string>)
    ensures |r| == |ms|
  {
    seq(|ms|, i requires 0 <= i < |ms| => ms[i].digest)
  }

  lemma DigestsSnoc(cases: seq<Compared>, c: Compared, ms: seq<MissingCase>, m: MissingCase)
    ensures InitialStates(cases + [c]) == InitialStates(cases) + [c.artifact.initialState]
    ensures MissingDigests(ms + [m]) == MissingDigests(ms) + [m.digest]
  {
  }

  lemma EvidencedBelongs(stores: Stores, side: Side, c: Comparison, digest: string)
    requires Authentic(stores) && OutcomeOf(stores, side, c, digest).Evidenced?
    ensures var x := OutcomeOf(stores, side, c, digest).compared;
            Supplied(x) && Belongs(x, side.checkpoint, c) && x.artifact.initialState == digest
  {
  }

  lemma {:induction false} CasesBelong(stores: Stores, side: Side, c: Comparison, corpus: seq<string>)
    requires Authentic(stores)
    ensures forall x <- CasesOf(stores, side, c, corpus) :: Supplied(x) && Belongs(x, side.checkpoint, c)
    decreases |corpus|
  {
    hide OutcomeOf, Authentic, Belongs;
    if corpus != [] {
      CasesBelong(stores, side, c, corpus[..|corpus| - 1]);
      if OutcomeOf(stores, side, c, corpus[|corpus| - 1]).Evidenced? { EvidencedBelongs(stores, side, c, corpus[|corpus| - 1]); }
    }
  }

  /** What the last case of a corpus adds to the two lists. */
  lemma LastCase(stores: Stores, side: Side, c: Comparison, corpus: seq<string>, baseline: bool)
    requires Authentic(stores) && corpus != [] && NoFault(stores, side, c, corpus)
    ensures var front, digest := corpus[..|corpus| - 1], corpus[|corpus| - 1];
            var evidenced := OutcomeOf(stores, side, c, digest).Evidenced?;
            && NoFault(stores, side, c, front)
            && InitialStates(CasesOf(stores, side, c, corpus))
               == InitialStates(CasesOf(stores, side, c, front)) + (if evidenced then [digest] else [])
            && MissingDigests(MissingOf(stores, side, c, corpus, baseline))
               == MissingDigests(MissingOf(stores, side, c, front, baseline)) + (if evidenced then [] else [digest])
            && |MissingOf(stores, side, c, corpus, baseline)| == |MissingOf(stores, side, c, front, baseline)| + (if evidenced then 0 else 1)
  {
    hide Authentic;
    var front, digest := corpus[..|corpus| - 1], corpus[|corpus| - 1];
    var o := OutcomeOf(stores, side, c, digest);
    assert digest in corpus && !o.Fault?;
    var cases, missing := CasesOf(stores, side, c, front), MissingOf(stores, side, c, front, baseline);
    if o.Evidenced? {
      EvidencedBelongs(stores, side, c, digest);
      DigestsSnoc(cases, o.compared, missing, MissingCase(baseline, "", "", NotExecuted));
    } else {
      DigestsSnoc(cases, Compared(Artifact("", "", "", "", ""), Assessment("", "", "", false)), missing,
                  MissingCase(baseline, digest, stores.bind(side, digest, c.world).value, o.reason));
    }
  }

  /** Two lists in the order of a third, which together have what it has; it is the first of them if
      the second is empty. */
  predicate Partitions(states: seq<string>, missing: seq<string>, corpus: seq<string>) {
    && multiset(corpus) == multiset(states) + multiset(missing)
    && Within(states, corpus) && Within(missing, corpus) && (missing == [] ==> states == corpus)
  }

  /** PARTITION.  Each case of the corpus is evidenced or missing, and neither twice nor both; both
      lists follow the order of the corpus. */
  lemma {:induction false} SidePartitionsCorpus(stores: Stores, side: Side, c: Comparison, corpus: seq<string>, baseline: bool)
    requires Authentic(stores) && NoFault(stores, side, c, corpus)
    ensures Partitions(InitialStates(CasesOf(stores, side, c, corpus)), MissingDigests(MissingOf(stores, side, c, corpus, baseline)), corpus)
    decreases |corpus|
  {
    hide Authentic, NoFault, OutcomeOf, CasesOf, MissingOf, InitialStates, MissingDigests;
    if corpus == [] {
      NoCases(stores, side, c, baseline);
    } else {
      var front, digest := corpus[..|corpus| - 1], corpus[|corpus| - 1];
      assert corpus == front + [digest];
      LastCase(stores, side, c, corpus, baseline);
      SidePartitionsCorpus(stores, side, c, front, baseline);
      hide Partitions;
      PartitionsSnoc(InitialStates(CasesOf(stores, side, c, front)), MissingDigests(MissingOf(stores, side, c, front, baseline)), front,
                     digest, OutcomeOf(stores, side, c, digest).Evidenced?);
    }
  }

  lemma PartitionsSnoc(states: seq<string>, missing: seq<string>, front: seq<string>, digest: string, evidenced: bool)
    requires Partitions(states, missing, front)
    ensures Partitions(states + (if evidenced then [digest] else []), missing + (if evidenced then [] else [digest]), front + [digest])
  {
    WithinSnoc(states, front, digest);
    WithinSnoc(missing, front, digest);
    hide Within;
    assert states + [] == states && missing + [] == missing;
  }

  lemma WithinSnoc(s: seq<string>, t: seq<string>, x: string)
    requires Within(s, t)
    ensures Within(s, t + [x]) && Within(s + [x], t + [x])
  {
    assert (t + [x])[..|t|] == t && (s + [x])[..|s|] == s;
  }

  lemma NoCases(stores: Stores, side: Side, c: Comparison, baseline: bool)
    ensures InitialStates(CasesOf(stores, side, c, [])) == [] && MissingDigests(MissingOf(stores, side, c, [], baseline)) == []
  {
  }

  /** The elements of `s` in the order in which `t` has them. */
  predicate Within(s: seq<string>, t: seq<string>)
    decreases |t|
  {
    s == [] ||
    (t != [] && (Within(s, t[..|t| - 1]) || (s[|s| - 1] == t[|t| - 1] && Within(s[..|s| - 1], t[..|t| - 1]))))
  }

  /** COMPLETE EVIDENCE COVERS.  An assembly without missing cases has, on each side, one case for
      every case of the corpus in its order, and passes the clause that checks coverage. */
  lemma CompleteEvidenceCovers(stores: Stores, c: Comparison, baseline: Side, candidate: Side, corpus: seq<string>,
                               identity: Identity, required: string, promoted: Candidate)
    requires Authentic(stores) && NoFault(stores, baseline, c, corpus) && NoFault(stores, candidate, c, corpus)
    requires MissingOf(stores, baseline, c, corpus, true) == [] && MissingOf(stores, candidate, c, corpus, false) == []
    requires baseline.checkpoint == c.baseline && candidate.checkpoint == c.candidate
    requires corpus != [] && identity(corpus) == c.corpus != "" && c.id != ""
    requires promoted.id != "" && promoted.checkpoint == c.candidate && required == c.profile != ""
    ensures var e := ComparisonEvidence(c, CasesOf(stores, baseline, c, corpus), CasesOf(stores, candidate, c, corpus));
            && InitialStates(e.baseline) == corpus && InitialStates(e.candidate) == corpus
            && Comparable(identity, required, promoted, Some(e))
  {
    SidePartitionsCorpus(stores, baseline, c, corpus, true);
    SidePartitionsCorpus(stores, candidate, c, corpus, false);
    CasesBelong(stores, baseline, c, corpus);
    CasesBelong(stores, candidate, c, corpus);
  }
}
