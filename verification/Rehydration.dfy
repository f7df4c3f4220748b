/** The stored projection of a result, and finding out whether it is one: an execution is run again
    and what it gives has to be what the store holds. */
module Rehydration {
  import opened Ast
  import opened Spine
  import opened SortedTexts
  import Q = Queue

  // ----- what is stored -----

  datatype SealedCheckpoint = SealedCheckpoint(key: string, checkpointID: string, artifactID: string, digest: string,
                                               stateDigest: string, canonical: string, invariantDigest: string, invariantWitness: string)

  datatype StoredAssessment = StoredAssessment(id: string, digest: string, artifactID: string, profileID: string, profileKey: string,
                                               ready: bool, missing: seq<string>, canonical: string)

  datatype StoredFailure = StoredFailure(integrity: bool, code: string)

  datatype ExecutionResult = ExecutionResult(
    tenant: string, execution: string, status: Q.Status, spineStatus: SpineStatus, finalStateDigest: string,
    journalPrefix: string, inputID: string, worldID: string, acceptedRules: seq<string>,
    checkpoints: seq<SealedCheckpoint>, assessments: seq<StoredAssessment>, failure: Option<StoredFailure>)

  datatype ExecutionRequest = ExecutionRequest(tenant: string, execution: string, run: string, plan: string, input: string)

  /** The digest of an accepted history, which is bound to its run. */
  type Prefixes = (Binding, Journal) -> string

  // ----- the projection -----

  function StoredCheckpoint(a: Artifact): SealedCheckpoint {
    SealedCheckpoint(a.key, a.checkpointID, a.id, a.digest, a.content.stateDigest, a.content.canonical,
                     a.content.invariantDigest, a.content.invariantWitness)
  }

  /** The codes some entity does not satisfy. */
  function Unsatisfied(a: Assessment): set<string> {
    set e, r | e in a.entities && r in e && !r.satisfied :: r.code
  }

  /** The key of a kept profile; the last one of an identity stands for it. */
  function ProfileKey(ps: seq<Profile>, id: string): string {
    if ps == [] then "" else if ps[|ps| - 1].id == id then ps[|ps| - 1].key else ProfileKey(ps[..|ps| - 1], id)
  }

  /** What is stored of a checkpoint: its key, its identities, and everything it commits to. */
  predicate IsStoredCheckpoint(a: Artifact, s: SealedCheckpoint) {
    && s.key == a.key && s.checkpointID == a.checkpointID && s.artifactID == a.id && s.digest == a.digest
    && s.stateDigest == a.content.stateDigest && s.canonical == a.content.canonical
    && s.invariantDigest == a.content.invariantDigest && s.invariantWitness == a.content.invariantWitness
  }

  ghost predicate IsStoredAssessment(ps: seq<Profile>, a: Assessment, s: StoredAssessment) {
    && s.id == a.id && s.digest == a.digest && s.artifactID == a.checkpointID && s.profileID == a.profileID
    && s.profileKey == ProfileKey(ps, a.profileID) && s.ready == a.ready && s.canonical == a.canonical
    && Sorted(s.missing) && Elements(s.missing) == Unsatisfied(a)
  }

  /** The identities a result has are those the request claims; an invalid plan has none. */
  predicate ClaimAgrees(request: ExecutionRequest, r: SpineResult) {
    r.binding.Some? ==>
      (r.binding.value.runID != "" ==> r.binding.value.runID == request.run)
      && (r.binding.value.executionID != "" ==> r.binding.value.executionID == request.execution)
  }

  ghost predicate IsProjection(prefixes: Prefixes, request: ExecutionRequest, r: SpineResult, p: ExecutionResult) {
    && ClaimAgrees(request, r)
    && p.tenant == request.tenant && p.execution == request.execution && p.spineStatus == r.status
    && p.status == (if r.status == SpineSucceeded then Q.Succeeded else Q.FailedStatus)
    && p.finalStateDigest == (if r.state.Some? then r.state.value.digest else "")
    && p.journalPrefix == (if r.binding.Some? && r.journal.Some? then prefixes(r.binding.value, r.journal.value) else "")
    && p.inputID == (if r.binding.Some? then r.binding.value.inputID else "")
    && p.worldID == (if r.binding.Some? then r.binding.value.worldID else "")
    && p.acceptedRules == (if r.journal.Some? then r.journal.value.entries else [])
    && |p.checkpoints| == |r.checkpoints|
    && (forall i :: 0 <= i < |r.checkpoints| ==> IsStoredCheckpoint(r.checkpoints[i], p.checkpoints[i]))
    && |p.assessments| == |r.assessments|
    && (forall i :: 0 <= i < |r.assessments| ==> IsStoredAssessment(r.profiles, r.assessments[i], p.assessments[i]))
    && p.failure == (if r.failure.Some? then Some(StoredFailure(r.failure.value.IntegrityFailure?, r.failure.value.code)) else None)
  }

  method MissingRequirements(a: Assessment) returns (codes: seq<string>)
    ensures Sorted(codes) && Elements(codes) == Unsatisfied(a)
  {
    var seen: set<string> := {};
    for i := 0 to |a.entities|
      invariant seen == set e, r | e in a.entities[..i] && r in e && !r.satisfied :: r.code
    {
      ghost var before := seen;
      var entity := a.entities[i];
      for j := 0 to |entity|
        invariant seen == before + set r | r in entity[..j] && !r.satisfied :: r.code
      {
        assert entity[..j + 1] == entity[..j] + [entity[j]];
        if !entity[j].satisfied {
          seen := seen + {entity[j].code};
        }
      }
      assert entity[..|entity|] == entity;
      OneMoreEntity(a.entities, i);
    }
    assert a.entities[..|a.entities|] == a.entities;
    codes := SortedKeys(seen);
  }

  lemma OneMoreEntity(es: seq<seq<Spine.Requirement>>, i: nat)
    requires i < |es|
    ensures (set e, r | e in es[..i + 1] && r in e && !r.satisfied :: r.code)
         == (set e, r | e in es[..i] && r in e && !r.satisfied :: r.code) + (set r | r in es[i] && !r.satisfied :: r.code)
  {
    assert es[..i + 1] == es[..i] + [es[i]];
    assert es[i] in es[..i + 1] && forall e :: e in es[..i] ==> e in es[..i + 1];
  }

  method Project(prefixes: Prefixes, request: ExecutionRequest, r: SpineResult) returns (p: Option<ExecutionResult>)
    ensures p.Some? <==> ClaimAgrees(request, r)
    ensures p.Some? ==> IsProjection(prefixes, request, r, p.value)
  {
    if r.binding.Some? && r.binding.value.runID != "" && r.binding.value.runID != request.run { return None; }
    if r.binding.Some? && r.binding.value.executionID != "" && r.binding.value.executionID != request.execution { return None; }
    var checkpoints: seq<SealedCheckpoint> := [];
    for i := 0 to |r.checkpoints|
      invariant |checkpoints| == i && forall j :: 0 <= j < i ==> IsStoredCheckpoint(r.checkpoints[j], checkpoints[j])
    {
      checkpoints := checkpoints + [StoredCheckpoint(r.checkpoints[i])];
    }
    var keys: map<string, string> := map[];
    for i := 0 to |r.profiles|
      invariant forall id :: (if id in keys then keys[id] else "") == ProfileKey(r.profiles[..i], id)
    {
      assert r.profiles[..i + 1][..i] == r.profiles[..i];
      keys := keys[r.profiles[i].id := r.profiles[i].key];
    }
    assert r.profiles[..|r.profiles|] == r.profiles;
    var assessments: seq<StoredAssessment> := [];
    for i := 0 to |r.assessments|
      invariant |assessments| == i && forall j :: 0 <= j < i ==> IsStoredAssessment(r.profiles, r.assessments[j], assessments[j])
    {
      var a := r.assessments[i];
      var missing := MissingRequirements(a);
      var key := if a.profileID in keys then keys[a.profileID] else "";
      assessments := assessments + [StoredAssessment(a.id, a.digest, a.checkpointID, a.profileID, key, a.ready, missing, a.canonical)];
    }
    p := Some(ExecutionResult(
      request.tenant, request.execution, if r.status == SpineSucceeded then Q.Succeeded else Q.FailedStatus, r.status,
      if r.state.Some? then r.state.value.digest else "",
      if r.binding.Some? && r.journal.Some? then prefixes(r.binding.value, r.journal.value) else "",
      if r.binding.Some? then r.binding.value.inputID else "", if r.binding.Some? then r.binding.value.worldID else "",
      if r.journal.Some? then r.journal.value.entries else [], checkpoints, assessments,
      if r.failure.Some? then Some(StoredFailure(r.failure.value.IntegrityFailure?, r.failure.value.code)) else None));
  }

  /** A result has one projection. */
  lemma ProjectionIsUnique(prefixes: Prefixes, request: ExecutionRequest, r: SpineResult, p: ExecutionResult, q: ExecutionResult)
    requires IsProjection(prefixes, request, r, p) && IsProjection(prefixes, request, r, q)
    ensures p == q
  {
    forall i | 0 <= i < |r.assessments| ensures p.assessments[i] == q.assessments[i] {
      assert IsStoredAssessment(r.profiles, r.assessments[i], p.assessments[i]);
      assert IsStoredAssessment(r.profiles, r.assessments[i], q.assessments[i]);
      SortedIsUnique(p.assessments[i].missing, q.assessments[i].missing);
    }
    forall i | 0 <= i < |r.checkpoints| ensures p.checkpoints[i] == q.checkpoints[i] {
      assert IsStoredCheckpoint(r.checkpoints[i], p.checkpoints[i]) && IsStoredCheckpoint(r.checkpoints[i], q.checkpoints[i]);
    }
    assert p.checkpoints == q.checkpoints && p.assessments == q.assessments;
  }

  // ----- divergence -----

  /** The first field at which two results differ. */
  datatype Field = Named(name: string) | InCheckpoint(index: nat, name: string) | InAssessment(index: nat, name: string)

  function CheckpointDivergence(a: SealedCheckpoint, b: SealedCheckpoint): string {
    if a.key != b.key then "checkpointKey"
    else if a.checkpointID != b.checkpointID then "checkpointID"
    else if a.artifactID != b.artifactID then "checkpointArtifactID"
    else if a.digest != b.digest then "digest"
    else if a.stateDigest != b.stateDigest then "stateDigest"
    else if a.canonical != b.canonical then "canonicalBytes"
    else if a.invariantDigest != b.invariantDigest then "invariantResultDigest"
    else if a.invariantWitness != b.invariantWitness then "invariantResultCanonicalBytes"
    else ""
  }

  function AssessmentDivergence(a: StoredAssessment, b: StoredAssessment): string {
    if a.id != b.id then "assessmentID"
    else if a.digest != b.digest then "digest"
    else if a.artifactID != b.artifactID then "checkpointArtifactID"
    else if a.profileID != b.profileID then "profileID"
    else if a.profileKey != b.profileKey then "profileKey"
    else if a.ready != b.ready then "verdict"
    else if a.missing != b.missing then "missingRequirements"
    else if a.canonical != b.canonical then "canonicalBytes"
    else ""
  }

  function FailureDivergence(a: Option<StoredFailure>, b: Option<StoredFailure>): string {
    if a.None? && b.None? then ""
    else if a.None? || b.None? then "failure.presence"
    else if a.value.integrity != b.value.integrity then "failure.kind"
    else if a.value.code != b.value.code then "failure.code"
    else ""
  }

  function FirstCheckpoint(a: seq<SealedCheckpoint>, b: seq<SealedCheckpoint>, i: nat): Option<Field>
    requires i <= |a| == |b|
    decreases |a| - i
  {
    if i == |a| then None
    else if CheckpointDivergence(a[i], b[i]) != "" then Some(InCheckpoint(i, CheckpointDivergence(a[i], b[i])))
    else FirstCheckpoint(a, b, i + 1)
  }

  function FirstAssessment(a: seq<StoredAssessment>, b: seq<StoredAssessment>, i: nat): Option<Field>
    requires i <= |a| == |b|
    decreases |a| - i
  {
    if i == |a| then None
    else if AssessmentDivergence(a[i], b[i]) != "" then Some(InAssessment(i, AssessmentDivergence(a[i], b[i])))
    else FirstAssessment(a, b, i + 1)
  }

  function ScalarDivergence(a: ExecutionResult, b: ExecutionResult): string {
    if a.tenant != b.tenant then "tenantID"
    else if a.execution != b.execution then "executionID"
    else if a.status != b.status then "status"
    else if a.spineStatus != b.spineStatus then "spineStatus"
    else if a.finalStateDigest != b.finalStateDigest then "finalStateDigest"
    else if a.journalPrefix != b.journalPrefix then "journalPrefixDigest"
    else if a.inputID != b.inputID then "inputID"
    else if a.worldID != b.worldID then "worldID"
    else if a.acceptedRules != b.acceptedRules then "acceptedRules"
    else FailureDivergence(a.failure, b.failure)
  }

  function Divergence(a: ExecutionResult, b: ExecutionResult): Option<Field> {
    if ScalarDivergence(a, b) != "" then Some(Named(ScalarDivergence(a, b)))
    else if |a.checkpoints| != |b.checkpoints| then Some(Named("checkpoints.length"))
    else if FirstCheckpoint(a.checkpoints, b.checkpoints, 0).Some? then FirstCheckpoint(a.checkpoints, b.checkpoints, 0)
    else if |a.assessments| != |b.assessments| then Some(Named("assessments.length"))
    else FirstAssessment(a.assessments, b.assessments, 0)
  }

  lemma {:induction false} NoCheckpointDiffers(a: seq<SealedCheckpoint>, b: seq<SealedCheckpoint>, i: nat)
    requires i <= |a| == |b|
    ensures FirstCheckpoint(a, b, i) == None <==> a[i..] == b[i..]
    decreases |a| - i
  {
    if i < |a| {
      NoCheckpointDiffers(a, b, i + 1);
      assert a[i..] == [a[i]] + a[i + 1..] && b[i..] == [b[i]] + b[i + 1..];
      assert CheckpointDivergence(a[i], b[i]) == "" <==> a[i] == b[i];
    }
  }

  lemma {:induction false} NoAssessmentDiffers(a: seq<StoredAssessment>, b: seq<StoredAssessment>, i: nat)
    requires i <= |a| == |b|
    ensures FirstAssessment(a, b, i) == None <==> a[i..] == b[i..]
    decreases |a| - i
  {
    if i < |a| {
      NoAssessmentDiffers(a, b, i + 1);
      assert a[i..] == [a[i]] + a[i + 1..] && b[i..] == [b[i]] + b[i + 1..];
      assert AssessmentDivergence(a[i], b[i]) == "" <==> a[i] == b[i];
    }
  }

  /** EVERY FIELD COUNTS.  No divergence is reported exactly when the two results are equal. */
  lemma DivergenceIsEquality(a: ExecutionResult, b: ExecutionResult)
    ensures Divergence(a, b) == None <==> a == b
  {
    if |a.checkpoints| == |b.checkpoints| {
      NoCheckpointDiffers(a.checkpoints, b.checkpoints, 0);
      assert a.checkpoints[0..] == a.checkpoints && b.checkpoints[0..] == b.checkpoints;
    }
    if |a.assessments| == |b.assessments| {
      NoAssessmentDiffers(a.assessments, b.assessments, 0);
      assert a.assessments[0..] == a.assessments && b.assessments[0..] == b.assessments;
    }
    hide FirstCheckpoint, FirstAssessment;
    assert FailureDivergence(a.failure, b.failure) == "" <==> a.failure == b.failure;
  }

  predicate CheckpointDiffers(name: string, a: SealedCheckpoint, b: SealedCheckpoint) {
    match name
    case "checkpointKey" => a.key != b.key
    case "checkpointID" => a.checkpointID != b.checkpointID
    case "checkpointArtifactID" => a.artifactID != b.artifactID
    case "digest" => a.digest != b.digest
    case "stateDigest" => a.stateDigest != b.stateDigest
    case "canonicalBytes" => a.canonical != b.canonical
    case "invariantResultDigest" => a.invariantDigest != b.invariantDigest
    case "invariantResultCanonicalBytes" => a.invariantWitness != b.invariantWitness
    case _ => false
  }

  predicate AssessmentDiffers(name: string, a: StoredAssessment, b: StoredAssessment) {
    match name
    case "assessmentID" => a.id != b.id
    case "digest" => a.digest != b.digest
    case "checkpointArtifactID" => a.artifactID != b.artifactID
    case "profileID" => a.profileID != b.profileID
    case "profileKey" => a.profileKey != b.profileKey
    case "verdict" => a.ready != b.ready
    case "missingRequirements" => a.missing != b.missing
    case "canonicalBytes" => a.canonical != b.canonical
    case _ => false
  }

  predicate ResultDiffers(name: string, a: ExecutionResult, b: ExecutionResult) {
    match name
    case "tenantID" => a.tenant != b.tenant
    case "executionID" => a.execution != b.execution
    case "status" => a.status != b.status
    case "spineStatus" => a.spineStatus != b.spineStatus
    case "finalStateDigest" => a.finalStateDigest != b.finalStateDigest
    case "journalPrefixDigest" => a.journalPrefix != b.journalPrefix
    case "inputID" => a.inputID != b.inputID
    case "worldID" => a.worldID != b.worldID
    case "acceptedRules" => a.acceptedRules != b.acceptedRules
    case "failure.presence" => a.failure.Some? != b.failure.Some?
    case "failure.kind" => a.failure.Some? && b.failure.Some? && a.failure.value.integrity != b.failure.value.integrity
    case "failure.code" => a.failure.Some? && b.failure.Some? && a.failure.value.code != b.failure.value.code
    case "checkpoints.length" => |a.checkpoints| != |b.checkpoints|
    case "assessments.length" => |a.assessments| != |b.assessments|
    case _ => false
  }

  /** What two results hold under a field is not the same. */
  predicate DiffersAt(f: Field, a: ExecutionResult, b: ExecutionResult) {
    match f
    case Named(name) => ResultDiffers(name, a, b)
    case InCheckpoint(i, name) => i < |a.checkpoints| == |b.checkpoints| && CheckpointDiffers(name, a.checkpoints[i], b.checkpoints[i])
    case InAssessment(i, name) => i < |a.assessments| == |b.assessments| && AssessmentDiffers(name, a.assessments[i], b.assessments[i])
  }

  lemma {:induction false} CheckpointFieldDiffers(a: seq<SealedCheckpoint>, b: seq<SealedCheckpoint>, i: nat)
    requires i <= |a| == |b|
    ensures var f := FirstCheckpoint(a, b, i);
            f.Some? ==> f.value.InCheckpoint? && f.value.index < |a| && CheckpointDiffers(f.value.name, a[f.value.index], b[f.value.index])
    decreases |a| - i
  {
    if i < |a| { CheckpointFieldDiffers(a, b, i + 1); }
  }

  lemma {:induction false} AssessmentFieldDiffers(a: seq<StoredAssessment>, b: seq<StoredAssessment>, i: nat)
    requires i <= |a| == |b|
    ensures var f := FirstAssessment(a, b, i);
            f.Some? ==> f.value.InAssessment? && f.value.index < |a| && AssessmentDiffers(f.value.name, a[f.value.index], b[f.value.index])
    decreases |a| - i
  {
    if i < |a| { AssessmentFieldDiffers(a, b, i + 1); }
  }

  /** A reported divergence is one, of the field that it names. */
  lemma DivergenceDiffers(a: ExecutionResult, b: ExecutionResult)
    ensures Divergence(a, b).Some? ==> DiffersAt(Divergence(a, b).value, a, b)
  {
    ScalarDiffers(a, b);
    if |a.checkpoints| == |b.checkpoints| { CheckpointFieldDiffers(a.checkpoints, b.checkpoints, 0); }
    if |a.assessments| == |b.assessments| { AssessmentFieldDiffers(a.assessments, b.assessments, 0); }
    hide FirstCheckpoint, FirstAssessment, ScalarDivergence, CheckpointDiffers, AssessmentDiffers;
  }

  lemma ScalarDiffers(a: ExecutionResult, b: ExecutionResult)
    ensures ScalarDivergence(a, b) != "" ==> ResultDiffers(ScalarDivergence(a, b), a, b)
  {
  }

  /** Of the stored identities, those the projection copies from the claim have to be derived too. */
  function RequestDivergence(request: ExecutionRequest, r: SpineResult): string {
    if r.plan.None? || r.plan.value.id != request.plan then "request.planID"
    else if r.binding.None? || r.binding.value.runID == "" || r.binding.value.runID != request.run then "request.semanticRunID"
    else if r.binding.value.executionID == "" || r.binding.value.executionID != request.execution then "request.executionID"
    else ""
  }

  // ----- rehydration -----

  datatype Record = Record(request: ExecutionRequest, status: Q.Status, result: Option<ExecutionResult>)

  /** What a store answers to a read. */
  datatype Fetched<T> = Unreadable | Missing | Found(value: T)

  /** The stored record, the stored plan, and what running its stored inputs again gives; the run is
      deterministic, so it is a function of them. */
  datatype Stores = Stores(record: Fetched<Record>, plan: Fetched<string>, rerun: (string, string) -> (SpineResult, Option<Cause>))

  datatype Rehydrated =
    | ContextEnded
    | RecordUnreadable
    | PlanUnreadable
    | NotThere
    | NotFinished
    | NeverAttempted
    | Verified(result: SpineResult)
    | LifecycleInconsistent
    | PlanAbsent
    | CouldNotRerun(cause: Cause)
    | ClaimDiverged(identity: string)
    | ResultDiverged(field: Field)

  /** A finished execution with a result is what there is to verify. */
  predicate Finished(record: Record) {
    (record.status == Q.Succeeded || record.status == Q.FailedStatus) && record.result.Some?
  }

  /** The identities of a claim are derived again: the plan, the run and the execution. */
  predicate Derived(request: ExecutionRequest, r: SpineResult) {
    && r.plan.Some? && r.plan.value.id == request.plan
    && r.binding.Some? && r.binding.value.runID == request.run != "" && r.binding.value.executionID == request.execution != ""
  }

  method Rehydrate(done: bool, prefixes: Prefixes, stores: Stores) returns (o: Rehydrated)
    ensures o.Verified? <==> !done && Faithful(prefixes, stores)
    ensures o.ContextEnded? <==> done
    ensures !done ==> (o.RecordUnreadable? <==> stores.record.Unreadable?) && (o.NotThere? <==> stores.record.Missing?)
    ensures !done && stores.record.Found? ==>
      var record := stores.record.value;
      && (o.NotFinished? <==> (record.status == Q.Pending || record.status == Q.Running) && record.result.None?)
      && (o.NeverAttempted? <==> record.status == Q.FailedStatus && record.result.None?)
      && (o.PlanUnreadable? <==> Finished(record) && stores.plan.Unreadable?)
      && (o.PlanAbsent? <==> Finished(record) && stores.plan.Missing?)
      && (o.LifecycleInconsistent? <==> !o.NotFinished? && !o.NeverAttempted? && !Finished(record))
    ensures !done && stores.record.Found? && Finished(stores.record.value) && stores.plan.Found? ==>
      var (r, err) := stores.rerun(stores.plan.value, stores.record.value.request.input);
      && (if err.Some? then o == CouldNotRerun(err.value) else !o.CouldNotRerun?)
      && (o.ClaimDiverged? <==> err.None? && !Derived(stores.record.value.request, r))
    ensures o.ClaimDiverged? ==>
      var request := stores.record.value.request;
      var r := stores.rerun(stores.plan.value, request.input).0;
      match o.identity
      case "request.planID" => r.plan.None? || r.plan.value.id != request.plan
      case "request.semanticRunID" => r.binding.None? || r.binding.value.runID == "" || r.binding.value.runID != request.run
      case "request.executionID" => r.binding.Some? && (r.binding.value.executionID == "" || r.binding.value.executionID != request.execution)
      case _ => false
    ensures o.ResultDiverged? ==> exists p ::
      && IsProjection(prefixes, stores.record.value.request, stores.rerun(stores.plan.value, stores.record.value.request.input).0, p)
      && DiffersAt(o.field, p, stores.record.value.result.value)
    ensures o.Verified? ==> o.result == stores.rerun(stores.plan.value, stores.record.value.request.input).0
  {
    if done { return ContextEnded; }
    if stores.record.Unreadable? { return RecordUnreadable; }
    if stores.record.Missing? { return NotThere; }
    var record := stores.record.value;
    match Q.ClassifyLifecycle(record.status, record.result) {
      case Inconsistent => return LifecycleInconsistent;
      case StillPending => return NotFinished;
      case Unattempted => return NeverAttempted;
      case ToVerify =>
    }
    if stores.plan.Unreadable? { return PlanUnreadable; }
    if stores.plan.Missing? { return PlanAbsent; }
    var (result, err) := stores.rerun(stores.plan.value, record.request.input);
    if err.Some? { return CouldNotRerun(err.value); }
    var field := RequestDivergence(record.request, result);
    if field != "" { return ClaimDiverged(field); }
    var projected := Project(prefixes, record.request, result);
    if projected.None? { return ClaimDiverged("request"); }
    DivergenceIsEquality(projected.value, record.result.value);
    DivergenceDiffers(projected.value, record.result.value);
    hide DiffersAt, Divergence, IsProjection;
    var diverged := Divergence(projected.value, record.result.value);
    if diverged.Some? {
      if IsProjection(prefixes, record.request, result, record.result.value) {
        ProjectionIsUnique(prefixes, record.request, result, projected.value, record.result.value);
      }
      return ResultDiverged(diverged.value);
    }
    return Verified(result);
  }

  /** What the store holds is what its inputs give: the claimed identities are derived from them, and
      the stored result is the projection of the result. */
  ghost predicate Faithful(prefixes: Prefixes, stores: Stores) {
    && stores.record.Found? && stores.plan.Found?
    && var record := stores.record.value;
       var (r, err) := stores.rerun(stores.plan.value, record.request.input);
       && Finished(record) && err == None && Derived(record.request, r)
       && IsProjection(prefixes, record.request, r, record.result.value)
  }

  /** What the worker stores about a finished run is found faithful later, and nothing else is. */
  lemma FaithfulIsWhatWasWritten(prefixes: Prefixes, stores: Stores, written: ExecutionResult)
    requires stores.record.Found? && stores.plan.Found? && stores.record.value.result.Some?
    requires var record := stores.record.value;
             var (r, err) := stores.rerun(stores.plan.value, record.request.input);
             err == None && Derived(record.request, r) && IsProjection(prefixes, record.request, r, written)
             && (record.status == Q.Succeeded || record.status == Q.FailedStatus)
    ensures Faithful(prefixes, stores) <==> stores.record.value.result == Some(written)
  {
    var record := stores.record.value;
    var r := stores.rerun(stores.plan.value, record.request.input).0;
    if Faithful(prefixes, stores) {
      ProjectionIsUnique(prefixes, record.request, r, record.result.value, written);
    }
  }

  // ----- receipts and publication -----

  datatype Receipt = Receipt(execution: string, run: string, checkpoint: string)

  predicate Retains(r: SpineResult, a: Artifact) {
    exists c <- r.checkpoints :: c.id == a.id && c.digest == a.digest
  }

  method ReceiptFor(r: SpineResult, a: Artifact) returns (receipt: Option<Receipt>)
    ensures receipt.Some? <==>
      r.binding.Some? && r.binding.value.executionID != "" && r.binding.value.runID != "" && a.id != "" && Retains(r, a)
    ensures receipt.Some? ==> receipt.value == Receipt(r.binding.value.executionID, r.binding.value.runID, a.id)
  {
    if r.binding.None? || r.binding.value.executionID == "" || r.binding.value.runID == "" || a.id == "" { return None; }
    for i := 0 to |r.checkpoints|
      invariant forall j :: 0 <= j < i ==> r.checkpoints[j].id != a.id || r.checkpoints[j].digest != a.digest
    {
      assert r.checkpoints[i] in r.checkpoints;
      if r.checkpoints[i].id == a.id && r.checkpoints[i].digest == a.digest {
        return Some(Receipt(r.binding.value.executionID, r.binding.value.runID, a.id));
      }
    }
    return None;
  }

  datatype Publishable = Publishable(checkpoint: Artifact, assessment: Assessment, receipt: Receipt)

  /** The first checkpoint of a key. */
  ghost predicate IsFirstCheckpoint(cs: seq<Artifact>, key: string, i: nat) {
    i < |cs| && cs[i].key == key && forall j :: 0 <= j < i ==> cs[j].key != key
  }

  /** The first assessment of a checkpoint under a profile. */
  ghost predicate IsFirstAssessment(xs: seq<Assessment>, checkpoint: string, profile: string, k: nat) {
    && k < |xs| && xs[k].checkpointID == checkpoint && xs[k].profileID == profile
    && forall j :: 0 <= j < k ==> xs[j].checkpointID != checkpoint || xs[j].profileID != profile
  }

  /** An execution, the first checkpoint of the key, and its first assessment under the profile, all of
      them with an identity. */
  ghost predicate IsEvidence(r: SpineResult, key: string, profile: string, i: nat, k: nat) {
    && r.binding.Some? && r.binding.value.executionID != "" && r.binding.value.runID != ""
    && IsFirstCheckpoint(r.checkpoints, key, i) && r.checkpoints[i].id != ""
    && IsFirstAssessment(r.assessments, r.checkpoints[i].id, profile, k) && r.assessments[k].id != ""
  }

  /** The evidence for one checkpoint of a verified rehydration, under one profile. */
  method PublishableOf(o: Rehydrated, key: string, profile: string) returns (p: Option<Publishable>)
    ensures p.Some? <==> o.Verified? && o.result.plan.Some? && exists i: nat, k: nat :: IsEvidence(o.result, key, profile, i, k)
    ensures p.Some? ==> forall i: nat, k: nat :: IsEvidence(o.result, key, profile, i, k) ==>
      var r := o.result;
      p.value == Publishable(r.checkpoints[i], r.assessments[k],
                             Receipt(r.binding.value.executionID, r.binding.value.runID, r.checkpoints[i].id))
  {
    if !o.Verified? || o.result.plan.None? { return None; }
    var r := o.result;
    var n := |r.checkpoints|;
    for i := 0 to |r.checkpoints|
      invariant n == |r.checkpoints| && forall j :: 0 <= j < i ==> r.checkpoints[j].key != key
    {
      if r.checkpoints[i].key == key {
        n := i;
        break;
      }
    }
    if n == |r.checkpoints| || r.checkpoints[n].id == "" { return None; }
    var artifact := r.checkpoints[n];
    var m := |r.assessments|;
    for k := 0 to |r.assessments|
      invariant m == |r.assessments|
      invariant forall j :: 0 <= j < k ==> r.assessments[j].checkpointID != artifact.id || r.assessments[j].profileID != profile
    {
      if r.assessments[k].checkpointID == artifact.id && r.assessments[k].profileID == profile {
        m := k;
        break;
      }
    }
    if m == |r.assessments| || r.assessments[m].id == "" { return None; }
    var receipt := ReceiptFor(r, artifact);
    assert artifact in r.checkpoints;
    if receipt.None? { return None; }
    assert IsEvidence(r, key, profile, n, m);
    p := Some(Publishable(artifact, r.assessments[m], receipt.value));
  }

  datatype PublishRequest = PublishRequest(tenant: string, customer: string, target: string, checkpoint: Artifact, assessment: Assessment, receipt: Receipt)

  /** Refuses a request whose record could not be audited. */
  predicate ValidPublishRequest(p: PublishRequest) {
    && p.tenant != "" && p.customer != "" && p.target != ""
    && p.checkpoint.id != "" && p.assessment.id != "" && p.receipt.execution != ""
    && p.receipt.checkpoint == p.checkpoint.id && p.receipt.run == p.checkpoint.runID
  }

  /** EXCLUDED IS NEVER PUBLISHED.  What a run sealed and its result does not retain has no receipt from
      that execution, so no request pairing the two is valid. */
  lemma ExcludedIsNeverPublished(r: SpineResult, sealed: seq<Artifact>, assessed: seq<Assessment>, excluded: Artifact,
                                 p: PublishRequest, minted: Artifact)
    requires FrontierOf(sealed, assessed, r) && excluded in sealed && excluded !in r.checkpoints
    requires p.checkpoint.id == excluded.id && Retains(r, minted) && p.receipt.checkpoint == minted.id
    ensures !Retains(r, excluded) && !ValidPublishRequest(p)
  {
    OnlyTheLastIsExcluded(r, sealed, assessed, excluded);
    KeptCheckpoints(sealed, excluded.id);
    var c :| c in r.checkpoints && c.id == minted.id && c.digest == minted.digest;
    assert c.id in CheckpointIDs(r.checkpoints);
    assert minted.id != excluded.id;
    forall d | d in r.checkpoints ensures d.id != excluded.id { assert d.id in CheckpointIDs(r.checkpoints); }
  }

  lemma {:induction false} StaysIfOther(cs: seq<Artifact>, id: string, c: Artifact)
    requires c in cs && c.id != id
    ensures c in WithoutCheckpoint(cs, id)
    decreases |cs|
  {
    var front := cs[..|cs| - 1];
    if c in front { StaysIfOther(front, id, c); }
  }

  /** Such a checkpoint is excluded for its content, by the assessment that ended the run. */
  lemma OnlyTheLastIsExcluded(r: SpineResult, sealed: seq<Artifact>, assessed: seq<Assessment>, excluded: Artifact)
    requires FrontierOf(sealed, assessed, r) && excluded in sealed && excluded !in r.checkpoints
    ensures excluded.id == sealed[|sealed| - 1].id && r.failure.Some? && !Spine.Verified(r.failure.value, excluded.id)
  {
    var last := sealed[|sealed| - 1];
    if excluded.id != last.id { StaysIfOther(sealed, last.id, excluded); }
  }
}
