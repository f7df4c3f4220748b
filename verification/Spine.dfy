/** The progressive spine: compile, bind, then for every rule execute, seal and assess. */
module Spine {
  import opened Ast
  import opened Phases

  datatype State = State(digest: string)
  datatype Journal = Journal(entries: seq<string>)
  datatype CheckpointDecl = CheckpointDecl(key: string, after: string)
  datatype Plan = Plan(id: string, rules: seq<string>, checkpoints: seq<CheckpointDecl>)
  datatype Profile = Profile(id: string, key: string)
  datatype Binding = Binding(runID: string, executionID: string, inputID: string, worldID: string)

  /** A sealed checkpoint: its identities, the key and run it was sealed for, and what it commits to. */
  datatype Artifact = Artifact(id: string, digest: string, key: string, checkpointID: string, runID: string, content: Content)
  datatype Content = Content(stateDigest: string, canonical: string, invariantDigest: string, invariantWitness: string)

  datatype Requirement = Requirement(code: string, satisfied: bool)

  /** A readiness answer, with the requirements of each entity it looked at. */
  datatype Assessment = Assessment(id: string, digest: string, checkpointID: string, profileID: string, ready: bool,
                                   entities: seq<seq<Requirement>>, canonical: string)

  /** A failure report; an integrity report may name the last checkpoint it verified. */
  datatype Failure = InvariantFailure(code: string) | IntegrityFailure(code: string, verified: Option<string>)

  datatype Cause = ContextDone | Infrastructure | BadInput | OtherCause

  /** What an operation answers: an error, a typed failure, a value, or neither. */
  datatype Answer<F, V> = Error(cause: Cause) | Rejected(failure: F) | Accepted(value: V) | Contradiction

  /** The answers of the operations that cannot contradict themselves. */
  datatype Outcome = Unable(cause: Cause) | Refused(failure: Failure) | Moved(transition: Transition)
  datatype BindAnswer = Unbound(cause: Cause) | Bound(binding: Binding)

  datatype Transition = Transition(state: State, journal: Journal, invariants: string)

  datatype Request = Request(version: string, transformations: nat, initial: State, world: string, executor: string, policy: nat)

  datatype SealRequest = SealRequest(binding: Binding, key: string, state: State, journal: Journal, invariants: string,
                                     known: seq<Artifact>)

  datatype AssessRequest = AssessRequest(checkpoint: Artifact, state: State, profile: Profile, known: seq<Assessment>)

  datatype Operations = Operations(
    compile: Request -> Answer<string, (Plan, seq<Profile>)>,
    bind: (Plan, Request) -> BindAnswer,
    execute: (Binding, string, State, Journal) -> Outcome,
    seal: SealRequest -> Answer<Failure, Artifact>,
    assess: AssessRequest -> Answer<Failure, Assessment>
  )

  datatype SpineStatus = NoStatus | SpineSucceeded | SpineFailed | SpineInvalidPlan
  datatype ExecutionStatus = NoExecution | ExecutionSucceeded | ExecutionFailed

  datatype SpineResult = SpineResult(
    status: SpineStatus, execution: ExecutionStatus, binding: Option<Binding>, plan: Option<Plan>, profiles: seq<Profile>,
    compilationFailure: Option<string>, failure: Option<Failure>, state: Option<State>, journal: Option<Journal>,
    checkpoints: seq<Artifact>, assessments: seq<Assessment>)

  const NO_ARTIFACT := Artifact("", "", "", "", "", Content("", "", "", ""))

  const NO_TRANSITION := Transition(State(""), Journal([]), "")

  const ZERO_RESULT :=
    SpineResult(NoStatus, NoExecution, None, None, [], None, None, None, None, [], [])

  function Classify(cause: Cause, initialBoundary: bool): PhaseResult {
    match cause
    case ContextDone => Cancelled
    case Infrastructure => InfrastructureUnavailable
    case BadInput => if initialBoundary then InvalidInput else InternalError
    case OtherCause => InternalError
  }

  function ClassifyFailure(f: Failure): PhaseResult {
    if f.IntegrityFailure? then ArtifactIntegrityFailed else ProtectedInvariantFailed
  }

  /** Nothing of a request is left out. */
  predicate Complete(r: Request) {
    r.version != "" && r.transformations != 0 && r.initial.digest != "" && r.world != "" && r.executor != "" && r.policy != 0
  }

  // ----- what a run may retain -----

  function CheckpointIDs(cs: seq<Artifact>): set<string> {
    set c | c in cs :: c.id
  }

  function ProfileIDs(ps: seq<Profile>): set<string> {
    set p | p in ps :: p.id
  }

  /** Every assessment names a checkpoint and a profile that are kept with it. */
  predicate DependencyClosed(r: SpineResult) {
    forall a <- r.assessments :: a.checkpointID in CheckpointIDs(r.checkpoints) && a.profileID in ProfileIDs(r.profiles)
  }

  /** The keys of the checkpoints declared after a rule, among the first `n`. */
  function KeysAfter(plan: Plan, rule: string, n: nat): seq<string>
    requires n <= |plan.checkpoints|
  {
    if n == 0 then []
    else
      var c := plan.checkpoints[n - 1];
      KeysAfter(plan, rule, n - 1) + if c.after == rule then [c.key] else []
  }

  /** The checkpoints of the first `n` rules, in plan order. */
  function KeysUpTo(plan: Plan, n: nat): seq<string>
    requires n <= |plan.rules|
  {
    if n == 0 then [] else KeysUpTo(plan, n - 1) + KeysAfter(plan, plan.rules[n - 1], |plan.checkpoints|)
  }

  function DeclaredKeys(plan: Plan): seq<string> {
    KeysUpTo(plan, |plan.rules|)
  }

  function KeysOf(cs: seq<Artifact>): (r: seq<string>)
    ensures |r| == |cs|
  {
    if cs == [] then [] else KeysOf(cs[..|cs| - 1]) + [cs[|cs| - 1].key]
  }

  /** A checkpoint under every profile of a list. */
  function Row(c: Artifact, ps: seq<Profile>): (r: seq<(string, string)>)
    ensures |r| == |ps|
  {
    if ps == [] then [] else Row(c, ps[..|ps| - 1]) + [(c.id, ps[|ps| - 1].id)]
  }

  /** Every checkpoint under every profile. */
  function Table(cs: seq<Artifact>, ps: seq<Profile>): seq<(string, string)> {
    if cs == [] then [] else Table(cs[..|cs| - 1], ps) + Row(cs[|cs| - 1], ps)
  }

  function Named(xs: seq<Assessment>): (r: seq<(string, string)>)
    ensures |r| == |xs|
  {
    if xs == [] then [] else Named(xs[..|xs| - 1]) + [(xs[|xs| - 1].checkpointID, xs[|xs| - 1].profileID)]
  }

  /** The state and journal after the first `n` rules, if all of them were accepted. */
  function AcceptedAfter(ops: Operations, b: Binding, initial: State, rules: seq<string>, n: nat): Option<(State, Journal)>
    requires n <= |rules|
  {
    if n == 0 then Some((initial, Journal([])))
    else
      match AcceptedAfter(ops, b, initial, rules, n - 1)
      case None => None
      case Some((s, j)) =>
        (match ops.execute(b, rules[n - 1], s, j) case Moved(t) => Some((t.state, t.journal)) case _ => None)
  }

  // ----- what the operations promise -----

  /** A sealed checkpoint carries the key it was sealed for. */
  ghost predicate SealBinds(ops: Operations) {
    forall r :: ops.seal(r).Accepted? ==> ops.seal(r).value.key == r.key
  }

  /** Two checkpoints of a run never share an identity. */
  ghost predicate SealIsFresh(ops: Operations) {
    forall r :: ops.seal(r).Accepted? ==> ops.seal(r).value.id !in CheckpointIDs(r.known)
  }

  /** An assessment names the checkpoint and the profile it was asked about. */
  ghost predicate AssessBinds(ops: Operations) {
    forall r :: ops.assess(r).Accepted? ==>
      ops.assess(r).value.checkpointID == r.checkpoint.id && ops.assess(r).value.profileID == r.profile.id
  }

  // ----- lists -----

  lemma Snoc<T>(s: seq<T>, x: T)
    ensures (s + [x])[..|s + [x]| - 1] == s && (s + [x])[|s + [x]| - 1] == x
  {
  }

  lemma NamedSnoc(xs: seq<Assessment>, a: Assessment)
    ensures Named(xs + [a]) == Named(xs) + [(a.checkpointID, a.profileID)]
  {
    Snoc(xs, a);
  }

  lemma KeysSnoc(cs: seq<Artifact>, c: Artifact)
    ensures KeysOf(cs + [c]) == KeysOf(cs) + [c.key]
  {
    Snoc(cs, c);
  }

  lemma TableSnoc(cs: seq<Artifact>, c: Artifact, ps: seq<Profile>)
    ensures Table(cs + [c], ps) == Table(cs, ps) + Row(c, ps)
  {
    Snoc(cs, c);
  }

  lemma RowSnoc(c: Artifact, ps: seq<Profile>, n: nat)
    requires n < |ps|
    ensures Row(c, ps[..n + 1]) == Row(c, ps[..n]) + [(c.id, ps[n].id)]
  {
    assert ps[..n + 1][..n] == ps[..n];
  }

  lemma RowEnds(c: Artifact, ps: seq<Profile>)
    ensures Row(c, ps[..0]) == [] && Row(c, ps[..|ps|]) == Row(c, ps)
  {
    assert ps[..|ps|] == ps;
  }

  lemma KeysAfterStep(plan: Plan, rule: string, j: nat)
    requires j < |plan.checkpoints|
    ensures KeysAfter(plan, rule, j + 1)
         == KeysAfter(plan, rule, j) + if plan.checkpoints[j].after == rule then [plan.checkpoints[j].key] else []
  {
  }

  lemma {:induction false} RowPrefix(c: Artifact, ps: seq<Profile>, n: nat)
    requires n <= |ps|
    ensures Row(c, ps[..n]) <= Row(c, ps)
    decreases |ps|
  {
    if n == |ps| {
      assert ps[..n] == ps;
    } else {
      assert ps[..|ps| - 1][..n] == ps[..n];
      RowPrefix(c, ps[..|ps| - 1], n);
    }
  }

  lemma {:induction false} KeysAfterGrow(plan: Plan, rule: string, m: nat, n: nat)
    requires m <= n <= |plan.checkpoints|
    ensures KeysAfter(plan, rule, m) <= KeysAfter(plan, rule, n)
    decreases n
  {
    if m < n { KeysAfterGrow(plan, rule, m, n - 1); }
  }

  lemma {:induction false} KeysUpToGrow(plan: Plan, m: nat, n: nat)
    requires m <= n <= |plan.rules|
    ensures KeysUpTo(plan, m) <= KeysUpTo(plan, n)
    decreases n
  {
    if m < n { KeysUpToGrow(plan, m, n - 1); }
  }

  /** What is sealed at a boundary is a prefix of what the plan declares. */
  lemma BoundaryIsPrefix(plan: Plan, i: nat, j: nat)
    requires i < |plan.rules| && j <= |plan.checkpoints|
    ensures KeysUpTo(plan, i) + KeysAfter(plan, plan.rules[i], j) <= DeclaredKeys(plan)
  {
    KeysAfterGrow(plan, plan.rules[i], j, |plan.checkpoints|);
    KeysUpToGrow(plan, i + 1, |plan.rules|);
  }

  lemma {:induction false} NamedAt(xs: seq<Assessment>, i: nat)
    requires i < |xs|
    ensures Named(xs)[i] == (xs[i].checkpointID, xs[i].profileID)
    decreases |xs|
  {
    if i < |xs| - 1 { NamedAt(xs[..|xs| - 1], i); }
  }

  lemma {:induction false} RowMembers(c: Artifact, ps: seq<Profile>)
    ensures forall x <- Row(c, ps) :: x.0 == c.id && x.1 in ProfileIDs(ps)
    decreases |ps|
  {
    if ps != [] {
      RowMembers(c, ps[..|ps| - 1]);
      assert ps[|ps| - 1] in ps;
    }
  }

  lemma {:induction false} TableMembers(cs: seq<Artifact>, ps: seq<Profile>)
    ensures forall x <- Table(cs, ps) :: x.0 in CheckpointIDs(cs) && x.1 in ProfileIDs(ps)
    decreases |cs|
  {
    if cs != [] {
      TableMembers(cs[..|cs| - 1], ps);
      RowMembers(cs[|cs| - 1], ps);
      assert cs[|cs| - 1] in cs;
    }
  }

  /** What the assessments so far name is a prefix of the table, so all of it is kept. */
  lemma PrefixMembers(cs: seq<Artifact>, ps: seq<Profile>, xs: seq<Assessment>)
    requires Named(xs) <= Table(cs, ps)
    ensures forall a <- xs :: a.checkpointID in CheckpointIDs(cs) && a.profileID in ProfileIDs(ps)
  {
    TableMembers(cs, ps);
    forall a | a in xs ensures a.checkpointID in CheckpointIDs(cs) && a.profileID in ProfileIDs(ps) {
      var i :| 0 <= i < |xs| && xs[i] == a;
      NamedAt(xs, i);
      assert Table(cs, ps)[i] == Named(xs)[i];
    }
  }

  // ----- filters -----

  /** The profiles some assessment names, in compiled order. */
  function KeepProfiles(ps: seq<Profile>, used: set<string>): seq<Profile> {
    if ps == [] then []
    else KeepProfiles(ps[..|ps| - 1], used) + if ps[|ps| - 1].id in used then [ps[|ps| - 1]] else []
  }

  /** The failed assessment did verify the checkpoint itself. */
  predicate Verified(f: Failure, id: string) {
    f.IntegrityFailure? && f.verified == Some(id)
  }

  function UsedProfiles(xs: seq<Assessment>): set<string> {
    set a | a in xs :: a.profileID
  }

  function WithoutCheckpoint(cs: seq<Artifact>, id: string): seq<Artifact> {
    if cs == [] then []
    else WithoutCheckpoint(cs[..|cs| - 1], id) + if cs[|cs| - 1].id != id then [cs[|cs| - 1]] else []
  }

  function WithoutAssessments(xs: seq<Assessment>, id: string): seq<Assessment> {
    if xs == [] then []
    else WithoutAssessments(xs[..|xs| - 1], id) + if xs[|xs| - 1].checkpointID != id then [xs[|xs| - 1]] else []
  }

  lemma IDsSnoc(cs: seq<Artifact>, c: Artifact, ps: seq<Profile>, p: Profile)
    ensures CheckpointIDs(cs + [c]) == CheckpointIDs(cs) + {c.id}
    ensures ProfileIDs(ps + [p]) == ProfileIDs(ps) + {p.id}
  {
    assert c in cs + [c] && p in ps + [p];
    assert forall x :: x in cs ==> x in cs + [c];
    assert forall x :: x in ps ==> x in ps + [p];
  }

  lemma {:induction false} KeptProfiles(ps: seq<Profile>, used: set<string>)
    ensures ProfileIDs(KeepProfiles(ps, used)) == ProfileIDs(ps) * used
    decreases |ps|
  {
    if ps != [] {
      var front, last := ps[..|ps| - 1], ps[|ps| - 1];
      KeptProfiles(front, used);
      assert ps == front + [last];
      IDsSnoc([], NO_ARTIFACT, front, last);
      IDsSnoc([], NO_ARTIFACT, KeepProfiles(front, used), last);
      assert KeepProfiles(front, used) + [] == KeepProfiles(front, used);
    }
  }

  /** A profile is kept exactly when some assessment names it. */
  lemma {:induction false} KeptIsUsed(ps: seq<Profile>, used: set<string>, p: Profile)
    ensures p in KeepProfiles(ps, used) <==> p in ps && p.id in used
    decreases |ps|
  {
    if ps != [] {
      KeptIsUsed(ps[..|ps| - 1], used, p);
      assert p in ps <==> p in ps[..|ps| - 1] || p == ps[|ps| - 1] by { assert ps == ps[..|ps| - 1] + [ps[|ps| - 1]]; }
    }
  }

  lemma {:induction false} KeptCheckpoints(cs: seq<Artifact>, id: string)
    ensures CheckpointIDs(WithoutCheckpoint(cs, id)) == CheckpointIDs(cs) - {id}
    ensures id !in CheckpointIDs(cs) ==> WithoutCheckpoint(cs, id) == cs
    decreases |cs|
  {
    if cs != [] {
      var front, last := cs[..|cs| - 1], cs[|cs| - 1];
      KeptCheckpoints(front, id);
      assert cs == front + [last];
      IDsSnoc(front, last, [], Profile("", ""));
      IDsSnoc(WithoutCheckpoint(front, id), last, [], Profile("", ""));
    }
  }

  lemma {:induction false} KeptAssessments(xs: seq<Assessment>, id: string)
    ensures forall a :: a in WithoutAssessments(xs, id) <==> a in xs && a.checkpointID != id
    decreases |xs|
  {
    if xs != [] {
      var front, last := xs[..|xs| - 1], xs[|xs| - 1];
      KeptAssessments(front, id);
      assert forall a :: a in xs <==> a in front || a == last by { assert xs == front + [last]; }
    }
  }

  lemma WithoutSnoc(front: seq<Assessment>, last: Assessment, id: string)
    ensures WithoutAssessments([], id) == []
    ensures WithoutAssessments(front + [last], id) == WithoutAssessments(front, id) + if last.checkpointID != id then [last] else []
  {
    assert (front + [last])[..|front|] == front;
  }

  lemma {:induction false} AllAssessmentsKept(xs: seq<Assessment>, id: string)
    requires forall i :: 0 <= i < |xs| ==> xs[i].checkpointID != id
    ensures WithoutAssessments(xs, id) == xs
    decreases |xs|
  {
    hide WithoutAssessments;
    if xs == [] {
      WithoutSnoc([], Assessment("", "", "", "", false, [], ""), id);
    } else {
      var n := |xs| - 1;
      WithoutSnoc(xs[..n], xs[n], id);
      AllAssessmentsKept(xs[..n], id);
      assert xs == xs[..n] + [xs[n]];
    }
  }

  lemma {:induction false} DropAssessments(xs: seq<Assessment>, ys: seq<Assessment>, id: string)
    requires forall a <- ys :: a.checkpointID == id
    ensures WithoutAssessments(xs + ys, id) == WithoutAssessments(xs, id)
    decreases |ys|
  {
    if ys == [] {
      assert xs + ys == xs;
    } else {
      var last := ys[|ys| - 1];
      assert last in ys;
      assert xs + ys == (xs + ys[..|ys| - 1]) + [last];
      Snoc(xs + ys[..|ys| - 1], last);
      DropAssessments(xs, ys[..|ys| - 1], id);
    }
  }

  // ----- the run -----

  /** What every result keeps when sealed identities never repeat: the checkpoints are a prefix of the
      declared ones, and all of them but perhaps the last are assessed under every profile. */
  ghost predicate RetainsPrefix(plan: Plan, profiles: seq<Profile>, cs: seq<Artifact>, xs: seq<Assessment>) {
    && KeysOf(cs) <= DeclaredKeys(plan)
    && Named(xs) <= Table(cs, profiles)
    && (cs != [] ==> Table(cs[..|cs| - 1], profiles) <= Named(xs))
  }

  /** Nothing kept names anything that is not. */
  ghost predicate NamesKept(profiles: seq<Profile>, cs: seq<Artifact>, xs: seq<Assessment>) {
    forall a <- xs :: a.checkpointID in CheckpointIDs(cs) && a.profileID in ProfileIDs(profiles)
  }

  /** Closed in any case, and a prefix of what was asked for if identities never repeat. */
  ghost predicate Sound(ops: Operations, plan: Plan, profiles: seq<Profile>, cs: seq<Artifact>, xs: seq<Assessment>) {
    NamesKept(profiles, cs, xs) && (SealIsFresh(ops) ==> Distinct(cs) && RetainsPrefix(plan, profiles, cs, xs))
  }

  /** Of what a run sealed and assessed, its result retains everything, or everything but what has the
      identity of the last checkpoint, whose content the failed assessment did not verify. */
  ghost predicate FrontierOf(sealed: seq<Artifact>, assessed: seq<Assessment>, r: SpineResult) {
    || (r.checkpoints == sealed && r.assessments == assessed)
    || (&& sealed != [] && r.failure.Some?
        && !(r.failure.value.IntegrityFailure? && r.failure.value.verified == Some(sealed[|sealed| - 1].id))
        && r.checkpoints == WithoutCheckpoint(sealed, sealed[|sealed| - 1].id)
        && r.assessments == WithoutAssessments(assessed, sealed[|sealed| - 1].id))
  }

  lemma LastMayLeave(sealed: seq<Artifact>, assessed: seq<Assessment>, last: Artifact, r: SpineResult)
    requires sealed != [] && sealed[|sealed| - 1] == last && r.failure.Some?
    requires r.checkpoints == (if Verified(r.failure.value, last.id) then sealed else WithoutCheckpoint(sealed, last.id))
    requires r.assessments == (if Verified(r.failure.value, last.id) then assessed else WithoutAssessments(assessed, last.id))
    ensures FrontierOf(sealed, assessed, r)
  {
  }

  /** These keys are all that is declared behind the first `n` rules, but for some of those behind the last of them. */
  ghost predicate BehindRules(plan: Plan, n: nat, keys: seq<string>) {
    n <= |plan.rules| && keys <= KeysUpTo(plan, n) && (n > 0 ==> KeysUpTo(plan, n - 1) <= keys)
  }

  lemma BoundaryIsBehind(plan: Plan, i: nat, j: nat)
    requires i < |plan.rules| && j <= |plan.checkpoints|
    ensures BehindRules(plan, i + 1, KeysUpTo(plan, i) + KeysAfter(plan, plan.rules[i], j))
  {
    KeysAfterGrow(plan, plan.rules[i], j, |plan.checkpoints|);
  }

  lemma NoKeys(plan: Plan)
    ensures KeysUpTo(plan, 0) == []
  {
  }

  lemma AcceptedStep(ops: Operations, b: Binding, initial: State, rules: seq<string>, i: nat, t: Transition)
    requires i < |rules| && AcceptedAfter(ops, b, initial, rules, i).Some?
    requires var (s, j) := AcceptedAfter(ops, b, initial, rules, i).value; ops.execute(b, rules[i], s, j) == Moved(t)
    ensures AcceptedAfter(ops, b, initial, rules, i + 1) == Some((t.state, t.journal))
  {
  }

  lemma AllBehind(plan: Plan, n: nat)
    requires n <= |plan.rules|
    ensures BehindRules(plan, n, KeysUpTo(plan, n))
  {
    if n > 0 { KeysUpToGrow(plan, n - 1, n); }
  }

  /** What a successful run keeps: every declared checkpoint under every profile, in order. */
  ghost predicate RetainsAll(plan: Plan, profiles: seq<Profile>, cs: seq<Artifact>, xs: seq<Assessment>) {
    KeysOf(cs) == DeclaredKeys(plan) && Named(xs) == Table(cs, profiles)
  }

  /** The state and journal are those after some accepted transitions, and nothing else. */
  ghost predicate ReflectsAccepted(ops: Operations, request: Request, r: SpineResult, n: nat)
  {
    && r.plan.Some? && r.binding.Some? && n <= |r.plan.value.rules|
    && r.state.Some? && r.journal.Some?
    && AcceptedAfter(ops, r.binding.value, request.initial, r.plan.value.rules, n) == Some((r.state.value, r.journal.value))
  }

  /** What is said of a run as a whole: whether its plan was valid, whether it was bound, and whether it succeeded. */
  predicate SaysHow(r: SpineResult, succeeded: bool) {
    && r.status == (if r.compilationFailure.Some? then SpineInvalidPlan else if r.plan.None? then NoStatus
                    else if succeeded then SpineSucceeded else SpineFailed)
    && r.execution == (if r.binding.None? then NoExecution else if succeeded then ExecutionSucceeded else ExecutionFailed)
    && (r.binding.Some? ==> r.plan.Some?) && (r.compilationFailure.Some? ==> r.plan.None?)
  }

  /** A run that ended before it was bound. */
  predicate Unstarted(r: SpineResult) {
    && SaysHow(r, false) && r.binding.None? && r.failure.None? && r.state.None? && r.journal.None?
    && r.checkpoints == [] && r.assessments == []
  }

  /** The phases of assessments, each with its verdict. */
  function Readiness(xs: seq<Assessment>): seq<Event> {
    if xs == [] then []
    else Readiness(xs[..|xs| - 1]) + [Begin(AssessPhase), End(AssessPhase, if xs[|xs| - 1].ready then Ready else NeedsInput)]
  }

  lemma NoReadiness(xs: seq<Assessment>)
    ensures Readiness(xs[|xs|..]) == []
  {
  }

  lemma ReadinessSnoc(xs: seq<Assessment>, first: nat, x: Assessment)
    requires first <= |xs|
    ensures Readiness((xs + [x])[first..]) == Readiness(xs[first..]) + [Begin(AssessPhase)] + [End(AssessPhase, if x.ready then Ready else NeedsInput)]
  {
    var ys := (xs + [x])[first..];
    assert ys[..|ys| - 1] == xs[first..];
  }

  // ----- what is asked, and what is answered -----

  /** What a bound run works with. */
  datatype Setting = Setting(ops: Operations, binding: Binding, initial: State, plan: Plan, profiles: seq<Profile>)

  /** The transition of the i-th rule, if it and those before it were accepted. */
  function TransitionOf(g: Setting, i: nat): Option<Transition>
    requires i < |g.plan.rules|
  {
    match AcceptedAfter(g.ops, g.binding, g.initial, g.plan.rules, i)
    case None => None
    case Some((s, j)) => (match g.ops.execute(g.binding, g.plan.rules[i], s, j) case Moved(t) => Some(t) case _ => None)
  }

  /** The m-th checkpoint of a run is the j-th declaration, behind the i-th rule, whose transition was accepted. */
  predicate InPlace(g: Setting, m: nat, i: nat, j: nat) {
    && i < |g.plan.rules| && j < |g.plan.checkpoints| && g.plan.checkpoints[j].after == g.plan.rules[i]
    && |KeysUpTo(g.plan, i)| + |KeysAfter(g.plan, g.plan.rules[i], j)| == m
    && TransitionOf(g, i).Some?
  }

  /** The answer about a declaration: its key, the run, the state, journal and invariants of the transition
      before it, and everything sealed so far. */
  function SealAnswer(g: Setting, sealed: seq<Artifact>, i: nat, j: nat): Answer<Failure, Artifact>
    requires InPlace(g, |sealed|, i, j)
  {
    var t := TransitionOf(g, i).value;
    g.ops.seal(SealRequest(g.binding, g.plan.checkpoints[j].key, t.state, t.journal, t.invariants, sealed))
  }

  predicate SealedAt(g: Setting, sealed: seq<Artifact>, m: nat, i: nat, j: nat)
    requires m < |sealed|
  {
    InPlace(g, m, i, j) && SealAnswer(g, sealed[..m], i, j) == Accepted(sealed[m])
  }

  /** The n-th assessment of a run is that of the m-th checkpoint under the p-th profile. */
  predicate InTable(g: Setting, sealed: seq<Artifact>, n: nat, m: nat, p: nat, i: nat, j: nat) {
    m < |sealed| && p < |g.profiles| && m * |g.profiles| + p == n && InPlace(g, m, i, j)
  }

  /** The answer about a checkpoint and a profile: the state it was sealed over, and everything assessed so far. */
  function AssessAnswer(g: Setting, sealed: seq<Artifact>, assessed: seq<Assessment>, m: nat, p: nat, i: nat, j: nat): Answer<Failure, Assessment>
    requires InTable(g, sealed, |assessed|, m, p, i, j)
  {
    g.ops.assess(AssessRequest(sealed[m], TransitionOf(g, i).value.state, g.profiles[p], assessed))
  }

  predicate AssessedAt(g: Setting, sealed: seq<Artifact>, assessed: seq<Assessment>, n: nat, m: nat, p: nat, i: nat, j: nat)
    requires n < |assessed|
  {
    InTable(g, sealed, n, m, p, i, j) && AssessAnswer(g, sealed, assessed[..n], m, p, i, j) == Accepted(assessed[n])
  }

  ghost predicate WasSealed(g: Setting, sealed: seq<Artifact>, m: nat)
    requires m < |sealed|
  {
    exists i: nat, j: nat :: SealedAt(g, sealed, m, i, j)
  }

  ghost predicate WasAssessed(g: Setting, sealed: seq<Artifact>, assessed: seq<Assessment>, n: nat)
    requires n < |assessed|
  {
    exists m: nat, p: nat, i: nat, j: nat :: AssessedAt(g, sealed, assessed, n, m, p, i, j)
  }

  /** Everything sealed and assessed is what the operations answered in turn. */
  ghost predicate Answered(g: Setting, sealed: seq<Artifact>, assessed: seq<Assessment>) {
    && (forall m: nat | m < |sealed| :: WasSealed(g, sealed, m))
    && (forall n: nat | n < |assessed| :: WasAssessed(g, sealed, assessed, n))
  }

  /** Some operation did not accept the next thing it was asked. */
  ghost predicate Halted(g: Setting, sealed: seq<Artifact>, assessed: seq<Assessment>) {
    || (exists i: nat :: i < |g.plan.rules| && AcceptedAfter(g.ops, g.binding, g.initial, g.plan.rules, i).Some? && TransitionOf(g, i).None?)
    || (exists i: nat, j: nat :: InPlace(g, |sealed|, i, j) && !SealAnswer(g, sealed, i, j).Accepted?)
    || (exists m: nat, p: nat, i: nat, j: nat :: InTable(g, sealed, |assessed|, m, p, i, j) && !AssessAnswer(g, sealed, assessed, m, p, i, j).Accepted?)
  }

  /** Every rule moves, and every declared checkpoint is sealed and assessed under every profile. */
  ghost predicate Through(g: Setting, sealed: seq<Artifact>, assessed: seq<Assessment>) {
    && AcceptedAfter(g.ops, g.binding, g.initial, g.plan.rules, |g.plan.rules|).Some?
    && Answered(g, sealed, assessed) && |sealed| == |DeclaredKeys(g.plan)| && |assessed| == |sealed| * |g.profiles|
  }

  /** Every operation accepts what it is asked from the first to the last. */
  ghost predicate Acceptable(ops: Operations, request: Request) {
    match ops.compile(request)
    case Accepted((plan, profiles)) =>
      (match ops.bind(plan, request)
       case Bound(b) => exists sealed, assessed :: Through(Setting(ops, b, request.initial, plan, profiles), sealed, assessed)
       case Unbound(_) => false)
    case _ => false
  }

  lemma AnsweredSeal(g: Setting, sealed: seq<Artifact>, assessed: seq<Assessment>, a: Artifact, i: nat, j: nat)
    requires Answered(g, sealed, assessed) && InPlace(g, |sealed|, i, j) && SealAnswer(g, sealed, i, j) == Accepted(a)
    ensures Answered(g, sealed + [a], assessed)
  {
    hide KeysUpTo, KeysAfter, TransitionOf;
    var all := sealed + [a];
    assert all[..|sealed|] == sealed;
    assert SealedAt(g, all, |sealed|, i, j);
    forall m: nat | m < |all| ensures WasSealed(g, all, m) {
      if m < |sealed| {
        assert WasSealed(g, sealed, m);
        var i': nat, j': nat :| SealedAt(g, sealed, m, i', j');
        assert all[..m] == sealed[..m];
        assert SealedAt(g, all, m, i', j');
      }
    }
    forall n: nat | n < |assessed| ensures WasAssessed(g, all, assessed, n) {
      assert WasAssessed(g, sealed, assessed, n);
      var m: nat, p: nat, i': nat, j': nat :| AssessedAt(g, sealed, assessed, n, m, p, i', j');
      assert all[m] == sealed[m];
      assert AssessedAt(g, all, assessed, n, m, p, i', j');
    }
  }

  lemma AnsweredAssess(g: Setting, sealed: seq<Artifact>, assessed: seq<Assessment>, a: Assessment, m: nat, p: nat, i: nat, j: nat)
    requires Answered(g, sealed, assessed) && InTable(g, sealed, |assessed|, m, p, i, j)
    requires AssessAnswer(g, sealed, assessed, m, p, i, j) == Accepted(a)
    ensures Answered(g, sealed, assessed + [a])
  {
    hide InPlace, TransitionOf;
    var all := assessed + [a];
    assert all[..|assessed|] == assessed;
    assert AssessedAt(g, sealed, all, |assessed|, m, p, i, j);
    forall n: nat | n < |all| ensures WasAssessed(g, sealed, all, n) {
      if n < |assessed| {
        assert WasAssessed(g, sealed, assessed, n);
        var m': nat, p': nat, i': nat, j': nat :| AssessedAt(g, sealed, assessed, n, m', p', i', j');
        assert all[..n] == assessed[..n];
        assert AssessedAt(g, sealed, all, n, m', p', i', j');
      }
    }
  }

  lemma NothingAnswered(g: Setting)
    ensures Answered(g, [], [])
  {
  }

  lemma TransitionIs(g: Setting, i: nat, t: Transition)
    requires i < |g.plan.rules| && AcceptedAfter(g.ops, g.binding, g.initial, g.plan.rules, i).Some?
    requires var (s, j) := AcceptedAfter(g.ops, g.binding, g.initial, g.plan.rules, i).value;
             g.ops.execute(g.binding, g.plan.rules[i], s, j) == Moved(t)
    ensures TransitionOf(g, i) == Some(t)
  {
  }

  lemma RuleHalts(g: Setting, sealed: seq<Artifact>, assessed: seq<Assessment>, i: nat)
    requires i < |g.plan.rules| && AcceptedAfter(g.ops, g.binding, g.initial, g.plan.rules, i).Some?
    requires var (s, j) := AcceptedAfter(g.ops, g.binding, g.initial, g.plan.rules, i).value;
             !g.ops.execute(g.binding, g.plan.rules[i], s, j).Moved?
    ensures Halted(g, sealed, assessed)
  {
    assert TransitionOf(g, i).None?;
  }

  lemma SealHalts(g: Setting, sealed: seq<Artifact>, assessed: seq<Assessment>, i: nat, j: nat)
    requires InPlace(g, |sealed|, i, j) && !SealAnswer(g, sealed, i, j).Accepted?
    ensures Halted(g, sealed, assessed)
  {
  }

  lemma AssessHalts(g: Setting, sealed: seq<Artifact>, assessed: seq<Assessment>, m: nat, p: nat, i: nat, j: nat)
    requires InTable(g, sealed, |assessed|, m, p, i, j) && !AssessAnswer(g, sealed, assessed, m, p, i, j).Accepted?
    ensures Halted(g, sealed, assessed)
  {
  }

  /** A checkpoint has one place. */
  lemma OnePlace(g: Setting, m: nat, i: nat, j: nat, i': nat, j': nat)
    requires InPlace(g, m, i, j) && InPlace(g, m, i', j')
    ensures i == i' && j == j' && m < |DeclaredKeys(g.plan)|
  {
    PlaceBehind(g, m, i, j);
    if i < i' {
      KeysUpToGrow(g.plan, i + 1, i');
      assert false;
    } else if i' < i {
      PlaceBehind(g, m, i', j');
      KeysUpToGrow(g.plan, i' + 1, i);
      assert false;
    } else if j < j' {
      KeysAfterGrow(g.plan, g.plan.rules[i], j + 1, j');
      assert false;
    } else if j' < j {
      KeysAfterGrow(g.plan, g.plan.rules[i], j' + 1, j);
      assert false;
    }
  }

  lemma PlaceBehind(g: Setting, m: nat, i: nat, j: nat)
    requires InPlace(g, m, i, j)
    ensures m < |KeysUpTo(g.plan, i + 1)| <= |DeclaredKeys(g.plan)|
  {
    KeysAfterGrow(g.plan, g.plan.rules[i], j + 1, |g.plan.checkpoints|);
    KeysUpToGrow(g.plan, i + 1, |g.plan.rules|);
  }

  /** What was sealed in turn is the beginning of everything that is. */
  lemma {:induction false} SealedAlike(g: Setting, sealed: seq<Artifact>, assessed: seq<Assessment>, all: seq<Artifact>, every: seq<Assessment>, m: nat)
    requires Answered(g, sealed, assessed) && Answered(g, all, every) && m <= |sealed| && m <= |all|
    ensures sealed[..m] == all[..m]
    decreases m
  {
    hide InPlace, AssessedAt;
    if m > 0 {
      SealedAlike(g, sealed, assessed, all, every, m - 1);
      assert WasSealed(g, sealed, m - 1);
      var i: nat, j: nat :| SealedAt(g, sealed, m - 1, i, j);
      assert WasSealed(g, all, m - 1);
      var i': nat, j': nat :| SealedAt(g, all, m - 1, i', j');
      OnePlace(g, m - 1, i, j, i', j');
      assert sealed[..m] == sealed[..m - 1] + [sealed[m - 1]] && all[..m] == all[..m - 1] + [all[m - 1]];
    }
  }

  lemma Multiples(k: nat, m: nat, n: nat)
    requires m < n
    ensures m * k + k <= n * k
  {
    var d := n - m - 1;
    assert n * k == (m + 1 + d) * k == m * k + k + d * k;
    assert 0 <= d * k;
  }

  lemma OneCell(k: nat, m: nat, p: nat, m': nat, p': nat)
    requires p < k && p' < k && m * k + p == m' * k + p'
    ensures m == m' && p == p'
  {
    if m < m' { Multiples(k, m, m'); } else if m' < m { Multiples(k, m', m); }
  }

  lemma {:induction false} AssessedAlike(g: Setting, sealed: seq<Artifact>, assessed: seq<Assessment>, all: seq<Artifact>, every: seq<Assessment>, n: nat)
    requires Answered(g, sealed, assessed) && Answered(g, all, every) && n <= |assessed| && n <= |every|
    requires sealed <= all
    ensures assessed[..n] == every[..n]
    decreases n
  {
    hide InPlace, SealedAt;
    if n > 0 {
      AssessedAlike(g, sealed, assessed, all, every, n - 1);
      assert WasAssessed(g, sealed, assessed, n - 1);
      var m: nat, p: nat, i: nat, j: nat :| AssessedAt(g, sealed, assessed, n - 1, m, p, i, j);
      assert WasAssessed(g, all, every, n - 1);
      var m': nat, p': nat, i': nat, j': nat :| AssessedAt(g, all, every, n - 1, m', p', i', j');
      OneCell(|g.profiles|, m, p, m', p');
      OnePlace(g, m, i, j, i', j');
      assert assessed[..n] == assessed[..n - 1] + [assessed[n - 1]] && every[..n] == every[..n - 1] + [every[n - 1]];
    }
  }

  lemma {:induction false} AcceptedEarlier(ops: Operations, b: Binding, initial: State, rules: seq<string>, i: nat, n: nat)
    requires i <= n <= |rules| && AcceptedAfter(ops, b, initial, rules, n).Some?
    ensures AcceptedAfter(ops, b, initial, rules, i).Some?
    decreases n
  {
    if i < n { AcceptedEarlier(ops, b, initial, rules, i, n - 1); }
  }

  /** Where a run can get through, nothing halts it. */
  lemma ThroughIsNotHalted(g: Setting, sealed: seq<Artifact>, assessed: seq<Assessment>, all: seq<Artifact>, every: seq<Assessment>)
    requires Answered(g, sealed, assessed) && |sealed| <= |DeclaredKeys(g.plan)| && Through(g, all, every)
    ensures !Halted(g, sealed, assessed)
  {
    hide InPlace, KeysUpTo, KeysAfter, DeclaredKeys, SealedAt, AssessedAt;
    SealedAlike(g, sealed, assessed, all, every, |sealed|);
    assert sealed <= all;
    forall i: nat | i < |g.plan.rules| && AcceptedAfter(g.ops, g.binding, g.initial, g.plan.rules, i).Some? ensures TransitionOf(g, i).Some? {
      AcceptedEarlier(g.ops, g.binding, g.initial, g.plan.rules, i + 1, |g.plan.rules|);
    }
    forall i: nat, j: nat | InPlace(g, |sealed|, i, j) ensures SealAnswer(g, sealed, i, j).Accepted? {
      SealsOn(g, sealed, all, every, i, j);
    }
    forall m: nat, p: nat, i: nat, j: nat | InTable(g, sealed, |assessed|, m, p, i, j)
      ensures AssessAnswer(g, sealed, assessed, m, p, i, j).Accepted?
    {
      AssessesOn(g, sealed, assessed, all, every, m, p, i, j);
    }
  }

  lemma SealsOn(g: Setting, sealed: seq<Artifact>, all: seq<Artifact>, every: seq<Assessment>, i: nat, j: nat)
    requires Through(g, all, every) && |sealed| <= |all| && sealed == all[..|sealed|] && InPlace(g, |sealed|, i, j)
    ensures SealAnswer(g, sealed, i, j).Accepted?
  {
    hide InPlace;
    OnePlace(g, |sealed|, i, j, i, j);
    assert WasSealed(g, all, |sealed|);
    var i': nat, j': nat :| SealedAt(g, all, |sealed|, i', j');
    OnePlace(g, |sealed|, i, j, i', j');
  }

  lemma AssessesOn(g: Setting, sealed: seq<Artifact>, assessed: seq<Assessment>, all: seq<Artifact>, every: seq<Assessment>,
                   m: nat, p: nat, i: nat, j: nat)
    requires Answered(g, sealed, assessed) && Through(g, all, every) && sealed <= all && InTable(g, sealed, |assessed|, m, p, i, j)
    ensures AssessAnswer(g, sealed, assessed, m, p, i, j).Accepted?
  {
    hide InPlace, SealedAt, DeclaredKeys;
    var n := |assessed|;
    assert n < |every| by {
      Multiples(|g.profiles|, m, |all|);
    }
    AssessedAlike(g, sealed, assessed, all, every, n);
    assert assessed[..n] == assessed;
    assert WasAssessed(g, all, every, n);
    var m': nat, p': nat, i': nat, j': nat :| AssessedAt(g, all, every, n, m', p', i', j');
    OneCell(|g.profiles|, m, p, m', p');
    OnePlace(g, m, i, j, i', j');
  }

  lemma {:induction false} TableLength(cs: seq<Artifact>, ps: seq<Profile>)
    ensures |Table(cs, ps)| == |cs| * |ps|
    decreases |cs|
  {
    hide Row;
    if cs != [] {
      TableLength(cs[..|cs| - 1], ps);
      var n, k := |cs|, |ps|;
      assert n * k == (n - 1) * k + k;
    }
  }

  /** The last event of a run says how the run ended; before it is bound, bad input is the caller's. */
  ghost predicate EndsAs(events: seq<Event>, r: SpineResult, err: Option<Cause>) {
    && events != []
    && events[|events| - 1] == End(SpinePhase,
         if err == Some(ContextDone) then Cancelled
         else if err == Some(Infrastructure) then InfrastructureUnavailable
         else if err == Some(BadInput) && r.binding.None? then InvalidInput
         else if err.Some? then InternalError
         else if r.compilationFailure.Some? then InvalidPlan
         else if r.failure.None? then Success
         else if r.failure.value.IntegrityFailure? then ArtifactIntegrityFailed
         else ProtectedInvariantFailed)
  }

  class SpineRun {
    const ops: Operations
    /** Whether the context is done the n-th time it is asked. */
    const done: nat -> bool
    var polls: nat
    var events: seq<Event>
    var plan: Option<Plan>
    var profiles: seq<Profile>
    var binding: Option<Binding>
    var state: Option<State>
    var journal: Option<Journal>
    var checkpoints: seq<Artifact>
    var assessments: seq<Assessment>

    constructor (ops: Operations, done: nat -> bool)
      ensures this.ops == ops && this.done == done
      ensures plan == None && profiles == [] && binding == None && state == None && journal == None
      ensures checkpoints == [] && assessments == [] && events == []
    {
      this.ops, this.done, polls, events := ops, done, 0, [];
      plan, profiles, binding, state, journal := None, [], None, None, None;
      checkpoints, assessments := [], [];
    }

    /** Between inner phases. */
    ghost predicate InSpine()
      reads this`events
    {
      events != [] && events[0] == Begin(SpinePhase) && InnerPairs(events[1..])
    }

    /** Inside one inner phase. */
    ghost predicate InPhase(p: Phase)
      reads this`events
    {
      var n := |events|;
      n >= 2 && p != SpinePhase && events[0] == Begin(SpinePhase) && events[n - 1] == Begin(p) && InnerPairs(events[1..n - 1])
    }

    /** The context was not done whenever it was asked since its `from`-th time. */
    ghost predicate Undisturbed(from: nat)
      reads this`polls
    {
      from <= polls && forall p: nat | from <= p < polls :: !done(p)
    }

    ghost function Here(initial: State): Setting
      requires plan.Some? && binding.Some?
      reads this`plan, this`profiles, this`binding
    {
      Setting(ops, binding.value, initial, plan.value, profiles)
    }

    method Poll() returns (isDone: bool)
      modifies this`polls
      ensures isDone == done(old(polls)) && polls == old(polls) + 1
    {
      isDone := done(polls);
      polls := polls + 1;
    }

    method BeginPhase(p: Phase)
      requires if p == SpinePhase then events == [] else InSpine()
      modifies this`events
      ensures if p == SpinePhase then InSpine() else InPhase(p)
      ensures events == old(events) + [Begin(p)]
    {
      events := events + [Begin(p)];
      assert p != SpinePhase ==> events[1..|events| - 1] == old(events)[1..];
    }

    method EndInner(p: Phase, result: PhaseResult)
      requires InPhase(p)
      modifies this`events
      ensures InSpine() && events == old(events) + [End(p, result)]
    {
      events := events + [End(p, result)];
      var inner := events[1..];
      assert inner[..|inner| - 2] == old(events)[1..|old(events)| - 1];
    }

    method EndSpine(result: PhaseResult)
      requires InSpine()
      modifies this`events
      ensures IsRun(events) && events == old(events) + [End(SpinePhase, result)]
    {
      events := events + [End(SpinePhase, result)];
      assert events[1..|events| - 1] == old(events)[1..];
    }

    method RetainedProfiles() returns (retained: seq<Profile>)
      ensures retained == KeepProfiles(profiles, UsedProfiles(assessments))
    {
      var used: set<string> := {};
      for i := 0 to |assessments|
        invariant used == UsedProfiles(assessments[..i])
      {
        used := used + {assessments[i].profileID};
        assert assessments[..i + 1] == assessments[..i] + [assessments[i]];
      }
      assert assessments[..|assessments|] == assessments;
      retained := [];
      for i := 0 to |profiles|
        invariant retained == KeepProfiles(profiles[..i], used)
      {
        assert profiles[..i + 1][..i] == profiles[..i];
        if profiles[i].id in used {
          retained := retained + [profiles[i]];
        }
      }
      assert profiles[..|profiles|] == profiles;
    }

    /** The frontier as a result: nothing before there is a plan. */
    ghost function Frontier(): SpineResult
      reads this
    {
      if plan.None? then ZERO_RESULT
      else SpineResult(SpineFailed, if binding.Some? then ExecutionFailed else NoExecution, binding, plan,
                       KeepProfiles(profiles, UsedProfiles(assessments)), None, None, state, journal, checkpoints, assessments)
    }

    method FrontierResult() returns (r: SpineResult)
      ensures r == Frontier()
    {
      if plan.None? {
        return ZERO_RESULT;
      }
      var retained := RetainedProfiles();
      r := SpineResult(SpineFailed, NoExecution, None, plan, retained, None, None, state, journal, checkpoints, assessments);
      if binding.Some? {
        r := r.(execution := ExecutionFailed, binding := binding);
      }
      assert binding.None? ==> binding == None;
    }

    /** What is kept is closed, and a prefix of what was asked for if identities never repeat. */
    ghost predicate Keeps()
      reads this`plan, this`profiles, this`checkpoints, this`assessments
    {
      plan.Some? && Sound(ops, plan.value, profiles, checkpoints, assessments)
    }

    /** A finished run: one spine of events, and the frontier with an error or a failure. */
    ghost predicate Ended(r: SpineResult, err: Option<Cause>)
      reads this
    {
      IsRun(events) && EndsAs(events, r, err) && err.Some? != r.failure.Some? && r == Frontier().(failure := r.failure)
    }

    method Machinery(open: Option<Phase>, cause: Cause, initialBoundary: bool) returns (r: SpineResult, err: Option<Cause>)
      requires if open.Some? then InPhase(open.value) else InSpine()
      requires (cause == BadInput ==> initialBoundary == binding.None?) && (binding.Some? ==> plan.Some?)
      modifies this`events
      ensures Ended(r, err) && IsRun(events) && r == Frontier() && err == Some(cause)
      ensures var c := Classify(cause, initialBoundary);
              events == old(events) + (if open.Some? then [End(open.value, c)] else []) + [End(SpinePhase, c)]
      ensures plan.Some? ==> r.checkpoints == checkpoints && r.assessments == assessments && FrontierOf(checkpoints, assessments, r)
    {
      var classification := Classify(cause, initialBoundary);
      if open.Some? {
        EndInner(open.value, classification);
      }
      EndSpine(classification);
      r := FrontierResult();
      err := Some(cause);
    }

    method SemanticRejection(open: Phase, failure: Failure) returns (r: SpineResult)
      requires InPhase(open)
      modifies this`events
      ensures Ended(r, None) && r.failure == Some(failure)
      ensures var c := if failure.IntegrityFailure? then ArtifactIntegrityFailed else ProtectedInvariantFailed;
              events == old(events) + [End(open, c)] + [End(SpinePhase, c)]
      ensures plan.Some? ==> r.checkpoints == checkpoints && r.assessments == assessments && FrontierOf(checkpoints, assessments, r)
    {
      EndInner(open, ClassifyFailure(failure));
      EndSpine(ClassifyFailure(failure));
      r := FrontierResult();
      r := r.(failure := Some(failure));
    }

    /** Drops a checkpoint whose content the failed assessment did not verify, and what depends on it. */
    method ExcludeUnverifiedCheckpoint(artifact: Artifact, failure: Failure)
      modifies this`checkpoints, this`assessments
      ensures checkpoints == if Verified(failure, artifact.id) then old(checkpoints) else WithoutCheckpoint(old(checkpoints), artifact.id)
      ensures assessments == if Verified(failure, artifact.id) then old(assessments) else WithoutAssessments(old(assessments), artifact.id)
    {
      if failure.IntegrityFailure? {
        if failure.verified.Some? && failure.verified.value == artifact.id {
          return;
        }
      }
      var keptCheckpoints: seq<Artifact> := [];
      for i := 0 to |checkpoints|
        invariant keptCheckpoints == WithoutCheckpoint(checkpoints[..i], artifact.id)
      {
        assert checkpoints[..i + 1][..i] == checkpoints[..i];
        if checkpoints[i].id != artifact.id {
          keptCheckpoints := keptCheckpoints + [checkpoints[i]];
        }
      }
      assert checkpoints[..|checkpoints|] == checkpoints;
      checkpoints := keptCheckpoints;
      var keptAssessments: seq<Assessment> := [];
      for i := 0 to |assessments|
        invariant keptAssessments == WithoutAssessments(assessments[..i], artifact.id)
      {
        assert assessments[..i + 1][..i] == assessments[..i];
        if assessments[i].checkpointID != artifact.id {
          keptAssessments := keptAssessments + [assessments[i]];
        }
      }
      assert assessments[..|assessments|] == assessments;
      assessments := keptAssessments;
    }

    /** Nothing kept names anything that is not. */
    ghost predicate Closed()
      reads this`profiles, this`checkpoints, this`assessments
    {
      NamesKept(profiles, checkpoints, assessments)
    }

    /** Every checkpoint before the j-th declaration of the i-th rule is sealed and fully assessed. */
    ghost predicate AtBoundary(i: nat, j: nat)
      reads this`plan, this`profiles, this`checkpoints, this`assessments
    {
      && plan.Some? && i < |plan.value.rules| && j <= |plan.value.checkpoints|
      && KeysOf(checkpoints) == KeysUpTo(plan.value, i) + KeysAfter(plan.value, plan.value.rules[i], j)
      && Named(assessments) == Table(checkpoints, profiles)
    }

    lemma BoundaryRetains(i: nat, j: nat)
      requires AtBoundary(i, j)
      ensures Closed() && RetainsPrefix(plan.value, profiles, checkpoints, assessments)
    {
      BoundaryIsPrefix(plan.value, i, j);
      PrefixMembers(checkpoints, profiles, assessments);
    }

    lemma ClosedFrontier()
      requires Closed()
      ensures DependencyClosed(Frontier())
    {
      KeptProfiles(profiles, UsedProfiles(assessments));
    }

    /** Inside the row of the last checkpoint. */
    lemma RowRetains(n: nat)
      requires checkpoints != [] && n <= |profiles|
      requires Named(assessments) == Table(checkpoints[..|checkpoints| - 1], profiles) + Row(checkpoints[|checkpoints| - 1], profiles[..n])
      ensures Closed() && Named(assessments) <= Table(checkpoints, profiles)
      ensures Table(checkpoints[..|checkpoints| - 1], profiles) <= Named(assessments)
    {
      RowPrefix(checkpoints[|checkpoints| - 1], profiles, n);
      PrefixMembers(checkpoints, profiles, assessments);
    }

    /** Seals the j-th declaration behind the i-th rule over the state and journal just accepted, and assesses it. */
    method SealAndAssess(binding: Binding, i: nat, j: nat, state: State, journal: Journal, invariants: string, ghost initial: State)
      returns (finished: bool, r: SpineResult, err: Option<Cause>, ghost sealed: seq<Artifact>, ghost assessed: seq<Assessment>)
      requires AssessBinds(ops) && SealBinds(ops) && InSpine() && this.binding == Some(binding)
      requires AtBoundary(i, j) && j < |plan.value.checkpoints| && plan.value.checkpoints[j].after == plan.value.rules[i]
      requires SealIsFresh(ops) ==> Distinct(checkpoints)
      requires TransitionOf(Here(initial), i) == Some(Transition(state, journal, invariants))
      requires Answered(Here(initial), checkpoints, assessments)
      modifies this`polls, this`events, this`checkpoints, this`assessments
      ensures !finished ==> err == None && InSpine() && AtBoundary(i, j + 1) && (SealIsFresh(ops) ==> Distinct(checkpoints))
      ensures !finished ==> sealed == checkpoints && assessed == assessments && Undisturbed(old(polls))
      ensures finished ==> Ended(r, err) && Keeps() && FrontierOf(sealed, assessed, r)
      ensures finished && !Undisturbed(old(polls)) ==> err == Some(ContextDone)
      ensures !finished ==> polls == old(polls) + |checkpoints| - |old(checkpoints)| + |assessments| - |old(assessments)|
      ensures finished && Undisturbed(old(polls)) ==> Halted(Here(initial), sealed, assessed)
      ensures finished && SealIsFresh(ops) ==> BehindRules(plan.value, i + 1, KeysOf(r.checkpoints))
      ensures Answered(Here(initial), sealed, assessed) && |sealed| <= |DeclaredKeys(plan.value)| && old(polls) <= polls
    {
      hide InnerPairs, IsRun, Table, Row, Named, KeysOf, KeysAfter, KeysUpTo, KeepProfiles, WithoutCheckpoint, WithoutAssessments,
        BehindRules, Answered, Halted, TransitionOf, FrontierOf, Sound, InSpine, InPhase, Ended, DeclaredKeys, Distinct, Keeps;
      finished, r, err, sealed, assessed := true, ZERO_RESULT, None, checkpoints, assessments;
      BoundaryKeeps(i, j);
      BoundaryIsBehind(plan.value, i, j);
      FitsDeclared(i, j);
      ghost var g, before := Here(initial), checkpoints;
      assert InPlace(g, |checkpoints|, i, j);
      var key := plan.value.checkpoints[j].key;
      var artifact;
      finished, r, err, artifact := SealDeclared(SealRequest(binding, key, state, journal, invariants, checkpoints));
      if finished {
        if Undisturbed(old(polls)) { SealHalts(g, sealed, assessed, i, j); }
        return;
      }
      assert SealAnswer(g, before, i, j) == Accepted(artifact) && artifact.key == key;
      NextSealed(i, j, before, artifact);
      if SealIsFresh(ops) { DistinctSnoc(before, artifact); }
      AnsweredSeal(g, before, assessments, artifact, i, j);
      sealed := checkpoints;
      finished, r, err, assessed := AssessAll(before, artifact, state, initial, i, j);
      if SealIsFresh(ops) { OthersStay(before, artifact); }
    }

    /** The seal phase of one declaration. */
    method SealDeclared(request: SealRequest) returns (finished: bool, r: SpineResult, err: Option<Cause>, artifact: Artifact)
      requires InSpine() && plan.Some? && binding.Some?
      modifies this`polls, this`events, this`checkpoints
      ensures finished ==> Ended(r, err) && checkpoints == old(checkpoints) == r.checkpoints && FrontierOf(checkpoints, assessments, r)
      ensures finished && !Undisturbed(old(polls)) ==> err == Some(ContextDone)
      ensures finished && Undisturbed(old(polls)) ==> !ops.seal(request).Accepted?
      ensures !finished ==> err == None && InSpine() && Undisturbed(old(polls)) && polls == old(polls) + 1
      ensures !finished ==> ops.seal(request) == Accepted(artifact) && checkpoints == old(checkpoints) + [artifact]
      ensures !finished ==> events == old(events) + [Begin(SealPhase)] + [End(SealPhase, Success)]
      ensures old(polls) <= polls
    {
      hide InnerPairs, IsRun, InSpine, InPhase, Ended, FrontierOf, KeepProfiles, UsedProfiles;
      finished, r, err, artifact := true, ZERO_RESULT, None, NO_ARTIFACT;
      var isDone := Poll();
      if isDone {
        r, err := Machinery(None, ContextDone, false);
        return;
      }
      BeginPhase(SealPhase);
      var outcome := ops.seal(request);
      if outcome.Error? {
        r, err := Machinery(Some(SealPhase), outcome.cause, false);
        return;
      }
      if outcome.Rejected? {
        r := SemanticRejection(SealPhase, outcome.failure);
        return;
      }
      if outcome.Contradiction? {
        r, err := Machinery(Some(SealPhase), OtherCause, false);
        return;
      }
      artifact := outcome.value;
      checkpoints := checkpoints + [artifact];
      EndInner(SealPhase, Success);
      finished := false;
    }

    /** One declared checkpoint more. */
    lemma NextSealed(i: nat, j: nat, before: seq<Artifact>, artifact: Artifact)
      requires plan.Some? && i < |plan.value.rules| && j < |plan.value.checkpoints| && plan.value.checkpoints[j].after == plan.value.rules[i]
      requires KeysOf(before) == KeysUpTo(plan.value, i) + KeysAfter(plan.value, plan.value.rules[i], j)
      requires artifact.key == plan.value.checkpoints[j].key
      ensures var keys := KeysOf(before + [artifact]);
              && keys == KeysUpTo(plan.value, i) + KeysAfter(plan.value, plan.value.rules[i], j + 1)
              && keys <= DeclaredKeys(plan.value) && |before + [artifact]| <= |DeclaredKeys(plan.value)|
              && BehindRules(plan.value, i + 1, keys)
    {
      hide KeysOf, KeysUpTo, KeysAfter, DeclaredKeys, BehindRules;
      KeysSnoc(before, artifact);
      KeysAfterStep(plan.value, plan.value.rules[i], j);
      BoundaryIsPrefix(plan.value, i, j + 1);
      BoundaryIsBehind(plan.value, i, j + 1);
    }

    /** Assesses a checkpoint that was just sealed under every compiled profile. */
    method AssessAll(ghost before: seq<Artifact>, artifact: Artifact, state: State, ghost initial: State, ghost i: nat, ghost j: nat)
      returns (finished: bool, r: SpineResult, err: Option<Cause>, ghost assessed: seq<Assessment>)
      requires AssessBinds(ops) && InSpine() && plan.Some? && checkpoints == before + [artifact]
      requires KeysOf(checkpoints) <= DeclaredKeys(plan.value) && Named(assessments) == Table(before, profiles)
      requires SealIsFresh(ops) ==> Distinct(checkpoints)
      requires binding.Some? && InPlace(Here(initial), |before|, i, j) && TransitionOf(Here(initial), i).value.state == state
      requires Answered(Here(initial), checkpoints, assessments)
      modifies this`polls, this`events, this`checkpoints, this`assessments
      ensures !finished ==> err == None && InSpine() && checkpoints == old(checkpoints) && Named(assessments) == Table(checkpoints, profiles)
      ensures !finished ==> assessed == assessments && Undisturbed(old(polls))
      ensures !finished ==> old(assessments) <= assessments && events == old(events) + Readiness(assessments[|old(assessments)|..])
      ensures finished ==> Ended(r, err) && Keeps() && FrontierOf(old(checkpoints), assessed, r)
      ensures finished && SealIsFresh(ops) ==> r.checkpoints == old(checkpoints) || r.checkpoints == before
      ensures finished && !Undisturbed(old(polls)) ==> err == Some(ContextDone)
      ensures !finished ==> polls == old(polls) + |assessments| - |old(assessments)|
      ensures finished && Undisturbed(old(polls)) ==> Halted(Here(initial), old(checkpoints), assessed)
      ensures Answered(Here(initial), old(checkpoints), assessed) && old(polls) <= polls
    {
      hide InnerPairs, IsRun, Table, Row, Named, KeysOf, KeysAfter, KeysUpTo, KeepProfiles, WithoutCheckpoint, WithoutAssessments,
        Sound, InSpine, InPhase, Ended, FrontierOf, Answered, Halted, InPlace, TransitionOf, Keeps, DeclaredKeys, Distinct, SealIsFresh,
        InTable, AssessAnswer, Readiness;
      finished, r, err, assessed := true, ZERO_RESULT, None, assessments;
      ghost var g, first := Here(initial), |assessments|;
      NoReadiness(assessments);
      Snoc(before, artifact);
      RowEnds(artifact, profiles);
      for n := 0 to |profiles|
        invariant InSpine() && checkpoints == before + [artifact] && err == None && Undisturbed(old(polls))
        invariant polls == old(polls) + |assessments| - |old(assessments)|
        invariant assessed == assessments && Answered(g, checkpoints, assessments)
        invariant old(assessments) <= assessments && events == old(events) + Readiness(assessments[first..])
        invariant Named(assessments) == Table(before, profiles) + Row(artifact, profiles[..n])
      {
        NextCell(before, artifact, state, initial, n, i, j);
        finished, r, err := AssessUnder(before, artifact, state, n);
        if finished {
          if Undisturbed(old(polls)) { AssessHalts(g, old(checkpoints), assessed, |before|, n, i, j); }
          return;
        }
        var a := assessments[|assessments| - 1];
        NamedSnoc(assessed, a);
        RowSnoc(artifact, profiles, n);
        ReadinessSnoc(assessed, first, a);
        AnsweredAssess(g, checkpoints, assessed, a, |before|, n, i, j);
        assessed := assessments;
      }
      TableSnoc(before, artifact, profiles);
      finished := false;
    }

    /** The assessment phase of one profile. */
    method AssessUnder(ghost before: seq<Artifact>, artifact: Artifact, state: State, n: nat)
      returns (finished: bool, r: SpineResult, err: Option<Cause>)
      requires InSpine() && plan.Some? && binding.Some? && n < |profiles| && checkpoints == before + [artifact]
      requires KeysOf(checkpoints) <= DeclaredKeys(plan.value) && (SealIsFresh(ops) ==> Distinct(checkpoints))
      requires Named(assessments) == Table(before, profiles) + Row(artifact, profiles[..n])
      modifies this`polls, this`events, this`checkpoints, this`assessments
      ensures !finished ==> err == None && InSpine() && checkpoints == old(checkpoints) && Undisturbed(old(polls)) && polls == old(polls) + 1
      ensures !finished ==>
        var answer := ops.assess(AssessRequest(artifact, state, profiles[n], old(assessments)));
        && answer.Accepted? && assessments == old(assessments) + [answer.value]
        && events == old(events) + [Begin(AssessPhase)] + [End(AssessPhase, if answer.value.ready then Ready else NeedsInput)]
      ensures finished ==> Ended(r, err) && Keeps() && FrontierOf(old(checkpoints), old(assessments), r)
      ensures finished && SealIsFresh(ops) ==> r.checkpoints == old(checkpoints) || r.checkpoints == before
      ensures finished && !Undisturbed(old(polls)) ==> err == Some(ContextDone)
      ensures finished && Undisturbed(old(polls)) ==> !ops.assess(AssessRequest(artifact, state, profiles[n], old(assessments))).Accepted?
      ensures old(polls) <= polls
    {
      hide InnerPairs, IsRun, Table, Row, Named, KeysOf, KeysAfter, KeysUpTo, KeepProfiles, WithoutCheckpoint, WithoutAssessments,
        Sound, InSpine, InPhase, Ended, FrontierOf, Keeps, DeclaredKeys, Distinct, SealIsFresh;
      finished, r, err := true, ZERO_RESULT, None;
      Snoc(before, artifact);
      RowKeeps(before, artifact, n);
      var isDone := Poll();
      if isDone {
        r, err := Machinery(None, ContextDone, false);
        return;
      }
      BeginPhase(AssessPhase);
      var outcome := ops.assess(AssessRequest(artifact, state, profiles[n], assessments));
      if outcome.Error? {
        r, err := Machinery(Some(AssessPhase), outcome.cause, false);
        return;
      }
      if outcome.Rejected? {
        if SealIsFresh(ops) { OthersStay(before, artifact); }
        KeepsIfSound();
        ExcludeUnverifiedCheckpoint(artifact, outcome.failure);
        KeepsIfSound();
        r := SemanticRejection(AssessPhase, outcome.failure);
        LastMayLeave(old(checkpoints), old(assessments), artifact, r);
        return;
      }
      if outcome.Contradiction? {
        r, err := Machinery(Some(AssessPhase), OtherCause, false);
        return;
      }
      assessments := assessments + [outcome.value];
      EndInner(AssessPhase, if outcome.value.ready then Ready else NeedsInput);
      finished := false;
    }

    /** Which cell of the table is asked about next. */
    lemma NextCell(before: seq<Artifact>, artifact: Artifact, state: State, initial: State, n: nat, i: nat, j: nat)
      requires plan.Some? && binding.Some? && n < |profiles| && checkpoints == before + [artifact]
      requires InPlace(Here(initial), |before|, i, j) && TransitionOf(Here(initial), i).value.state == state
      requires Named(assessments) == Table(before, profiles) + Row(artifact, profiles[..n])
      ensures InTable(Here(initial), checkpoints, |assessments|, |before|, n, i, j)
      ensures AssessAnswer(Here(initial), checkpoints, assessments, |before|, n, i, j)
           == ops.assess(AssessRequest(artifact, state, profiles[n], assessments))
    {
      hide Table, Named, Row, InPlace, TransitionOf;
      TableLength(before, profiles);
    }

    /** Inside the row of a new checkpoint, everything is kept, and would be without it. */
    lemma RowKeeps(before: seq<Artifact>, artifact: Artifact, n: nat)
      requires n <= |profiles| && plan.Some? && checkpoints == before + [artifact]
      requires KeysOf(checkpoints) <= DeclaredKeys(plan.value) && (SealIsFresh(ops) ==> Distinct(checkpoints))
      requires Named(assessments) == Table(before, profiles) + Row(artifact, profiles[..n])
      ensures Keeps()
      ensures Sound(ops, plan.value, profiles, WithoutCheckpoint(checkpoints, artifact.id), WithoutAssessments(assessments, artifact.id))
    {
      hide Table, Row, Named, KeysOf, KeysAfter, KeysUpTo, CheckpointIDs, ProfileIDs, WithoutCheckpoint, WithoutAssessments, Distinct;
      Snoc(before, artifact);
      RowRetains(n);
      KeptCheckpoints(checkpoints, artifact.id);
      KeptAssessments(assessments, artifact.id);
      if SealIsFresh(ops) {
        ExclusionRetains(before, artifact, n);
        OthersStay(before, artifact);
      }
    }

    lemma KeepsIfSound()
      ensures plan.Some? && Sound(ops, plan.value, profiles, checkpoints, assessments) <==> Keeps()
    {
    }

    /** Dropping the last checkpoint leaves the ones before it, fully assessed. */
    lemma ExclusionRetains(before: seq<Artifact>, artifact: Artifact, n: nat)
      requires n <= |profiles| && checkpoints == before + [artifact] && plan.Some?
      requires KeysOf(checkpoints) <= DeclaredKeys(plan.value) && Distinct(checkpoints)
      requires Named(assessments) == Table(before, profiles) + Row(artifact, profiles[..n])
      ensures var cs, xs := WithoutCheckpoint(checkpoints, artifact.id), WithoutAssessments(assessments, artifact.id);
              cs == before && RetainsPrefix(plan.value, profiles, cs, xs)
    {
      hide Table, Row, Named, KeysOf, KeysAfter, KeysUpTo, WithoutAssessments;
      OthersStay(before, artifact);
      LastRowDropped(before, artifact, n);
      KeysSnoc(before, artifact);
      if before != [] {
        TableSnoc(before[..|before| - 1], before[|before| - 1], profiles);
        assert before == before[..|before| - 1] + [before[|before| - 1]];
      }
    }

    lemma LastRowDropped(before: seq<Artifact>, artifact: Artifact, n: nat)
      requires n <= |profiles| && artifact.id !in CheckpointIDs(before)
      requires Named(assessments) == Table(before, profiles) + Row(artifact, profiles[..n])
      ensures Named(WithoutAssessments(assessments, artifact.id)) == Table(before, profiles)
    {
      hide Table, Row, Named, CheckpointIDs, ProfileIDs, WithoutAssessments;
      var m := |Table(before, profiles)|;
      var xs, ys := assessments[..m], assessments[m..];
      assert assessments == xs + ys;
      NamedTake(assessments, m);
      assert Named(xs) == Table(before, profiles);
      OldRows(before, xs, artifact.id);
      LastRow(artifact, n, m);
      DropAssessments(xs, ys, artifact.id);
      AllAssessmentsKept(xs, artifact.id);
    }

    lemma OldRows(before: seq<Artifact>, xs: seq<Assessment>, id: string)
      requires Named(xs) == Table(before, profiles) && id !in CheckpointIDs(before)
      ensures forall a <- xs :: a.checkpointID != id
    {
      hide Table, Named;
      TableMembers(before, profiles);
      forall a | a in xs ensures a.checkpointID != id {
        var i :| 0 <= i < |xs| && xs[i] == a;
        NamedAt(xs, i);
        assert Named(xs)[i] == Table(before, profiles)[i];
      }
    }

    lemma LastRow(artifact: Artifact, n: nat, m: nat)
      requires n <= |profiles| && m <= |assessments| && Named(assessments)[m..] == Row(artifact, profiles[..n])
      ensures forall a <- assessments[m..] :: a.checkpointID == artifact.id
    {
      hide Row, Named;
      RowMembers(artifact, profiles[..n]);
      forall a | a in assessments[m..] ensures a.checkpointID == artifact.id {
        var i :| 0 <= i < |assessments[m..]| && assessments[m..][i] == a;
        NamedAt(assessments, m + i);
        assert Named(assessments)[m..][i] == Named(assessments)[m + i];
      }
    }

    /** The state and journal are those after the first `n` rules. */
    ghost predicate Reflects(request: Request, n: nat)
      reads this`plan, this`binding, this`state, this`journal
    {
      && plan.Some? && binding.Some? && state.Some? && journal.Some? && n <= |plan.value.rules|
      && AcceptedAfter(ops, binding.value, request.initial, plan.value.rules, n) == Some((state.value, journal.value))
    }

    /** Seals and assesses every checkpoint declared after the i-th rule. */
    method SealBoundary(i: nat, t: Transition, ghost initial: State)
      returns (finished: bool, r: SpineResult, err: Option<Cause>, ghost sealed: seq<Artifact>, ghost assessed: seq<Assessment>)
      requires AssessBinds(ops) && SealBinds(ops) && InSpine() && Keeps() && AtBoundary(i, 0)
      requires binding.Some? && state == Some(t.state) && journal == Some(t.journal)
      requires TransitionOf(Here(initial), i) == Some(t) && Answered(Here(initial), checkpoints, assessments)
      modifies this`polls, this`events, this`checkpoints, this`assessments
      ensures Keeps()
      ensures finished ==> Ended(r, err) && FrontierOf(sealed, assessed, r)
      ensures finished && SealIsFresh(ops) ==> BehindRules(plan.value, i + 1, KeysOf(r.checkpoints))
      ensures finished && !Undisturbed(old(polls)) ==> err == Some(ContextDone)
      ensures !finished ==> polls == old(polls) + |checkpoints| - |old(checkpoints)| + |assessments| - |old(assessments)|
      ensures finished && Undisturbed(old(polls)) ==> Halted(Here(initial), sealed, assessed)
      ensures !finished ==> err == None && InSpine() && AtBoundary(i, |plan.value.checkpoints|) && Undisturbed(old(polls))
      ensures !finished ==> sealed == checkpoints && assessed == assessments
      ensures Answered(Here(initial), sealed, assessed) && |sealed| <= |DeclaredKeys(plan.value)| && old(polls) <= polls
    {
      hide InnerPairs, IsRun, Table, Row, Named, KeysOf, Sound, RetainsPrefix, InSpine, InPhase, Ended, FrontierOf, BehindRules, Answered, Halted, TransitionOf, DeclaredKeys;
      finished, r, err, sealed, assessed := false, ZERO_RESULT, None, checkpoints, assessments;
      var decls := plan.value.checkpoints;
      for j := 0 to |decls|
        invariant err == None && InSpine() && Keeps() && AtBoundary(i, j)
        invariant polls == old(polls) + |checkpoints| - |old(checkpoints)| + |assessments| - |old(assessments)|
        invariant sealed == checkpoints && assessed == assessments && Answered(Here(initial), sealed, assessed) && Undisturbed(old(polls))
      {
        KeysAfterStep(plan.value, plan.value.rules[i], j);
        if decls[j].after == plan.value.rules[i] {
          DistinctIfFresh();
          finished, r, err, sealed, assessed := SealAndAssess(binding.value, i, j, t.state, t.journal, t.invariants, initial);
          if finished { return; }
          BoundaryKeeps(i, j + 1);
        }
      }
      finished := false;
      FitsDeclared(i, |decls|);
    }

    /** The transition phase of one rule. */
    method ExecuteRule(rule: string) returns (finished: bool, r: SpineResult, err: Option<Cause>, t: Transition)
      requires InSpine() && plan.Some? && binding.Some? && state.Some? && journal.Some?
      modifies this`polls, this`events
      ensures finished ==> Ended(r, err) && r.checkpoints == checkpoints && FrontierOf(checkpoints, assessments, r)
      ensures finished && !Undisturbed(old(polls)) ==> err == Some(ContextDone)
      ensures finished && Undisturbed(old(polls)) ==> !ops.execute(binding.value, rule, state.value, journal.value).Moved?
      ensures old(polls) <= polls && (!finished ==> polls == old(polls) + 1)
      ensures !finished ==> events == old(events) + [Begin(TransitionPhase), End(TransitionPhase, Success)]
      ensures !finished ==> err == None && InSpine() && Undisturbed(old(polls)) && ops.execute(binding.value, rule, state.value, journal.value) == Moved(t)
    {
      hide InnerPairs, IsRun, InSpine, InPhase, Ended, FrontierOf, KeepProfiles, UsedProfiles;
      finished, r, err, t := true, ZERO_RESULT, None, NO_TRANSITION;
      var isDone := Poll();
      if isDone {
        r, err := Machinery(None, ContextDone, false);
        return;
      }
      BeginPhase(TransitionPhase);
      var outcome := ops.execute(binding.value, rule, state.value, journal.value);
      if outcome.Unable? {
        r, err := Machinery(Some(TransitionPhase), outcome.cause, false);
        return;
      }
      if outcome.Refused? {
        r := SemanticRejection(TransitionPhase, outcome.failure);
        return;
      }
      t := outcome.transition;
      EndInner(TransitionPhase, Success);
      finished := false;
    }

    /** Executes the rules of the plan; `n` of them were accepted. */
    method ExecuteRules(request: Request)
      returns (finished: bool, r: SpineResult, err: Option<Cause>, ghost n: nat, ghost sealed: seq<Artifact>, ghost assessed: seq<Assessment>)
      requires AssessBinds(ops) && SealBinds(ops) && InSpine() && Reflects(request, 0) && checkpoints == [] && assessments == []
      modifies this`polls, this`events, this`state, this`journal, this`checkpoints, this`assessments
      ensures Reflects(request, n) && Keeps()
      ensures finished ==> Ended(r, err) && FrontierOf(sealed, assessed, r)
      ensures finished && !Undisturbed(old(polls)) ==> err == Some(ContextDone)
      ensures !finished ==> polls == old(polls) + n + |checkpoints| + |assessments|
      ensures finished && Undisturbed(old(polls)) ==> Halted(Here(request.initial), sealed, assessed)
      ensures finished && SealIsFresh(ops) ==> BehindRules(plan.value, n, KeysOf(r.checkpoints))
      ensures !finished ==> err == None && InSpine() && n == |plan.value.rules| && RetainsAll(plan.value, profiles, checkpoints, assessments)
      ensures !finished ==> sealed == checkpoints && assessed == assessments && Undisturbed(old(polls))
      ensures Answered(Here(request.initial), sealed, assessed) && |sealed| <= |DeclaredKeys(plan.value)| && old(polls) <= polls
    {
      hide InnerPairs, IsRun, Table, Row, Named, KeysOf, KeysUpTo, KeysAfter, Sound, RetainsPrefix, InSpine, InPhase, Ended, BehindRules,
        Answered, Halted, TransitionOf, DeclaredKeys, FrontierOf, KeepProfiles, UsedProfiles, AcceptedAfter, AtBoundary, RetainsAll, Keeps;
      finished, r, err, n, sealed, assessed := true, ZERO_RESULT, None, 0, [], [];
      ghost var g := Here(request.initial);
      NothingAnswered(g);
      var rules := plan.value.rules;
      NothingKept();
      NoKeys(plan.value);
      for i := 0 to |rules|
        invariant finished && err == None && InSpine() && Keeps() && n == i && Reflects(request, i)
        invariant KeysOf(checkpoints) == KeysUpTo(plan.value, i) && Named(assessments) == Table(checkpoints, profiles)
        invariant sealed == checkpoints && assessed == assessments && Answered(g, sealed, assessed) && Undisturbed(old(polls))
        invariant |sealed| <= |DeclaredKeys(plan.value)| && polls == old(polls) + n + |checkpoints| + |assessments|
      {
        AllBehind(plan.value, i);
        var t;
        finished, r, err, t := ExecuteRule(rules[i]);
        if finished {
          if Undisturbed(old(polls)) { RuleHalts(g, sealed, assessed, i); }
          return;
        }
        finished := true;
        TransitionIs(g, i, t);
        state, journal := Some(t.state), Some(t.journal);
        n := i + 1;
        AcceptedStep(ops, binding.value, request.initial, rules, i, t);
        StartsBoundary(i);
        finished, r, err, sealed, assessed := SealBoundary(i, t, request.initial);
        if finished { return; }
        finished := true;
        EndsBoundary(i);
      }
      EverythingRetained();
      finished := false;
    }

    lemma StartsBoundary(i: nat)
      requires plan.Some? && i < |plan.value.rules| && KeysOf(checkpoints) == KeysUpTo(plan.value, i)
      requires Named(assessments) == Table(checkpoints, profiles)
      ensures AtBoundary(i, 0)
    {
      hide Named, Table, KeysOf;
    }

    lemma EndsBoundary(i: nat)
      requires plan.Some? && AtBoundary(i, |plan.value.checkpoints|)
      ensures KeysOf(checkpoints) == KeysUpTo(plan.value, i + 1) && Named(assessments) == Table(checkpoints, profiles)
    {
      hide Named, Table, KeysOf;
    }

    lemma EverythingRetained()
      requires plan.Some? && KeysOf(checkpoints) == KeysUpTo(plan.value, |plan.value.rules|)
      requires Named(assessments) == Table(checkpoints, profiles)
      ensures RetainsAll(plan.value, profiles, checkpoints, assessments)
    {
      hide Named, Table, KeysOf;
    }

    lemma NothingKept()
      requires plan.Some? && checkpoints == [] && assessments == []
      ensures Keeps() && KeysOf(checkpoints) == [] && Named(assessments) == Table(checkpoints, profiles) == []
    {
    }

    lemma FitsDeclared(i: nat, j: nat)
      requires AtBoundary(i, j)
      ensures |checkpoints| <= |DeclaredKeys(plan.value)|
    {
      BoundaryIsPrefix(plan.value, i, j);
    }

    lemma DistinctIfFresh()
      requires Keeps()
      ensures SealIsFresh(ops) ==> Distinct(checkpoints)
    {
    }

    lemma BoundaryKeeps(i: nat, j: nat)
      requires AtBoundary(i, j) && (SealIsFresh(ops) ==> Distinct(checkpoints))
      ensures Keeps()
    {
      BoundaryRetains(i, j);
    }

    /** The compile phase. */
    method CompilePlan(request: Request) returns (finished: bool, r: SpineResult, err: Option<Cause>)
      requires InSpine() && plan == None && binding == None && state == None && journal == None && checkpoints == [] && assessments == []
      modifies this`events, this`plan, this`profiles
      ensures !finished ==> err == None && InSpine() && plan.Some? && ops.compile(request) == Accepted((plan.value, profiles))
      ensures finished ==> IsRun(events) && EndsAs(events, r, err) && (err.Some? != r.compilationFailure.Some?) && Unstarted(r)
      ensures finished ==> plan.None? && r.plan.None? && !ops.compile(request).Accepted?
    {
      hide InnerPairs, IsRun, InSpine, InPhase, Ended, KeepProfiles;
      finished, r, err := true, ZERO_RESULT, None;
      BeginPhase(CompilePhase);
      var compilation := ops.compile(request);
      if compilation.Error? {
        r, err := Machinery(Some(CompilePhase), compilation.cause, true);
        return;
      }
      if compilation.Rejected? {
        EndInner(CompilePhase, InvalidPlan);
        EndSpine(InvalidPlan);
        r := ZERO_RESULT.(status := SpineInvalidPlan, compilationFailure := Some(compilation.failure));
        return;
      }
      if compilation.Contradiction? {
        r, err := Machinery(Some(CompilePhase), OtherCause, false);
        return;
      }
      plan, profiles := Some(compilation.value.0), compilation.value.1;
      EndInner(CompilePhase, Success);
      finished := false;
    }

    /** Everything up to the binding of the run. */
    method Establish(request: Request) returns (finished: bool, r: SpineResult, err: Option<Cause>)
      requires plan == None && binding == None && state == None && journal == None
      requires checkpoints == [] && assessments == [] && events == []
      modifies this
      ensures checkpoints == [] && assessments == []
      ensures !finished ==> err == None && InSpine() && Reflects(request, 0) && Complete(request) && Undisturbed(old(polls))
      ensures plan.Some? ==> ops.compile(request) == Accepted((plan.value, profiles))
      ensures binding.Some? ==> plan.Some? && ops.bind(plan.value, request) == Bound(binding.value)
      ensures finished && Undisturbed(old(polls)) ==> !(Complete(request) && Acceptable(ops, request))
      ensures old(polls) <= polls && !(finished && binding.Some?) && (!finished ==> polls == old(polls) + 2)
      ensures finished && !Undisturbed(old(polls)) ==> err == Some(ContextDone)
      ensures Undisturbed(old(polls)) && Complete(request) && ops.compile(request).Accepted? ==> plan.Some?
      ensures Undisturbed(old(polls)) && plan.Some? && ops.bind(plan.value, request).Bound? ==> binding.Some?
      ensures finished ==> IsRun(events) && EndsAs(events, r, err) && (err.Some? != r.compilationFailure.Some?)
      ensures finished ==> r.plan == plan
      ensures finished ==> Unstarted(r)
    {
      hide InnerPairs, IsRun, InSpine, InPhase, Ended, KeepProfiles, Acceptable, UsedProfiles;
      finished, r, err := true, ZERO_RESULT, None;
      BeginPhase(SpinePhase);
      var isDone := Poll();
      if isDone {
        r, err := Machinery(None, ContextDone, true);
        return;
      }
      if request.version == "" || request.transformations == 0 || request.initial.digest == "" || request.world == ""
         || request.executor == "" || request.policy == 0 {
        EndSpine(InvalidInput);
        err := Some(BadInput);
        return;
      }
      finished, r, err := CompilePlan(request);
      if finished {
        NotCompiled(request);
        return;
      }
      finished, r, err := BindPlan(request);
    }

    /** The binding of a compiled plan. */
    method BindPlan(request: Request) returns (finished: bool, r: SpineResult, err: Option<Cause>)
      requires InSpine() && plan.Some? && ops.compile(request) == Accepted((plan.value, profiles))
      requires binding == None && state == None && journal == None && checkpoints == [] && assessments == []
      modifies this`polls, this`events, this`binding, this`state, this`journal
      ensures !finished ==> err == None && InSpine() && Reflects(request, 0) && Undisturbed(old(polls))
      ensures !finished ==> ops.bind(plan.value, request) == Bound(binding.value)
      ensures finished && Undisturbed(old(polls)) ==> !Acceptable(ops, request)
      ensures finished ==> IsRun(events) && EndsAs(events, r, err) && err.Some? && r.compilationFailure.None? && Unstarted(r)
      ensures finished ==> binding.None? && r.plan == plan && (ops.bind(plan.value, request).Bound? ==> !Undisturbed(old(polls)))
      ensures old(polls) <= polls && (!finished ==> polls == old(polls) + 1)
      ensures finished && !Undisturbed(old(polls)) ==> err == Some(ContextDone)
    {
      hide InnerPairs, IsRun, InSpine, InPhase, Ended, KeepProfiles, Acceptable, UsedProfiles;
      finished, r, err := true, ZERO_RESULT, None;
      var isDone := Poll();
      if isDone {
        r, err := Machinery(None, ContextDone, true);
        return;
      }
      var bound := ops.bind(plan.value, request);
      if bound.Unbound? {
        NotBound(request);
        r, err := Machinery(None, bound.cause, true);
        return;
      }
      binding, state, journal := Some(bound.binding), Some(request.initial), Some(Journal([]));
      finished := false;
    }

    lemma NotCompiled(request: Request)
      requires !ops.compile(request).Accepted?
      ensures !Acceptable(ops, request)
    {
    }

    lemma NotBound(request: Request)
      requires plan.Some? && ops.compile(request) == Accepted((plan.value, profiles)) && ops.bind(plan.value, request).Unbound?
      ensures !Acceptable(ops, request)
    {
    }

    /** THE SPINE.  Whatever the operations answer, and whenever the context is done, a run emits one
        spine of events; what it returns is closed under its references, reflects accepted transitions
        only, and is everything that was asked for exactly when it succeeds. */
    method Run(request: Request)
      returns (r: SpineResult, err: Option<Cause>, ghost n: nat, ghost sealed: seq<Artifact>, ghost assessed: seq<Assessment>)
      requires AssessBinds(ops) && SealBinds(ops)
      requires plan == None && binding == None && state == None && journal == None
      requires checkpoints == [] && assessments == [] && events == []
      modifies this
      ensures IsRun(events) && EndsAs(events, r, err)
      ensures DependencyClosed(r)
      ensures r.plan.Some? && SealIsFresh(ops) ==> RetainsPrefix(r.plan.value, profiles, r.checkpoints, r.assessments)
      ensures r.binding.Some? ==> ReflectsAccepted(ops, request, r, n)
      ensures r.binding.Some? && SealIsFresh(ops) ==> BehindRules(r.plan.value, n, KeysOf(r.checkpoints))
      ensures r.plan.Some? ==> ops.compile(request) == Accepted((r.plan.value, profiles))
      ensures r.binding.Some? ==> r.plan.Some? && ops.bind(r.plan.value, request) == Bound(r.binding.value)
      ensures r.binding.Some? ==> Answered(Setting(ops, r.binding.value, request.initial, r.plan.value, profiles), sealed, assessed)
      ensures FrontierOf(sealed, assessed, r)
      ensures Undisturbed(old(polls)) && Complete(request) && ops.compile(request).Accepted? ==> r.plan.Some?
      ensures Undisturbed(old(polls)) && r.plan.Some? && ops.bind(r.plan.value, request).Bound? ==> r.binding.Some?
      ensures SaysHow(r, err.None? && r.failure.None? && r.compilationFailure.None?)
      ensures r.binding.Some? ==> forall p :: p in r.profiles <==> p in profiles && exists a <- r.assessments :: a.profileID == p.id
      ensures r.binding.None? ==> r.state.None? && r.journal.None? && r.checkpoints == [] && r.assessments == []
      ensures r.status == SpineSucceeded <==> err.None? && r.failure.None? && r.compilationFailure.None?
      ensures !Undisturbed(old(polls)) ==> err == Some(ContextDone)
      ensures r.status == SpineSucceeded ==> polls == old(polls) + 2 + |r.plan.value.rules| + |r.checkpoints| + |r.assessments|
      ensures r.status == SpineSucceeded <==> Complete(request) && Undisturbed(old(polls)) && Acceptable(ops, request)
      ensures r.status == SpineSucceeded ==> Succeeds(request, r) && sealed == r.checkpoints && assessed == r.assessments
    {
      hide InnerPairs, IsRun, Table, Row, Named, KeysOf, InSpine, InPhase, AcceptedAfter, BehindRules, Answered, Halted, Acceptable, EndsAs, KeepProfiles, UsedProfiles;
      var finished;
      n, sealed, assessed := 0, [], [];
      finished, r, err := Establish(request);
      if finished {
        if r.plan.Some? { NothingKept(); KeepsResult(); }
        return;
      }
      finished, r, err, n, sealed, assessed := ExecuteRules(request);
      ghost var g := Here(request.initial);
      KeepsResult();
      AllBehind(plan.value, n);
      if finished {
        if Undisturbed(old(polls)) { HaltedIsNotAcceptable(request, sealed, assessed); }
      } else {
        GetsThrough(request);
        EndSpine(Success);
        assert events[|events| - 1] == End(SpinePhase, Success);
        var retained := RetainedProfiles();
        r := SpineResult(SpineSucceeded, ExecutionSucceeded, binding, plan, retained, None, None, state, journal, checkpoints, assessments);
        EndsWell(r);
      }
      KeepsUsed(r);
      assert ReflectsAccepted(ops, request, r, n);
    }

    /** Every rule was accepted, and every checkpoint it declares assessed under every profile. */
    ghost predicate Succeeds(request: Request, r: SpineResult)
      reads this`profiles
    {
      && r.plan.Some? && ReflectsAccepted(ops, request, r, |r.plan.value.rules|)
      && RetainsAll(r.plan.value, profiles, r.checkpoints, r.assessments)
    }

    lemma KeepsUsed(r: SpineResult)
      requires r.profiles == KeepProfiles(profiles, UsedProfiles(r.assessments))
      ensures forall p :: p in r.profiles <==> p in profiles && exists a <- r.assessments :: a.profileID == p.id
    {
      forall p ensures p in r.profiles <==> p in profiles && exists a <- r.assessments :: a.profileID == p.id {
        KeptIsUsed(profiles, UsedProfiles(r.assessments), p);
        assert p.id in UsedProfiles(r.assessments) <==> exists a <- r.assessments :: a.profileID == p.id;
      }
    }

    lemma EndsWell(r: SpineResult)
      requires events != [] && events[|events| - 1] == End(SpinePhase, Success) && r.compilationFailure.None? && r.failure.None?
      ensures EndsAs(events, r, None)
    {
    }

    lemma HaltedIsNotAcceptable(request: Request, sealed: seq<Artifact>, assessed: seq<Assessment>)
      requires plan.Some? && binding.Some? && ops.compile(request) == Accepted((plan.value, profiles))
      requires ops.bind(plan.value, request) == Bound(binding.value)
      requires Answered(Here(request.initial), sealed, assessed) && |sealed| <= |DeclaredKeys(plan.value)|
      requires Halted(Here(request.initial), sealed, assessed)
      ensures !Acceptable(ops, request)
    {
      hide Answered, Halted, DeclaredKeys, Through;
      forall all, every ensures !Through(Here(request.initial), all, every) {
        if Through(Here(request.initial), all, every) {
          ThroughIsNotHalted(Here(request.initial), sealed, assessed, all, every);
          assert false;
        }
      }
    }

    lemma GetsThrough(request: Request)
      requires plan.Some? && ops.compile(request) == Accepted((plan.value, profiles))
      requires Reflects(request, |plan.value.rules|) && ops.bind(plan.value, request) == Bound(binding.value)
      requires Answered(Here(request.initial), checkpoints, assessments)
      requires RetainsAll(plan.value, profiles, checkpoints, assessments)
      ensures Acceptable(ops, request)
    {
      hide Answered, DeclaredKeys, AcceptedAfter, Table, Named, KeysOf;
      TableLength(checkpoints, profiles);
      assert Through(Here(request.initial), checkpoints, assessments);
    }

    lemma KeepsResult()
      requires Keeps()
      ensures DependencyClosed(Frontier())
      ensures SealIsFresh(ops) ==> RetainsPrefix(plan.value, profiles, checkpoints, assessments)
    {
      ClosedFrontier();
    }
  }

  ghost predicate Distinct(cs: seq<Artifact>) {
    forall i, j :: 0 <= i < j < |cs| ==> cs[i].id != cs[j].id
  }

  lemma OthersStay(before: seq<Artifact>, artifact: Artifact)
    requires Distinct(before + [artifact])
    ensures artifact.id !in CheckpointIDs(before) && WithoutCheckpoint(before + [artifact], artifact.id) == before && Distinct(before)
  {
    var all := before + [artifact];
    assert forall i :: 0 <= i < |before| ==> all[i] == before[i] && all[i].id != all[|before|].id;
    KeptCheckpoints(before, artifact.id);
    Snoc(before, artifact);
    assert before + [] == before;
  }

  lemma DistinctSnoc(cs: seq<Artifact>, c: Artifact)
    requires Distinct(cs) && c.id !in CheckpointIDs(cs)
    ensures Distinct(cs + [c])
  {
    assert forall i :: 0 <= i < |cs| ==> cs[i] in cs;
  }

  lemma {:induction false} NamedTake(xs: seq<Assessment>, n: nat)
    requires n <= |xs|
    ensures Named(xs[..n]) == Named(xs)[..n]
    decreases |xs|
  {
    if n == |xs| {
      assert xs[..n] == xs;
    } else {
      assert xs[..|xs| - 1][..n] == xs[..n];
      NamedTake(xs[..|xs| - 1], n);
    }
  }
}
