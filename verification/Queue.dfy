/** The execution store as a work queue: leases, attempt generations, and a claim cursor. */
module Queue {
  import opened Ast

  datatype Status = Pending | Running | Succeeded | FailedStatus | Unrecognized(token: string)

  predicate Terminal(s: Status) {
    s == Succeeded || s == FailedStatus
  }

  datatype Key = Key(tenant: string, execution: string)

  /** What an execution produced; its artifacts are opaque here. */
  datatype Result = Result(key: Key, status: Status, projection: string)

  /** A pinned input; one that cannot be executed is refused. */
  datatype Request = Request(key: Key, input: string, usable: bool)

  /** `attempt` is the generation that holds the execution. */
  datatype Entry = Entry(request: Request, status: Status, result: Option<Result>, reason: string, leaseExpiry: int, attempt: nat)

  datatype Answer = Accepted | Present | Incomplete | Unusable | NotQueued | Superseded | Absent | NotReattemptable

  /** The entries, and the order in which they came. */
  datatype QueueState = QueueState(entries: map<Key, Entry>, order: seq<Key>)

  const EMPTY := QueueState(map[], [])

  // ----- what each operation does -----

  function Enqueued(q: QueueState, r: Request): (Answer, QueueState) {
    if r.key.tenant == "" || r.key.execution == "" then (Incomplete, q)
    else if !r.usable then (Unusable, q)
    else if r.key in q.entries then (Present, q)
    else (Accepted, QueueState(q.entries[r.key := Entry(r, Pending, None, "", 0, 0)], q.order + [r.key]))
  }

  predicate Claimable(e: Entry, now: int) {
    e.status == Pending || (e.status == Running && now > e.leaseExpiry)
  }

  predicate ClaimableIn(q: QueueState, k: Key, now: int) {
    k in q.entries && Claimable(q.entries[k], now)
  }

  /** The oldest available execution from the i-th on. */
  function FirstClaimable(q: QueueState, now: int, i: nat): (r: Option<nat>)
    requires i <= |q.order|
    ensures r.Some? ==> i <= r.value < |q.order| && ClaimableIn(q, q.order[r.value], now)
    ensures r.None? ==> forall j :: i <= j < |q.order| ==> !ClaimableIn(q, q.order[j], now)
    decreases |q.order| - i
  {
    if i == |q.order| then None else if ClaimableIn(q, q.order[i], now) then Some(i) else FirstClaimable(q, now, i + 1)
  }

  function Leased(e: Entry, now: int, lease: int): Entry {
    e.(status := Running, leaseExpiry := now + lease, attempt := e.attempt + 1)
  }

  function Claimed(q: QueueState, now: int, lease: int): QueueState {
    match FirstClaimable(q, now, 0)
    case None => q
    case Some(i) => q.(entries := q.entries[q.order[i] := Leased(q.entries[q.order[i]], now, lease)])
  }

  /** Whether an attempt may report the outcome of an execution. */
  function Holds(q: QueueState, k: Key, attempt: nat): Answer {
    if k !in q.entries then NotQueued
    else if q.entries[k].status != Running then NotQueued
    else if q.entries[k].attempt != attempt then Superseded
    else Accepted
  }

  function Completed(q: QueueState, attempt: nat, r: Result): (Answer, QueueState) {
    if r.key.tenant == "" || r.key.execution == "" || !Terminal(r.status) then (Incomplete, q)
    else if Holds(q, r.key, attempt) != Accepted then (Holds(q, r.key, attempt), q)
    else (Accepted, q.(entries := q.entries[r.key := q.entries[r.key].(status := r.status, result := Some(r), reason := "", leaseExpiry := 0)]))
  }

  function FailedWith(q: QueueState, k: Key, attempt: nat, reason: string): (Answer, QueueState) {
    if Holds(q, k, attempt) != Accepted then (Holds(q, k, attempt), q)
    else (Accepted, q.(entries := q.entries[k := q.entries[k].(status := FailedStatus, result := None, reason := reason, leaseExpiry := 0)]))
  }

  function Reopened(e: Entry): Entry {
    Entry(e.request, Pending, e.result, "", 0, e.attempt + 1)
  }

  function Reattempted(q: QueueState, k: Key): (Answer, QueueState) {
    if k !in q.entries then (Absent, q)
    else if q.entries[k].status != FailedStatus || q.entries[k].result.Some? then (NotReattemptable, q)
    else (Accepted, q.(entries := q.entries[k := Reopened(q.entries[k])]))
  }

  // ----- lifecycles -----

  datatype Lifecycle = ToVerify | StillPending | Unattempted | Inconsistent

  /** What a status and the presence of a result say together, if they can both be true. */
  function ClassifyLifecycle<R>(s: Status, result: Option<R>): Lifecycle {
    match s
    case Pending => if result.Some? then Inconsistent else StillPending
    case Running => if result.Some? then Inconsistent else StillPending
    case Succeeded => if result.None? then Inconsistent else ToVerify
    case FailedStatus => if result.None? then Unattempted else ToVerify
    case Unrecognized(_) => Inconsistent
  }

  predicate Consistent(e: Entry) {
    && ClassifyLifecycle(e.status, e.result) != Inconsistent
    && (e.result.Some? ==> e.result.value.key == e.request.key && e.result.value.status == e.status)
    && (e.status == Running ==> e.attempt >= 1)
  }

  ghost predicate WellFormed(q: QueueState) {
    && (forall i :: 0 <= i < |q.order| ==> q.order[i] in q.entries)
    && (forall i, j :: 0 <= i < j < |q.order| ==> q.order[i] != q.order[j])
    && (forall k <- q.entries :: k in q.order && q.entries[k].request.key == k && Consistent(q.entries[k]))
  }

  /** Every execution before a place in the order is over. */
  ghost predicate OverBefore(q: QueueState, cursor: nat) {
    cursor <= |q.order| && forall i :: 0 <= i < cursor ==> q.order[i] in q.entries && Terminal(q.entries[q.order[i]].status)
  }

  lemma OverBeforeUpdate(q: QueueState, cursor: nat, k: Key, e: Entry)
    requires OverBefore(q, cursor) && forall i :: 0 <= i < cursor ==> q.order[i] != k
    ensures OverBefore(q.(entries := q.entries[k := e]), cursor)
  {
  }

  // ----- the machine -----

  class ExecutionStore {
    var executions: map<Key, Entry>
    var executionOrder: seq<Key>
    /** Every execution before the cursor is over. */
    var claimCursor: nat

    constructor ()
      ensures Valid() && State() == EMPTY
    {
      executions, executionOrder, claimCursor := map[], [], 0;
    }

    function State(): QueueState
      reads this
    {
      QueueState(executions, executionOrder)
    }

    ghost predicate Valid()
      reads this
    {
      WellFormed(State()) && OverBefore(State(), claimCursor)
    }

    method Enqueue(r: Request) returns (a: Answer)
      requires Valid()
      modifies this
      ensures Valid() && (a, State()) == Enqueued(old(State()), r)
      ensures a == Accepted <==> r.key.tenant != "" && r.key.execution != "" && r.usable && r.key !in old(executions)
      ensures a == Accepted ==> executions == old(executions)[r.key := Entry(r, Pending, None, "", 0, 0)]
      ensures a == Accepted ==> executionOrder == old(executionOrder) + [r.key]
      ensures a != Accepted ==> executions == old(executions) && executionOrder == old(executionOrder)
    {
      if r.key.tenant == "" || r.key.execution == "" { return Incomplete; }
      if !r.usable { return Unusable; }
      if r.key in executions { return Present; }
      executions := executions[r.key := Entry(r, Pending, None, "", 0, 0)];
      executionOrder := executionOrder + [r.key];
      a := Accepted;
    }

    /** Leases the oldest execution that waits or whose lease has ended; the cursor hides none.  A lease
        that has not ended is not touched. */
    method Claim(now: int, lease: int) returns (attempt: Option<(Request, nat)>)
      requires Valid()
      modifies this
      ensures Valid() && State() == Claimed(old(State()), now, lease)
      ensures executionOrder == old(executionOrder) && executions.Keys == old(executions.Keys)
      ensures forall k <- executions :: old(executions)[k].status == Running && now <= old(executions)[k].leaseExpiry ==> executions[k] == old(executions)[k]
      ensures forall k <- executions :: old(executions)[k].status == Succeeded || old(executions)[k].status == FailedStatus ==> executions[k] == old(executions)[k]
      ensures attempt == None ==> executions == old(executions)
      ensures attempt == None ==> forall k <- executions :: executions[k].status != Pending && (executions[k].status == Running ==> now <= executions[k].leaseExpiry)
      ensures attempt != None ==> exists i ::
        && 0 <= i < |executionOrder|
        && var e := old(executions)[executionOrder[i]];
           && (e.status == Pending || (e.status == Running && now > e.leaseExpiry))
           && executions == old(executions)[executionOrder[i] := Entry(e.request, Running, e.result, e.reason, now + lease, e.attempt + 1)]
           && attempt == Some((e.request, e.attempt + 1))
           && (forall j :: 0 <= j < i ==> old(executions)[executionOrder[j]].status != Pending)
           && (forall j :: 0 <= j < i ==> old(executions)[executionOrder[j]].status == Running ==> now <= old(executions)[executionOrder[j]].leaseExpiry)
    {
      hide WellFormed, OverBefore, FirstClaimable;
      ghost var q := State();
      AdvanceCursor();
      var found := ScanFromCursor(now);
      ClaimSaysWhat(q, now, lease);
      if found.None? { return None; }
      var key := executionOrder[found.value];
      var entry := executions[key];
      LaterKey(q, found.value);
      OverBeforeUpdate(q, claimCursor, key, Leased(entry, now, lease));
      ClaimedWellFormed(q, now, lease);
      executions := executions[key := Leased(entry, now, lease)];
      attempt := Some((entry.request, entry.attempt + 1));
    }

    /** The first available execution from the cursor on, which is the first there is. */
    method ScanFromCursor(now: int) returns (found: Option<nat>)
      requires Valid() && FirstClaimable(State(), now, 0) == FirstClaimable(State(), now, claimCursor)
      ensures found == FirstClaimable(State(), now, 0) && (found.Some? ==> claimCursor <= found.value)
    {
      var i := claimCursor;
      while i < |executionOrder|
        invariant claimCursor <= i <= |executionOrder|
        invariant FirstClaimable(State(), now, 0) == FirstClaimable(State(), now, i)
      {
        if executionOrder[i] in executions && Claimable(executions[executionOrder[i]], now) {
          return Some(i);
        }
        i := i + 1;
      }
      found := None;
    }

    /** Moves the cursor past the executions that are over. */
    method AdvanceCursor()
      requires Valid()
      modifies this`claimCursor
      ensures Valid() && forall now :: FirstClaimable(State(), now, 0) == FirstClaimable(State(), now, claimCursor)
    {
      while claimCursor < |executionOrder|
        invariant Valid()
        decreases |executionOrder| - claimCursor
      {
        if !Terminal(executions[executionOrder[claimCursor]].status) { break; }
        claimCursor := claimCursor + 1;
      }
      forall now ensures FirstClaimable(State(), now, 0) == FirstClaimable(State(), now, claimCursor) {
        SkipTerminal(State(), now, claimCursor);
      }
    }

    method Complete(attempt: nat, r: Result) returns (a: Answer)
      requires Valid()
      modifies this
      ensures Valid() && (a, State()) == Completed(old(State()), attempt, r)
      ensures executionOrder == old(executionOrder)
      ensures a == Incomplete <==> r.key.tenant == "" || r.key.execution == "" || (r.status != Succeeded && r.status != FailedStatus)
      ensures a == Accepted <==> a != Incomplete && r.key in old(executions) && old(executions)[r.key].status == Running && old(executions)[r.key].attempt == attempt
      ensures a == Superseded <==> a != Incomplete && r.key in old(executions) && old(executions)[r.key].status == Running && old(executions)[r.key].attempt != attempt
      ensures a == Accepted || a == Incomplete || a == Superseded || a == NotQueued
      ensures a != Accepted ==> executions == old(executions)
      ensures a == Accepted ==>
        executions == old(executions)[r.key := Entry(old(executions)[r.key].request, r.status, Some(r), "", 0, attempt)]
    {
      if r.key.tenant == "" || r.key.execution == "" { return Incomplete; }
      if !Terminal(r.status) { return Incomplete; }
      if r.key !in executions { return NotQueued; }
      var entry := executions[r.key];
      if Terminal(entry.status) { return NotQueued; }
      if entry.status != Running { return NotQueued; }
      if entry.attempt != attempt { return Superseded; }
      executions := executions[r.key := entry.(status := r.status, result := Some(r), reason := "", leaseExpiry := 0)];
      a := Accepted;
    }

    method Fail(k: Key, attempt: nat, reason: string) returns (a: Answer)
      requires Valid()
      modifies this
      ensures Valid() && (a, State()) == FailedWith(old(State()), k, attempt, reason)
      ensures executionOrder == old(executionOrder)
      ensures a == Accepted <==> k in old(executions) && old(executions)[k].status == Running && old(executions)[k].attempt == attempt
      ensures a == Superseded <==> k in old(executions) && old(executions)[k].status == Running && old(executions)[k].attempt != attempt
      ensures a == Accepted || a == Superseded || a == NotQueued
      ensures a != Accepted ==> executions == old(executions)
      ensures a == Accepted ==>
        executions == old(executions)[k := Entry(old(executions)[k].request, FailedStatus, None, reason, 0, attempt)]
    {
      if k !in executions { return NotQueued; }
      var entry := executions[k];
      if Terminal(entry.status) { return NotQueued; }
      if entry.status != Running { return NotQueued; }
      if entry.attempt != attempt { return Superseded; }
      executions := executions[k := entry.(status := FailedStatus, result := None, reason := reason, leaseExpiry := 0)];
      a := Accepted;
    }

    /** Returns a failed execution to the queue, and the cursor to where it is. */
    method Reattempt(k: Key) returns (a: Answer)
      requires Valid()
      modifies this
      ensures Valid() && (a, State()) == Reattempted(old(State()), k)
      ensures executionOrder == old(executionOrder)
      ensures a == Accepted <==> k in old(executions) && old(executions)[k].status == FailedStatus && old(executions)[k].result == None
      ensures a == Absent <==> k !in old(executions)
      ensures a == Accepted || a == Absent || a == NotReattemptable
      ensures a != Accepted ==> executions == old(executions)
      ensures a == Accepted ==>
        executions == old(executions)[k := Entry(old(executions)[k].request, Pending, None, "", 0, old(executions)[k].attempt + 1)]
    {
      if k !in executions { return Absent; }
      var entry := executions[k];
      if entry.status != FailedStatus || entry.result.Some? { return NotReattemptable; }
      hide WellFormed, OverBefore;
      ReattemptedWellFormed(State(), k);
      RewindCursor(k);
      OverBeforeUpdate(State(), claimCursor, k, Reopened(entry));
      executions := executions[k := Reopened(entry)];
      a := Accepted;
    }

    /** Moves the cursor back to an execution that is behind it. */
    method RewindCursor(k: Key)
      requires Valid()
      modifies this`claimCursor
      ensures Valid() && claimCursor <= old(claimCursor) && forall i :: 0 <= i < claimCursor ==> executionOrder[i] != k
    {
      for i := 0 to |executionOrder|
        invariant claimCursor == old(claimCursor) && forall j :: 0 <= j < i ==> executionOrder[j] != k
      {
        if executionOrder[i] == k {
          if i < claimCursor {
            claimCursor := i;
          }
          break;
        }
      }
    }

    method Get(k: Key) returns (r: Option<Entry>)
      requires Valid()
      ensures r == if k.tenant == "" || k.execution == "" || k !in executions then None else Some(executions[k])
      ensures r.Some? ==> ClassifyLifecycle(r.value.status, r.value.result) != Inconsistent
    {
      if k.tenant == "" || k.execution == "" { return None; }
      if k !in executions { return None; }
      r := Some(executions[k]);
    }
  }

  lemma {:induction false} SkipTerminal(q: QueueState, now: int, n: nat)
    requires OverBefore(q, n)
    ensures FirstClaimable(q, now, 0) == FirstClaimable(q, now, n)
    decreases n
  {
    if n > 0 { SkipTerminal(q, now, n - 1); }
  }

  lemma LaterKey(q: QueueState, i: nat)
    requires WellFormed(q) && i < |q.order|
    ensures forall j :: 0 <= j < i ==> q.order[j] != q.order[i]
  {
  }

  lemma ReattemptedWellFormed(q: QueueState, k: Key)
    requires WellFormed(q)
    ensures WellFormed(Reattempted(q, k).1)
  {
  }

  lemma ClaimedWellFormed(q: QueueState, now: int, lease: int)
    requires WellFormed(q)
    ensures WellFormed(Claimed(q, now, lease))
  {
  }

  /** What a claim does, said of the entries alone. */
  lemma ClaimSaysWhat(q: QueueState, now: int, lease: int)
    requires WellFormed(q)
    ensures var es := Claimed(q, now, lease).entries;
            && es.Keys == q.entries.Keys
            && (forall k <- es :: q.entries[k].status == Running && now <= q.entries[k].leaseExpiry ==> es[k] == q.entries[k])
            && (forall k <- es :: q.entries[k].status == Succeeded || q.entries[k].status == FailedStatus ==> es[k] == q.entries[k])
    ensures match FirstClaimable(q, now, 0)
            case None =>
              Claimed(q, now, lease) == q
              && forall k <- q.entries :: q.entries[k].status != Pending && (q.entries[k].status == Running ==> now <= q.entries[k].leaseExpiry)
            case Some(i) =>
              var e := q.entries[q.order[i]];
              && (e.status == Pending || (e.status == Running && now > e.leaseExpiry))
              && Claimed(q, now, lease).entries == q.entries[q.order[i] := Entry(e.request, Running, e.result, e.reason, now + lease, e.attempt + 1)]
              && (forall j :: 0 <= j < i ==> q.entries[q.order[j]].status != Pending)
              && (forall j :: 0 <= j < i ==> q.entries[q.order[j]].status == Running ==> now <= q.entries[q.order[j]].leaseExpiry)
  {
    hide FirstClaimable;
    if FirstClaimable(q, now, 0).None? {
      NoneToClaim(q, now);
    } else {
      FirstIsFirst(q, now, 0);
      hide WellFormed;
      assert forall j :: 0 <= j < FirstClaimable(q, now, 0).value ==> q.order[j] in q.entries && !Claimable(q.entries[q.order[j]], now);
    }
  }

  lemma NoneToClaim(q: QueueState, now: int)
    requires WellFormed(q) && FirstClaimable(q, now, 0).None?
    ensures forall k <- q.entries :: !Claimable(q.entries[k], now)
  {
    hide FirstClaimable;
    forall k | k in q.entries ensures !Claimable(q.entries[k], now) {
      var i :| 0 <= i < |q.order| && q.order[i] == k;
      assert !ClaimableIn(q, q.order[i], now);
    }
  }

  lemma {:induction false} FirstIsFirst(q: QueueState, now: int, i: nat)
    requires i <= |q.order|
    ensures var r := FirstClaimable(q, now, i); r.Some? ==> forall j :: i <= j < r.value ==> !ClaimableIn(q, q.order[j], now)
    decreases |q.order| - i
  {
    hide ClaimableIn;
    if i < |q.order| && !ClaimableIn(q, q.order[i], now) { FirstIsFirst(q, now, i + 1); }
  }

  // ----- every run -----

  datatype Action =
    | DoEnqueue(request: Request)
    | DoClaim(now: int, lease: int)
    | DoComplete(attempt: nat, result: Result)
    | DoFail(key: Key, attempt: nat, reason: string)
    | DoReattempt(key: Key)

  function Next(q: QueueState, a: Action): QueueState {
    match a
    case DoEnqueue(r) => Enqueued(q, r).1
    case DoClaim(now, lease) => Claimed(q, now, lease)
    case DoComplete(attempt, r) => Completed(q, attempt, r).1
    case DoFail(k, attempt, reason) => FailedWith(q, k, attempt, reason).1
    case DoReattempt(k) => Reattempted(q, k).1
  }

  function RunActions(q: QueueState, actions: seq<Action>): QueueState {
    if actions == [] then q else Next(RunActions(q, actions[..|actions| - 1]), actions[|actions| - 1])
  }

  /** What no action undoes: an entry stays, its generation does not go back, and a stored result
      stays as it is, with the status it came with. */
  predicate Onward(q: QueueState, q': QueueState, k: Key) {
    k in q.entries ==>
      k in q'.entries && q.entries[k].attempt <= q'.entries[k].attempt
      && (q.entries[k].result.Some? ==> q'.entries[k] == q.entries[k])
  }

  lemma NextWellFormed(q: QueueState, a: Action)
    requires WellFormed(q)
    ensures WellFormed(Next(q, a))
  {
    match a
    case DoClaim(now, lease) => ClaimedWellFormed(q, now, lease);
    case _ =>
  }

  lemma NextOnward(q: QueueState, a: Action, k: Key)
    requires WellFormed(q)
    ensures Onward(q, Next(q, a), k)
  {
    if k in q.entries { assert Consistent(q.entries[k]); }
  }

  lemma {:induction false} RunsAreWellFormed(actions: seq<Action>)
    ensures WellFormed(RunActions(EMPTY, actions))
    decreases |actions|
  {
    if actions != [] {
      RunsAreWellFormed(actions[..|actions| - 1]);
      NextWellFormed(RunActions(EMPTY, actions[..|actions| - 1]), actions[|actions| - 1]);
    }
  }

  lemma {:induction false} RunsGoOnward(q: QueueState, actions: seq<Action>, k: Key)
    requires WellFormed(q)
    ensures WellFormed(RunActions(q, actions)) && Onward(q, RunActions(q, actions), k)
    decreases |actions|
  {
    hide WellFormed, Next;
    if actions != [] {
      var before := actions[..|actions| - 1];
      RunsGoOnward(q, before, k);
      NextWellFormed(RunActions(q, before), actions[|actions| - 1]);
      NextOnward(RunActions(q, before), actions[|actions| - 1], k);
    }
  }

  /** NEVER INCONSISTENT.  After any actions whatever, reading any execution finds a status and a
      result that can both be true. */
  lemma {:induction false} LifecyclesStayConsistent(actions: seq<Action>, k: Key)
    ensures var q := RunActions(EMPTY, actions);
            k in q.entries ==> ClassifyLifecycle(q.entries[k].status, q.entries[k].result) != Inconsistent
  {
    RunsAreWellFormed(actions);
  }

  /** RESULTS STAY.  A stored result is never replaced, and its execution never reopened. */
  lemma ResultsStay(actions: seq<Action>, later: seq<Action>, k: Key)
    requires var q := RunActions(EMPTY, actions); k in q.entries && q.entries[k].result.Some?
    ensures var q := RunActions(EMPTY, actions);
            var q' := RunActions(q, later);
            k in q'.entries && q'.entries[k] == q.entries[k]
  {
    RunsAreWellFormed(actions);
    RunsGoOnward(RunActions(EMPTY, actions), later, k);
  }

  /** SUPERSEDED ATTEMPTS CHANGE NOTHING.  Once a claim or a reattempt has moved an execution on to a
      later generation, what an earlier attempt reports changes nothing, then or at any later time. */
  lemma SupersededChangesNothing(q: QueueState, later: seq<Action>, k: Key, attempt: nat, r: Result, reason: string)
    requires WellFormed(q) && k in q.entries && attempt < q.entries[k].attempt && r.key == k
    ensures var q' := RunActions(q, later);
            Next(q', DoComplete(attempt, r)) == q' && Next(q', DoFail(k, attempt, reason)) == q'
  {
    RunsGoOnward(q, later, k);
  }

  /** Every claim, and every reattempt, begins a generation that supersedes all earlier ones. */
  lemma ClaimSupersedes(q: QueueState, now: int, lease: int)
    requires WellFormed(q)
    ensures match FirstClaimable(q, now, 0)
            case None => forall k <- q.entries :: !Claimable(q.entries[k], now)
            case Some(i) => Claimed(q, now, lease).entries[q.order[i]].attempt == q.entries[q.order[i]].attempt + 1
    ensures forall k :: Reattempted(q, k).0 == Accepted ==>
      Reattempted(q, k).1.entries[k].attempt == q.entries[k].attempt + 1 && Claimable(Reattempted(q, k).1.entries[k], now)
  {
    if FirstClaimable(q, now, 0).None? { NoneToClaim(q, now); }
  }

  /** Whoever held an execution before a claim finds it, or before it is reopened, can change nothing any
      more, whatever happens later. */
  lemma {:induction false} EarlierHoldersChangeNothing(q: QueueState, a: Action, k: Key, later: seq<Action>, attempt: nat, r: Result, reason: string)
    requires WellFormed(q) && k in q.entries && attempt <= q.entries[k].attempt && r.key == k
    requires (a == DoReattempt(k) && Reattempted(q, k).0 == Accepted)
          || (a.DoClaim? && FirstClaimable(q, a.now, 0).Some? && q.order[FirstClaimable(q, a.now, 0).value] == k)
    ensures var q' := RunActions(Next(q, a), later);
            Next(q', DoComplete(attempt, r)) == q' && Next(q', DoFail(k, attempt, reason)) == q'
  {
    hide WellFormed, Claimed, Reattempted, Completed, FailedWith, FirstClaimable, RunActions;
    if a.DoClaim? { ClaimSupersedes(q, a.now, a.lease); } else { ClaimSupersedes(q, 0, 0); }
    NextWellFormed(q, a);
    NextOnward(q, a, k);
    SupersededChangesNothing(Next(q, a), later, k, attempt, r, reason);
  }

  /** An action that is no report of the attempt `attempt` on an execution, and no claim once its lease is over. */
  predicate Bystanding(a: Action, k: Key, attempt: nat, leaseExpiry: int) {
    match a
    case DoClaim(now, _) => now <= leaseExpiry
    case DoComplete(n, r) => !(r.key == k && n == attempt)
    case DoFail(j, n, _) => !(j == k && n == attempt)
    case _ => true
  }

  lemma BystanderKeeps(q: QueueState, a: Action, k: Key)
    requires WellFormed(q) && k in q.entries && q.entries[k].status == Running
    requires Bystanding(a, k, q.entries[k].attempt, q.entries[k].leaseExpiry)
    ensures k in Next(q, a).entries && Next(q, a).entries[k] == q.entries[k]
  {
    if a.DoClaim? {
      ClaimSaysWhat(q, a.now, a.lease);
      hide Claimed, FirstClaimable;
    } else {
      hide WellFormed;
    }
  }

  /** While its lease lasts, an execution stays with its holder, whatever else is claimed or reported. */
  lemma {:induction false} HolderKeeps(q: QueueState, others: seq<Action>, k: Key)
    requires WellFormed(q) && k in q.entries && q.entries[k].status == Running
    requires forall a <- others :: Bystanding(a, k, q.entries[k].attempt, q.entries[k].leaseExpiry)
    ensures WellFormed(RunActions(q, others)) && k in RunActions(q, others).entries && RunActions(q, others).entries[k] == q.entries[k]
    decreases |others|
  {
    hide WellFormed, Next, Bystanding;
    if others != [] {
      var n := |others| - 1;
      assert others[n] in others && forall a <- others[..n] :: a in others;
      HolderKeeps(q, others[..n], k);
      NextWellFormed(RunActions(q, others[..n]), others[n]);
      BystanderKeeps(RunActions(q, others[..n]), others[n], k);
    }
  }

  /** A HOLDER IN TIME IS HEARD.  Whatever else is enqueued, claimed, reported or reopened while a lease lasts, what its
      holder reports is stored as the outcome of its execution. */
  lemma {:induction false} HolderIsHeard(q: QueueState, others: seq<Action>, k: Key, r: Result)
    requires WellFormed(q) && k in q.entries && q.entries[k].status == Running && k.tenant != "" && k.execution != ""
    requires forall a <- others :: Bystanding(a, k, q.entries[k].attempt, q.entries[k].leaseExpiry)
    requires r.key == k && (r.status == Succeeded || r.status == FailedStatus)
    ensures var e := Next(RunActions(q, others), DoComplete(q.entries[k].attempt, r)).entries;
            k in e && e[k] == Entry(q.entries[k].request, r.status, Some(r), "", 0, q.entries[k].attempt)
  {
    HolderKeeps(q, others, k);
  }
}
