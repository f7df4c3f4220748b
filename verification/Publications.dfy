/** The publication pointer of a target: a store that only grows, and a read followed by a
    compare-and-swap write that other publishers may come between. */
module Publications {
  import opened Ast

  const MAX_VERSION := 0xFFFF_FFFF_FFFF_FFFF

  /** Versions are unsigned and 64 bits wide; the one after the last is zero. */
  type Version = n: nat | n <= MAX_VERSION

  function NextVersion(v: Version): Version {
    if v == MAX_VERSION then 0 else v + 1
  }

  datatype Target = Target(tenant: string, customer: string, key: string)

  /** Everything a publication pins but its place and version. */
  datatype Content = Content(policyVersion: nat, profile: string, assessment: string, checkpoint: string, run: string, execution: string)

  datatype Publication = Publication(target: Target, version: Version, content: Content)

  datatype StoreAnswer = Stored | Conflict | Unauditable

  /** A record has to name all it rests on, and zero is no version. */
  predicate Auditable(p: Publication) {
    && p.target.tenant != "" && p.target.customer != "" && p.target.key != "" && p.version != 0
    && p.content.policyVersion != 0 && p.content.profile != "" && p.content.assessment != ""
    && p.content.checkpoint != "" && p.content.run != "" && p.content.execution != ""
  }

  /** Nothing that a record rests on is left blank. */
  predicate NamesAll(t: Target, c: Content) {
    && t.tenant != "" && t.customer != "" && t.key != "" && c.policyVersion != 0 && c.profile != ""
    && c.assessment != "" && c.checkpoint != "" && c.run != "" && c.execution != ""
  }

  /** The records of a target, oldest first. */
  type History = seq<Publication>

  /** Versions 1 to n without gaps, and no decision twice in a row. */
  ghost predicate WellKept(t: Target, h: History) {
    && |h| <= MAX_VERSION
    && (forall i :: 0 <= i < |h| ==> h[i].version == i + 1 && h[i].target == t)
    && (forall i :: 0 < i < |h| ==> h[i].content != h[i - 1].content)
  }

  function Current(h: History): Option<Publication> {
    if h == [] then None else Some(h[|h| - 1])
  }

  function CurrentVersion(c: Option<Publication>): Version {
    match c case None => 0 case Some(p) => p.version
  }

  /** Appends the next version, or accepts one that is recorded already as it is. */
  function Append(h: History, p: Publication): (StoreAnswer, History)
    requires |h| <= MAX_VERSION
  {
    if !Auditable(p) then (Unauditable, h)
    else if p.version <= |h| then (if h[p.version - 1] == p then Stored else Conflict, h)
    else if p.version != NextVersion(|h|) then (Conflict, h)
    else (Stored, h + [p])
  }

  datatype Request = Request(target: Target, expected: Version, content: Content)

  /** What a publisher is told; a failure without an answer leaves open whether the record was stored. */
  datatype Outcome = Recorded(p: Publication) | Unchanged(p: Publication) | Stale | Unread | Failed(answer: Option<StoreAnswer>)

  function PublicationFor(r: Request): Publication {
    Publication(r.target, NextVersion(r.expected), r.content)
  }

  /** What a publisher does about the record it read: report it, give up, or write. */
  datatype Decision = Report(p: Publication) | GiveUp | Write(next: Publication)

  function Decide(read: Option<Publication>, r: Request): Decision {
    if read.Some? && read.value.target == r.target && read.value.content == r.content then Report(read.value)
    else if CurrentVersion(read) != r.expected then GiveUp
    else Write(PublicationFor(r))
  }

  // ----- one publisher -----

  class PublicationStore {
    var histories: map<Target, History>

    constructor ()
      ensures histories == map[]
    {
      histories := map[];
    }

    function HistoryOf(t: Target): History
      reads this
    {
      if t in histories then histories[t] else []
    }

    method Publish(p: Publication) returns (a: StoreAnswer)
      requires |HistoryOf(p.target)| <= MAX_VERSION
      modifies this
      ensures (a, HistoryOf(p.target)) == Append(old(HistoryOf(p.target)), p)
      ensures var h, named := old(HistoryOf(p.target)), NamesAll(p.target, p.content);
              && (a == Unauditable <==> !named || p.version == 0)
              && (a == Stored <==> named && ((1 <= p.version <= |h| && h[p.version - 1] == p) || p.version == |h| + 1))
              && HistoryOf(p.target) == if named && p.version == |h| + 1 then h + [p] else h
      ensures forall t :: t != p.target ==> HistoryOf(t) == old(HistoryOf(t))
    {
      if !Auditable(p) { return Unauditable; }
      var h := HistoryOf(p.target);
      if p.version <= |h| {
        return if h[p.version - 1] == p then Stored else Conflict;
      }
      if p.version != NextVersion(|h|) { return Conflict; }
      histories := histories[p.target := h + [p]];
      a := Stored;
    }

    method CurrentPublication(t: Target) returns (c: Option<Publication>)
      ensures c == Current(HistoryOf(t))
      ensures var h := HistoryOf(t); (c == None <==> h == []) && (h != [] ==> c == Some(h[|h| - 1]))
    {
      var h := HistoryOf(t);
      c := if h == [] then None else Some(h[|h| - 1]);
    }
  }

  /** What may go wrong between a publisher and its store: the read fails, the write never arrives, or it
      does and its answer is lost. */
  datatype Faults = Faults(readFails: bool, writeFails: bool, answerLost: bool)

  const NO_FAULTS := Faults(false, false, false)

  /** Reads the current record and, unless it is the one wanted or not the one expected, swaps. */
  method AdvancePointer(store: PublicationStore, r: Request, faults: Faults) returns (o: Outcome)
    requires |store.HistoryOf(r.target)| <= MAX_VERSION
    modifies store
    ensures (o, store.HistoryOf(r.target)) == Advance(old(store.HistoryOf(r.target)), r, faults)
    ensures faults.readFails ==> o == Unread && store.HistoryOf(r.target) == old(store.HistoryOf(r.target))
    ensures var h, h' := old(store.HistoryOf(r.target)), store.HistoryOf(r.target);
            WellKept(r.target, h) && !faults.readFails ==>
              if h != [] && h[|h| - 1].content == r.content then o == Unchanged(h[|h| - 1]) && h' == h
              else if r.expected != |h| then o == Stale && h' == h
              else if faults.writeFails then o == Failed(None) && h' == h
              else if |h| < MAX_VERSION && NamesAll(r.target, r.content) then
                && h' == h + [Publication(r.target, |h| + 1, r.content)]
                && o == if faults.answerLost then Failed(None) else Recorded(Publication(r.target, |h| + 1, r.content))
              else h' == h && o == Failed(if faults.answerLost then None else Some(Unauditable))
    ensures forall t :: t != r.target ==> store.HistoryOf(t) == old(store.HistoryOf(t))
  {
    ghost var h := store.HistoryOf(r.target);
    if WellKept(r.target, h) { AdvanceSaysWhat(h, r, faults); }
    if faults.readFails { return Unread; }
    var current := store.CurrentPublication(r.target);
    var next := PublicationFor(r);
    if current.Some? && current.value.(version := 0) == next.(version := 0) {
      return Unchanged(current.value);
    }
    if (if current.Some? then current.value.version else 0) != r.expected {
      return Stale;
    }
    if faults.writeFails { return Failed(None); }
    var a := store.Publish(next);
    o := if faults.answerLost then Failed(None) else if a.Stored? then Recorded(next) else Failed(Some(a));
  }

  /** The read and the write with nothing in between. */
  function Advance(h: History, r: Request, faults: Faults): (Outcome, History)
    requires |h| <= MAX_VERSION
  {
    if faults.readFails then (Unread, h)
    else
      match Decide(Current(h), r)
      case Report(p) => (Unchanged(p), h)
      case GiveUp => (Stale, h)
      case Write(next) =>
        if faults.writeFails then (Failed(None), h)
        else
          var (a, h') := Append(h, next);
          (if faults.answerLost then Failed(None) else if a.Stored? then Recorded(next) else Failed(Some(a)), h')
  }

  /** What advancing does to a well-kept history, said of its records alone. */
  lemma AdvanceSaysWhat(h: History, r: Request, faults: Faults)
    requires WellKept(r.target, h)
    ensures var (o, h') := Advance(h, r, faults);
            if faults.readFails then o == Unread && h' == h
            else if h != [] && h[|h| - 1].content == r.content then o == Unchanged(h[|h| - 1]) && h' == h
            else if r.expected != |h| then o == Stale && h' == h
            else if faults.writeFails then o == Failed(None) && h' == h
            else if |h| < MAX_VERSION && NamesAll(r.target, r.content) then
              && h' == h + [Publication(r.target, |h| + 1, r.content)]
              && o == if faults.answerLost then Failed(None) else Recorded(Publication(r.target, |h| + 1, r.content))
            else h' == h && o == Failed(if faults.answerLost then None else Some(Unauditable))
  {
    if h != [] { assert h[|h| - 1].version == |h| && h[|h| - 1].target == r.target; }
    assert CurrentVersion(Current(h)) == |h|;
  }

  /** A publisher that repeats a request is told that nothing changed as soon as the request was recorded,
      whether or not it learned of that. */
  lemma RetryIsUnchanged(h: History, r: Request, faults: Faults)
    requires WellKept(r.target, h) && Advance(h, r, faults).1 != h
    ensures var h' := Advance(h, r, faults).1;
            Advance(h', r, NO_FAULTS) == (Unchanged(PublicationFor(r)), h') && Current(h') == Some(PublicationFor(r))
            && h' == h + [PublicationFor(r)]
    ensures Advance(h, r, faults).0 == if faults.answerLost then Failed(None) else Recorded(PublicationFor(r))
  {
    var next := PublicationFor(r);
    if h != [] { assert h[|h| - 1].version == |h|; }
    assert CurrentVersion(Current(h)) == |h|;
    assert Advance(h, r, faults).1 == h + [next];
  }

  // ----- any number of publishers, interleaved -----

  /** A publisher has not read yet, has read, or has finished. */
  datatype Phase = Starting | HasRead(read: Option<Publication>) | Finished(outcome: Outcome)

  datatype Publisher = Publisher(request: Request, phase: Phase)

  datatype System = System(histories: map<Target, History>, publishers: seq<Publisher>)

  function HistoryIn(s: System, t: Target): History {
    if t in s.histories then s.histories[t] else []
  }

  /** Reading; deciding and writing; writing without learning the answer; failing to read or to write. */
  datatype Step = Read(i: nat) | Swap(i: nat) | LoseAnswer(i: nat) | Abandon(i: nat)

  ghost predicate Kept(s: System) {
    forall t :: WellKept(t, HistoryIn(s, t))
  }

  function WithPhase(s: System, i: nat, p: Phase): System
    requires i < |s.publishers|
  {
    s.(publishers := s.publishers[i := s.publishers[i].(phase := p)])
  }

  /** One step of one publisher; a step it cannot take leaves everything as it is. */
  ghost function Next(s: System, step: Step): System
    requires Kept(s)
  {
    if step.i >= |s.publishers| then s
    else
      var p := s.publishers[step.i];
      var t := p.request.target;
      var h := HistoryIn(s, t);
      assert WellKept(t, h);
      if step.Read? then if p.phase.Starting? then WithPhase(s, step.i, HasRead(Current(h))) else s
      else if step.Abandon? && p.phase.Starting? then WithPhase(s, step.i, Finished(Unread))
      else if !p.phase.HasRead? then s
      else if step.Abandon? then WithPhase(s, step.i, Finished(Failed(None)))
      else
        match Decide(p.phase.read, p.request)
        case Report(q) => WithPhase(s, step.i, Finished(Unchanged(q)))
        case GiveUp => WithPhase(s, step.i, Finished(Stale))
        case Write(next) =>
          var (a, h') := Append(h, next);
          var s' := s.(histories := s.histories[t := h']);
          WithPhase(s', step.i,
                    Finished(if step.LoseAnswer? then Failed(None) else if a.Stored? then Recorded(next) else Failed(Some(a))))
  }

  /** What a publisher knows is true of the history: the record it read is still there, and the
      record it was told of is where it belongs. */
  ghost predicate Truthful(h: History, p: Publisher) {
    match p.phase
    case Starting => true
    case HasRead(None) => true
    case HasRead(Some(q)) => 1 <= q.version <= |h| && h[q.version - 1] == q
    case Finished(Recorded(q)) =>
      q == PublicationFor(p.request) && p.request.expected < |h| && h[p.request.expected] == q
    case Finished(Unchanged(q)) => q.content == p.request.content && 1 <= q.version <= |h| && h[q.version - 1] == q
    case Finished(_) => true
  }

  ghost predicate Invariant(s: System) {
    Kept(s) && forall p <- s.publishers :: Truthful(HistoryIn(s, p.request.target), p)
  }

  lemma AppendKeeps(t: Target, h: History, r: Request, read: Option<Publication>)
    requires WellKept(t, h) && r.target == t && Decide(read, r).Write?
    requires read.Some? ==> 1 <= read.value.version <= |h| && h[read.value.version - 1] == read.value
    ensures var (a, h') := Append(h, PublicationFor(r));
            && WellKept(t, h') && h <= h'
            && (a.Stored? ==> r.expected < |h'| && h'[r.expected] == PublicationFor(r))
  {
    var next := PublicationFor(r);
    var (a, h') := Append(h, next);
    if h' != h {
      assert h' == h + [next] && next.version == |h| + 1 && r.expected == |h|;
      if h != [] { assert read.Some? && h[|h| - 1] == read.value && h[|h| - 1].target == t; }
    }
  }

  lemma TruthGrows(h: History, h': History, p: Publisher)
    requires Truthful(h, p) && h <= h'
    ensures Truthful(h', p)
  {
  }

  /** From `s` to `s'` the history of publisher `i` only grew, and the publisher knows the truth about it. */
  ghost predicate OwnHistoryKept(s: System, s': System, i: nat)
    requires i < |s.publishers|
  {
    var p := s.publishers[i];
    var t := p.request.target;
    && |s'.publishers| == |s.publishers| && s'.publishers[i].request == p.request
    && WellKept(t, HistoryIn(s', t)) && HistoryIn(s, t) <= HistoryIn(s', t)
    && Truthful(HistoryIn(s', t), s'.publishers[i])
  }

  /** Publisher `i` moves to a phase that tells the truth about the history its target now has. */
  lemma OwnPhase(s: System, i: nat, h': History, phase: Phase)
    requires i < |s.publishers|
    requires var p := s.publishers[i];
             && HistoryIn(s, p.request.target) <= h' && WellKept(p.request.target, h')
             && Truthful(h', p.(phase := phase))
    ensures OwnHistoryKept(s, WithPhase(s.(histories := s.histories[s.publishers[i].request.target := h']), i, phase), i)
    ensures HistoryIn(s, s.publishers[i].request.target) == h' ==> OwnHistoryKept(s, WithPhase(s, i, phase), i)
  {
    hide WellKept, Truthful;
  }

  /** What a step does to the history and to what its publisher knows. */
  lemma OwnStep(s: System, step: Step)
    requires Invariant(s) && step.i < |s.publishers|
    ensures OwnHistoryKept(s, Next(s, step), step.i)
  {
    hide Auditable, Append, WellKept, OwnHistoryKept;
    var p := s.publishers[step.i];
    assert p in s.publishers;
    var h := HistoryIn(s, p.request.target);
    assert WellKept(p.request.target, h) && Truthful(h, p);
    if step.Read? && p.phase.Starting? {
      ReadIsTruthful(h, p);
      OwnPhase(s, step.i, h, HasRead(Current(h)));
    } else if step.Abandon? && !p.phase.Finished? {
      OwnPhase(s, step.i, h, if p.phase.Starting? then Finished(Unread) else Finished(Failed(None)));
    } else if step.Read? || !p.phase.HasRead? {
      OwnPhase(s, step.i, h, p.phase);
      assert WithPhase(s, step.i, p.phase) == s;
    } else {
      OwnWrite(s, step);
    }
  }

  lemma OwnWrite(s: System, step: Step)
    requires Kept(s) && step.i < |s.publishers| && !step.Read? && !step.Abandon? && s.publishers[step.i].phase.HasRead?
    requires Truthful(HistoryIn(s, s.publishers[step.i].request.target), s.publishers[step.i])
    ensures OwnHistoryKept(s, Next(s, step), step.i)
  {
    hide Auditable, Append, WellKept, OwnHistoryKept;
    var p := s.publishers[step.i];
    var h := HistoryIn(s, p.request.target);
    assert WellKept(p.request.target, h);
    if Decide(p.phase.read, p.request).Report? {
      OwnPhase(s, step.i, h, Finished(Unchanged(Decide(p.phase.read, p.request).p)));
    } else if Decide(p.phase.read, p.request).GiveUp? {
      OwnPhase(s, step.i, h, Finished(Stale));
    } else {
      AppendKeeps(p.request.target, h, p.request, p.phase.read);
      var next := PublicationFor(p.request);
      var (a, h') := Append(h, next);
      OwnPhase(s, step.i, h',
               Finished(if step.LoseAnswer? then Failed(None) else if a.Stored? then Recorded(next) else Failed(Some(a))));
    }
  }

  lemma OthersUntouched(s: System, step: Step)
    requires Invariant(s) && step.i < |s.publishers|
    ensures forall t :: t != s.publishers[step.i].request.target ==> HistoryIn(Next(s, step), t) == HistoryIn(s, t)
    ensures |Next(s, step).publishers| == |s.publishers|
    ensures forall j :: 0 <= j < |s.publishers| && j != step.i ==> Next(s, step).publishers[j] == s.publishers[j]
  {
    hide WellKept, Truthful, Append, Decide;
  }

  /** No step rewrites a record, and every step keeps the invariant. */
  lemma StepKeeps(s: System, step: Step)
    requires Invariant(s)
    ensures Invariant(Next(s, step)) && |Next(s, step).publishers| == |s.publishers|
    ensures forall t :: HistoryIn(s, t) <= HistoryIn(Next(s, step), t)
  {
    if step.i < |s.publishers| {
      hide WellKept, Truthful, Next, HistoryIn;
      var s', t := Next(s, step), s.publishers[step.i].request.target;
      OwnStep(s, step);
      OthersUntouched(s, step);
      forall q ensures WellKept(q, HistoryIn(s', q)) && HistoryIn(s, q) <= HistoryIn(s', q) {
        assert WellKept(q, HistoryIn(s, q));
      }
      forall q | q in s'.publishers ensures Truthful(HistoryIn(s', q.request.target), q) {
        var j :| 0 <= j < |s'.publishers| && s'.publishers[j] == q;
        if j != step.i {
          assert q in s.publishers;
          TruthGrows(HistoryIn(s, q.request.target), HistoryIn(s', q.request.target), q);
        }
      }
    }
  }

  lemma ReadIsTruthful(h: History, p: Publisher)
    requires WellKept(p.request.target, h)
    ensures Truthful(h, p.(phase := HasRead(Current(h))))
  {
  }

  ghost function RunSteps(s: System, steps: seq<Step>): System
    requires Invariant(s)
    ensures Invariant(RunSteps(s, steps))
    decreases |steps|
  {
    if steps == [] then s
    else
      StepKeeps(RunSteps(s, steps[..|steps| - 1]), steps[|steps| - 1]);
      Next(RunSteps(s, steps[..|steps| - 1]), steps[|steps| - 1])
  }

  /** Publishers that have not started, over a store nobody has written to. */
  function Initially(requests: seq<Request>): System {
    System(map[], seq(|requests|, i requires 0 <= i < |requests| => Publisher(requests[i], Starting)))
  }

  lemma InitialInvariant(requests: seq<Request>)
    ensures Invariant(Initially(requests))
  {
  }

  lemma {:induction false} OnlyGrows(s: System, steps: seq<Step>, t: Target)
    requires Invariant(s)
    ensures HistoryIn(s, t) <= HistoryIn(RunSteps(s, steps), t)
    decreases |steps|
  {
    if steps != [] {
      OnlyGrows(s, steps[..|steps| - 1], t);
      StepKeeps(RunSteps(s, steps[..|steps| - 1]), steps[|steps| - 1]);
    }
  }

  /** NOTHING IS OVERWRITTEN.  However any number of publishers interleave, from an empty store or
      later on, every history stays versioned without gaps, never holds one decision twice in a row,
      and is never rewritten; and the record of every publisher that was told `Recorded` is at the
      version after the one it expected. */
  lemma {:induction false} PublishersAgree(requests: seq<Request>, steps: seq<Step>, later: seq<Step>, t: Target)
    ensures (InitialInvariant(requests);
             var s := RunSteps(Initially(requests), steps);
             && WellKept(t, HistoryIn(s, t))
             && HistoryIn(s, t) <= HistoryIn(RunSteps(s, later), t)
             && forall p <- s.publishers :: p.phase.Finished? && p.phase.outcome.Recorded? ==>
                  var h := HistoryIn(s, p.request.target);
                  p.request.expected < |h| && h[p.request.expected] == PublicationFor(p.request))
  {
    InitialInvariant(requests);
    var s := RunSteps(Initially(requests), steps);
    OnlyGrows(s, later, t);
    assert WellKept(t, HistoryIn(s, t));
  }

  /** Of publishers that expected the same version of a target only those that publish the same can
      all be told `Recorded`. */
  lemma OneWinner(s: System, p: Publisher, q: Publisher)
    requires Invariant(s) && p in s.publishers && q in s.publishers
    requires p.request.target == q.request.target && p.request.expected == q.request.expected
    requires p.phase.Finished? && p.phase.outcome.Recorded? && q.phase.Finished? && q.phase.outcome.Recorded?
    ensures p.request.content == q.request.content
  {
    assert Truthful(HistoryIn(s, p.request.target), p) && Truthful(HistoryIn(s, q.request.target), q);
  }

  /** PROGRESS.  A publisher that has read the latest record, expects its version and wants another
      content is recorded if it swaps next, whoever else has read what. */
  lemma ReaderInTurnIsRecorded(s: System, i: nat)
    requires Invariant(s) && i < |s.publishers|
    requires var p := s.publishers[i];
             var h := HistoryIn(s, p.request.target);
             && p.phase == HasRead(if h == [] then None else Some(h[|h| - 1]))
             && p.request.expected == |h| < MAX_VERSION && NamesAll(p.request.target, p.request.content)
             && (h != [] ==> h[|h| - 1].content != p.request.content)
    ensures var r, s' := s.publishers[i].request, Next(s, Swap(i));
            var record := Publication(r.target, |HistoryIn(s, r.target)| + 1, r.content);
            && s'.publishers == s.publishers[i := Publisher(r, Finished(Recorded(record)))]
            && HistoryIn(s', r.target) == HistoryIn(s, r.target) + [record]
  {
    var r := s.publishers[i].request;
    var h := HistoryIn(s, r.target);
    assert WellKept(r.target, h);
    AdvanceSaysWhat(h, r, NO_FAULTS);
    assert Current(h) == if h == [] then None else Some(h[|h| - 1]);
    assert Decide(Current(h), r) == Write(PublicationFor(r));
  }

  /** And what a publisher reads is the latest record; reading changes nothing else. */
  lemma ReadingReadsTheLatest(s: System, i: nat)
    requires Invariant(s) && i < |s.publishers| && s.publishers[i].phase == Starting
    ensures var r := s.publishers[i].request;
            var h := HistoryIn(s, r.target);
            Next(s, Read(i)) == s.(publishers := s.publishers[i := Publisher(r, HasRead(if h == [] then None else Some(h[|h| - 1])))])
  {
  }
}
