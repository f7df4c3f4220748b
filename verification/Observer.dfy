/** The observer that keeps one stack of open spans per run. */
module Observer {
  import opened Ast
  import opened Phases

  type RunKey = nat

  /** A span, named by the order in which it was started. */
  datatype Span = Span(id: nat, phase: Phase)

  /** The stacks of open spans, the number of spans started, the spans ended in the order they were,
      and those of them that an outer phase ended. */
  datatype Observed = Observed(runs: map<RunKey, seq<Span>>, started: nat, ended: seq<nat>, abandoned: seq<nat>)

  function StackOf(o: Observed, run: RunKey): seq<Span> {
    if run in o.runs then o.runs[run] else []
  }

  function Began(o: Observed, run: RunKey, phase: Phase): Observed {
    Observed(o.runs[run := StackOf(o, run) + [Span(o.started, phase)]], o.started + 1, o.ended, o.abandoned)
  }

  /** The innermost open span of a phase, or -1. */
  function Innermost(stack: seq<Span>, phase: Phase): (i: int)
    ensures -1 <= i < |stack| && (i >= 0 ==> stack[i].phase == phase)
  {
    if stack == [] then -1
    else if stack[|stack| - 1].phase == phase then |stack| - 1
    else Innermost(stack[..|stack| - 1], phase)
  }

  /** The spans of a stack, innermost first. */
  function Unwound(stack: seq<Span>): (ids: seq<nat>)
    ensures |ids| == |stack|
  {
    if stack == [] then [] else [stack[|stack| - 1].id] + Unwound(stack[..|stack| - 1])
  }

  /** The spans inside the ended one are ended with it; an end that nothing began is dropped. */
  function Finished(o: Observed, run: RunKey, phase: Phase): Observed {
    var stack := StackOf(o, run);
    var i := Innermost(stack, phase);
    if i < 0 then o
    else
      var inner := Unwound(stack[i + 1..]);
      Observed(if i == 0 then o.runs - {run} else o.runs[run := stack[..i]], o.started,
               o.ended + inner + [stack[i].id], o.abandoned + inner)
  }

  function Observe(o: Observed, run: RunKey, e: Event): Observed {
    if e.Begin? then Began(o, run, e.phase) else Finished(o, run, e.phase)
  }

  datatype Step = Step(run: RunKey, event: Event)

  /** What the observer makes of the events of any number of runs, in the order they arrive. */
  function ObserveAll(steps: seq<Step>): Observed {
    if steps == [] then Observed(map[], 0, [], [])
    else Observe(ObserveAll(steps[..|steps| - 1]), steps[|steps| - 1].run, steps[|steps| - 1].event)
  }

  // ----- the machine -----

  class SemanticObserver {
    var runs: map<RunKey, seq<Span>>
    var started: nat
    var ended: seq<nat>
    var abandoned: seq<nat>

    constructor ()
      ensures State() == Observed(map[], 0, [], [])
    {
      runs, started, ended, abandoned := map[], 0, [], [];
    }

    function State(): Observed
      reads this
    {
      Observed(runs, started, ended, abandoned)
    }

    method BeginPhase(run: RunKey, phase: Phase)
      modifies this
      ensures State() == Began(old(State()), run, phase)
    {
      var stack := if run in runs then runs[run] else [];
      var span := Span(started, phase);
      started := started + 1;
      runs := runs[run := stack + [span]];
    }

    /** Ends the spans an outer phase left open, innermost first. */
    method EndAbandoned(inner: seq<Span>)
      modifies this`ended, this`abandoned
      ensures ended == old(ended) + Unwound(inner) && abandoned == old(abandoned) + Unwound(inner)
    {
      var i := |inner| - 1;
      assert inner[..|inner|] == inner;
      while i >= 0
        invariant -1 <= i < |inner|
        invariant ended + Unwound(inner[..i + 1]) == old(ended) + Unwound(inner)
        invariant abandoned + Unwound(inner[..i + 1]) == old(abandoned) + Unwound(inner)
      {
        var rest := Unwound(inner[..i]);
        assert inner[..i + 1][..i] == inner[..i] && Unwound(inner[..i + 1]) == [inner[i].id] + rest;
        assert ended + ([inner[i].id] + rest) == (ended + [inner[i].id]) + rest;
        assert abandoned + ([inner[i].id] + rest) == (abandoned + [inner[i].id]) + rest;
        ended := ended + [inner[i].id];
        abandoned := abandoned + [inner[i].id];
        i := i - 1;
      }
    }

    static method FindInnermost(stack: seq<Span>, phase: Phase) returns (index: int)
      ensures index == Innermost(stack, phase)
    {
      index := -1;
      var i := |stack| - 1;
      assert stack[..|stack|] == stack;
      while i >= 0
        invariant -1 <= i < |stack| && index == -1
        invariant Innermost(stack, phase) == Innermost(stack[..i + 1], phase)
      {
        assert stack[..i + 1][..i] == stack[..i] && stack[..i + 1][i] == stack[i];
        if stack[i].phase == phase {
          index := i;
          break;
        }
        i := i - 1;
      }
    }

    method EndPhase(run: RunKey, phase: Phase)
      modifies this
      ensures State() == Finished(old(State()), run, phase)
    {
      hide Innermost, Unwound;
      var stack := if run in runs then runs[run] else [];
      var index := FindInnermost(stack, phase);
      if index < 0 { return; }
      var inner := stack[index + 1..];
      var entry := stack[index];
      if index == 0 {
        runs := runs - {run};
      } else {
        runs := runs[run := stack[..index]];
      }
      EndAbandoned(inner);
      ended := ended + [entry.id];
    }
  }

  // ----- no span ends twice -----

  ghost predicate NoRepeats(ids: seq<nat>) {
    forall i, j :: 0 <= i < j < |ids| ==> ids[i] != ids[j]
  }

  /** A stack of different spans, none of which has ended. */
  ghost predicate LiveStack(o: Observed, stack: seq<Span>) {
    && stack != []
    && (forall i :: 0 <= i < |stack| ==> stack[i].id < o.started && stack[i].id !in o.ended)
    && (forall i, j :: 0 <= i < j < |stack| ==> stack[i].id != stack[j].id)
  }

  ghost predicate Apart(s: seq<Span>, t: seq<Span>) {
    forall i, j :: 0 <= i < |s| && 0 <= j < |t| ==> s[i].id != t[j].id
  }

  ghost predicate IsOpen(o: Observed, id: nat) {
    exists r, i :: r in o.runs && 0 <= i < |o.runs[r]| && o.runs[r][i].id == id
  }

  /** Every span that was started is open in one place or has ended once. */
  ghost predicate Accounted(o: Observed) {
    && NoRepeats(o.ended) && (forall id <- o.ended :: id < o.started)
    && (forall r <- o.runs :: LiveStack(o, o.runs[r]))
    && (forall r, q :: r in o.runs && q in o.runs && r != q ==> Apart(o.runs[r], o.runs[q]))
    && (forall id: nat :: id < o.started ==> id in o.ended || IsOpen(o, id))
  }

  lemma {:induction false} UnwoundIDs(stack: seq<Span>)
    ensures forall id :: id in Unwound(stack) <==> exists i :: 0 <= i < |stack| && stack[i].id == id
    ensures (forall i, j :: 0 <= i < j < |stack| ==> stack[i].id != stack[j].id) ==> NoRepeats(Unwound(stack))
    decreases |stack|
  {
    if stack != [] {
      var n := |stack| - 1;
      UnwoundIDs(stack[..n]);
      assert stack == stack[..n] + [stack[n]];
      forall id ensures id in Unwound(stack) <==> exists i :: 0 <= i < |stack| && stack[i].id == id {
        if i :| 0 <= i < |stack| && stack[i].id == id {
          if i < n { assert stack[..n][i].id == id; }
        }
        if id in Unwound(stack[..n]) {
          var i :| 0 <= i < n && stack[..n][i].id == id;
          assert stack[i].id == id;
        }
      }
      if forall i, j :: 0 <= i < j < |stack| ==> stack[i].id != stack[j].id {
        assert stack[n].id !in Unwound(stack[..n]);
      }
    }
  }

  lemma BeganLive(o: Observed, run: RunKey, phase: Phase, r: RunKey)
    requires Accounted(o) && r in Began(o, run, phase).runs
    ensures LiveStack(Began(o, run, phase), Began(o, run, phase).runs[r])
  {
    var stack' := Began(o, run, phase).runs[r];
    if r in o.runs { assert LiveStack(o, o.runs[r]); }
    if r == run {
      var stack := StackOf(o, run);
      assert forall i :: 0 <= i < |stack| ==> stack'[i] == stack[i];
    }
  }

  lemma BeganApart(o: Observed, run: RunKey, phase: Phase, r: RunKey, q: RunKey)
    requires Accounted(o) && r in Began(o, run, phase).runs && q in Began(o, run, phase).runs && r != q
    ensures Apart(Began(o, run, phase).runs[r], Began(o, run, phase).runs[q])
  {
    if r in o.runs { assert LiveStack(o, o.runs[r]); }
    if q in o.runs { assert LiveStack(o, o.runs[q]); }
    if r in o.runs && q in o.runs { assert Apart(o.runs[r], o.runs[q]); }
  }

  lemma BeganCovers(o: Observed, run: RunKey, phase: Phase, id: nat)
    requires Accounted(o) && id <= o.started
    ensures id in o.ended || IsOpen(Began(o, run, phase), id)
  {
    var o' := Began(o, run, phase);
    if id == o.started {
      assert o'.runs[run][|StackOf(o, run)|].id == id;
    } else if id !in o.ended {
      assert IsOpen(o, id);
      var r, i :| r in o.runs && 0 <= i < |o.runs[r]| && o.runs[r][i].id == id;
      assert o'.runs[r][i].id == id;
    }
  }

  lemma BeganAccounted(o: Observed, run: RunKey, phase: Phase)
    requires Accounted(o)
    ensures Accounted(Began(o, run, phase))
  {
    hide LiveStack, Apart, IsOpen;
    var o' := Began(o, run, phase);
    forall r | r in o'.runs ensures LiveStack(o', o'.runs[r]) { BeganLive(o, run, phase, r); }
    forall r, q | r in o'.runs && q in o'.runs && r != q ensures Apart(o'.runs[r], o'.runs[q]) {
      BeganApart(o, run, phase, r, q);
    }
    forall id: nat | id < o'.started ensures id in o'.ended || IsOpen(o', id) { BeganCovers(o, run, phase, id); }
  }

  lemma NoRepeatsAppend(a: seq<nat>, b: seq<nat>)
    requires NoRepeats(a) && NoRepeats(b) && forall x <- b :: x !in a
    ensures NoRepeats(a + b)
  {
    var c := a + b;
    forall i, j | 0 <= i < j < |c| ensures c[i] != c[j] {
      if j >= |a| { assert c[j] in b; }
      if i < |a| { assert c[i] in a; }
    }
  }

  /** What an end adds to the ended spans is what it takes off the stack. */
  lemma EndedIDs(stack: seq<Span>, i: nat)
    requires i < |stack|
    ensures Unwound(stack[i + 1..]) + [stack[i].id] == Unwound(stack[i..])
  {
    UnwindInner(stack, i, |stack|);
    assert stack[i..|stack|] == stack[i..] && stack[i + 1..|stack|] == stack[i + 1..];
  }

  lemma {:induction false} UnwindInner(stack: seq<Span>, i: nat, n: nat)
    requires i < n <= |stack|
    ensures Unwound(stack[i + 1..n]) + [stack[i].id] == Unwound(stack[i..n])
    decreases n
  {
    var s := stack[i..n];
    assert s[..|s| - 1] == stack[i..n - 1] && s[|s| - 1] == stack[n - 1];
    if i + 1 == n {
      assert stack[i + 1..n] == [] && stack[i..n - 1] == [];
      assert Unwound(s) == [stack[i].id] + Unwound([]);
    } else {
      UnwindInner(stack, i, n - 1);
      var t := stack[i + 1..n];
      assert t[..|t| - 1] == stack[i + 1..n - 1] && t[|t| - 1] == stack[n - 1];
    }
  }

  lemma FinishedApart(o: Observed, run: RunKey, phase: Phase, r: RunKey, q: RunKey)
    requires Accounted(o) && r in Finished(o, run, phase).runs && q in Finished(o, run, phase).runs && r != q
    ensures Apart(Finished(o, run, phase).runs[r], Finished(o, run, phase).runs[q])
  {
    assert Apart(o.runs[r], o.runs[q]);
  }

  lemma InGone(stack: seq<Span>, i: nat, j: nat)
    requires i <= j < |stack|
    ensures stack[j].id in Unwound(stack[i..])
  {
    UnwoundIDs(stack[i..]);
    assert stack[i..][j - i] == stack[j];
  }

  lemma FinishedCovers(o: Observed, run: RunKey, phase: Phase, id: nat)
    requires Accounted(o) && id < o.started
    ensures id in Finished(o, run, phase).ended || IsOpen(Finished(o, run, phase), id)
  {
    hide LiveStack, Apart, NoRepeats, Unwound, Innermost;
    var o', i := Finished(o, run, phase), Innermost(StackOf(o, run), phase);
    if i >= 0 && id !in o.ended {
      assert IsOpen(o, id);
      var r, j :| r in o.runs && 0 <= j < |o.runs[r]| && o.runs[r][j].id == id;
      if r == run && j >= i {
        EndedIDs(o.runs[run], i);
        InGone(o.runs[run], i, j);
        assert o'.ended == o.ended + Unwound(o.runs[run][i..]);
      } else {
        assert o'.runs[r][j].id == id;
      }
    }
  }

  lemma FinishedAccounted(o: Observed, run: RunKey, phase: Phase)
    requires Accounted(o)
    ensures Accounted(Finished(o, run, phase))
  {
    hide LiveStack, Apart, IsOpen, Innermost, Unwound;
    var stack := StackOf(o, run);
    var i := Innermost(stack, phase);
    if i >= 0 {
      var o' := Finished(o, run, phase);
      EndedIDs(stack, i);
      assert o'.ended == o.ended + Unwound(stack[i..]);
      GoneIDs(o, stack, i);
      NoRepeatsAppend(o.ended, Unwound(stack[i..]));
      forall r | r in o'.runs ensures LiveStack(o', o'.runs[r]) { StillLive(o, o', run, i, r); }
      forall r, q | r in o'.runs && q in o'.runs && r != q ensures Apart(o'.runs[r], o'.runs[q]) {
        FinishedApart(o, run, phase, r, q);
      }
      forall id: nat | id < o'.started ensures id in o'.ended || IsOpen(o', id) { FinishedCovers(o, run, phase, id); }
    }
  }

  lemma GoneIDs(o: Observed, stack: seq<Span>, i: nat)
    requires LiveStack(o, stack) && i < |stack|
    ensures NoRepeats(Unwound(stack[i..])) && forall id <- Unwound(stack[i..]) :: id !in o.ended && id < o.started
  {
    var gone := stack[i..];
    UnwoundIDs(gone);
    assert forall j :: 0 <= j < |gone| ==> gone[j] == stack[i + j];
  }

  lemma StillLive(o: Observed, o': Observed, run: RunKey, i: nat, r: RunKey)
    requires Accounted(o) && run in o.runs && i < |o.runs[run]| && r in o.runs && (r == run ==> i > 0)
    requires o'.started == o.started && o'.ended == o.ended + Unwound(o.runs[run][i..])
    ensures LiveStack(o', if r == run then o.runs[run][..i] else o.runs[r])
  {
    var stack := o.runs[run];
    assert LiveStack(o, stack) && LiveStack(o, o.runs[r]);
    UnwoundIDs(stack[i..]);
    var rest := if r == run then stack[..i] else o.runs[r];
    forall j | 0 <= j < |rest| ensures rest[j].id !in Unwound(stack[i..]) {
      if r != run { assert Apart(o.runs[r], stack); }
      forall k | 0 <= k < |stack[i..]| ensures stack[i..][k].id != rest[j].id {
        assert stack[i..][k] == stack[i + k];
      }
    }
  }

  /** NEVER TWICE.  Whatever events arrive for whatever runs, every span that was started is either
      open in one place or has been ended exactly once. */
  lemma {:induction false} NoSpanEndsTwice(steps: seq<Step>)
    ensures Accounted(ObserveAll(steps))
    decreases |steps|
  {
    if steps != [] {
      var n := |steps| - 1;
      NoSpanEndsTwice(steps[..n]);
      var s := steps[n];
      if s.event.Begin? {
        BeganAccounted(ObserveAll(steps[..n]), s.run, s.event.phase);
      } else {
        FinishedAccounted(ObserveAll(steps[..n]), s.run, s.event.phase);
      }
    }
  }

  // ----- interleaved runs -----

  /** The events of one run, in order. */
  function EventsOf(steps: seq<Step>, run: RunKey): seq<Event> {
    if steps == [] then []
    else
      var last := steps[|steps| - 1];
      EventsOf(steps[..|steps| - 1], run) + if last.run == run then [last.event] else []
  }

  function PhasesOf(stack: seq<Span>): (r: seq<Phase>)
    ensures |r| == |stack| && forall i :: 0 <= i < |stack| ==> r[i] == stack[i].phase
  {
    seq(|stack|, i requires 0 <= i < |stack| => stack[i].phase)
  }

  lemma {:induction false} PrefixesOpen(events: seq<Event>, n: nat)
    requires OpenAfter(events).Some? && n <= |events|
    ensures OpenAfter(events[..n]).Some?
    decreases |events|
  {
    if n < |events| {
      assert events[..|events| - 1][..n] == events[..n];
      PrefixesOpen(events[..|events| - 1], n);
    } else {
      assert events[..n] == events;
    }
  }

  /** Every run so far has matched its ends. */
  ghost predicate Matched(steps: seq<Step>) {
    forall run :: OpenAfter(EventsOf(steps, run)).Some?
  }

  /** The stack of every run is the phases it has open, and nothing was abandoned. */
  ghost predicate Faithful(steps: seq<Step>, o: Observed) {
    o.abandoned == [] && forall run :: OpenAfter(EventsOf(steps, run)) == Some(PhasesOf(StackOf(o, run)))
  }

  lemma EventsBefore(steps: seq<Step>, run: RunKey)
    requires steps != []
    ensures EventsOf(steps[..|steps| - 1], run) <= EventsOf(steps, run)
  {
  }

  lemma {:induction false} ObservesFaithfully(steps: seq<Step>)
    requires Matched(steps)
    ensures Faithful(steps, ObserveAll(steps))
    decreases |steps|
  {
    hide Matched, Faithful, ObserveAll, EventsOf;
    if steps == [] {
      NothingObserved();
    } else {
      var before, last := steps[..|steps| - 1], steps[|steps| - 1];
      MatchedBefore(steps);
      ObservesFaithfully(before);
      assert steps == before + [last];
      StepFaithful(before, last);
    }
  }

  lemma NothingObserved()
    ensures Faithful([], ObserveAll([]))
  {
    forall run ensures OpenAfter(EventsOf([], run)) == Some(PhasesOf(StackOf(ObserveAll([]), run))) {
      assert PhasesOf([]) == [];
    }
  }

  lemma MatchedBefore(steps: seq<Step>)
    requires steps != [] && Matched(steps)
    ensures Matched(steps[..|steps| - 1])
  {
    var before := steps[..|steps| - 1];
    forall run ensures OpenAfter(EventsOf(before, run)).Some? {
      EventsBefore(steps, run);
      var n := |EventsOf(before, run)|;
      assert EventsOf(steps, run)[..n] == EventsOf(before, run);
      PrefixesOpen(EventsOf(steps, run), n);
    }
  }

  /** A begin pushes what it opens. */
  lemma BeginFaithful(o: Observed, run: RunKey, events: seq<Event>, phase: Phase)
    requires OpenAfter(events) == Some(PhasesOf(StackOf(o, run)))
    ensures OpenAfter(events + [Begin(phase)]) == Some(PhasesOf(StackOf(Began(o, run, phase), run)))
  {
    var stack := StackOf(o, run);
    OpenSnoc(events, Begin(phase), PhasesOf(stack));
    assert PhasesOf(stack + [Span(o.started, phase)]) == PhasesOf(stack) + [phase];
  }

  /** An end that matches pops the innermost span, and abandons none. */
  lemma EndFaithful(o: Observed, run: RunKey, events: seq<Event>, e: Event)
    requires e.End? && OpenAfter(events) == Some(PhasesOf(StackOf(o, run))) && OpenAfter(events + [e]).Some?
    ensures OpenAfter(events + [e]) == Some(PhasesOf(StackOf(Finished(o, run, e.phase), run)))
    ensures Finished(o, run, e.phase).abandoned == o.abandoned
  {
    var stack := StackOf(o, run);
    var n := |stack| - 1;
    assert (events + [e])[..|events|] == events;
    assert n >= 0 && PhasesOf(stack)[n] == e.phase == stack[n].phase;
    assert Innermost(stack, e.phase) == n && stack[n + 1..] == [];
    assert PhasesOf(stack[..n]) == PhasesOf(stack)[..n];
    assert o.abandoned + [] == o.abandoned;
  }

  lemma StepFaithful(steps: seq<Step>, s: Step)
    requires Faithful(steps, ObserveAll(steps)) && Matched(steps + [s])
    ensures Faithful(steps + [s], ObserveAll(steps + [s]))
  {
    hide OpenAfter, Innermost, Unwound, Began, Finished, StackOf;
    var o := ObserveAll(steps);
    var all := steps + [s];
    assert all[..|all| - 1] == steps && all[|all| - 1] == s;
    var events := EventsOf(steps, s.run);
    assert EventsOf(all, s.run) == events + [s.event];
    if s.event.Begin? {
      BeginFaithful(o, s.run, events, s.event.phase);
      BeganAbandons(o, s.run, s.event.phase);
    } else {
      EndFaithful(o, s.run, events, s.event);
    }
    forall run ensures OpenAfter(EventsOf(all, run)) == Some(PhasesOf(StackOf(ObserveAll(all), run))) {
      if run != s.run { OthersStay(steps, s, o, run); }
    }
  }

  lemma BeganAbandons(o: Observed, run: RunKey, phase: Phase)
    ensures Began(o, run, phase).abandoned == o.abandoned
  {
  }

  lemma OthersStay(steps: seq<Step>, s: Step, o: Observed, run: RunKey)
    requires run != s.run
    ensures EventsOf(steps + [s], run) == EventsOf(steps, run) && StackOf(Observe(o, s.run, s.event), run) == StackOf(o, run)
  {
    var all := steps + [s];
    assert all[..|all| - 1] == steps && all[|all| - 1] == s;
    assert EventsOf(steps, run) + [] == EventsOf(steps, run);
  }

  /** EVERY SPAN ONCE.  When any number of finished runs were observed, in any interleaving, every
      span has been ended exactly once, no outer phase ended an inner one, and no run is left. */
  lemma FinishedRunsLeaveNothing(steps: seq<Step>)
    requires forall run :: EventsOf(steps, run) == [] || IsRun(EventsOf(steps, run))
    ensures var o := ObserveAll(steps);
            && o.runs == map[] && o.abandoned == [] && NoRepeats(o.ended)
            && forall id: nat :: id in o.ended <==> id < o.started
  {
    var o := ObserveAll(steps);
    forall run ensures OpenAfter(EventsOf(steps, run)) == Some([]) {
      if EventsOf(steps, run) != [] { RunIsBalanced(EventsOf(steps, run)); }
    }
    ObservesFaithfully(steps);
    NoSpanEndsTwice(steps);
    NoneOpen(steps, o);
  }

  lemma NoneOpen(steps: seq<Step>, o: Observed)
    requires Faithful(steps, o) && Accounted(o) && forall run :: OpenAfter(EventsOf(steps, run)) == Some([])
    ensures o.runs == map[] && forall id: nat :: id in o.ended <==> id < o.started
  {
    forall run ensures run !in o.runs {
      assert Some(PhasesOf(StackOf(o, run))) == Some([]);
      assert StackOf(o, run) == [];
      if run in o.runs { EmptyIsNotLive(o, o.runs[run]); }
    }
    assert o.runs == map[];
    forall id: nat ensures id in o.ended <==> id < o.started {
      if id < o.started { assert id in o.ended || IsOpen(o, id); }
    }
  }

  lemma EmptyIsNotLive(o: Observed, stack: seq<Span>)
    ensures LiveStack(o, stack) ==> stack != []
  {
  }
}
