/** Phase events, and what a well-bracketed list of them is. */
module Phases {
  import opened Ast

  datatype Phase = SpinePhase | CompilePhase | TransitionPhase | SealPhase | AssessPhase

  datatype PhaseResult = Success | Ready | NeedsInput | InvalidInput | InvalidPlan | ProtectedInvariantFailed
                       | ArtifactIntegrityFailed | Cancelled | InfrastructureUnavailable | InternalError

  datatype Event = Begin(phase: Phase) | End(phase: Phase, result: PhaseResult)

  /** The open phases after some events, innermost last; none if an end did not match. */
  function OpenAfter(events: seq<Event>): Option<seq<Phase>> {
    if events == [] then Some([])
    else
      match OpenAfter(events[..|events| - 1])
      case None => None
      case Some(open) =>
        var e := events[|events| - 1];
        if e.Begin? then Some(open + [e.phase])
        else if open != [] && open[|open| - 1] == e.phase then Some(open[..|open| - 1])
        else None
  }

  predicate Balanced(events: seq<Event>) {
    OpenAfter(events) == Some([])
  }

  /** Never more than `depth` phases are open. */
  predicate NestsWithin(events: seq<Event>, depth: nat) {
    events == [] || (NestsWithin(events[..|events| - 1], depth) && OpenAfter(events).Some? && |OpenAfter(events).value| <= depth)
  }

  /** Phases inside the spine, one after another. */
  predicate InnerPairs(events: seq<Event>) {
    events == [] ||
    (var n := |events|;
     n >= 2 && InnerPairs(events[..n - 2]) && events[n - 2].Begin? && events[n - 1].End?
     && events[n - 2].phase == events[n - 1].phase != SpinePhase)
  }

  /** One spine around inner phases: what a finished run emits. */
  predicate IsRun(events: seq<Event>) {
    var n := |events|;
    && n >= 2 && events[0] == Begin(SpinePhase) && events[n - 1].End? && events[n - 1].phase == SpinePhase
    && InnerPairs(events[1..n - 1])
  }

  lemma OpenSnoc(events: seq<Event>, e: Event, open: seq<Phase>)
    requires OpenAfter(events) == Some(open)
    ensures e.Begin? ==> OpenAfter(events + [e]) == Some(open + [e.phase])
    ensures e.End? && open != [] && open[|open| - 1] == e.phase ==> OpenAfter(events + [e]) == Some(open[..|open| - 1])
  {
    assert (events + [e])[..|events|] == events;
  }

  lemma {:induction false} InnerPairsOpen(events: seq<Event>)
    requires InnerPairs(events)
    ensures OpenAfter([Begin(SpinePhase)] + events) == Some([SpinePhase])
    ensures NestsWithin([Begin(SpinePhase)] + events, 2)
    decreases |events|
  {
    var n := |events|;
    var all := [Begin(SpinePhase)] + events;
    if n == 0 {
      OpenSnoc([], Begin(SpinePhase), []);
      assert all == [] + [Begin(SpinePhase)] && [] + [SpinePhase] == [SpinePhase];
    } else {
      InnerPairsOpen(events[..n - 2]);
      var front, p := [Begin(SpinePhase)] + events[..n - 2], events[n - 2].phase;
      OpenSnoc(front, events[n - 2], [SpinePhase]);
      var one := front + [events[n - 2]];
      OpenSnoc(one, events[n - 1], [SpinePhase] + [p]);
      assert all == one + [events[n - 1]];
      assert ([SpinePhase] + [p])[..1] == [SpinePhase];
      assert one[..|one| - 1] == front && all[..|all| - 1] == one;
    }
  }

  /** A finished run is balanced, and nests no deeper than two phases. */
  lemma {:induction false} RunIsBalanced(events: seq<Event>)
    requires IsRun(events)
    ensures Balanced(events) && NestsWithin(events, 2)
    ensures forall i :: 0 < i < |events| - 1 ==> events[i].phase != SpinePhase
  {
    var n := |events|;
    InnerPairsOpen(events[1..n - 1]);
    assert events[..n - 1] == [Begin(SpinePhase)] + events[1..n - 1];
    InnerIsNotSpine(events[1..n - 1]);
    forall i | 0 < i < n - 1 ensures events[i].phase != SpinePhase {
      assert events[1..n - 1][i - 1] == events[i];
    }
  }

  lemma {:induction false} InnerIsNotSpine(events: seq<Event>)
    requires InnerPairs(events)
    ensures forall i :: 0 <= i < |events| ==> events[i].phase != SpinePhase
    decreases |events|
  {
    if events != [] { InnerIsNotSpine(events[..|events| - 2]); }
  }
}
