/** The life of a handle or thread growth incident: what its window's shape allows, over whole runs. */
module GrowthLife {
  import opened Models
  import opened Trend
  import opened Incidents
  import opened Lifecycle
  import opened Notifications

  predicate Climbing(t: Tick) {
    t.shape.Some? && t.shape.value.Monotonic?
  }

  /** When the current run of monotonic shapes began, one evaluation on. */
  function ClimbAfter(since: Option<int>, t: Tick): Option<int> {
    if Climbing(t) then Some(since.GetOr(t.context.nowMs)) else None
  }

  function Climb(ticks: seq<Tick>): Option<int> {
    if ticks == [] then None else ClimbAfter(Climb(ticks[..|ticks| - 1]), ticks[|ticks| - 1])
  }

  function GrowthSeverity(climbMs: int): Severity {
    if climbMs >= GROWTH_PERSISTENCE_MS then Warning else Info
  }

  function ClimbMs(since: Option<int>, nowMs: int): int {
    if since.Some? then Max(nowMs - since.value, 0) else 0
  }

  /** What the growth detectors promise of a candidate: a monotonic window, banded by how long it has climbed. */
  predicate GrowthTick(t: Tick, climb: Option<int>) {
    t.candidate.Some? ==>
      Climbing(t) && t.candidate.value.severity == GrowthSeverity(ClimbMs(climb, t.context.nowMs))
  }

  predicate GrowthRun(ticks: seq<Tick>) {
    if ticks == [] then true
    else GrowthRun(ticks[..|ticks| - 1]) && GrowthTick(ticks[|ticks| - 1], Climb(ticks))
  }

  /** Some unbroken stretch of evaluations, spanning the persistence period, all with a monotonic shape. */
  ghost predicate ClimbedLongEnough(ticks: seq<Tick>) {
    exists i, j :: 0 <= i <= j < |ticks| && ClimbedThrough(ticks, i, j)
  }

  predicate ClimbedThrough(ticks: seq<Tick>, i: nat, j: nat)
    requires i <= j < |ticks|
  {
    && ticks[j].context.nowMs - ticks[i].context.nowMs >= GROWTH_PERSISTENCE_MS
    && forall k :: i <= k <= j ==> Climbing(ticks[k])
  }

  /** A run's start is the time of a real evaluation, and every shape since has been monotonic. */
  lemma {:induction false} ClimbIsUnbroken(ticks: seq<Tick>) returns (i: nat)
    requires Climb(ticks).Some?
    ensures i < |ticks| && ticks[i].context.nowMs == Climb(ticks).value
    ensures forall k :: i <= k < |ticks| ==> Climbing(ticks[k])
  {
    var n := |ticks| - 1;
    if Climb(ticks[..n]).None? {
      i := n;
    } else {
      i := ClimbIsUnbroken(ticks[..n]);
      forall k | i <= k < |ticks|
        ensures Climbing(ticks[k])
      {
        assert k < n ==> ticks[..n][k] == ticks[k];
      }
    }
  }

  lemma LongClimbExtends(ticks: seq<Tick>)
    requires ticks != [] && ClimbedLongEnough(ticks[..|ticks| - 1])
    ensures ClimbedLongEnough(ticks)
  {
    var prefix := ticks[..|ticks| - 1];
    var i, j :| 0 <= i <= j < |prefix| && ClimbedThrough(prefix, i, j);
    assert forall k :: i <= k <= j ==> ticks[k] == prefix[k];
    assert ClimbedThrough(ticks, i, j);
  }

  lemma SeverityComesFromCandidates(s: Slot, t: Tick)
    requires Step(s, t).slot.alert.Some?
    ensures var a := Step(s, t).slot.alert.value;
            (s.alert.Some? && a.severity == s.alert.value.severity)
            || (t.candidate.Some? && a.severity == t.candidate.value.severity)
  {
  }

  lemma {:induction false} OnlyLongClimbsEscalate(s: Slot, ticks: seq<Tick>)
    requires Dormant(s) && GrowthRun(ticks)
    requires Run(s, ticks).alert.Some? && Run(s, ticks).alert.value.severity != Info
    ensures ClimbedLongEnough(ticks)
  {
    var n := |ticks| - 1;
    var before, t := Run(s, ticks[..n]), ticks[n];
    SeverityComesFromCandidates(before, t);
    if before.alert.Some? && before.alert.value.severity != Info {
      OnlyLongClimbsEscalate(s, ticks[..n]);
      LongClimbExtends(ticks);
    } else {
      var i := ClimbIsUnbroken(ticks);
      assert ClimbedThrough(ticks, i, n);
    }
  }

  /**
   * A growth incident never notifies unless its window was monotonic in every evaluation across some
   * thirty consecutive minutes of the run.
   */
  lemma GrowthNotifiesOnlyAfterALongClimb(s: Slot, ticks: seq<Tick>)
    requires Dormant(s) && GrowthRun(ticks)
    requires Run(s, ticks).alert.Some? && Run(s, ticks).alert.value.notify
    ensures ClimbedLongEnough(ticks)
  {
    NotifyingIsEarned(Run(s, ticks[..|ticks| - 1]), ticks[|ticks| - 1]);
    OnlyLongClimbsEscalate(s, ticks);
  }

  /** Still climbing, or holding on to most of what it took: the incident stays open and no clock runs. */
  lemma ShapeHoldsTheIncidentOpen(s: Slot, t: Tick)
    requires Tidy(s) && s.alert.Some? && t.shape.Some? && FateOf(t.shape.value) == StaysOpen
    ensures Step(s, t).slot.alert.Some? && Step(s, t).slot.belowExitSince.None?
  {
  }

  /** An excursion the window calls over closes at once, whatever the reading, and closes silently. */
  lemma ShapeResolvesSilently(s: Slot, t: Tick)
    requires s.alert.Some? && t.candidate.None? && t.shape.Some? && FateOf(t.shape.value) == AutoResolve
    ensures Step(s, t).slot.alert.None? && Step(s, t).emitted.Some? && !Step(s, t).emitted.value.notify
  {
  }

  /** Leaving a shape that holds the incident open, hysteresis has to serve its whole hold afresh. */
  lemma NoHoldIsInherited(s: Slot, held: Tick, t: Tick)
    requires Tidy(s) && s.alert.Some? && held.shape.Some? && FateOf(held.shape.value) == StaysOpen
    requires Step(s, held).slot.guard.Some? && Step(s, held).slot.guard.value.holdMs > 0
    requires t.candidate.None? && t.reading.Some? && (t.shape.Some? ==> FateOf(t.shape.value) == Undecided)
    ensures Step(Step(s, held).slot, t).slot.alert.Some?
  {
    ShapeHoldsTheIncidentOpen(s, held);
    StepKeepsTidy(s, held);
    ClosesWhenHeld(Step(s, held).slot, t);
  }
}
