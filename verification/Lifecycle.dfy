/** When an incident opens, stays open and closes, over whole runs of one fingerprint. */
module Lifecycle {
  import opened Models
  import opened Trend
  import opened Quality
  import opened Incidents

  /** A slot no incident occupies and no breach is building in; a resolved incident may be remembered. */
  predicate Dormant(s: Slot) {
    s.streak.None? && s.alert.None? && s.guard.None? && s.belowExitSince.None? && s.terms.None?
    && s.notified.None? && !s.pendingChange
  }

  function Run(s: Slot, ticks: seq<Tick>): Slot {
    if ticks == [] then s else Step(Run(s, ticks[..|ticks| - 1]), ticks[|ticks| - 1]).slot
  }

  /**
   * What every reachable slot keeps. An open incident is never also remembered as resolved; without one
   * there is no guard, no exit clock and no severity to compare a reopening with.
   */
  predicate Tidy(s: Slot) {
    && (s.terms.Some? ==> !s.terms.value.materialChange)
    && match s.alert
       case Some(a) =>
         s.memory.None? && s.terms.Some? && s.streak.Some? && a.resolvedAtMs.None? && a.state != Resolved
       case None =>
         s.guard.None? && s.belowExitSince.None?
         && (s.terms.Some? ==> s.terms.value.reopenedFromSeverity.None?)
  }

  lemma ReconciliationKeepsTidy(s: Slot, t: Tick)
    requires Tidy(s)
    ensures var r := ReadyToScore(AfterAbsence(AfterCandidate(s, t), t).slot, t);
            match r.alert
            case Some(a) => r.memory.None? && r.terms.Some? && r.streak.Some?
                            && a.resolvedAtMs.None? && a.state != Resolved
            case None => r.guard.None? && r.belowExitSince.None?
                         && (r.terms.Some? ==> r.terms.value.reopenedFromSeverity.None?)
  {
  }

  lemma StepKeepsTidy(s: Slot, t: Tick)
    requires Tidy(s)
    ensures Tidy(Step(s, t).slot)
  {
    hide AfterCandidate, AfterAbsence, ReadyToScore, Score, Decide, Lookup;
    ReconciliationKeepsTidy(s, t);
  }

  lemma {:induction false} RunStaysTidy(s: Slot, ticks: seq<Tick>)
    requires Tidy(s)
    ensures Tidy(Run(s, ticks))
  {
    if ticks != [] {
      var prefix := ticks[..|ticks| - 1];
      RunStaysTidy(s, prefix);
      StepKeepsTidy(Run(s, prefix), ticks[|ticks| - 1]);
    }
  }

  // ------------------------------------------------------------------ opening

  /** How many of the last evaluations, without a gap, carried the candidate. */
  function Unbroken(ticks: seq<Tick>): (n: nat)
    ensures n <= |ticks|
    ensures forall i :: |ticks| - n <= i < |ticks| ==> ticks[i].candidate.Some?
    ensures n < |ticks| ==> ticks[|ticks| - n - 1].candidate.None?
  {
    if ticks == [] || ticks[|ticks| - 1].candidate.None? then 0 else Unbroken(ticks[..|ticks| - 1]) + 1
  }

  function Saturated(n: nat): nat {
    if n < U32_MAX then n else U32_MAX
  }

  lemma StreakStep(s: Slot, t: Tick)
    requires Step(s, t).slot.alert.None?
    ensures t.candidate.None? ==> Step(s, t).slot.streak.None?
    ensures t.candidate.Some? ==>
              s.alert.None? && Step(s, t).slot.streak == Some(SaturatingIncrement(s.streak.GetOr(0)))
  {
  }

  /** With no incident open, the streak counts exactly the unbroken evaluations carrying the candidate. */
  lemma {:induction false} StreakCountsTheRun(s: Slot, ticks: seq<Tick>)
    requires Dormant(s) && Run(s, ticks).alert.None?
    ensures Run(s, ticks).streak.GetOr(0) == Saturated(Unbroken(ticks))
  {
    if ticks != [] {
      var prefix, t := ticks[..|ticks| - 1], ticks[|ticks| - 1];
      StreakStep(Run(s, prefix), t);
      if t.candidate.Some? {
        StreakCountsTheRun(s, prefix);
      }
    }
  }

  lemma OpensWhenSustained(s: Slot, t: Tick)
    requires s.alert.None?
    ensures Step(s, t).slot.alert.Some?
            <==> t.candidate.Some? && SaturatingIncrement(s.streak.GetOr(0)) >= t.candidate.value.requiredSamples
  {
  }

  /**
   * An incident opens exactly at the end of `requiredSamples` consecutive evaluations that all carried
   * its candidate, this one included.
   */
  lemma OpensExactlyWhenSustained(s: Slot, ticks: seq<Tick>, t: Tick)
    requires Dormant(s) && Run(s, ticks).alert.None?
    requires t.candidate.Some? ==> t.candidate.value.requiredSamples <= U32_MAX
    ensures Step(Run(s, ticks), t).slot.alert.Some?
            <==> t.candidate.Some? && Unbroken(ticks + [t]) >= t.candidate.value.requiredSamples
  {
    assert (ticks + [t])[..|ticks|] == ticks;
    StreakCountsTheRun(s, ticks);
    OpensWhenSustained(Run(s, ticks), t);
  }

  // ------------------------------------------------------------------ closing

  /** An evaluation in which the condition is absent and nothing holds the incident but its exit clock. */
  predicate Quiet(t: Tick, exitThreshold: real) {
    && t.candidate.None?
    && t.reading.Some? && t.reading.value < exitThreshold
    && (t.shape.Some? ==> FateOf(t.shape.value) == Undecided)
  }

  /** How many of the last evaluations, without a gap, were quiet. */
  function QuietStretch(ticks: seq<Tick>, exitThreshold: real): (n: nat)
    ensures n <= |ticks|
    ensures forall i :: |ticks| - n <= i < |ticks| ==> Quiet(ticks[i], exitThreshold)
    ensures n < |ticks| ==> !Quiet(ticks[|ticks| - n - 1], exitThreshold)
  {
    if ticks == [] || !Quiet(ticks[|ticks| - 1], exitThreshold) then 0
    else QuietStretch(ticks[..|ticks| - 1], exitThreshold) + 1
  }

  /** When the current quiet stretch began. */
  function QuietSince(ticks: seq<Tick>, exitThreshold: real): Option<int> {
    var n := QuietStretch(ticks, exitThreshold);
    if n == 0 then None else Some(ticks[|ticks| - n].context.nowMs)
  }

  lemma CandidateStopsTheClock(s: Slot, t: Tick)
    requires Tidy(s) && t.candidate.Some?
    ensures Step(s, t).slot.belowExitSince.None?
  {
  }

  lemma AbsenceRunsTheClock(s: Slot, t: Tick)
    requires Tidy(s) && t.candidate.None? && Step(s, t).slot.guard.Some?
    ensures var r := Step(s, t).slot;
            && r.guard == s.guard
            && r.belowExitSince == if Quiet(t, r.guard.value.exitThreshold)
                                   then Some(s.belowExitSince.GetOr(t.context.nowMs)) else None
  {
    hide Score, Decide, Lookup, Scored;
    var ready := ReadyToScore(AfterAbsence(AfterCandidate(s, t), t).slot, t);
    if ready.alert.Some? {
      ScoringKeepsTheClock(ready, s.alert, t.context);
    }
  }

  lemma ScoringKeepsTheClock(ready: Slot, previous: Option<Alert>, context: Context)
    requires ready.alert.Some?
    ensures Scored(ready, previous, context).guard == ready.guard
    ensures Scored(ready, previous, context).belowExitSince == ready.belowExitSince
  {
    hide Score, Decide, Lookup;
  }

  lemma QuietStretchStep(ticks: seq<Tick>, t: Tick, exitThreshold: real)
    ensures QuietSince(ticks + [t], exitThreshold)
            == if Quiet(t, exitThreshold) then Some(QuietSince(ticks, exitThreshold).GetOr(t.context.nowMs)) else None
  {
    assert (ticks + [t])[..|ticks|] == ticks;
  }

  /** The exit clock of a guarded incident always reads the start of the current quiet stretch. */
  lemma {:induction false} ClockReadsTheStretch(s: Slot, ticks: seq<Tick>)
    requires Dormant(s)
    ensures var open := Run(s, ticks);
            open.guard.Some? ==> open.belowExitSince == QuietSince(ticks, open.guard.value.exitThreshold)
  {
    hide Step, Tidy;
    if ticks != [] && Run(s, ticks).guard.Some? {
      var prefix, t := ticks[..|ticks| - 1], ticks[|ticks| - 1];
      RunStaysTidy(s, prefix);
      assert ticks == prefix + [t];
      QuietStretchStep(prefix, t, Run(s, ticks).guard.value.exitThreshold);
      if t.candidate.Some? {
        CandidateStopsTheClock(Run(s, prefix), t);
      } else {
        ClockReadsTheStretch(s, prefix);
        AbsenceRunsTheClock(Run(s, prefix), t);
      }
    }
  }

  lemma ClosesWhenHeld(s: Slot, t: Tick)
    requires s.alert.Some? && s.guard.Some? && t.candidate.None? && t.reading.Some?
    requires t.shape.Some? ==> FateOf(t.shape.value) == Undecided
    ensures Step(s, t).slot.alert.None?
            <==> t.reading.value < s.guard.value.exitThreshold
                 && t.context.nowMs - s.belowExitSince.GetOr(t.context.nowMs) >= s.guard.value.holdMs
  {
  }

  /**
   * A guarded incident with a reading and no shape to say otherwise closes exactly when an unbroken
   * stretch of evaluations, each without its candidate and with a reading below the exit threshold,
   * has lasted its hold.
   */
  lemma ClosesExactlyAfterTheHold(s: Slot, ticks: seq<Tick>, t: Tick)
    requires Dormant(s)
    requires var open := Run(s, ticks); open.alert.Some? && open.guard.Some?
    requires t.candidate.None? && t.reading.Some? && (t.shape.Some? ==> FateOf(t.shape.value) == Undecided)
    ensures var guard := Run(s, ticks).guard.value;
            var since := QuietSince(ticks + [t], guard.exitThreshold);
            Step(Run(s, ticks), t).slot.alert.None? <==> since.Some? && t.context.nowMs - since.value >= guard.holdMs
  {
    ClockReadsTheStretch(s, ticks);
    ClosesWhenHeld(Run(s, ticks), t);
    QuietStretchStep(ticks, t, Run(s, ticks).guard.value.exitThreshold);
  }

  /** While an incident is closed its reading is never consulted, so it need not even be gathered. */
  lemma ClosedIncidentsIgnoreReadings(s: Slot, t: Tick, reading: Option<real>)
    requires s.alert.None?
    ensures Step(s, t.(reading := reading)) == Step(s, t)
  {
  }

  // ----------------------------------------------------------------- reopening

  /**
   * Inside the quiet period a breach reopens the incident that closed: same identity and start, the
   * count carried on, and a generation at least where it was.
   */
  lemma ReopeningContinues(s: Slot, t: Tick)
    requires Tidy(s) && s.alert.None? && Step(s, t).slot.alert.Some? && Remembers(s.memory, t.context.nowMs)
    ensures var (a, prior) := (Step(s, t).slot.alert.value, s.memory.value);
            && a.id == prior.id && a.firstSeenMs == prior.firstSeenMs && a.state == Reopened
            && a.occurrenceCount == SaturatingIncrement(prior.occurrenceCount)
            && prior.notifyGeneration <= a.notifyGeneration
            && a.fingerprint == t.candidate.value.key
  {
    hide Score, Decide, Lookup, Scored, Absence;
    var ready := ReadyToScore(AfterAbsence(AfterCandidate(s, t), t).slot, t);
    if ready.alert.Some? {
      ScoringKeepsIdentity(ready, s.alert, t.context);
    }
  }

  /** With nothing remembered, or only an incident older than the quiet period, a breach is a new incident. */
  lemma OpeningAfreshMints(s: Slot, t: Tick)
    requires Tidy(s) && s.alert.None? && Step(s, t).slot.alert.Some? && !Remembers(s.memory, t.context.nowMs)
    ensures var a := Step(s, t).slot.alert.value;
            && a.id == t.freshId && a.firstSeenMs == t.context.nowMs && a.state == Open
            && a.occurrenceCount == 1 && a.notifyGeneration == 0
            && a.fingerprint == t.candidate.value.key
  {
    hide Score, Decide, Lookup, Scored, Absence;
    var ready := ReadyToScore(AfterAbsence(AfterCandidate(s, t), t).slot, t);
    if ready.alert.Some? {
      ScoringKeepsIdentity(ready, s.alert, t.context);
      NothingToCompareNothingToBump(ready, t.context);
    }
  }

  /** With nothing to compare against, a decision never bumps. */
  lemma NothingToCompareNothingToBump(ready: Slot, context: Context)
    requires ready.alert.Some? && ready.terms.GetOr(NO_TERMS).reopenedFromSeverity.None?
    ensures Scored(ready, None, context).alert.value.notifyGeneration == ready.alert.value.notifyGeneration
  {
    hide Score, Lookup;
  }

  /** While it stays open an incident keeps its identity. */
  lemma StayingOpenKeepsIdentity(s: Slot, t: Tick)
    requires s.alert.Some? && Step(s, t).slot.alert.Some?
    ensures var (was, a) := (s.alert.value, Step(s, t).slot.alert.value);
            && a.id == was.id && a.firstSeenMs == was.firstSeenMs && a.fingerprint == was.fingerprint
            && a.kind == was.kind
  {
    hide Score, Decide, Lookup, Scored;
    var ready := ReadyToScore(AfterAbsence(AfterCandidate(s, t), t).slot, t);
    ScoringKeepsIdentity(ready, s.alert, t.context);
  }

  lemma ScoringKeepsIdentity(ready: Slot, previous: Option<Alert>, context: Context)
    requires ready.alert.Some?
    ensures var (a, r) := (ready.alert.value, Scored(ready, previous, context).alert);
            r.Some? && r.value == a.(quality := r.value.quality, notify := r.value.notify,
                                     notifyGeneration := r.value.notifyGeneration)
            && a.notifyGeneration <= r.value.notifyGeneration
  {
    hide Score, Decide, Lookup;
  }

  /**
   * An open incident tells what its candidate last said, and when: a completed window brings its record up to date
   * and sets the terms on which it may close, and in between neither changes.
   */
  lemma OpenIncidentFollowsItsCandidate(s: Slot, t: Tick)
    requires Tidy(s) && s.alert.Some? && Step(s, t).slot.alert.Some?
    ensures var (was, r, c) := (s.alert.value, Step(s, t).slot, t.candidate);
            if Touched(s, t) then
              && r.alert.value.lastSeenMs == t.context.nowMs && r.alert.value.severity == c.value.severity
              && r.alert.value.evidence == c.value.evidence
              && r.alert.value.occurrenceCount == SaturatingIncrement(was.occurrenceCount)
              && r.guard == GuardFor(c.value, t.context)
            else
              && r.alert.value.lastSeenMs == was.lastSeenMs && r.alert.value.severity == was.severity
              && r.alert.value.evidence == was.evidence && r.alert.value.occurrenceCount == was.occurrenceCount
              && r.guard == s.guard
  {
    hide Score, Decide, Lookup, Scored, GuardFor;
    var ready := ReadyToScore(AfterAbsence(AfterCandidate(s, t), t).slot, t);
    ScoringKeepsIdentity(ready, s.alert, t.context);
    ScoringKeepsTheClock(ready, s.alert, t.context);
  }

  /** Closing remembers exactly what a reopening will need, and emits the incident resolved. */
  lemma ClosingRemembers(s: Slot, t: Tick)
    requires s.alert.Some? && Step(s, t).slot.alert.None?
    ensures var (was, out) := (s.alert.value, Step(s, t));
            && out.slot.memory == Some(Remembered(was, t.context.nowMs))
            && out.emitted.Some?
            && out.emitted.value
               == was.(resolvedAtMs := Some(t.context.nowMs), state := Resolved, notify := out.emitted.value.notify)
            && (out.emitted.value.notify ==> was.notify)
  {
  }

  /** An alert that is neither emitted nor closed is field for field what it was. */
  lemma SilentMeansUnchanged(s: Slot, t: Tick)
    requires Step(s, t).emitted.None?
    ensures Step(s, t).slot.alert == s.alert
  {
  }

  /** What is emitted is what the slot now holds, or the resolved form of what it just closed. */
  lemma EmittedIsCurrent(s: Slot, t: Tick)
    requires Tidy(s) && Step(s, t).emitted.Some?
    ensures var (r, a) := (Step(s, t).slot, Step(s, t).emitted.value);
            && (r.alert.Some? ==> a == r.alert.value)
            && (r.alert.None? ==> s.alert.Some? && a.resolvedAtMs.Some?)
  {
  }

  lemma OpeningIsEmitted(s: Slot, t: Tick)
    requires s.alert.None? && Step(s, t).slot.alert.Some?
    ensures Step(s, t).emitted == Step(s, t).slot.alert && t.candidate.Some?
  {
  }

  lemma StayingClosedForgets(s: Slot, t: Tick)
    requires s.alert.None? && Step(s, t).slot.alert.None?
    ensures Step(s, t).emitted.None? && Step(s, t).slot.memory == Forget(s, t.context.nowMs).memory
  {
  }

  /** Everything one evaluation does to a fingerprint's identity and to what storage is told of it. */
  predicate Moves(s: Slot, r: Slot, emitted: Option<Alert>, nowMs: int, freshId: AlertId) {
    match (s.alert, r.alert)
    case (Some(was), Some(a)) =>
      && a.id == was.id && a.firstSeenMs == was.firstSeenMs && a.fingerprint == was.fingerprint
      && (emitted.None? ==> a == was) && (emitted.Some? ==> emitted.value == a)
    case (None, Some(a)) =>
      && emitted == Some(a)
      && if Remembers(s.memory, nowMs) then a.id == s.memory.value.id && a.firstSeenMs == s.memory.value.firstSeenMs
         else a.id == freshId && a.firstSeenMs == nowMs
    case (Some(was), None) =>
      && r.memory == Some(Remembered(was, nowMs)) && emitted.Some?
      && emitted.value == was.(resolvedAtMs := Some(nowMs), state := Resolved, notify := emitted.value.notify)
    case (None, None) =>
      emitted.None? && r.memory == if Remembers(s.memory, nowMs) then s.memory else None
  }

  lemma StepMoves(s: Slot, t: Tick)
    requires Tidy(s)
    ensures Moves(s, Step(s, t).slot, Step(s, t).emitted, t.context.nowMs, t.freshId)
  {
    var r := Step(s, t).slot;
    if s.alert.Some? && r.alert.Some? {
      StayingOpenKeepsIdentity(s, t);
      if Step(s, t).emitted.None? {
        SilentMeansUnchanged(s, t);
      } else {
        EmittedIsCurrent(s, t);
      }
    } else if s.alert.Some? {
      ClosingRemembers(s, t);
    } else if r.alert.None? {
      StayingClosedForgets(s, t);
    } else {
      OpeningIsEmitted(s, t);
      if Remembers(s.memory, t.context.nowMs) {
        ReopeningContinues(s, t);
      } else {
        OpeningAfreshMints(s, t);
      }
    }
    hide Step;
  }

  predicate StaysClosedWithin(s: Slot, ticks: seq<Tick>, untilMs: int) {
    if ticks == [] then s.alert.None?
    else StaysClosedWithin(s, ticks[..|ticks| - 1], untilMs)
         && Run(s, ticks).alert.None? && ticks[|ticks| - 1].context.nowMs <= untilMs
  }

  /** A remembered incident stays reopenable for the whole quiet period, whatever evaluations pass meanwhile. */
  lemma {:induction false} MemoryLasts(s: Slot, ticks: seq<Tick>)
    requires s.memory.Some? && StaysClosedWithin(s, ticks, s.memory.value.resolvedAtMs + QUIET_PERIOD_MS)
    ensures Run(s, ticks).memory == s.memory
  {
    hide Step;
    if ticks != [] {
      var prefix := ticks[..|ticks| - 1];
      MemoryLasts(s, prefix);
      StaysClosedAlong(s, prefix, s.memory.value.resolvedAtMs + QUIET_PERIOD_MS);
      StayingClosedForgets(Run(s, prefix), ticks[|ticks| - 1]);
    }
  }

  lemma StaysClosedAlong(s: Slot, ticks: seq<Tick>, untilMs: int)
    requires StaysClosedWithin(s, ticks, untilMs)
    ensures Run(s, ticks).alert.None?
  {
  }

  function Flagged(s: Slot, acknowledged: bool, archived: bool): Slot {
    if s.alert.Some? then s.(alert := Some(s.alert.value.(acknowledged := acknowledged, archived := archived))) else s
  }

  function FlaggedRecord(a: Option<Alert>, acknowledged: bool, archived: bool): Option<Alert> {
    if a.Some? then Some(a.value.(acknowledged := acknowledged, archived := archived)) else None
  }

  lemma FlagsInBreach(s: Slot, t: Tick, acknowledged: bool, archived: bool)
    requires s.alert.Some?
    ensures AfterCandidate(s, t).alert.Some?
    ensures AfterCandidate(Flagged(s, acknowledged, archived), t)
            == Flagged(AfterCandidate(s, t), acknowledged, archived)
  {
  }

  lemma FlagsInAbsence(s: Slot, t: Tick, acknowledged: bool, archived: bool)
    requires s.alert.Some?
    ensures var (plain, flagged) := (AfterAbsence(s, t), AfterAbsence(Flagged(s, acknowledged, archived), t));
            && flagged.slot == Flagged(plain.slot, acknowledged, archived)
            && flagged.emitted == FlaggedRecord(plain.emitted, acknowledged, archived)
  {
  }

  lemma FlagsInReadiness(s: Slot, t: Tick, acknowledged: bool, archived: bool)
    ensures ReadyToScore(Flagged(s, acknowledged, archived), t) == Flagged(ReadyToScore(s, t), acknowledged, archived)
  {
  }

  lemma FlagsInScoring(ready: Slot, before: Alert, context: Context, acknowledged: bool, archived: bool)
    requires ready.alert.Some?
    ensures Scored(Flagged(ready, acknowledged, archived),
                   Some(before.(acknowledged := acknowledged, archived := archived)), context)
            == Flagged(Scored(ready, Some(before), context), acknowledged, archived)
  {
    hide Score, Decide, Lookup;
  }

  /**
   * An open incident's own flags go through a step untouched and change nothing else it does, what it sends included.
   * FlagEffects says what they may change for others.
   */
  lemma FlagsAreInert(s: Slot, t: Tick, acknowledged: bool, archived: bool)
    requires s.alert.Some?
    ensures Step(Flagged(s, acknowledged, archived), t).slot == Flagged(Step(s, t).slot, acknowledged, archived)
    ensures Step(Flagged(s, acknowledged, archived), t).emitted
            == FlaggedRecord(Step(s, t).emitted, acknowledged, archived)
  {
    hide AfterCandidate, AfterAbsence, Scored, Sustained, ReadyToScore;
    FlagsInBreach(s, t, acknowledged, archived);
    FlagsInAbsence(AfterCandidate(s, t), t, acknowledged, archived);
    var reconciled := AfterAbsence(AfterCandidate(s, t), t).slot;
    FlagsInReadiness(reconciled, t, acknowledged, archived);
    var ready := ReadyToScore(reconciled, t);
    if ready.alert.Some? {
      FlagsInScoring(ready, s.alert.value, t.context, acknowledged, archived);
    }
    TouchIgnoresFlags(s, t, acknowledged, archived);
  }

  lemma TouchIgnoresFlags(s: Slot, t: Tick, acknowledged: bool, archived: bool)
    ensures Touched(Flagged(s, acknowledged, archived), t) == Touched(s, t)
  {
  }

  lemma LatchInReconciliation(s: Slot, t: Tick, latched: bool)
    ensures var (plain, other) := (AfterAbsence(AfterCandidate(s, t), t).slot,
                                   AfterAbsence(AfterCandidate(s.(pendingChange := latched), t), t).slot);
            other == plain.(pendingChange := other.pendingChange)
  {
  }

  lemma ScoringKeepsLifecycle(ready: Slot, previous: Option<Alert>, context: Context)
    requires ready.alert.Some?
    ensures var r := Scored(ready, previous, context);
            && r.alert.Some? && r.alert.value.id == ready.alert.value.id
            && r.alert.value.severity == ready.alert.value.severity
            && r.streak == ready.streak && r.guard == ready.guard && r.belowExitSince == ready.belowExitSince
  {
    hide Score, Decide, Lookup;
  }

  /** A latched verdict change says nothing about when an incident opens, holds or closes. */
  lemma LatchOnlyConcernsNotification(s: Slot, t: Tick, latched: bool)
    ensures var (plain, other) := (Step(s, t).slot, Step(s.(pendingChange := latched), t).slot);
            && other.streak == plain.streak && other.guard == plain.guard
            && other.belowExitSince == plain.belowExitSince
            && other.alert.Some? == plain.alert.Some?
            && (plain.alert.Some? ==> other.alert.value.id == plain.alert.value.id
                                      && other.alert.value.severity == plain.alert.value.severity)
  {
    hide AfterCandidate, AfterAbsence, Scored;
    LatchInReconciliation(s, t, latched);
    var ready := ReadyToScore(AfterAbsence(AfterCandidate(s, t), t).slot, t);
    var ready' := ReadyToScore(AfterAbsence(AfterCandidate(s.(pendingChange := latched), t), t).slot, t);
    if ready.alert.Some? {
      ScoringKeepsLifecycle(ready, s.alert, t.context);
      ScoringKeepsLifecycle(ready', s.alert, t.context);
    }
  }
}
