/** When an incident may interrupt the user, and how often, over whole runs of one fingerprint. */
module Notifications {
  import opened Models
  import opened Quality
  import opened Trend
  import opened Incidents
  import opened Lifecycle

  /** The generation an evaluation starts from: the open incident's, the remembered one's, or zero. */
  function GenerationBefore(s: Slot, nowMs: int): nat {
    if s.alert.Some? then s.alert.value.notifyGeneration
    else if Remembers(s.memory, nowMs) then s.memory.value.notifyGeneration
    else 0
  }

  /** One evaluation moves the generation by at most one, and only on a sample that notifies. */
  lemma OneBumpAtMost(s: Slot, t: Tick)
    requires Step(s, t).slot.alert.Some?
    ensures var (was, a) := (GenerationBefore(s, t.context.nowMs), Step(s, t).slot.alert.value);
            a.notifyGeneration == was || (a.notify && a.notifyGeneration == SaturatingIncrement(was))
  {
    var ready := ReadyToScore(AfterAbsence(AfterCandidate(s, t), t).slot, t);
    assert ready.alert.Some? && ready.alert.value.notifyGeneration == GenerationBefore(s, t.context.nowMs);
  }

  /** The confidence a finding has to reach: more of it from a critical one while the machine is still learning. */
  function ConfidenceBar(severity: Severity, learning: bool): real {
    match severity
    case Critical => if learning then LEARNING_CONFIDENCE_FLOOR else CRITICAL_CONFIDENCE_FLOOR
    case _ => CONFIDENCE_FLOOR
  }

  /**
   * History-only findings never notify, while the machine is learning only critical ones do, and both floors are
   * cleared, each raised or lowered by what the user's ratings earned.
   */
  lemma NotifyingIsEarned(s: Slot, t: Tick)
    requires Step(s, t).slot.alert.Some? && Step(s, t).slot.alert.value.notify
    ensures var a := Step(s, t).slot.alert.value;
            var offset := Lookup(t.context.offsets, a.kind, t.context.demand);
            && a.severity != Info
            && (t.context.learning ==> a.severity == Critical)
            && a.quality.persistence >= PERSISTENCE_FLOOR + offset
            && a.quality.confidence >= ConfidenceBar(a.severity, t.context.learning) + offset
  {
    hide Score, Lookup;
  }

  /**
   * A latched verdict change is spent only by a bump that is delivered, or by its incident closing; on
   * every other sample it stays latched.
   */
  lemma LatchIsNeverSpentSilently(s: Slot, t: Tick)
    requires s.pendingChange && !Step(s, t).slot.pendingChange
    ensures var r := Step(s, t).slot;
            && (r.alert.Some? ==>
                  r.alert.value.notify
                  && r.alert.value.notifyGeneration == SaturatingIncrement(GenerationBefore(s, t.context.nowMs)))
            && (r.alert.None? ==> s.alert.Some?)
  {
    var ready := ReadyToScore(AfterAbsence(AfterCandidate(s, t), t).slot, t);
    if ready.alert.Some? {
      assert ready.alert.value.notifyGeneration == GenerationBefore(s, t.context.nowMs);
    }
  }

  lemma LatchIsNeverInvented(s: Slot, t: Tick)
    requires Step(s, t).slot.pendingChange
    ensures s.pendingChange
  {
  }

  // ------------------------------------------------------------------ whole runs

  /** The generation a fingerprint stands at, open or remembered. */
  function GenerationOf(s: Slot): nat {
    if s.alert.Some? then s.alert.value.notifyGeneration
    else if s.memory.Some? then s.memory.value.notifyGeneration
    else 0
  }

  function Notices(s: Slot, ticks: seq<Tick>): nat {
    if ticks == [] then 0
    else Notices(s, ticks[..|ticks| - 1]) + if Notifies(Run(s, ticks)) then 1 else 0
  }

  lemma GenerationStep(s: Slot, t: Tick)
    ensures GenerationOf(Step(s, t).slot) <= GenerationOf(s) + if Notifies(Step(s, t).slot) then 1 else 0
  {
    hide Score, Decide, Lookup;
    if Step(s, t).slot.alert.Some? {
      OneBumpAtMost(s, t);
    } else if s.alert.None? {
      StayingClosedForgets(s, t);
    } else {
      ClosingRemembers(s, t);
    }
    hide Step;
  }

  /**
   * Over any run, through closings and reopenings, a generation has moved no further than the evaluations that ended
   * with the incident notifying.
   */
  lemma {:induction false} GenerationsAreNotices(s: Slot, ticks: seq<Tick>)
    ensures GenerationOf(Run(s, ticks)) <= GenerationOf(s) + Notices(s, ticks)
  {
    hide Step, GenerationOf, Notifies;
    if ticks != [] {
      GenerationsAreNotices(s, ticks[..|ticks| - 1]);
      GenerationStep(Run(s, ticks[..|ticks| - 1]), ticks[|ticks| - 1]);
    }
  }

  /** Evaluation `i` of a run delivered the latched change, or closed the incident it was about. */
  predicate SpentAt(s: Slot, ticks: seq<Tick>, i: nat)
    requires i < |ticks|
  {
    var (before, after) := (Run(s, ticks[..i]), Run(s, ticks[..i + 1]));
    && before.pendingChange
    && if after.alert.Some?
       then Notifies(after) && after.alert.value.notifyGeneration
                               == SaturatingIncrement(GenerationBefore(before, ticks[i].context.nowMs))
       else before.alert.Some?
  }

  /** Over any run, a latched change is gone only if some evaluation delivered it or closed its incident. */
  lemma {:induction false} LatchEndsInADelivery(s: Slot, ticks: seq<Tick>)
    requires s.pendingChange && !Run(s, ticks).pendingChange
    ensures exists i :: 0 <= i < |ticks| && SpentAt(s, ticks, i)
  {
    hide Step, GenerationBefore;
    var n := |ticks| - 1;
    var prefix := ticks[..n];
    if Run(s, prefix).pendingChange {
      LatchIsNeverSpentSilently(Run(s, prefix), ticks[n]);
      assert ticks[..n + 1] == ticks;
      assert SpentAt(s, ticks, n);
    } else {
      LatchEndsInADelivery(s, prefix);
      var i :| 0 <= i < |prefix| && SpentAt(s, prefix, i);
      assert prefix[..i] == ticks[..i] && prefix[..i + 1] == ticks[..i + 1];
      assert SpentAt(s, ticks, i);
    }
  }

  // ---------------------------------------------------- reopening at a worse severity

  /** A sample that neither changes the severity nor reports a material change. */
  predicate Steady(t: Tick, severity: Severity) {
    t.candidate.Some? ==> t.candidate.value.severity == severity && !t.candidate.value.materialChange
  }

  predicate Notifies(s: Slot) {
    s.alert.Some? && s.alert.value.notify
  }

  /** Whether the user was told at any point of a run: after `s` itself or after one of the evaluations. */
  predicate Told(s: Slot, ticks: seq<Tick>) {
    if ticks == [] then Notifies(s) else Told(s, ticks[..|ticks| - 1]) || Notifies(Run(s, ticks))
  }

  predicate StaysOpenAlong(s: Slot, ticks: seq<Tick>) {
    if ticks == [] then s.alert.Some? else StaysOpenAlong(s, ticks[..|ticks| - 1]) && Run(s, ticks).alert.Some?
  }

  /**
   * Where a reopened, escalated incident stands: still untold, with the old severity in hand; or told,
   * with one bump if the user had been told of it before.
   */
  predicate EscalatedReopen(s: Slot, prior: ResolvedIncident, severity: Severity, remembered: bool, told: bool) {
    && s.alert.Some? && s.alert.value.severity == severity
    && !s.pendingChange
    && s.terms.Some? && !s.terms.value.materialChange
    && if told then
         s.terms.value.reopenedFromSeverity.None?
         && s.alert.value.notifyGeneration
            == if remembered then SaturatingIncrement(prior.notifyGeneration) else prior.notifyGeneration
       else
         s.terms.value.reopenedFromSeverity == Some(prior.severity)
         && s.alert.value.notifyGeneration == prior.notifyGeneration
         && s.notified.Some? == remembered
  }

  lemma ReopenStarts(s: Slot, t: Tick)
    requires Tidy(s) && s.alert.None? && !s.pendingChange && Step(s, t).slot.alert.Some?
    requires Remembers(s.memory, t.context.nowMs)
    requires Rank(t.candidate.value.severity) > Rank(s.memory.value.severity)
    requires Steady(t, t.candidate.value.severity)
    ensures var r := Step(s, t).slot;
            EscalatedReopen(r, s.memory.value, t.candidate.value.severity, s.notified.Some?, Notifies(r))
  {
    var ready := ReadyToScore(AfterAbsence(AfterCandidate(s, t), t).slot, t);
    assert ready.alert.Some? && ready.terms.Some? && ready.notified == s.notified;
    assert ready.terms.value.reopenedFromSeverity == Some(s.memory.value.severity);
    assert !ready.terms.value.materialChange;
  }

  lemma ReopenContinues(s: Slot, t: Tick, prior: ResolvedIncident, severity: Severity, remembered: bool, told: bool)
    requires EscalatedReopen(s, prior, severity, remembered, told) && Step(s, t).slot.alert.Some?
    requires Rank(severity) > Rank(prior.severity) && Steady(t, severity)
    ensures var r := Step(s, t).slot; EscalatedReopen(r, prior, severity, remembered, told || Notifies(r))
  {
    hide Score, Lookup, Decide, Scored;
    var ready := ReadyToScore(AfterAbsence(AfterCandidate(s, t), t).slot, t);
    ReopenIsReady(s, t, prior, severity, remembered, told);
    hide AfterCandidate, AfterAbsence, ReadyToScore;
    ReopenIsScored(ready, s.alert, t.context, prior, severity, remembered, told);
  }

  lemma ReopenIsReady(s: Slot, t: Tick, prior: ResolvedIncident, severity: Severity, remembered: bool, told: bool)
    requires EscalatedReopen(s, prior, severity, remembered, told) && Step(s, t).slot.alert.Some? && Steady(t, severity)
    ensures var ready := ReadyToScore(AfterAbsence(AfterCandidate(s, t), t).slot, t);
            EscalatedReopen(ready, prior, severity, remembered, told)
  {
    hide Scored;
  }

  lemma ReopenIsScored(ready: Slot, previous: Option<Alert>, context: Context, prior: ResolvedIncident,
                       severity: Severity, remembered: bool, told: bool)
    requires EscalatedReopen(ready, prior, severity, remembered, told) && Rank(severity) > Rank(prior.severity)
    requires previous.Some? && previous.value.severity == severity
    ensures var r := Settled(Scored(ready, previous, context));
            EscalatedReopen(r, prior, severity, remembered, told || Notifies(r))
  {
    hide Score, Lookup;
  }

  /**
   * A reopening at a higher severity, followed for as long as the incident stays open at it: the
   * generation is bumped exactly once, on the first sample that notifies, if and only if the memory of
   * having notified had survived until the reopening.
   */
  lemma {:induction false} EscalatedReopenBumpsOnce(s: Slot, first: Tick, ticks: seq<Tick>)
    requires Tidy(s) && s.alert.None? && !s.pendingChange
    requires Remembers(s.memory, first.context.nowMs)
    requires StaysOpenAlong(Step(s, first).slot, ticks)
    requires first.candidate.Some? && Rank(first.candidate.value.severity) > Rank(s.memory.value.severity)
    requires Steady(first, first.candidate.value.severity)
    requires forall t :: t in ticks ==> Steady(t, first.candidate.value.severity)
    ensures var (reopened, told) := (Step(s, first).slot, Told(Step(s, first).slot, ticks));
            && EscalatedReopen(Run(reopened, ticks), s.memory.value, first.candidate.value.severity, s.notified.Some?,
                               told)
            && Run(reopened, ticks).alert.value.notifyGeneration
               == if told && s.notified.Some? then SaturatingIncrement(s.memory.value.notifyGeneration)
                  else s.memory.value.notifyGeneration
  {
    var reopened := Step(s, first).slot;
    if ticks == [] {
      ReopenStarts(s, first);
    } else {
      var prefix, t := ticks[..|ticks| - 1], ticks[|ticks| - 1];
      assert forall u :: u in prefix ==> u in ticks;
      assert t in ticks;
      EscalatedReopenBumpsOnce(s, first, prefix);
      ReopenContinues(Run(reopened, prefix), t, s.memory.value, first.candidate.value.severity,
                      s.notified.Some?, Told(reopened, prefix));
    }
  }

  // --------------------------------------------- how long the user's having been told counts

  lemma NotifyMemoryStep(s: Slot, t: Tick)
    requires Step(s, t).slot.alert.None?
    ensures Step(s, t).slot.notified
            == if s.notified.Some? && t.context.nowMs - s.notified.value.atMs <= QUIET_PERIOD_MS
               then s.notified else None
    ensures !Step(s, t).slot.pendingChange || s.alert.None?
  {
    hide Score, Decide;
  }

  /** A stretch of evaluations in time order, the fingerprint closed after each of them. */
  predicate ClosedAlong(s: Slot, ticks: seq<Tick>) {
    && ticks != [] && Run(s, ticks).alert.None?
    && (|ticks| > 1 ==>
          ClosedAlong(s, ticks[..|ticks| - 1])
          && ticks[|ticks| - 2].context.nowMs <= ticks[|ticks| - 1].context.nowMs)
  }

  function EndOf(ticks: seq<Tick>): int
    requires ticks != []
  {
    ticks[|ticks| - 1].context.nowMs
  }

  /**
   * The memory of having told the user survives a closed stretch exactly when the last evaluation of it comes within
   * a quiet period of the telling; when the incident itself was resolved makes no difference.
   */
  lemma {:induction false} NotifyMemoryExpires(s: Slot, ticks: seq<Tick>)
    requires ClosedAlong(s, ticks)
    ensures Run(s, ticks).notified
            == if s.notified.Some? && EndOf(ticks) - s.notified.value.atMs <= QUIET_PERIOD_MS then s.notified else None
  {
    hide Step;
    var prefix := ticks[..|ticks| - 1];
    NotifyMemoryStep(Run(s, prefix), ticks[|ticks| - 1]);
    if |ticks| > 1 {
      NotifyMemoryExpires(s, prefix);
    }
  }

  /** What a closing leaves for a reopening, after any stretch that stays closed for no more than a quiet period. */
  lemma {:induction false} ClosedStretchRemembers(s: Slot, ticks: seq<Tick>)
    requires s.alert.Some? && ClosedAlong(s, ticks) && EndOf(ticks) - ticks[0].context.nowMs <= QUIET_PERIOD_MS
    ensures Run(s, ticks).memory == Some(Remembered(s.alert.value, ticks[0].context.nowMs))
    ensures !Run(s, ticks).pendingChange
  {
    hide Step;
    var prefix, t := ticks[..|ticks| - 1], ticks[|ticks| - 1];
    NotifyMemoryStep(Run(s, prefix), t);
    if |ticks| > 1 {
      ClosedStretchRemembers(s, prefix);
      StayingClosedForgets(Run(s, prefix), t);
      if Run(s, ticks).pendingChange {
        LatchIsNeverInvented(Run(s, prefix), t);
      }
    } else {
      ClosingRemembers(s, t);
    }
  }

  /**
   * From one telling to the next, on times alone. An incident the user was told of closes, stays closed for a while,
   * and reopens at a higher severity within the quiet period of its closing: its generation is bumped if and only if
   * it comes to notify again and the last evaluation before the reopening was within a quiet period of the telling.
   */
  lemma EscalationIsBumpedIff(s: Slot, closed: seq<Tick>, first: Tick, ticks: seq<Tick>)
    requires Tidy(s) && s.alert.Some? && s.notified.Some? && ClosedAlong(s, closed)
    requires EndOf(closed) <= first.context.nowMs <= closed[0].context.nowMs + QUIET_PERIOD_MS
    requires first.candidate.Some? && Rank(first.candidate.value.severity) > Rank(s.alert.value.severity)
    requires StaysOpenAlong(Step(Run(s, closed), first).slot, ticks)
    requires Steady(first, first.candidate.value.severity)
    requires forall t :: t in ticks ==> Steady(t, first.candidate.value.severity)
    ensures var reopened := Step(Run(s, closed), first).slot;
            Run(reopened, ticks).alert.value.notifyGeneration
            == if Told(reopened, ticks) && EndOf(closed) - s.notified.value.atMs <= QUIET_PERIOD_MS
               then SaturatingIncrement(s.alert.value.notifyGeneration)
               else s.alert.value.notifyGeneration
  {
    RunStaysTidy(s, closed);
    NotifyMemoryExpires(s, closed);
    ClosedStretchRemembers(s, closed);
    hide Step, Run, Tidy, Told, StaysOpenAlong;
    EscalatedReopenBumpsOnce(Run(s, closed), first, ticks);
  }

  // ------------------------------------------------------------------ one such run

  const HOG := OfMachine("hog")

  /** Samples a second apart, two of them to a sustained window. */
  function ContextAt(nowMs: int): Context {
    Context(nowMs, 1000, 2, false, 1.0, Light, NO_OFFSETS)
  }

  /** A finding with a stable attribution and no hysteresis. */
  function Sighting(nowMs: int, severity: Severity): Tick {
    var subject := Subject(None, None, "", "", "");
    var quality := CandidateQuality(Some(true), 0, 0, true);
    Tick(ContextAt(nowMs), Some(Candidate(HOG, "hog", severity, 2, subject, [], None, 1.0, false, quality)),
         None, None, None, "id")
  }

  function Silence(nowMs: int): Tick {
    Tick(ContextAt(nowMs), None, None, None, None, "id")
  }

  /** Two sightings of a warning, silence at `closeMs`, and two more sightings, this time of something critical. */
  function Escalation(closeMs: int): seq<Tick> {
    [Sighting(0, Warning)] + [Sighting(3000, Warning)] + [Silence(closeMs)]
    + [Sighting(closeMs + 1000, Critical)] + [Sighting(closeMs + 4000, Critical)]
  }

  /** A breach one sample old. */
  predicate Building(s: Slot, sinceMs: int) {
    && s.alert.None? && s.streak == Some(1) && !s.pendingChange
    && s.terms.Some? && s.terms.value.windowMs == Some(2000) && s.terms.value.breachSinceMs == Some(sinceMs)
    && !s.terms.value.materialChange && s.terms.value.reopenedFromSeverity.None?
  }

  predicate RemembersWarning(s: Slot, closeMs: int) {
    && s.memory.Some? && s.memory.value.severity == Warning && s.memory.value.notifyGeneration == 0
    && s.memory.value.resolvedAtMs == closeMs
  }

  lemma ScoreOf(q: QualityInputs)
    requires q.baselineMaturity == 1.0 && q.attributionStable == Some(true)
    requires q.sustainedWindowMs == 2000 && q.breachDurationMs == 3000
    ensures Score(q).persistence == 0.5 && Score(q).confidence >= 0.65
  {
    assert q.occurrenceCount as real / 10.0 >= 0.0;
  }

  lemma NobodyRated(kind: string, bucket: DemandBucket)
    ensures Lookup(NO_OFFSETS, kind, bucket) == 0.0
  {
  }

  lemma DecidesToTell(severity: Severity, quality: AlertQuality, previous: Option<Standing>)
    requires severity != Info && quality.persistence == 0.5 && quality.confidence >= 0.65
    ensures var d := Decide(severity, quality, false, previous, false, 0.0);
            && d.notify
            && (d.bumpGeneration <==>
                  previous.Some? && previous.value.notify && Rank(severity) > Rank(previous.value.severity))
  {
  }

  lemma BreachBuilds(s: Slot, atMs: int, severity: Severity)
    requires s.alert.None? && s.streak.None? && s.terms.None? && !s.pendingChange
    requires s.memory.Some? ==> Remembers(s.memory, atMs)
    ensures var r := Step(s, Sighting(atMs, severity)).slot;
            Building(r, atMs) && r.memory == s.memory
            && r.notified
               == if s.notified.Some? && atMs - s.notified.value.atMs <= QUIET_PERIOD_MS then s.notified else None
  {
    hide Score, Decide;
  }

  /** What the second of two sightings, three seconds apart, hands on to scoring. */
  lemma SecondSightingOpens(s: Slot, atMs: int, severity: Severity)
    requires Building(s, atMs - 3000) && s.memory.None? && s.notified.None?
    ensures var t := Sighting(atMs, severity);
            var ready := ReadyToScore(AfterAbsence(AfterCandidate(s, t), t).slot, t);
            && ready.alert.Some? && ready.alert.value.severity == severity && ready.alert.value.kind == "hog"
            && ready.alert.value.notifyGeneration == 0 && ready.guard.None? && ready.notified.None?
            && !ready.pendingChange
            && ready.terms.Some? && !ready.terms.value.materialChange && ready.terms.value.quality.notify
            && ready.terms.value.reopenedFromSeverity.None?
            && var q := InputsFor(ready.alert.value, ready.terms.value, ready.notified, t.context);
               q.baselineMaturity == 1.0 && q.attributionStable == Some(true)
               && q.sustainedWindowMs == 2000 && q.breachDurationMs == 3000
  {
  }

  lemma FirstTelling(s: Slot)
    requires Building(s, 0) && s.memory.None? && s.notified.None?
    ensures var r := Step(s, Sighting(3000, Warning)).slot;
            && r.alert.Some? && r.alert.value.severity == Warning && r.alert.value.notifyGeneration == 0
            && r.guard.None? && r.notified == Some(NotifyMemory(0, 3000))
  {
    hide Score, Lookup, Decide, AfterCandidate, AfterAbsence, ReadyToScore;
    var t := Sighting(3000, Warning);
    var ready := ReadyToScore(AfterAbsence(AfterCandidate(s, t), t).slot, t);
    SecondSightingOpens(s, 3000, Warning);
    var q := InputsFor(ready.alert.value, ready.terms.value, ready.notified, t.context);
    ScoreOf(q);
    NobodyRated("hog", Light);
    DecidesToTell(Warning, Score(q), PreviousFor(ready.terms.value, ready.notified, s.alert));
  }

  lemma FallsSilent(s: Slot, closeMs: int)
    requires s.alert.Some? && s.alert.value.severity == Warning && s.alert.value.notifyGeneration == 0 && s.guard.None?
    ensures var r := Step(s, Silence(closeMs)).slot;
            && r.alert.None? && r.streak.None? && r.terms.None? && !r.pendingChange && RemembersWarning(r, closeMs)
            && r.notified
               == if s.notified.Some? && closeMs - s.notified.value.atMs <= QUIET_PERIOD_MS then s.notified else None
  {
    hide Score, Decide;
  }

  lemma ReopensWorse(s: Slot, closeMs: int)
    requires Building(s, closeMs + 1000) && RemembersWarning(s, closeMs)
    ensures var a := Step(s, Sighting(closeMs + 4000, Critical)).slot.alert;
            && a.Some? && a.value.notify && a.value.severity == Critical
            && a.value.notifyGeneration == if s.notified.Some? then 1 else 0
  {
    hide Score, Lookup, Decide;
    var t := Sighting(closeMs + 4000, Critical);
    var ready := ReadyToScore(AfterAbsence(AfterCandidate(s, t), t).slot, t);
    var q := InputsFor(ready.alert.value, ready.terms.GetOr(NO_TERMS), ready.notified, t.context);
    ScoreOf(q);
    NobodyRated("hog", Light);
    DecidesToTell(Critical, Score(q), PreviousFor(ready.terms.value, ready.notified, s.alert));
  }

  lemma RunOneMore(s: Slot, ticks: seq<Tick>, t: Tick)
    ensures Run(s, ticks + [t]) == Step(Run(s, ticks), t).slot
  {
    assert (ticks + [t])[..|ticks|] == ticks;
  }

  /**
   * From nothing: the user is told of a warning at three seconds, it ends, and at once it is back as a critical one,
   * which notifies. Its generation moves if and only if the last sample before the reopening is at most a quiet period
   * after the telling; an incident that stayed open longer than that is never announced as having become worse.
   */
  lemma LongIncidentsEscalateUnannounced(closeMs: int)
    requires closeMs > 3000
    ensures var a := Run(BLANK, Escalation(closeMs)).alert;
            && a.Some? && a.value.notify && a.value.severity == Critical
            && a.value.notifyGeneration == if closeMs + 1000 - 3000 <= QUIET_PERIOD_MS then 1 else 0
  {
    var one := [Sighting(0, Warning)];
    var two := one + [Sighting(3000, Warning)];
    var three := two + [Silence(closeMs)];
    var four := three + [Sighting(closeMs + 1000, Critical)];
    RunOneMore(BLANK, [], Sighting(0, Warning));
    RunOneMore(BLANK, one, Sighting(3000, Warning));
    RunOneMore(BLANK, two, Silence(closeMs));
    RunOneMore(BLANK, three, Sighting(closeMs + 1000, Critical));
    RunOneMore(BLANK, four, Sighting(closeMs + 4000, Critical));
    assert [] + one == one && Run(BLANK, []) == BLANK;
    hide Step, Run, Building, Sighting;
    BreachBuilds(BLANK, 0, Warning);
    FirstTelling(Run(BLANK, one));
    FallsSilent(Run(BLANK, two), closeMs);
    BreachBuilds(Run(BLANK, three), closeMs + 1000, Critical);
    ReopensWorse(Run(BLANK, four), closeMs);
  }
}
