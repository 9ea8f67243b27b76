/**
 * How often a growth incident may be announced. Its severity only ever goes between informational and warning, and an
 * informational incident never notifies; so a stuttering shape bumps nothing while the incident stays open. Closing and
 * reopening may.
 */
module GrowthNotices {
  import opened Models
  import opened Quality
  import opened Trend
  import opened Incidents
  import opened Lifecycle
  import opened Notifications
  import opened GrowthLife

  /** What a growth detector may send: nothing critical, and no material change. */
  predicate Mild(t: Tick) {
    t.candidate.Some? ==> t.candidate.value.severity != Critical && !t.candidate.value.materialChange
  }

  /** Every growth tick that reports no material change is one. */
  lemma GrowthIsMild(t: Tick, climb: Option<int>)
    requires GrowthTick(t, climb) && (t.candidate.Some? ==> !t.candidate.value.materialChange)
    ensures Mild(t)
  {
  }

  /**
   * Where an open growth incident stands. It was opened at generation `start`, afresh or from an incident remembered at
   * severity `from`, with or without the memory of having told the user; and the user has or has not been told since.
   */
  predicate Episode(s: Slot, start: nat, from: Option<Severity>, remembered: bool, told: bool) {
    && s.alert.Some? && s.alert.value.severity != Critical && (s.alert.value.severity == Info ==> !s.alert.value.notify)
    && !s.pendingChange && s.terms.Some? && !s.terms.value.materialChange
    && if told then
         s.terms.value.reopenedFromSeverity.None?
         && s.alert.value.notifyGeneration
            == if from == Some(Info) && remembered then SaturatingIncrement(start) else start
       else
         !s.alert.value.notify && s.terms.value.reopenedFromSeverity == from && s.alert.value.notifyGeneration == start
         && (from.Some? ==> s.notified.Some? == remembered)
  }

  /** The same of an incident about to be scored, whatever it was marked before. */
  predicate Unscored(s: Slot, start: nat, from: Option<Severity>, remembered: bool, told: bool) {
    && s.alert.Some? && s.alert.value.severity != Critical
    && !s.pendingChange && s.terms.Some? && !s.terms.value.materialChange
    && if told then
         s.terms.value.reopenedFromSeverity.None?
         && s.alert.value.notifyGeneration
            == if from == Some(Info) && remembered then SaturatingIncrement(start) else start
       else
         s.terms.value.reopenedFromSeverity == from && s.alert.value.notifyGeneration == start
         && (from.Some? ==> s.notified.Some? == remembered)
  }

  lemma EpisodeIsReady(s: Slot, t: Tick, start: nat, from: Option<Severity>, remembered: bool, told: bool)
    requires Episode(s, start, from, remembered, told) && Step(s, t).slot.alert.Some? && Mild(t)
    ensures Unscored(ReadyToScore(AfterAbsence(AfterCandidate(s, t), t).slot, t), start, from, remembered, told)
  {
    hide Scored, Opened, Score, Cleared, ExitClock;
  }

  lemma EpisodeIsScored(ready: Slot, previous: Option<Alert>, context: Context, start: nat, from: Option<Severity>,
                        remembered: bool, told: bool)
    requires Unscored(ready, start, from, remembered, told)
    requires if told then previous.Some? && (previous.value.notify ==> previous.value.severity == Warning)
             else previous.Some? ==> !previous.value.notify
    ensures var r := Incidents.Settled(Scored(ready, previous, context));
            Episode(r, start, from, remembered, told || Notifies(r))
  {
    hide Score, Lookup;
  }

  lemma EpisodeGoesOn(s: Slot, t: Tick, start: nat, from: Option<Severity>, remembered: bool, told: bool)
    requires Episode(s, start, from, remembered, told) && Step(s, t).slot.alert.Some? && Mild(t)
    ensures Episode(Step(s, t).slot, start, from, remembered, told || Notifies(Step(s, t).slot))
  {
    hide Score, Lookup, Decide, Scored;
    EpisodeIsReady(s, t, start, from, remembered, told);
    var ready := ReadyToScore(AfterAbsence(AfterCandidate(s, t), t).slot, t);
    hide AfterCandidate, AfterAbsence, ReadyToScore;
    EpisodeIsScored(ready, s.alert, t.context, start, from, remembered, told);
  }

  /** What the episode that begins here begins from. */
  function Prior(s: Slot, nowMs: int): Option<ResolvedIncident> {
    if Remembers(s.memory, nowMs) then s.memory else None
  }

  function SeverityOf(prior: Option<ResolvedIncident>): Option<Severity> {
    if prior.Some? then Some(prior.value.severity) else None
  }

  lemma EpisodeBegins(s: Slot, t: Tick)
    requires Tidy(s) && s.alert.None? && !s.pendingChange && Step(s, t).slot.alert.Some? && Mild(t)
    ensures var (r, prior) := (Step(s, t).slot, Prior(s, t.context.nowMs));
            Episode(r, GenerationBefore(s, t.context.nowMs), SeverityOf(prior), s.notified.Some?, Notifies(r))
  {
    hide Score, Lookup, Decide, Scored;
    var ready := ReadyToScore(AfterAbsence(AfterCandidate(s, t), t).slot, t);
    BeginningIsReady(s, t);
    hide AfterCandidate, AfterAbsence, ReadyToScore;
    EpisodeIsScored(ready, s.alert, t.context, GenerationBefore(s, t.context.nowMs),
                    SeverityOf(Prior(s, t.context.nowMs)), s.notified.Some?, false);
  }

  lemma BeginningIsReady(s: Slot, t: Tick)
    requires Tidy(s) && s.alert.None? && !s.pendingChange && Step(s, t).slot.alert.Some? && Mild(t)
    ensures Unscored(ReadyToScore(AfterAbsence(AfterCandidate(s, t), t).slot, t), GenerationBefore(s, t.context.nowMs),
                     SeverityOf(Prior(s, t.context.nowMs)), s.notified.Some?, false)
  {
    hide Scored;
  }

  /**
   * From its opening for as long as it stays open, however its shape stutters: the generation of a growth incident
   * moves if and only if it was reopened from an incident that had closed as informational, the memory of having told
   * the user had survived until then, and it has come to notify since; and then it moves once.
   */
  lemma {:induction false} GrowthIsBumpedIff(s: Slot, first: Tick, ticks: seq<Tick>)
    requires Tidy(s) && s.alert.None? && !s.pendingChange && Mild(first) && forall t :: t in ticks ==> Mild(t)
    requires StaysOpenAlong(Step(s, first).slot, ticks)
    ensures var (start, prior) := (GenerationBefore(s, first.context.nowMs), Prior(s, first.context.nowMs));
            var told := Told(Step(s, first).slot, ticks);
            && Episode(Run(Step(s, first).slot, ticks), start, SeverityOf(prior), s.notified.Some?, told)
            && Run(Step(s, first).slot, ticks).alert.value.notifyGeneration
               == if told && s.notified.Some? && prior.Some? && prior.value.severity == Info
                  then SaturatingIncrement(start) else start
  {
    hide Step, Tidy;
    var opened' := Step(s, first).slot;
    if ticks == [] {
      EpisodeBegins(s, first);
    } else {
      var prefix, t := ticks[..|ticks| - 1], ticks[|ticks| - 1];
      assert forall u :: u in prefix ==> u in ticks;
      assert t in ticks;
      GrowthIsBumpedIff(s, first, prefix);
      EpisodeGoesOn(Run(opened', prefix), t, GenerationBefore(s, first.context.nowMs),
                    SeverityOf(Prior(s, first.context.nowMs)), s.notified.Some?, Told(opened', prefix));
    }
  }

  /**
   * From one open stretch to the next, on times alone. A growth incident closes, stays closed for a while, and reopens
   * within the quiet period of its closing. Its generation moves if and only if it had dropped back to informational
   * before it closed, the user had been told of it no longer than a quiet period before the last evaluation it was
   * closed in, and it comes to notify again.
   */
  lemma OneLeakIsToldTwiceIff(s: Slot, closed: seq<Tick>, first: Tick, ticks: seq<Tick>)
    requires Tidy(s) && s.alert.Some? && ClosedAlong(s, closed)
    requires EndOf(closed) <= first.context.nowMs <= closed[0].context.nowMs + QUIET_PERIOD_MS
    requires Mild(first) && forall t :: t in ticks ==> Mild(t)
    requires StaysOpenAlong(Step(Run(s, closed), first).slot, ticks)
    ensures var reopened := Step(Run(s, closed), first).slot;
            Run(reopened, ticks).alert.value.notifyGeneration
            == if s.alert.value.severity == Info && s.notified.Some?
                  && EndOf(closed) - s.notified.value.atMs <= QUIET_PERIOD_MS && Told(reopened, ticks)
               then SaturatingIncrement(s.alert.value.notifyGeneration)
               else s.alert.value.notifyGeneration
  {
    RunStaysTidy(s, closed);
    NotifyMemoryExpires(s, closed);
    ClosedStretchRemembers(s, closed);
    hide Step, Run, Tidy, Told, StaysOpenAlong;
    GrowthIsBumpedIff(Run(s, closed), first, ticks);
  }

  // ------------------------------------------------------------------ one such run

  const MINUTE := 60_000
  const LEAK := OfProcess("handleGrowth", 7, 0)

  /** A breaching sample of a climbing window, reported the way the detector reports one. */
  function Rise(nowMs: int, severity: Severity): Tick {
    var subject := Subject(None, None, "", "", "");
    Tick(ContextAt(nowMs), Some(Candidate(LEAK, "handleGrowth", severity, 2, subject, [], Some(500.0), 0.8, false,
                                          NO_EVIDENCE)),
         Some(600.0), Some(Monotonic(600.0)), None, "id")
  }

  /** A sample without a breach, and with another shape. */
  function Pause(nowMs: int, shape: TrendShape): Tick {
    Tick(ContextAt(nowMs), None, Some(200.0), Some(shape), None, "id")
  }

  lemma ClimbOneMore(ticks: seq<Tick>, t: Tick)
    ensures Climb(ticks + [t]) == ClimbAfter(Climb(ticks), t)
    ensures GrowthRun(ticks + [t]) <==> GrowthRun(ticks) && GrowthTick(t, Climb(ticks + [t]))
  {
    assert (ticks + [t])[..|ticks|] == ticks;
  }

  /** A breach half an hour old, on a machine that has learned its norms, is worth telling of once it is a warning. */
  lemma HalfAnHourIsEnough(q: QualityInputs, previous: Option<Standing>)
    requires q.baselineMaturity == 1.0 && q.attributionStable.None? && q.occurrenceCount >= 2
    requires q.sustainedWindowMs == 2000 && q.breachDurationMs == 30 * MINUTE
    ensures Decide(Warning, Score(q), false, previous, false, 0.0).notify
    ensures previous.Some? && !previous.value.notify ==>
              !Decide(Warning, Score(q), false, previous, false, 0.0).bumpGeneration
  {
    assert q.occurrenceCount as real / 10.0 >= 0.2;
  }

  /** An open leak whose breach began at some time. */
  predicate Leaking(s: Slot, severity: Severity, sinceMs: int) {
    && s.alert.Some? && s.alert.value.severity == severity && s.alert.value.kind == "handleGrowth"
    && s.alert.value.occurrenceCount >= 1 && (severity == Info ==> !s.alert.value.notify)
    && s.streak.Some? && s.streak.value >= 1 && !s.pendingChange
    && s.terms.Some? && s.terms.value.breachSinceMs == Some(sinceMs) && !s.terms.value.materialChange
  }

  /** The same, when the user was never told of it. */
  predicate Untold(s: Slot) {
    && s.alert.Some? && s.alert.value.notifyGeneration == 0 && s.notified.None?
    && s.terms.Some? && s.terms.value.reopenedFromSeverity.None?
  }

  lemma FirstRise(s: Slot, atMs: int)
    requires s.alert.None? && s.streak.None? && s.terms.None? && !s.pendingChange
    ensures var r := Step(s, Rise(atMs, Info)).slot;
            && r.alert.None? && r.streak == Some(1) && !r.pendingChange && r.memory == Forget(s, atMs).memory
            && r.terms.Some? && r.terms.value.breachSinceMs == Some(atMs) && !r.terms.value.materialChange
            && r.terms.value.reopenedFromSeverity.None?
            && (s.notified.None? ==> r.notified.None?)
  {
    hide Score, Decide;
  }

  lemma SecondRise(s: Slot, sinceMs: int, atMs: int)
    requires s.alert.None? && s.streak == Some(1) && !s.pendingChange && (s.memory.Some? ==> Remembers(s.memory, atMs))
    requires s.terms.Some? && s.terms.value.breachSinceMs == Some(sinceMs) && !s.terms.value.materialChange
    requires s.terms.value.reopenedFromSeverity.None?
    ensures Leaking(Step(s, Rise(atMs, Info)).slot, Info, sinceMs)
    ensures s.memory.None? && s.notified.None? ==> Untold(Step(s, Rise(atMs, Info)).slot)
  {
    hide Score, Lookup;
  }

  /** What a rise half an hour on hands to scoring. */
  lemma LongRiseIsReady(s: Slot, atMs: int)
    requires Leaking(s, Info, atMs - 30 * MINUTE)
    ensures var t := Rise(atMs, Warning);
            var ready := ReadyToScore(AfterAbsence(AfterCandidate(s, t), t).slot, t);
            && ready.alert.Some? && ready.alert.value.severity == Warning && ready.alert.value.kind == "handleGrowth"
            && ready.alert.value.notifyGeneration == s.alert.value.notifyGeneration
            && ready.alert.value.occurrenceCount >= 2 && ready.streak.Some? && ready.streak.value >= 1
            && !ready.pendingChange && ready.terms.Some? && !ready.terms.value.materialChange
            && ready.terms.value.breachSinceMs == s.terms.value.breachSinceMs
            && ready.terms.value.quality == NO_EVIDENCE && ready.terms.value.windowMs == Some(2000)
            && ready.terms.value.reopenedFromSeverity == s.terms.value.reopenedFromSeverity
            && ready.notified == s.notified
  {
    hide Score, Decide;
  }

  lemma LongRiseNotifies(s: Slot, atMs: int)
    requires Leaking(s, Info, atMs - 30 * MINUTE)
    ensures var r := Step(s, Rise(atMs, Warning)).slot;
            && Leaking(r, Warning, atMs - 30 * MINUTE) && r.alert.value.notify
            && (Untold(s) ==> r.alert.value.notifyGeneration == 0 && r.notified == Some(NotifyMemory(0, atMs))
                              && r.terms.value.reopenedFromSeverity.None?)
  {
    hide Score, Lookup, Decide, AfterCandidate, AfterAbsence, ReadyToScore;
    var t := Rise(atMs, Warning);
    var ready := ReadyToScore(AfterAbsence(AfterCandidate(s, t), t).slot, t);
    LongRiseIsReady(s, atMs);
    var q := InputsFor(ready.alert.value, ready.terms.value, ready.notified, t.context);
    HalfAnHourIsEnough(q, PreviousFor(ready.terms.value, ready.notified, s.alert));
    NobodyRated("handleGrowth", Light);
  }

  /** The shape breaks off, but the incident stays. */
  lemma Stutters(s: Slot, atMs: int, sinceMs: int)
    requires Tidy(s) && Leaking(s, Warning, sinceMs)
    ensures var r := Step(s, Pause(atMs, PartialRelease(100.0))).slot;
            && r.alert.Some? && r.streak.Some? && r.streak.value >= 1 && !r.pendingChange && r.terms.Some?
            && r.alert.value.occurrenceCount >= 1 && r.alert.value.kind == "handleGrowth"
            && (s.notified.Some? && s.notified.value.generation == s.alert.value.notifyGeneration == 0
                && s.terms.value.reopenedFromSeverity.None? && s.alert.value.notify ==>
                  r.notified == s.notified && r.alert.value.notifyGeneration == 0)
  {
    hide Score, Lookup;
  }

  /** Climbing again, it is informational again. */
  lemma RisesAgain(s: Slot, atMs: int)
    requires Tidy(s) && s.alert.Some? && s.streak.Some? && s.streak.value >= 1 && s.terms.Some? && !s.pendingChange
    requires s.alert.value.kind == "handleGrowth"
    ensures var r := Step(s, Rise(atMs, Info)).slot;
            && r.alert.Some? && r.alert.value.severity == Info && !r.alert.value.notify
            && r.alert.value.notifyGeneration == s.alert.value.notifyGeneration && r.notified == s.notified
  {
    hide Score, Lookup;
  }

  lemma Returns(s: Slot, atMs: int)
    requires s.alert.Some?
    ensures var r := Step(s, Pause(atMs, Returning)).slot;
            && r.alert.None? && r.streak.None? && r.terms.None? && !r.pendingChange
            && r.memory == Some(Remembered(s.alert.value, atMs))
  {
    hide Score, Decide;
  }

  /** Told of at thirty minutes, and informational again at thirty-two. */
  lemma ToldOnce(r: seq<Slot>)
    requires |r| == 6 && r[0] == BLANK && r[1] == Step(r[0], Rise(0, Info)).slot
             && r[2] == Step(r[1], Rise(MINUTE, Info)).slot
    requires r[3] == Step(r[2], Rise(30 * MINUTE, Warning)).slot
    requires r[4] == Step(r[3], Pause(31 * MINUTE, PartialRelease(100.0))).slot
    requires r[5] == Step(r[4], Rise(32 * MINUTE, Info)).slot
    ensures r[3].alert.Some? && r[3].alert.value.notify && r[3].alert.value.notifyGeneration == 0
    ensures r[5].alert.Some? && r[5].alert.value.severity == Info && r[5].alert.value.notifyGeneration == 0
    ensures r[5].notified == Some(NotifyMemory(0, 30 * MINUTE)) && Tidy(r[5])
  {
    hide Step, Rise, Pause;
    FirstRise(r[0], 0);
    SecondRise(r[1], 0, MINUTE);
    LongRiseNotifies(r[2], 30 * MINUTE);
    StepKeepsTidy(r[0], Rise(0, Info));
    StepKeepsTidy(r[1], Rise(MINUTE, Info));
    StepKeepsTidy(r[2], Rise(30 * MINUTE, Warning));
    Stutters(r[3], 31 * MINUTE, 0);
    StepKeepsTidy(r[3], Pause(31 * MINUTE, PartialRelease(100.0)));
    RisesAgain(r[4], 32 * MINUTE);
    StepKeepsTidy(r[4], Rise(32 * MINUTE, Info));
  }

  lemma AlongTwo(s: Slot, t: Tick, u: Tick)
    ensures Run(s, [t]) == Step(s, t).slot && Run(s, [t, u]) == Step(Step(s, t).slot, u).slot
  {
    RunOneMore(s, [], t);
    RunOneMore(s, [t], u);
    assert [] + [t] == [t] && [t] + [u] == [t, u];
  }

  lemma AlongOne(s: Slot, t: Tick)
    ensures Told(s, [t]) <==> Notifies(s) || Notifies(Step(s, t).slot)
    ensures StaysOpenAlong(s, [t]) <==> s.alert.Some? && Step(s, t).slot.alert.Some?
  {
    assert [t][..0] == [];
    RunOneMore(s, [], t);
    assert [] + [t] == [t];
  }

  /** Closed at thirty-three, it is climbing again at thirty-four. */
  lemma ToldAgain(s: Slot)
    requires Tidy(s) && s.alert.Some? && s.alert.value.severity == Info && s.alert.value.notifyGeneration == 0
    requires s.notified == Some(NotifyMemory(0, 30 * MINUTE))
    ensures var closed := Run(s, [Pause(33 * MINUTE, Returning), Rise(34 * MINUTE, Info)]);
            var a := Step(Step(closed, Rise(35 * MINUTE, Info)).slot, Rise(64 * MINUTE, Warning)).slot.alert;
            a.Some? && a.value.notify && a.value.notifyGeneration == 1
  {
    hide Step, Run, Tidy, Rise, Pause;
    var t, u := Pause(33 * MINUTE, Returning), Rise(34 * MINUTE, Info);
    var first, last := Rise(35 * MINUTE, Info), Rise(64 * MINUTE, Warning);
    AlongTwo(s, t, u);
    Returns(s, 33 * MINUTE);
    FirstRise(Step(s, t).slot, 34 * MINUTE);
    var closed := Run(s, [t, u]);
    SecondRise(closed, 34 * MINUTE, 35 * MINUTE);
    var reopened := Step(closed, first).slot;
    LongRiseNotifies(reopened, 64 * MINUTE);
    AlongOne(reopened, last);
    AlongTwo(reopened, last, last);
    TheyAreMild();
    ClosedForTwo(s, t, u);
    OneLeakIsToldTwiceIff(s, [t, u], first, [last]);
  }

  lemma ClosedForTwo(s: Slot, t: Tick, u: Tick)
    requires Step(s, t).slot.alert.None? && Step(Step(s, t).slot, u).slot.alert.None?
    requires t.context.nowMs <= u.context.nowMs
    ensures ClosedAlong(s, [t, u])
  {
    hide Step;
    AlongTwo(s, t, u);
    assert [t, u][..1] == [t];
  }

  lemma TheyAreMild()
    ensures Mild(Rise(35 * MINUTE, Info)) && Mild(Rise(64 * MINUTE, Warning))
    ensures Rise(34 * MINUTE, Info).context.nowMs == 34 * MINUTE && Rise(35 * MINUTE, Info).context.nowMs == 35 * MINUTE
    ensures Pause(33 * MINUTE, Returning).context.nowMs == 33 * MINUTE
  {
  }

  predicate IsLeak(t: seq<Tick>) {
    && |t| == 9 && t[0] == Rise(0, Info) && t[1] == Rise(MINUTE, Info) && t[2] == Rise(30 * MINUTE, Warning)
    && t[3] == Pause(31 * MINUTE, PartialRelease(100.0)) && t[4] == Rise(32 * MINUTE, Info)
    && t[5] == Pause(33 * MINUTE, Returning) && t[6] == Rise(34 * MINUTE, Info)
    && t[7] == Rise(35 * MINUTE, Info) && t[8] == Rise(64 * MINUTE, Warning)
  }

  /** What the detector promises of each tick. */
  lemma LeakGrows(t: seq<Tick>)
    requires IsLeak(t)
    ensures GrowthRun(t) && forall u :: u in t ==> Mild(u)
  {
    hide GrowthRun, Climb;
    NoClimbYet();
    Upto(t);
    ClimbOneMore([], t[0]);
    ClimbOneMore(t[..1], t[1]);
    ClimbOneMore(t[..2], t[2]);
    ClimbOneMore(t[..3], t[3]);
    ClimbOneMore(t[..4], t[4]);
    ClimbOneMore(t[..5], t[5]);
    ClimbOneMore(t[..6], t[6]);
    ClimbOneMore(t[..7], t[7]);
    ClimbOneMore(t[..8], t[8]);
  }

  lemma NoClimbYet()
    ensures Climb([]) == None && GrowthRun([])
  {
  }

  lemma Upto<T>(t: seq<T>)
    requires |t| == 9
    ensures t[..1] == [] + [t[0]] && t[..2] == t[..1] + [t[1]] && t[..3] == t[..2] + [t[2]] && t[..4] == t[..3] + [t[3]]
    ensures t[..5] == t[..4] + [t[4]] && t[..6] == t[..5] + [t[5]] && t[..7] == t[..6] + [t[6]]
    ensures t[..8] == t[..7] + [t[7]] && t == t[..8] + [t[8]]
  {
  }

  lemma NothingHasRun()
    ensures Run(BLANK, []) == BLANK
  {
  }

  lemma LeakRuns(t: seq<Tick>)
    requires IsLeak(t)
    ensures var a := Run(BLANK, t[..3]).alert; a.Some? && a.value.notify && a.value.notifyGeneration == 0
    ensures var a := Run(BLANK, t).alert; a.Some? && a.value.notify && a.value.notifyGeneration == 1
  {
    hide Step, Run, Rise, Pause, Tidy;
    Upto(t);
    NothingHasRun();
    RunOneMore(BLANK, [], t[0]);
    RunOneMore(BLANK, t[..1], t[1]);
    RunOneMore(BLANK, t[..2], t[2]);
    RunOneMore(BLANK, t[..3], t[3]);
    RunOneMore(BLANK, t[..4], t[4]);
    RunOneMore(BLANK, t[..5], t[5]);
    RunOneMore(BLANK, t[..6], t[6]);
    RunOneMore(BLANK, t[..7], t[7]);
    RunOneMore(BLANK, t[..8], t[8]);
    ToldOnce([BLANK, Run(BLANK, t[..1]), Run(BLANK, t[..2]), Run(BLANK, t[..3]), Run(BLANK, t[..4]),
              Run(BLANK, t[..5])]);
    AlongTwo(Run(BLANK, t[..5]), t[5], t[6]);
    ToldAgain(Run(BLANK, t[..5]));
  }

  /**
   * From nothing: a leak is told of after half an hour, stutters, dips, and is closed as informational; within two
   * minutes it climbs again, reopens, and half an hour on it is told of a second time.
   */
  lemma OneLeakIsToldTwice() returns (t: seq<Tick>)
    ensures |t| == 9 && GrowthRun(t) && forall u :: u in t ==> Mild(u)
    ensures var a := Run(BLANK, t[..3]).alert; a.Some? && a.value.notify && a.value.notifyGeneration == 0
    ensures var a := Run(BLANK, t).alert; a.Some? && a.value.notify && a.value.notifyGeneration == 1
  {
    hide Run, Rise, Pause, GrowthRun;
    t := [Rise(0, Info), Rise(MINUTE, Info), Rise(30 * MINUTE, Warning), Pause(31 * MINUTE, PartialRelease(100.0)),
          Rise(32 * MINUTE, Info), Pause(33 * MINUTE, Returning), Rise(34 * MINUTE, Info), Rise(35 * MINUTE, Info),
          Rise(64 * MINUTE, Warning)];
    assert IsLeak(t);
    LeakGrows(t);
    LeakRuns(t);
  }
}
