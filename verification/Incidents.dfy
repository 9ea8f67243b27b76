/**
 * The life of one incident: everything the alert engine remembers about a single fingerprint, and what
 * one evaluation does to it. The engine keeps a handful of maps keyed by fingerprint; AlertEngine shows
 * that they evolve exactly as independent copies of this machine.
 */
module Incidents {
  import opened Models
  import opened Quality
  import opened Trend

  const QUIET_PERIOD_MS := 6 * 3_600_000
  const GROWTH_PERSISTENCE_MS := 30 * 60_000

  // ------------------------------------------------------------ what is kept

  /** The hysteresis terms of an open incident. */
  datatype ExitGuard = ExitGuard(exitThreshold: real, holdMs: int)

  datatype CandidateQuality = CandidateQuality(attributionStable: Option<bool>, corroboratingSignals: nat,
                                               userImpactSignals: nat, notify: bool)

  const NO_EVIDENCE := CandidateQuality(None, 0, 0, true)

  datatype Terms = Terms(windowMs: Option<int>, breachSinceMs: Option<int>, materialChange: bool,
                         quality: CandidateQuality, reopenedFromSeverity: Option<Severity>)

  const NO_TERMS := Terms(None, None, false, NO_EVIDENCE, None)

  datatype NotifyMemory = NotifyMemory(generation: nat, atMs: int)

  datatype ResolvedIncident = ResolvedIncident(id: AlertId, resolvedAtMs: int, firstSeenMs: int,
                                               occurrenceCount: nat, notifyGeneration: nat, severity: Severity)

  datatype Slot = Slot(
    streak: Option<nat>,
    alert: Option<Alert>,
    guard: Option<ExitGuard>,
    belowExitSince: Option<int>,
    memory: Option<ResolvedIncident>,
    terms: Option<Terms>,
    notified: Option<NotifyMemory>,
    pendingChange: bool)

  // ----------------------------------------------------------- what comes in

  datatype Candidate = Candidate(key: Fingerprint, kind: string, severity: Severity, requiredSamples: nat,
                                 subject: Subject, evidence: seq<Evidence>, entry: Option<real>, exitRatio: real,
                                 materialChange: bool, quality: CandidateQuality)

  /** What every incident of one evaluation is judged under. */
  datatype Context = Context(nowMs: int, sampleIntervalMs: nat, sustainedSamples: nat, learning: bool,
                             baselineMaturity: real, demand: DemandBucket, offsets: PolicyOffsets)

  /**
   * One evaluation as a single incident sees it. `freshId` is the identifier the service would draw if
   * the incident opened anew; `refresh` is the DPC detector's standing word on its own evidence.
   */
  datatype Tick = Tick(context: Context, candidate: Option<Candidate>, reading: Option<real>,
                       shape: Option<TrendShape>, refresh: Option<CandidateQuality>, freshId: AlertId)

  // -------------------------------------------------------------- candidates

  function Remembers(memory: Option<ResolvedIncident>, nowMs: int): bool {
    memory.Some? && nowMs - memory.value.resolvedAtMs <= QUIET_PERIOD_MS
  }

  function Forget(s: Slot, nowMs: int): Slot {
    if Remembers(s.memory, nowMs) then s else s.(memory := None)
  }

  /** One full sustained window of a candidate, in milliseconds. */
  function WindowMs(c: Candidate, context: Context): int {
    c.requiredSamples * context.sampleIntervalMs
  }

  function BreachTerms(s: Slot, c: Candidate, context: Context): Terms {
    var terms := s.terms.GetOr(NO_TERMS);
    var first := SaturatingIncrement(s.streak.GetOr(0)) == 1;
    terms.(breachSinceMs := if first then Some(context.nowMs) else terms.breachSinceMs,
           windowMs := Some(WindowMs(c, context)),
           materialChange := c.materialChange,
           quality := c.quality)
  }

  function GuardFor(c: Candidate, context: Context): Option<ExitGuard> {
    match c.entry
    case None => None
    case Some(entry) => Some(ExitGuard(entry * c.exitRatio, WindowMs(c, context)))
  }

  function Updated(a: Alert, c: Candidate, nowMs: int): (r: Alert)
    ensures r.fingerprint == a.fingerprint
  {
    a.(lastSeenMs := nowMs,
       occurrenceCount := SaturatingIncrement(a.occurrenceCount),
       evidence := c.evidence,
       severity := c.severity)
  }

  /** A new alert: the continuation of a remembered incident, or one with the fresh identifier. */
  function Opened(prior: Option<ResolvedIncident>, c: Candidate, nowMs: int, freshId: AlertId): (r: Alert)
    ensures r.fingerprint == c.key
  {
    Alert(
      if prior.Some? then prior.value.id else freshId,
      c.kind,
      c.severity,
      if prior.Some? then prior.value.firstSeenMs else nowMs,
      nowMs,
      c.subject,
      c.evidence,
      false,
      if prior.Some? then SaturatingIncrement(prior.value.occurrenceCount) else 1,
      None,
      false,
      c.key,
      if prior.Some? then Reopened else Open,
      UNSCORED,
      false,
      if prior.Some? then prior.value.notifyGeneration else 0)
  }

  /** A candidate's sustained window is complete: the incident opens, reopens or is updated. */
  function Fire(s: Slot, c: Candidate, nowMs: int, freshId: AlertId): Slot {
    match s.alert
    case Some(a) => s.(alert := Some(Updated(a, c, nowMs)))
    case None =>
      var prior := if Remembers(s.memory, nowMs) then s.memory else None;
      var terms := s.terms.GetOr(NO_TERMS);
      s.(memory := None,
         terms := Some(if prior.Some? then terms.(reopenedFromSeverity := Some(prior.value.severity)) else terms),
         alert := Some(Opened(prior, c, nowMs, freshId)))
  }

  predicate Sustained(s: Slot, c: Candidate) {
    SaturatingIncrement(s.streak.GetOr(0)) >= c.requiredSamples
  }

  /** The condition is present again: any exit clock is void and the streak grows. */
  function Counted(s: Slot, c: Candidate, context: Context): Slot {
    s.(belowExitSince := None,
       streak := Some(SaturatingIncrement(s.streak.GetOr(0))),
       terms := Some(BreachTerms(s, c, context)))
  }

  /** One breaching sample. */
  function Breach(s: Slot, c: Candidate, context: Context, freshId: AlertId): Slot {
    if !Sustained(s, c) then Counted(s, c, context)
    else Fire(Counted(s, c, context).(guard := GuardFor(c, context)), c, context.nowMs, freshId)
  }

  // -------------------------------------------------------------- resolution

  datatype GrowthFate = AutoResolve | StaysOpen | Undecided

  function FateOf(shape: TrendShape): GrowthFate {
    match shape
    case Plateau => AutoResolve
    case Returning => AutoResolve
    case Monotonic(_) => StaysOpen
    case PartialRelease(_) => StaysOpen
    case Inconclusive => Undecided
  }

  /** A reading that keeps the incident open until it has stayed below the exit threshold for a full hold. */
  predicate Holding(s: Slot, reading: Option<real>) {
    s.guard.Some? && reading.Some?
  }

  function ExitClock(s: Slot, reading: real, nowMs: int): Option<int>
    requires s.guard.Some?
  {
    if reading >= s.guard.value.exitThreshold then None else Some(s.belowExitSince.GetOr(nowMs))
  }

  predicate Cleared(s: Slot, reading: Option<real>, nowMs: int) {
    Holding(s, reading) ==>
      var clock := ExitClock(s, reading.value, nowMs);
      clock.Some? && nowMs - clock.value >= s.guard.value.holdMs
  }

  function Closed(a: Alert, nowMs: int, silent: bool): (r: Alert)
    ensures r.fingerprint == a.fingerprint
  {
    a.(resolvedAtMs := Some(nowMs), state := Resolved, notify := a.notify && !silent)
  }

  function Remembered(a: Alert, nowMs: int): ResolvedIncident {
    ResolvedIncident(a.id, nowMs, a.firstSeenMs, a.occurrenceCount, a.notifyGeneration, a.severity)
  }

  function Close(s: Slot, nowMs: int): Slot
    requires s.alert.Some?
  {
    s.(alert := None, memory := Some(Remembered(s.alert.value, nowMs)), pendingChange := false,
       guard := None, belowExitSince := None, streak := None)
  }

  datatype Outcome = Outcome(slot: Slot, emitted: Option<Alert>)

  /** An open incident whose candidate is absent: it stays open, or it closes and is emitted resolved. */
  function Absence(s: Slot, shape: Option<TrendShape>, reading: Option<real>, nowMs: int): Outcome
    requires s.alert.Some?
  {
    var fate := if shape.Some? then FateOf(shape.value) else Undecided;
    match fate
    case StaysOpen => Outcome(s.(belowExitSince := None), None)
    case AutoResolve => Outcome(Close(s, nowMs), Some(Closed(s.alert.value, nowMs, true)))
    case Undecided =>
      if Cleared(s, reading, nowMs) then Outcome(Close(s, nowMs), Some(Closed(s.alert.value, nowMs, false)))
      else Outcome(s.(belowExitSince := ExitClock(s, reading.value, nowMs)), None)
  }

  // ----------------------------------------------------------------- scoring

  /** What survives to scoring: a record with neither a candidate nor an open incident is dropped. */
  function Retain(s: Slot, present: bool, nowMs: int): Slot {
    var kept := present || s.alert.Some?;
    s.(streak := if kept then s.streak else None,
       terms := if kept then s.terms else None,
       notified := if s.alert.Some? || (s.notified.Some? && nowMs - s.notified.value.atMs <= QUIET_PERIOD_MS)
                   then s.notified else None)
  }

  function Refreshed(s: Slot, refresh: Option<CandidateQuality>): Slot {
    if s.alert.Some? && refresh.Some?
    then s.(terms := Some(s.terms.GetOr(NO_TERMS).(quality := refresh.value)))
    else s
  }

  function InputsFor(a: Alert, terms: Terms, notified: Option<NotifyMemory>, context: Context): QualityInputs {
    QualityInputs(
      a.occurrenceCount,
      a.lastSeenMs,
      terms.windowMs.GetOr(context.sustainedSamples * context.sampleIntervalMs),
      context.nowMs - terms.breachSinceMs.GetOr(a.firstSeenMs),
      context.baselineMaturity,
      terms.quality.attributionStable,
      terms.quality.corroboratingSignals,
      terms.quality.userImpactSignals,
      if notified.Some? then Some(notified.value.atMs) else None)
  }

  function StandingOf(a: Alert): Standing {
    Standing(a.severity, a.notify)
  }

  /** What the policy compares against: for a reopen, the severity it was remembered at. */
  function PreviousFor(terms: Terms, notified: Option<NotifyMemory>, previous: Option<Alert>): Option<Standing> {
    if terms.reopenedFromSeverity.Some? then Some(Standing(terms.reopenedFromSeverity.value, notified.Some?))
    else if previous.Some? then Some(StandingOf(previous.value))
    else None
  }

  /** The decision, after the detector's own bar, which can only silence. */
  function Decision(s: Slot, quality: AlertQuality, previous: Option<Alert>, context: Context): NotifyDecision
    requires s.alert.Some?
  {
    var terms, a := s.terms.GetOr(NO_TERMS), s.alert.value;
    var decision := Decide(a.severity, quality, context.learning, PreviousFor(terms, s.notified, previous),
                           terms.materialChange || s.pendingChange, Lookup(context.offsets, a.kind, context.demand));
    if terms.quality.notify then decision else NotifyDecision(false, false)
  }

  function Marked(a: Alert, quality: AlertQuality, d: NotifyDecision): (r: Alert)
    ensures r.fingerprint == a.fingerprint
  {
    a.(quality := quality,
       notify := d.notify,
       notifyGeneration := if d.bumpGeneration then SaturatingIncrement(a.notifyGeneration) else a.notifyGeneration)
  }

  /** What a decision changes: the alert's marks, the latch, and what is remembered of notifying. */
  function Applied(s: Slot, quality: AlertQuality, d: NotifyDecision, nowMs: int): Slot
    requires s.alert.Some?
  {
    var a := Marked(s.alert.value, quality, d);
    s.(alert := Some(a),
       pendingChange := s.pendingChange && !d.bumpGeneration,
       terms := if d.notify && s.terms.Some? then Some(s.terms.value.(reopenedFromSeverity := None)) else s.terms,
       notified := if d.notify && (s.notified.None? || s.notified.value.generation != a.notifyGeneration)
                   then Some(NotifyMemory(a.notifyGeneration, nowMs)) else s.notified)
  }

  /** Score an open incident and apply the policy to it. */
  function Scored(s: Slot, previous: Option<Alert>, context: Context): Slot
    requires s.alert.Some?
  {
    var quality := Score(InputsFor(s.alert.value, s.terms.GetOr(NO_TERMS), s.notified, context));
    Applied(s, quality, Decision(s, quality, previous, context), context.nowMs)
  }

  function Settled(s: Slot): Slot {
    if s.terms.Some? then s.(terms := Some(s.terms.value.(materialChange := false))) else s
  }

  // -------------------------------------------------------------- evaluation

  function Breached(s: Slot, candidate: Option<Candidate>, context: Context, freshId: AlertId): Slot {
    if candidate.Some? then Breach(s, candidate.value, context, freshId) else s
  }

  function AfterCandidate(s: Slot, t: Tick): Slot {
    Breached(Forget(s, t.context.nowMs), t.candidate, t.context, t.freshId)
  }

  predicate Touched(s: Slot, t: Tick) {
    t.candidate.Some? && Sustained(s, t.candidate.value)
  }

  function Reconciled(s: Slot, present: bool, shape: Option<TrendShape>, reading: Option<real>, nowMs: int): Outcome {
    if !present && s.alert.Some? then Absence(s, shape, reading, nowMs) else Outcome(s, None)
  }

  function AfterAbsence(s: Slot, t: Tick): Outcome {
    Reconciled(s, t.candidate.Some?, t.shape, t.reading, t.context.nowMs)
  }

  function ReadyToScore(s: Slot, t: Tick): Slot {
    Refreshed(Retain(s, t.candidate.Some?, t.context.nowMs), t.refresh)
  }

  predicate Visible(before: Alert, after: Alert) {
    (before.quality, before.notify, before.notifyGeneration) != (after.quality, after.notify, after.notifyGeneration)
  }

  /** One evaluation of one fingerprint, with the record it sends to storage, if any. */
  function Step(s: Slot, t: Tick): Outcome {
    var reconciled := AfterAbsence(AfterCandidate(s, t), t);
    var ready := ReadyToScore(reconciled.slot, t);
    if ready.alert.None? then Outcome(Settled(ready), reconciled.emitted)
    else
      var scored := Scored(ready, s.alert, t.context);
      var shown := Touched(s, t) || Visible(ready.alert.value, scored.alert.value);
      Outcome(Settled(scored), if shown then scored.alert else None)
  }

  const BLANK := Slot(None, None, None, None, None, None, None, false)
}
