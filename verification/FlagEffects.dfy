/**
 * What acknowledging and archiving do to the evaluations that follow. An acknowledgement does nothing at all. An
 * archived incident no longer vouches for the user, and that reaches the DPC incident, and no other.
 */
module FlagEffects {
  import opened Models
  import opened Quality
  import opened Incidents
  import opened Lifecycle
  import opened Impact
  import opened Alerting
  import opened Rings
  import KernelPressure

  function BareRecord(a: Option<Alert>): Option<Alert> {
    FlaggedRecord(a, false, false)
  }

  /** Two outcomes that differ in nothing but an alert's flags. */
  predicate SameButFlags(o: Outcome, p: Outcome) {
    Flagged(o.slot, false, false) == Flagged(p.slot, false, false) && BareRecord(o.emitted) == BareRecord(p.emitted)
  }

  /** The same books, but for the flags of open alerts. */
  predicate Reflagged(b: Books, c: Books) {
    && c == b.(active := c.active) && c.active.Keys == b.active.Keys
    && forall k :: k in b.active ==> Bare(c.active[k]) == Bare(b.active[k])
  }

  predicate SameArchive(b: Books, c: Books) {
    forall k :: k in b.active && k in c.active ==> b.active[k].archived == c.active[k].archived
  }

  /** What an evaluation makes of one fingerprint. */
  function OutcomeAt(b: Books, interrupts: Interrupts, o: Observation, k: Fingerprint): Outcome {
    Step(At(b, k), TickFor(Judged(b.active, interrupts, o), k))
  }

  // ------------------------------------------------------------------ one tick

  lemma {:induction false} EvidenceReachesOnlyTheDpc(candidates: seq<Candidate>, evidence: CandidateQuality,
                                                     k: Fingerprint)
    ensures var found := CandidateFor(candidates, k);
            CandidateFor(AllWithEvidence(candidates, evidence), k)
            == if found.Some? && k == DPC_KEY then Some(found.value.(quality := evidence)) else found
  {
    if candidates != [] {
      var n := |candidates| - 1;
      EvidenceReachesOnlyTheDpc(candidates[..n], evidence, k);
      assert AllWithEvidence(candidates, evidence)[..n] == AllWithEvidence(candidates[..n], evidence);
    }
  }

  /** For every other fingerprint the tick is the same, whatever is open. */
  lemma SameTick(active: map<Fingerprint, Alert>, active': map<Fingerprint, Alert>, interrupts: Interrupts,
                 o: Observation, k: Fingerprint)
    ensures k != DPC_KEY || UserImpactSignals(active) == UserImpactSignals(active') ==>
              TickFor(Judged(active, interrupts, o), k) == TickFor(Judged(active', interrupts, o), k)
  {
    hide UserImpactSignals, DpcQuality;
    EvidenceReachesOnlyTheDpc(o.candidates, DpcEvidence(active, interrupts, o), k);
    EvidenceReachesOnlyTheDpc(o.candidates, DpcEvidence(active', interrupts, o), k);
  }

  /** A slot and the same slot otherwise flagged step alike. */
  lemma FlagsStepAlike(s: Slot, r: Slot, t: Tick)
    requires Flagged(s, false, false) == Flagged(r, false, false)
    ensures SameButFlags(Step(s, t), Step(r, t))
  {
    hide Step;
    if s.alert.Some? {
      FlagsAreInert(s, t, false, false);
      FlagsAreInert(r, t, false, false);
    }
  }

  lemma ReflaggedAt(b: Books, c: Books, k: Fingerprint)
    requires Reflagged(b, c)
    ensures Flagged(At(b, k), false, false) == Flagged(At(c, k), false, false)
  {
  }

  // ------------------------------------------------------------ acknowledgements

  lemma SameArchiveSameImpact(b: Books, c: Books)
    requires Reflagged(b, c) && SameArchive(b, c)
    ensures UserImpactSignals(b.active) == UserImpactSignals(c.active)
  {
    forall k | k in b.active
      ensures Vouches(b.active[k]) == Vouches(c.active[k])
    {
      assert Bare(b.active[k]).kind == Bare(c.active[k]).kind;
    }
    assert Vouching(b.active) == Vouching(c.active);
  }

  /** Whatever has been acknowledged, every fingerprint fares the same. */
  lemma AcknowledgingMattersToNobody(b: Books, c: Books, interrupts: Interrupts, o: Observation, k: Fingerprint)
    requires Reflagged(b, c) && SameArchive(b, c)
    ensures SameButFlags(OutcomeAt(b, interrupts, o, k), OutcomeAt(c, interrupts, o, k))
  {
    hide Step, At, TickFor, Judged;
    SameArchiveSameImpact(b, c);
    SameTick(b.active, c.active, interrupts, o, k);
    ReflaggedAt(b, c, k);
    FlagsStepAlike(At(b, k), At(c, k), TickFor(Judged(b.active, interrupts, o), k));
  }

  // ------------------------------------------------------------------- archiving

  /** The evidence a DPC tick carries is what is kept of the incident, if anything is. */
  lemma EvidenceIsKept(s: Slot, t: Tick, evidence: CandidateQuality)
    requires t.refresh == Some(evidence) && (t.candidate.Some? ==> t.candidate.value.quality == evidence)
    ensures t.candidate.Some? || Step(s, t).slot.alert.Some? ==>
              Step(s, t).slot.terms.Some? && Step(s, t).slot.terms.value.quality == evidence
  {
    hide Score, Decide, Lookup;
  }

  /** With no candidate to carry it, evidence only matters to an incident that stays open. */
  lemma EvidenceNeedsAnIncident(s: Slot, t: Tick, evidence: CandidateQuality)
    requires t.candidate.None?
    ensures Step(s, t.(refresh := Some(evidence))).slot.alert.Some? == Step(s, t).slot.alert.Some?
    ensures Step(s, t).slot.alert.None? ==> Step(s, t.(refresh := Some(evidence))) == Step(s, t)
  {
    hide Score, Decide, Lookup;
  }

  predicate Stands(b: Books, interrupts: Interrupts, o: Observation) {
    CandidateFor(o.candidates, DPC_KEY).Some? || OutcomeAt(b, interrupts, o, DPC_KEY).slot.alert.Some?
  }

  /**
   * Archiving and unarchiving open incidents changes nothing for any fingerprint but the DPC incident's; and for that
   * one exactly when the DPC finding is there to be judged and the number of incidents that vouch for the user changes.
   */
  lemma ArchivingConcernsOnlyTheDpc(b: Books, c: Books, interrupts: Interrupts, o: Observation, k: Fingerprint)
    requires Reflagged(b, c)
    ensures SameButFlags(OutcomeAt(b, interrupts, o, k), OutcomeAt(c, interrupts, o, k))
            <==> k == DPC_KEY && Stands(b, interrupts, o) ==> UserImpactSignals(b.active) == UserImpactSignals(c.active)
  {
    var t, t' := TickFor(Judged(b.active, interrupts, o), k), TickFor(Judged(c.active, interrupts, o), k);
    ReflaggedAt(b, c, k);
    FlagsStepAlike(At(b, k), At(c, k), t);
    if k != DPC_KEY || UserImpactSignals(b.active) == UserImpactSignals(c.active) {
      SameTick(b.active, c.active, interrupts, o, k);
    } else {
      var (e, e') := (DpcEvidence(b.active, interrupts, o), DpcEvidence(c.active, interrupts, o));
      EvidenceReachesOnlyTheDpc(o.candidates, e, k);
      EvidenceReachesOnlyTheDpc(o.candidates, e', k);
      assert e.userImpactSignals != e'.userImpactSignals;
      hide Step, At, UserImpactSignals, DpcEvidence;
      EvidenceIsKept(At(b, k), t, e);
      EvidenceIsKept(At(c, k), t', e');
      if t.candidate.None? {
        assert t' == t.(refresh := Some(e'));
        EvidenceNeedsAnIncident(At(c, k), t, e');
      }
    }
  }

  /**
   * The DPC incident is worth a notification only on what the engine can see: an attribution, or pressure that is
   * agreed with.
   */
  lemma DpcNotifiesOnEvidence(b: Books, interrupts: Interrupts, o: Observation)
    requires OutcomeAt(b, interrupts, o, DPC_KEY).slot.alert.Some?
    requires OutcomeAt(b, interrupts, o, DPC_KEY).slot.alert.value.notify
    ensures || IsAttributed(interrupts.verdict)
            || (KernelPressure.Sustained(o.pressure, o.context.nowMs, o.context.sampleIntervalMs)
                && (interrupts.corroboratingSignals >= 1 || exists j :: j in b.active && Vouches(b.active[j])))
  {
    var evidence := DpcEvidence(b.active, interrupts, o);
    EvidenceReachesOnlyTheDpc(o.candidates, evidence, DPC_KEY);
    OneVouches(b.active);
    hide UserImpactSignals, DpcQuality, At;
    VetoedIncidentsAreSilent(At(b, DPC_KEY), TickFor(Judged(b.active, interrupts, o), DPC_KEY), evidence);
    assert evidence.notify;
    hide Step, DpcEvidence;
    NotifyOfEvidence(UserImpactSignals(b.active), interrupts,
                     KernelPressure.Sustained(o.pressure, o.context.nowMs, o.context.sampleIntervalMs));
  }

  lemma NotifyOfEvidence(impacts: nat, interrupts: Interrupts, sustained: bool)
    ensures DpcQuality(impacts, interrupts, sustained).notify
            <==> IsAttributed(interrupts.verdict)
                 || (sustained && (interrupts.corroboratingSignals >= 1 || impacts >= 1))
  {
  }

  lemma VetoedIncidentsAreSilent(s: Slot, t: Tick, evidence: CandidateQuality)
    requires t.refresh == Some(evidence) && Step(s, t).slot.alert.Some? && Step(s, t).slot.alert.value.notify
    ensures evidence.notify
  {
    hide Score, Lookup;
  }

  // ------------------------------------------------------------------ a witness

  const HUNG := OfProcess("unresponsive", 7, 0)
  const MINUTE := 60_000

  function OpenAlert(key: Fingerprint, kind: string, severity: Severity, archived: bool): Alert {
    var subject := Subject(None, None, "", "", "");
    Alert("id of " + kind, kind, severity, 0, 0, subject, [], false, 10, None, archived, key, Open, UNSCORED, false, 0)
  }

  /** A quarter of an hour into a DPC finding that nothing is known about, with a hung window beside it. */
  function BesideAHungWindow(archived: bool): Books {
    var dpc := OpenAlert(DPC_KEY, "dpcInterrupt", Warning, false);
    var hung := OpenAlert(HUNG, "unresponsive", Warning, archived);
    var terms := Terms(Some(2 * MINUTE), Some(0), false, NO_EVIDENCE, None);
    Books(map[DPC_KEY := 15, HUNG := 15], map[DPC_KEY := dpc, HUNG := hung],
          map[DPC_KEY := ExitGuard(0.85, 2 * MINUTE)], map[], map[], map[DPC_KEY := terms, HUNG := NO_TERMS], map[],
          false)
  }

  /** Samples a minute apart, all above what the machine has learned, and a DPC rate between exit and entry. */
  function Parked(mint: Fingerprint -> AlertId): Observation {
    Observation(Context(15 * MINUTE, MINUTE, 2, false, 1.0, Light, NO_OFFSETS), [], map[DPC_KEY := 0.9], map[],
                KernelPressure.WindowOver(KernelPressure.Steady(0, 0, 15, MINUTE)), mint)
  }

  lemma PressureIsSustained(mint: Fingerprint -> AlertId)
    ensures var o := Parked(mint); KernelPressure.Sustained(o.pressure, o.context.nowMs, o.context.sampleIntervalMs)
  {
    KernelPressure.SteadyPressureOpensIff(0, 15, MINUTE);
    assert KernelPressure.Gap(15, MINUTE) == 15 * MINUTE;
  }

  lemma HungWindowVouches(archived: bool)
    ensures var active := BesideAHungWindow(archived).active;
            (exists k :: k in active && Vouches(active[k])) <==> !archived
  {
    var active := BesideAHungWindow(archived).active;
    assert HUNG in active && active[HUNG] == OpenAlert(HUNG, "unresponsive", Warning, archived);
    assert DPC_KEY in active && "dpcInterrupt"[0] == 'd' && !Vouches(active[DPC_KEY]);
  }

  /** Filing the hung window away takes the DPC incident's notification with it. */
  lemma ArchivingSilencesTheDpc(mint: Fingerprint -> AlertId)
    ensures var (o, nothing) := (Parked(mint), Interrupts(NoCapture, 0));
            var (shown, filed) := (OutcomeAt(BesideAHungWindow(false), nothing, o, DPC_KEY).slot,
                                   OutcomeAt(BesideAHungWindow(true), nothing, o, DPC_KEY).slot);
            && shown.alert.Some? && shown.alert.value.notify
            && filed.alert.Some? && !filed.alert.value.notify
  {
    hide UserImpactSignals, KernelPressure.Sustained;
    PressureIsSustained(mint);
    ParkedIsScored(false, mint);
    ParkedIsScored(true, mint);
    HungWindowVouches(false);
    HungWindowVouches(true);
    OneVouches(BesideAHungWindow(false).active);
    hide BesideAHungWindow, OutcomeAt, Parked;
    if OutcomeAt(BesideAHungWindow(true), Interrupts(NoCapture, 0), Parked(mint), DPC_KEY).slot.alert.value.notify {
      DpcNotifiesOnEvidence(BesideAHungWindow(true), Interrupts(NoCapture, 0), Parked(mint));
    }
  }

  lemma ParkedScore(q: QualityInputs)
    requires q.occurrenceCount == 10 && q.baselineMaturity == 1.0 && q.attributionStable.None?
    requires q.sustainedWindowMs == 2 * MINUTE && q.breachDurationMs == 15 * MINUTE
    ensures Score(q).persistence == 1.0 && Score(q).confidence == 0.8
  {
  }

  /** A parked finding stays open and is told of if its evidence allows. */
  lemma ParkedNotifies(s: Slot, t: Tick, evidence: CandidateQuality)
    requires s.alert.Some? && s.alert.value == OpenAlert(DPC_KEY, "dpcInterrupt", Warning, false)
    requires s.guard == Some(ExitGuard(0.85, 2 * MINUTE)) && s.belowExitSince.None? && s.memory.None?
    requires s.terms == Some(Terms(Some(2 * MINUTE), Some(0), false, NO_EVIDENCE, None))
    requires s.notified.None? && !s.pendingChange
    requires t.context == Context(15 * MINUTE, MINUTE, 2, false, 1.0, Light, NO_OFFSETS)
    requires t.candidate.None? && t.reading == Some(0.9) && t.shape.None? && t.refresh == Some(evidence)
    requires evidence.attributionStable.None?
    ensures Step(s, t).slot.alert.Some? && (evidence.notify ==> Step(s, t).slot.alert.value.notify)
  {
    hide Score;
    var ready := ReadyToScore(AfterAbsence(AfterCandidate(s, t), t).slot, t);
    ParkedScore(InputsFor(ready.alert.value, ready.terms.GetOr(NO_TERMS), ready.notified, t.context));
  }

  lemma ParkedIsScored(archived: bool, mint: Fingerprint -> AlertId)
    ensures var (b, o, nothing) := (BesideAHungWindow(archived), Parked(mint), Interrupts(NoCapture, 0));
            var slot := OutcomeAt(b, nothing, o, DPC_KEY).slot;
            && slot.alert.Some?
            && (DpcEvidence(b.active, nothing, o).notify ==> slot.alert.value.notify)
  {
    hide KernelPressure.Sustained, UserImpactSignals, Step;
    var b, o, nothing := BesideAHungWindow(archived), Parked(mint), Interrupts(NoCapture, 0);
    var evidence := DpcEvidence(b.active, nothing, o);
    EvidenceReachesOnlyTheDpc(o.candidates, evidence, DPC_KEY);
    ParkedNotifies(At(b, DPC_KEY), TickFor(Judged(b.active, nothing, o), DPC_KEY), evidence);
  }
}
