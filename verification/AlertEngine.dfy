/**
 * The alert engine: a handful of maps keyed by fingerprint, evaluated together. Every method is proved
 * against the single-fingerprint machine of Incidents, so fingerprints never interfere.
 */
module Alerting {
  import opened Models
  import opened Trend
  import opened Quality
  import opened Incidents
  import opened Lifecycle
  import opened Impact
  import KernelPressure

  /** Everything one evaluation is given, for all fingerprints at once. */
  datatype Sample = Sample(
    context: Context,
    candidates: seq<Candidate>,
    readings: map<Fingerprint, real>,
    shapes: map<Fingerprint, TrendShape>,
    dpcQuality: CandidateQuality,
    mint: Fingerprint -> AlertId)

  /**
   * What the collectors and detectors bring to one evaluation, before the engine adds what it knows of the DPC finding.
   */
  datatype Observation = Observation(
    context: Context,
    candidates: seq<Candidate>,
    readings: map<Fingerprint, real>,
    shapes: map<Fingerprint, TrendShape>,
    pressure: seq<KernelPressure.Reading>,
    mint: Fingerprint -> AlertId)

  function DpcEvidence(active: map<Fingerprint, Alert>, interrupts: Interrupts, o: Observation): CandidateQuality {
    DpcQuality(UserImpactSignals(active), interrupts,
               KernelPressure.Sustained(o.pressure, o.context.nowMs, o.context.sampleIntervalMs))
  }

  function WithEvidence(c: Candidate, evidence: CandidateQuality): Candidate {
    if c.key == DPC_KEY then c.(quality := evidence) else c
  }

  function AllWithEvidence(candidates: seq<Candidate>, evidence: CandidateQuality): (r: seq<Candidate>)
    ensures |r| == |candidates|
    ensures forall i :: 0 <= i < |r| ==> r[i] == WithEvidence(candidates[i], evidence)
  {
    seq(|candidates|, i requires 0 <= i < |candidates| => WithEvidence(candidates[i], evidence))
  }

  /** The observation with the DPC finding's evidence filled in from the open incidents. */
  function Judged(active: map<Fingerprint, Alert>, interrupts: Interrupts, o: Observation): Sample {
    var evidence := DpcEvidence(active, interrupts, o);
    Sample(o.context, AllWithEvidence(o.candidates, evidence), o.readings, o.shapes, evidence, o.mint)
  }

  /** The engine's maps as one value. */
  datatype Books = Books(
    streaks: map<Fingerprint, nat>,
    active: map<Fingerprint, Alert>,
    guards: map<Fingerprint, ExitGuard>,
    belowExitSince: map<Fingerprint, int>,
    resolvedMemory: map<Fingerprint, ResolvedIncident>,
    calibrations: map<Fingerprint, Terms>,
    notifyMemory: map<Fingerprint, NotifyMemory>,
    pendingVerdictChange: bool)

  /** What the maps hold for one fingerprint; the verdict latch belongs to the DPC incident. */
  function At(b: Books, k: Fingerprint): Slot {
    Slot(Get(b.streaks, k), Get(b.active, k), Get(b.guards, k), Get(b.belowExitSince, k), Get(b.resolvedMemory, k),
         Get(b.calibrations, k), Get(b.notifyMemory, k), k == DPC_KEY && b.pendingVerdictChange)
  }

  predicate UniqueKeys(candidates: seq<Candidate>) {
    forall i, j :: 0 <= i < j < |candidates| ==> candidates[i].key != candidates[j].key
  }

  function CandidateFor(candidates: seq<Candidate>, k: Fingerprint): Option<Candidate> {
    if candidates == [] then None
    else
      var n := |candidates| - 1;
      if candidates[n].key == k then Some(candidates[n]) else CandidateFor(candidates[..n], k)
  }

  lemma {:induction false} CandidateForIsTheOne(candidates: seq<Candidate>, k: Fingerprint)
    requires UniqueKeys(candidates)
    ensures CandidateFor(candidates, k).Some? <==> exists c :: c in candidates && c.key == k
    ensures CandidateFor(candidates, k).Some? ==>
              CandidateFor(candidates, k).value in candidates && CandidateFor(candidates, k).value.key == k
  {
    if candidates != [] {
      var n := |candidates| - 1;
      CandidateForIsTheOne(candidates[..n], k);
      assert candidates == candidates[..n] + [candidates[n]];
    }
  }

  function TickFor(sample: Sample, k: Fingerprint): Tick {
    Tick(sample.context, CandidateFor(sample.candidates, k), Get(sample.readings, k), Get(sample.shapes, k),
         if k == DPC_KEY then Some(sample.dpcQuality) else None, sample.mint(k))
  }

  predicate Keyed(active: map<Fingerprint, Alert>) {
    forall k :: k in active ==> active[k].fingerprint == k
  }

  /** The whole evaluation: every fingerprint steps on its own. */
  ghost predicate Evaluated(before: Books, sample: Sample, after: Books) {
    forall k :: At(after, k) == Step(At(before, k), TickFor(sample, k)).slot
  }

  /** A sequence holding each fingerprint's record, when it has one, exactly once and nothing else. */
  ghost predicate Collects(out: seq<Alert>, record: Fingerprint -> Option<Alert>) {
    && (forall k :: record(k).Some? ==> record(k).value in out)
    && (forall a :: a in out ==> record(a.fingerprint) == Some(a))
    && (forall i, j :: 0 <= i < j < |out| ==> out[i].fingerprint != out[j].fingerprint)
  }

  /** The same, for the fingerprints visited so far. */
  ghost predicate Collected(out: seq<Alert>, visited: set<Fingerprint>, record: Fingerprint -> Option<Alert>) {
    && (forall k :: k in visited && record(k).Some? ==> record(k).value in out)
    && (forall a :: a in out ==> a.fingerprint in visited && record(a.fingerprint) == Some(a))
    && (forall i, j :: 0 <= i < j < |out| ==> out[i].fingerprint != out[j].fingerprint)
  }

  lemma CollectOne(out: seq<Alert>, visited: set<Fingerprint>, key: Fingerprint, record: Fingerprint -> Option<Alert>)
    requires Collected(out, visited, record) && key !in visited
    requires record(key).Some? ==> record(key).value.fingerprint == key
    ensures record(key).None? ==> Collected(out, visited + {key}, record)
    ensures record(key).Some? ==> Collected(out + [record(key).value], visited + {key}, record)
  {
  }

  /** A pass over the maps, part way: what is still waiting is as it was, the rest is where it should be. */
  ghost predicate PartWay(now: Books, before: Books, waiting: set<Fingerprint>, target: Fingerprint -> Slot) {
    forall k :: At(now, k) == if k in waiting then At(before, k) else target(k)
  }

  lemma PartWayAt(now: Books, before: Books, waiting: set<Fingerprint>, target: Fingerprint -> Slot, key: Fingerprint)
    requires PartWay(now, before, waiting, target) && key in waiting
    ensures At(now, key) == At(before, key)
  {
  }

  lemma PartWayOn(now: Books, next: Books, before: Books, waiting: set<Fingerprint>, target: Fingerprint -> Slot,
                  key: Fingerprint)
    requires PartWay(now, before, waiting, target) && key in waiting
    requires At(next, key) == target(key) && forall k :: k != key ==> At(next, k) == At(now, k)
    ensures PartWay(next, before, waiting - {key}, target)
  {
  }

  lemma PartWayDone(now: Books, before: Books, target: Fingerprint -> Slot)
    requires PartWay(now, before, {}, target)
    ensures forall k :: At(now, k) == target(k)
  {
  }

  lemma NothingCollected(record: Fingerprint -> Option<Alert>)
    ensures Collected([], {}, record)
  {
  }

  lemma CollectedAll(out: seq<Alert>, visited: set<Fingerprint>, record: Fingerprint -> Option<Alert>)
    requires Collected(out, visited, record)
    requires forall k :: k !in visited ==> record(k).None?
    ensures Collects(out, record)
  {
  }

  function EmittedAt(before: Books, sample: Sample, k: Fingerprint): Option<Alert> {
    Step(At(before, k), TickFor(sample, k)).emitted
  }

  /** What is sent to storage: each fingerprint's record, once, and nothing else. */
  ghost predicate Delivers(before: Books, sample: Sample, changed: seq<Alert>) {
    && (forall k :: EmittedAt(before, sample, k).Some? ==> EmittedAt(before, sample, k).value in changed)
    && (forall a :: a in changed ==> EmittedAt(before, sample, a.fingerprint) == Some(a))
    && (forall i, j :: 0 <= i < j < |changed| ==> changed[i].fingerprint != changed[j].fingerprint)
  }

  /** A user's flag on the open alert with an identifier: it changes that alert and returns it, or nothing. */
  ghost predicate UserFlag(before: map<Fingerprint, Alert>, id: AlertId, flag: Alert -> Alert,
                           after: map<Fingerprint, Alert>, out: Option<Alert>)
  {
    if out.None? then after == before && forall k :: k in before ==> before[k].id != id
    else exists k :: k in before && before[k].id == id
                     && out.value == flag(before[k]) && after == before[k := out.value]
  }

  function ReconciledAt(b: Books, present: set<Fingerprint>, shapes: map<Fingerprint, TrendShape>,
                        readings: map<Fingerprint, real>, nowMs: int, k: Fingerprint): Outcome
  {
    Reconciled(At(b, k), k in present, Get(shapes, k), Get(readings, k), nowMs)
  }

  function ReadyAt(b: Books, present: set<Fingerprint>, nowMs: int, dpcQuality: CandidateQuality,
                   k: Fingerprint): Slot {
    Refreshed(Retain(At(b, k), k in present, nowMs), if k == DPC_KEY then Some(dpcQuality) else None)
  }

  function ScoredAt(b: Books, context: Context, previous: map<Fingerprint, Alert>, k: Fingerprint): Slot {
    if At(b, k).alert.Some? then Scored(At(b, k), Get(previous, k), context) else At(b, k)
  }

  /** The updated alert of a fingerprint, when this evaluation touched it or its scoring shows. */
  function ShownAt(b: Books, context: Context, previous: map<Fingerprint, Alert>, touched: set<Fingerprint>,
                   k: Fingerprint): Option<Alert>
  {
    var after := ScoredAt(b, context, previous, k);
    if after.alert.Some? && At(b, k).alert.Some? && (k in touched || Visible(At(b, k).alert.value, after.alert.value))
    then after.alert else None
  }

  function SeededFrom(a: Alert): ResolvedIncident {
    ResolvedIncident(a.id, a.resolvedAtMs.GetOr(a.lastSeenMs), a.firstSeenMs, a.occurrenceCount,
                     a.notifyGeneration, a.severity)
  }

  /** The remembered incident of a fingerprint: the latest resolution, the later entry on a tie. */
  function LatestOf(seed: seq<Alert>, k: Fingerprint): Option<ResolvedIncident> {
    if seed == [] then None
    else
      var n := |seed| - 1;
      var earlier := LatestOf(seed[..n], k);
      if seed[n].fingerprint != k then earlier
      else if earlier.Some? && earlier.value.resolvedAtMs > SeededFrom(seed[n]).resolvedAtMs then earlier
      else Some(SeededFrom(seed[n]))
  }

  lemma LatestOfNext(seed: seq<Alert>, i: nat, k: Fingerprint)
    requires i < |seed|
    ensures var (earlier, next) := (LatestOf(seed[..i], k), SeededFrom(seed[i]));
            LatestOf(seed[..i + 1], k)
            == if seed[i].fingerprint != k || (earlier.Some? && earlier.value.resolvedAtMs > next.resolvedAtMs)
               then earlier else Some(next)
  {
    assert seed[..i + 1][..i] == seed[..i];
  }

  function Either<T>(first: Option<T>, second: Option<T>): Option<T> {
    if first.Some? then first else second
  }

  // The phases of one evaluation, as relations between the maps before and after each.

  function Pruned(b: Books, nowMs: int): Books {
    b.(resolvedMemory := map k | k in b.resolvedMemory && nowMs - b.resolvedMemory[k].resolvedAtMs <= QUIET_PERIOD_MS
      :: b.resolvedMemory[k])
  }

  ghost predicate BreachedAll(b: Books, sample: Sample, after: Books) {
    forall k :: At(after, k) == Breached(At(b, k), CandidateFor(sample.candidates, k), sample.context, sample.mint(k))
  }

  ghost predicate AreTouched(touched: set<Fingerprint>, b: Books, sample: Sample) {
    forall k :: k in touched <==> CandidateFor(sample.candidates, k).Some?
                                  && Sustained(At(b, k), CandidateFor(sample.candidates, k).value)
  }

  ghost predicate ReconciledAll(b: Books, present: set<Fingerprint>, shapes: map<Fingerprint, TrendShape>,
                                readings: map<Fingerprint, real>, nowMs: int, after: Books)
  {
    forall k :: At(after, k) == ReconciledAt(b, present, shapes, readings, nowMs, k).slot
  }

  ghost predicate ReadyAll(b: Books, present: set<Fingerprint>, nowMs: int, dpcQuality: CandidateQuality,
                           after: Books) {
    forall k :: At(after, k) == ReadyAt(b, present, nowMs, dpcQuality, k)
  }

  ghost predicate ScoredAll(b: Books, context: Context, previous: map<Fingerprint, Alert>, after: Books) {
    forall k :: At(after, k) == ScoredAt(b, context, previous, k)
  }

  ghost predicate CollectsClosed(out: seq<Alert>, b: Books, present: set<Fingerprint>,
                                 shapes: map<Fingerprint, TrendShape>, readings: map<Fingerprint, real>, nowMs: int)
  {
    Collects(out, (k: Fingerprint) => ReconciledAt(b, present, shapes, readings, nowMs, k).emitted)
  }

  ghost predicate CollectsShown(out: seq<Alert>, b: Books, context: Context, previous: map<Fingerprint, Alert>,
                                touched: set<Fingerprint>)
  {
    Collects(out, k => ShownAt(b, context, previous, touched, k))
  }

  datatype Phases = Phases(before: Books, pruned: Books, breached: Books, reconciled: Books, ready: Books,
                           scored: Books, after: Books)

  ghost predicate Phased(p: Phases, sample: Sample, present: set<Fingerprint>, readings: map<Fingerprint, real>,
                         touched: set<Fingerprint>)
  {
    var nowMs := sample.context.nowMs;
    && (forall k :: k in present <==> exists c :: c in sample.candidates && c.key == k)
    && readings == (if |p.before.active| > 0 then sample.readings else map[])
    && p.pruned == Pruned(p.before, nowMs)
    && BreachedAll(p.pruned, sample, p.breached) && AreTouched(touched, p.pruned, sample)
    && ReconciledAll(p.breached, present, sample.shapes, readings, nowMs, p.reconciled)
    && ReadyAll(p.reconciled, present, nowMs, sample.dpcQuality, p.ready)
    && ScoredAll(p.ready, sample.context, p.before.active, p.scored)
    && p.after == p.scored.(calibrations := map k | k in p.scored.calibrations ::
                                              p.scored.calibrations[k].(materialChange := false))
  }

  /** Nothing happens to a fingerprint that is not open, or whose candidate is present. */
  lemma PresentStayPut(b: Books, present: set<Fingerprint>, shapes: map<Fingerprint, TrendShape>,
                       readings: map<Fingerprint, real>, nowMs: int,
                       target: Fingerprint -> Slot, record: Fingerprint -> Option<Alert>)
    requires forall k :: target(k) == ReconciledAt(b, present, shapes, readings, nowMs, k).slot
    requires forall k :: record(k) == ReconciledAt(b, present, shapes, readings, nowMs, k).emitted
    ensures PartWay(b, b, b.active.Keys - present, target)
    ensures forall k :: k !in b.active.Keys - present ==> record(k).None?
  {
    hide Absence;
  }

  lemma ClosedStayPut(b: Books, context: Context, previous: map<Fingerprint, Alert>, touched: set<Fingerprint>,
                      target: Fingerprint -> Slot, record: Fingerprint -> Option<Alert>)
    requires forall k :: target(k) == ScoredAt(b, context, previous, k)
    requires forall k :: record(k) == ShownAt(b, context, previous, touched, k)
    ensures PartWay(b, b, b.active.Keys, target)
    ensures forall k :: k !in b.active ==> record(k).None?
  {
    hide Scored;
  }

  lemma OpenIsScored(b: Books, context: Context, previous: map<Fingerprint, Alert>, touched: set<Fingerprint>,
                     k: Fingerprint)
    requires k in b.active
    ensures At(b, k).alert == Some(b.active[k])
    ensures ScoredAt(b, context, previous, k) == Scored(At(b, k), Get(previous, k), context)
    ensures var a := Scored(At(b, k), Get(previous, k), context).alert;
            ShownAt(b, context, previous, touched, k)
            == if a.Some? && (k in touched || Visible(b.active[k], a.value)) then a else None
  {
    hide Scored;
  }

  lemma AbsentIsReconciled(b: Books, present: set<Fingerprint>, shapes: map<Fingerprint, TrendShape>,
                           readings: map<Fingerprint, real>, nowMs: int, k: Fingerprint)
    requires k in b.active && k !in present
    ensures At(b, k).alert.Some?
    ensures ReconciledAt(b, present, shapes, readings, nowMs, k)
            == Absence(At(b, k), Get(shapes, k), Get(readings, k), nowMs)
  {
  }

  /** The phases of an evaluation, run one after the other on one fingerprint, are its step. */
  lemma PhasesMakeAStep(s: Slot, t: Tick, reading: Option<real>)
    requires reading == t.reading || s.alert.None?
    ensures var o := Reconciled(AfterCandidate(s, t), t.candidate.Some?, t.shape, reading, t.context.nowMs);
            var ready := ReadyToScore(o.slot, t);
            var scored := if ready.alert.Some? then Scored(ready, s.alert, t.context) else ready;
            && Step(s, t).slot == Settled(scored)
            && (o.emitted.Some? ==> Step(s, t).emitted == o.emitted && ready.alert.None?)
            && (o.emitted.None? ==>
                  Step(s, t).emitted
                  == if ready.alert.Some? && (Touched(s, t) || Visible(ready.alert.value, scored.alert.value))
                     then scored.alert else None)
  {
    hide Scored;
  }

  /** One fingerprint's way through the phases is its step. */
  lemma PhasesAt(p: Phases, sample: Sample, present: set<Fingerprint>, readings: map<Fingerprint, real>,
                 touched: set<Fingerprint>, k: Fingerprint)
    requires UniqueKeys(sample.candidates) && Phased(p, sample, present, readings, touched)
    ensures At(p.after, k) == Step(At(p.before, k), TickFor(sample, k)).slot
    ensures var closed := ReconciledAt(p.breached, present, sample.shapes, readings, sample.context.nowMs, k).emitted;
            var shown := ShownAt(p.ready, sample.context, p.before.active, touched, k);
            EmittedAt(p.before, sample, k) == Either(closed, shown) && (closed.Some? ==> shown.None?)
  {
    var s, t := At(p.before, k), TickFor(sample, k);
    CandidateForIsTheOne(sample.candidates, k);
    PhasesMakeAStep(s, t, Get(readings, k));
    SlotsFollow(p, sample, present, readings, touched, k);
    hide Step, Reconciled, Breached, Retain, Refreshed, Scored, Sustained, Settled;
    assert s.alert == Get(p.before.active, k);
  }

  /** The slots of one fingerprint after each phase. */
  lemma SlotsFollow(p: Phases, sample: Sample, present: set<Fingerprint>, readings: map<Fingerprint, real>,
                    touched: set<Fingerprint>, k: Fingerprint)
    requires Phased(p, sample, present, readings, touched)
    ensures Get(readings, k) == Get(sample.readings, k) || At(p.before, k).alert.None?
    ensures var (s, c, nowMs) := (At(p.before, k), CandidateFor(sample.candidates, k), sample.context.nowMs);
            var breached := Breached(Forget(s, nowMs), c, sample.context, sample.mint(k));
            var o := Reconciled(breached, k in present, Get(sample.shapes, k), Get(readings, k), nowMs);
            var refresh := if k == DPC_KEY then Some(sample.dpcQuality) else None;
            var ready := Refreshed(Retain(o.slot, k in present, nowMs), refresh);
            var scored := if ready.alert.Some? then Scored(ready, s.alert, sample.context) else ready;
            && At(p.breached, k) == breached
            && ReconciledAt(p.breached, present, sample.shapes, readings, nowMs, k) == o
            && At(p.ready, k) == ready && At(p.scored, k) == scored && At(p.after, k) == Settled(scored)
            && (k in touched <==> c.Some? && Sustained(s, c.value))
  {
    var s := At(p.before, k);
    assert At(p.pruned, k) == Forget(s, sample.context.nowMs);
    assert Get(p.before.active, k) == s.alert;
    assert forall c :: Sustained(Forget(s, sample.context.nowMs), c) == Sustained(s, c);
    SettledAt(p.scored, p.after, k);
    hide Step, Reconciled, Breached, Retain, Refreshed, Scored, Sustained, Settled, Forget;
  }

  lemma SettledAt(scored: Books, settled: Books, k: Fingerprint)
    requires settled == scored.(calibrations :=
               map j | j in scored.calibrations :: scored.calibrations[j].(materialChange := false))
    ensures At(settled, k) == Settled(At(scored, k))
  {
  }

  lemma PhasesEvaluate(p: Phases, sample: Sample, present: set<Fingerprint>, readings: map<Fingerprint, real>,
                       touched: set<Fingerprint>, updated: seq<Alert>, resolved: seq<Alert>)
    requires UniqueKeys(sample.candidates) && Phased(p, sample, present, readings, touched)
    requires CollectsShown(updated, p.ready, sample.context, p.before.active, touched)
    requires CollectsClosed(resolved, p.breached, present, sample.shapes, readings, sample.context.nowMs)
    ensures Evaluated(p.before, sample, p.after)
    ensures Delivers(p.before, sample, updated + resolved)
  {
    hide At, Step, ReconciledAt, ShownAt, EmittedAt, Collects, Delivers, Phased;
    var shown := k => ShownAt(p.ready, sample.context, p.before.active, touched, k);
    var closed := (k: Fingerprint) =>
      ReconciledAt(p.breached, present, sample.shapes, readings, sample.context.nowMs, k).emitted;
    forall k
      ensures At(p.after, k) == Step(At(p.before, k), TickFor(sample, k)).slot
      ensures EmittedAt(p.before, sample, k) == Either(closed(k), shown(k)) && (closed(k).Some? ==> shown(k).None?)
    {
      PhasesAt(p, sample, present, readings, touched, k);
    }
    DeliverTogether(updated, resolved, shown, closed, p.before, sample);
  }

  lemma DeliverTogether(updated: seq<Alert>, resolved: seq<Alert>, shown: Fingerprint -> Option<Alert>,
                        closed: Fingerprint -> Option<Alert>, before: Books, sample: Sample)
    requires Collects(updated, shown) && Collects(resolved, closed)
    requires forall k :: EmittedAt(before, sample, k) == Either(closed(k), shown(k))
    requires forall k :: closed(k).Some? ==> shown(k).None?
    ensures Delivers(before, sample, updated + resolved)
  {
    hide EmittedAt;
    var all := updated + resolved;
    forall k | EmittedAt(before, sample, k).Some?
      ensures EmittedAt(before, sample, k).value in all
    {
      assert closed(k).Some? || shown(k).Some?;
    }
    forall a | a in all
      ensures EmittedAt(before, sample, a.fingerprint) == Some(a)
    {
      assert a in updated || a in resolved;
    }
    forall i, j | 0 <= i < j < |all|
      ensures all[i].fingerprint != all[j].fingerprint
    {
      if i < |updated| <= j {
        assert updated[i] in updated && resolved[j - |updated|] in resolved;
      }
    }
  }

  class AlertEngine {
    var streaks: map<Fingerprint, nat>
    var active: map<Fingerprint, Alert>
    var guards: map<Fingerprint, ExitGuard>
    var belowExitSince: map<Fingerprint, int>
    var resolvedMemory: map<Fingerprint, ResolvedIncident>
    var calibrations: map<Fingerprint, Terms>
    var notifyMemory: map<Fingerprint, NotifyMemory>
    var lastVerdictChange: Option<(string, string)>
    var pendingVerdictChange: bool
    var interrupts: Interrupts

    ghost function View(): Books
      reads this
    {
      Books(streaks, active, guards, belowExitSince, resolvedMemory, calibrations, notifyMemory, pendingVerdictChange)
    }

    /** An engine whose reopen memory holds, per fingerprint, the most recently resolved alert of the seed. */
    constructor (reopenSeed: seq<Alert>)
      ensures forall k :: At(View(), k) == BLANK.(memory := if k == Absent then None else LatestOf(reopenSeed, k))
    {
      streaks, active, guards, belowExitSince := map[], map[], map[], map[];
      resolvedMemory, calibrations, notifyMemory := map[], map[], map[];
      lastVerdictChange, pendingVerdictChange := None, false;
      interrupts := Interrupts(NoCapture, 0);
      new;
      for i := 0 to |reopenSeed|
        invariant streaks == map[] && active == map[] && guards == map[] && belowExitSince == map[]
        invariant calibrations == map[] && notifyMemory == map[] && !pendingVerdictChange
        invariant forall k :: Get(resolvedMemory, k) == if k == Absent then None else LatestOf(reopenSeed[..i], k)
      {
        var alert := reopenSeed[i];
        ghost var m := resolvedMemory;
        assert Get(m, alert.fingerprint)
               == if alert.fingerprint == Absent then None else LatestOf(reopenSeed[..i], alert.fingerprint);
        if alert.fingerprint != Absent {
          var seeded := SeededFrom(alert);
          if alert.fingerprint !in resolvedMemory
             || resolvedMemory[alert.fingerprint].resolvedAtMs <= seeded.resolvedAtMs {
            resolvedMemory := resolvedMemory[alert.fingerprint := seeded];
          }
        }
        forall k
          ensures Get(resolvedMemory, k) == if k == Absent then None else LatestOf(reopenSeed[..i + 1], k)
        {
          assert Get(m, k) == if k == Absent then None else LatestOf(reopenSeed[..i], k);
          LatestOfNext(reopenSeed, i, k);
        }
      }
      assert reopenSeed[..|reopenSeed|] == reopenSeed;
    }

    method ObserveInterrupts(context: Interrupts)
      modifies this`lastVerdictChange, this`pendingVerdictChange, this`interrupts
      ensures interrupts == context
      ensures var verdict := context.verdict;
              pendingVerdictChange
              == (old(pendingVerdictChange)
                  || (verdict.ChangedConfidently? && old(lastVerdictChange) != Some((verdict.from, verdict.to))))
      ensures var verdict := context.verdict;
              lastVerdictChange
              == if verdict.ChangedConfidently? then Some((verdict.from, verdict.to)) else old(lastVerdictChange)
    {
      match context.verdict {
        case ChangedConfidently(from, to) =>
          if lastVerdictChange != Some((from, to)) {
            lastVerdictChange := Some((from, to));
            pendingVerdictChange := true;
          }
        case _ =>
      }
      interrupts := context;
    }

    method CountUserImpact() returns (signals: nat)
      ensures signals == UserImpactSignals(active)
    {
      var count := |set k | k in active && Vouches(active[k])|;
      signals := if count < U32_MAX then count else U32_MAX;
    }

    method Evaluate(o: Observation) returns (changed: seq<Alert>)
      requires UniqueKeys(o.candidates) && Keyed(active)
      modifies this`streaks, this`active, this`guards, this`belowExitSince, this`resolvedMemory,
               this`calibrations, this`notifyMemory, this`pendingVerdictChange
      ensures Evaluated(old(View()), Judged(old(active), interrupts, o), View())
      ensures Delivers(old(View()), Judged(old(active), interrupts, o), changed)
      ensures Keyed(active)
    {
      hide Evaluated, Delivers;
      var impacts := CountUserImpact();
      var sustained := KernelPressure.Sustained(o.pressure, o.context.nowMs, o.context.sampleIntervalMs);
      var evidence := DpcQuality(impacts, interrupts, sustained);
      var candidates := AllWithEvidence(o.candidates, evidence);
      changed := EvaluateSample(Sample(o.context, candidates, o.readings, o.shapes, evidence, o.mint));
    }

    method EvaluateSample(sample: Sample) returns (changed: seq<Alert>)
      requires UniqueKeys(sample.candidates) && Keyed(active)
      modifies this`streaks, this`active, this`guards, this`belowExitSince, this`resolvedMemory,
               this`calibrations, this`notifyMemory, this`pendingVerdictChange
      ensures Evaluated(old(View()), sample, View())
      ensures Delivers(old(View()), sample, changed)
      ensures Keyed(active)
    {
      hide BreachedAll, AreTouched, ReconciledAll, ReadyAll, ScoredAll, CollectsClosed, CollectsShown, Evaluated,
           Delivers;
      ghost var before := View();
      var previous := active;
      // Readings are only worth gathering while something is open to test them against.
      var readings := if |active| > 0 then sample.readings else map[];
      var present := set c | c in sample.candidates :: c.key;
      var (nowMs, context) := (sample.context.nowMs, sample.context);

      PruneMemory(nowMs);
      ghost var pruned := View();
      var touched := RecordBreaches(sample);
      ghost var breached := View();
      var resolved := ResolveAbsent(present, sample.shapes, readings, nowMs);
      ghost var reconciled := View();
      ReadyForScoring(present, nowMs, sample.dpcQuality);
      ghost var ready := View();
      var updated := ScoreAll(context, previous, touched);
      ghost var scored := View();
      calibrations := map k | k in calibrations :: calibrations[k].(materialChange := false);
      changed := updated + resolved;
      var phases := Phases(before, pruned, breached, reconciled, ready, scored, View());
      PhasesEvaluate(phases, sample, present, readings, touched, updated, resolved);
    }

    /** Acknowledge the open alert with this identifier, if there is one. */
    method Acknowledge(id: AlertId) returns (acknowledged: Option<Alert>)
      requires Keyed(active)
      modifies this`active
      ensures Keyed(active)
      ensures UserFlag(old(active), id, (a: Alert) => a.(acknowledged := true), active, acknowledged)
    {
      acknowledged := None;
      if key :| key in active && active[key].id == id {
        var alert := active[key].(acknowledged := true);
        active := active[key := alert];
        acknowledged := Some(alert);
      }
    }

    /** Set or clear the archive flag of the open alert with this identifier, if there is one. */
    method SetArchived(id: AlertId, archived: bool) returns (flagged: Option<Alert>)
      requires Keyed(active)
      modifies this`active
      ensures Keyed(active)
      ensures UserFlag(old(active), id, (a: Alert) => a.(archived := archived), active, flagged)
    {
      flagged := None;
      if key :| key in active && active[key].id == id {
        var alert := active[key].(archived := archived);
        active := active[key := alert];
        flagged := Some(alert);
      }
    }

    method PruneMemory(nowMs: int)
      modifies this`resolvedMemory
      ensures View() == Pruned(old(View()), nowMs)
    {
      resolvedMemory := map k | k in resolvedMemory && nowMs - resolvedMemory[k].resolvedAtMs <= QUIET_PERIOD_MS
        :: resolvedMemory[k];
    }

    /** A candidate's sustained window is complete: open, reopen or update its incident. */
    method OpenOrUpdate(c: Candidate, nowMs: int, freshId: AlertId)
      requires Keyed(active)
      modifies this`active, this`resolvedMemory, this`calibrations
      ensures Keyed(active)
      ensures At(View(), c.key) == Fire(At(old(View()), c.key), c, nowMs, freshId)
      ensures forall k :: k != c.key ==> At(View(), k) == At(old(View()), k)
    {
      hide Opened, Updated;
      var key := c.key;
      if key in active {
        active := active[key := Updated(active[key], c, nowMs)];
      } else {
        var prior := None;
        if key in resolvedMemory && nowMs - resolvedMemory[key].resolvedAtMs <= QUIET_PERIOD_MS {
          prior := Some(resolvedMemory[key]);
        }
        resolvedMemory := resolvedMemory - {key};
        var terms := if key in calibrations then calibrations[key] else NO_TERMS;
        if prior.Some? {
          terms := terms.(reopenedFromSeverity := Some(prior.value.severity));
        }
        calibrations := calibrations[key := terms];
        active := active[key := Opened(prior, c, nowMs, freshId)];
      }
    }

    method CountBreach(c: Candidate, context: Context)
      modifies this`streaks, this`belowExitSince, this`calibrations
      ensures At(View(), c.key) == Counted(At(old(View()), c.key), c, context)
      ensures forall k :: k != c.key ==> At(View(), k) == At(old(View()), k)
    {
      hide WindowMs;
      var key := c.key;
      belowExitSince := belowExitSince - {key};
      var streak := SaturatingIncrement(if key in streaks then streaks[key] else 0);
      streaks := streaks[key := streak];
      var terms := if key in calibrations then calibrations[key] else NO_TERMS;
      terms := terms.(breachSinceMs := if streak == 1 then Some(context.nowMs) else terms.breachSinceMs,
                      windowMs := Some(WindowMs(c, context)),
                      materialChange := c.materialChange,
                      quality := c.quality);
      calibrations := calibrations[key := terms];
    }

    /** One candidate: count it, and once its sustained window is complete let it fire. */
    method RecordBreach(c: Candidate, context: Context, freshId: AlertId) returns (sustained: bool)
      requires Keyed(active)
      modifies this`streaks, this`active, this`guards, this`belowExitSince, this`resolvedMemory, this`calibrations
      ensures Keyed(active)
      ensures sustained == Sustained(At(old(View()), c.key), c)
      ensures At(View(), c.key) == Breach(At(old(View()), c.key), c, context, freshId)
      ensures forall k :: k != c.key ==> At(View(), k) == At(old(View()), k)
    {
      hide Fire, BreachTerms, GuardFor;
      CountBreach(c, context);
      sustained := streaks[c.key] >= c.requiredSamples;
      if sustained {
        match GuardFor(c, context) {
          case Some(guard) =>
            guards := guards[c.key := guard];
          case None =>
            guards := guards - {c.key};
        }
        OpenOrUpdate(c, context.nowMs, freshId);
      }
    }

    method RecordBreaches(sample: Sample) returns (touched: set<Fingerprint>)
      requires UniqueKeys(sample.candidates) && Keyed(active)
      modifies this`streaks, this`active, this`guards, this`belowExitSince, this`resolvedMemory, this`calibrations
      ensures Keyed(active)
      ensures BreachedAll(old(View()), sample, View()) && AreTouched(touched, old(View()), sample)
    {
      hide Breach, Sustained;
      ghost var before := View();
      touched := {};
      for i := 0 to |sample.candidates|
        invariant Keyed(active)
        invariant forall k :: At(View(), k) == Breached(At(before, k), CandidateFor(sample.candidates[..i], k),
                                                        sample.context, sample.mint(k))
        invariant forall k :: k in touched <==>
                    CandidateFor(sample.candidates[..i], k).Some?
                    && Sustained(At(before, k), CandidateFor(sample.candidates[..i], k).value)
      {
        var c := sample.candidates[i];
        assert sample.candidates[..i + 1][..i] == sample.candidates[..i];
        CandidateForIsTheOne(sample.candidates[..i], c.key);
        assert CandidateFor(sample.candidates[..i], c.key).None?;
        var sustained := RecordBreach(c, sample.context, sample.mint(c.key));
        if sustained {
          touched := touched + {c.key};
        }
      }
      assert sample.candidates[..|sample.candidates|] == sample.candidates;
    }

    /** Whether an incident whose candidate is absent may close; runs or stops its exit clock. */
    method ConditionCleared(key: Fingerprint, reading: Option<real>, nowMs: int) returns (cleared: bool)
      modifies this`belowExitSince
      ensures cleared == Cleared(At(old(View()), key), reading, nowMs)
      ensures forall k :: k != key ==> Get(belowExitSince, k) == old(Get(belowExitSince, k))
      ensures Get(belowExitSince, key)
              == if Holding(At(old(View()), key), reading)
                 then ExitClock(At(old(View()), key), reading.value, nowMs) else old(Get(belowExitSince, key))
    {
      if key !in guards || reading.None? {
        return true;
      }
      var guard := guards[key];
      if reading.value >= guard.exitThreshold {
        belowExitSince := belowExitSince - {key};
        return false;
      }
      var since := if key in belowExitSince then belowExitSince[key] else nowMs;
      belowExitSince := belowExitSince[key := since];
      cleared := nowMs - since >= guard.holdMs;
    }

    /** Move an incident from the open ones to the remembered ones. */
    method CloseOne(key: Fingerprint, nowMs: int, silent: bool) returns (alert: Alert)
      requires key in active && Keyed(active)
      modifies this`streaks, this`active, this`guards, this`belowExitSince, this`resolvedMemory,
               this`pendingVerdictChange
      ensures Keyed(active) && active == old(active) - {key}
      ensures alert == Closed(old(active)[key], nowMs, silent)
      ensures At(View(), key) == Close(At(old(View()), key), nowMs)
      ensures forall k :: k != key ==> At(View(), k) == At(old(View()), k)
    {
      hide Remembered;
      alert := CloseRecord(active[key], nowMs, silent);
      hide Closed;
      resolvedMemory := resolvedMemory[key := Remembered(active[key], nowMs)];
      active := active - {key};
      if key == DPC_KEY {
        pendingVerdictChange := false;
      }
      DropProgress(key);
    }

    method CloseRecord(open: Alert, nowMs: int, silent: bool) returns (alert: Alert)
      ensures alert == Closed(open, nowMs, silent)
    {
      alert := open.(resolvedAtMs := Some(nowMs), state := Resolved);
      if silent {
        alert := alert.(notify := false);
      }
    }

    method DropProgress(key: Fingerprint)
      modifies this`streaks, this`guards, this`belowExitSince
      ensures At(View(), key) == At(old(View()), key).(guard := None, belowExitSince := None, streak := None)
      ensures forall k :: k != key ==> At(View(), k) == At(old(View()), k)
    {
      guards := guards - {key};
      belowExitSince := belowExitSince - {key};
      streaks := streaks - {key};
    }

    method ResolveOne(key: Fingerprint, shape: Option<TrendShape>, reading: Option<real>, nowMs: int)
        returns (resolved: Option<Alert>)
      requires key in active && Keyed(active)
      modifies this`streaks, this`active, this`guards, this`belowExitSince, this`resolvedMemory,
               this`pendingVerdictChange
      ensures Keyed(active)
      ensures active == if resolved.None? then old(active) else old(active) - {key}
      ensures resolved.Some? ==> resolved.value.fingerprint == key
      ensures Outcome(At(View(), key), resolved) == Absence(At(old(View()), key), shape, reading, nowMs)
      ensures forall k :: k != key ==> At(View(), k) == At(old(View()), k)
    {
      hide Closed, Remembered;
      resolved := None;
      var fate := if shape.Some? then FateOf(shape.value) else Undecided;
      match fate {
        case StaysOpen =>
          belowExitSince := belowExitSince - {key};
        case AutoResolve =>
          var alert := CloseOne(key, nowMs, true);
          resolved := Some(alert);
        case Undecided =>
          var cleared := ConditionCleared(key, reading, nowMs);
          if cleared {
            var alert := CloseOne(key, nowMs, false);
            resolved := Some(alert);
          }
      }
    }

    method ResolveAbsent(present: set<Fingerprint>, shapes: map<Fingerprint, TrendShape>,
                         readings: map<Fingerprint, real>, nowMs: int) returns (resolved: seq<Alert>)
      requires Keyed(active)
      modifies this`streaks, this`active, this`guards, this`belowExitSince, this`resolvedMemory,
               this`pendingVerdictChange
      ensures Keyed(active)
      ensures ReconciledAll(old(View()), present, shapes, readings, nowMs, View())
      ensures CollectsClosed(resolved, old(View()), present, shapes, readings, nowMs)
    {
      hide Absence, Reconciled, ReconciledAt, Get, At, PartWay, Collected, Collects;
      ghost var before := View();
      ghost var record := (k: Fingerprint) => ReconciledAt(before, present, shapes, readings, nowMs, k).emitted;
      ghost var target := (k: Fingerprint) => ReconciledAt(before, present, shapes, readings, nowMs, k).slot;
      var waiting := active.Keys - present;
      ghost var visited := {};
      resolved := [];
      PresentStayPut(before, present, shapes, readings, nowMs, target, record);
      NothingCollected(record);
      while waiting != {}
        invariant waiting !! visited && visited + waiting == before.active.Keys - present
        invariant waiting <= active.Keys && Keyed(active)
        invariant PartWay(View(), before, waiting, target)
        invariant Collected(resolved, visited, record)
      {
        var key :| key in waiting;
        ghost var now := View();
        assert target(key) == ReconciledAt(before, present, shapes, readings, nowMs, key).slot;
        assert record(key) == ReconciledAt(before, present, shapes, readings, nowMs, key).emitted;
        PartWayAt(now, before, waiting, target, key);
        AbsentIsReconciled(before, present, shapes, readings, nowMs, key);
        var closed := ResolveOne(key, Get(shapes, key), Get(readings, key), nowMs);
        PartWayOn(now, View(), before, waiting, target, key);
        CollectOne(resolved, visited, key, record);
        waiting := waiting - {key};
        visited := visited + {key};
        if closed.Some? {
          resolved := resolved + [closed.value];
        }
      }
      PartWayDone(View(), before, target);
      CollectedAll(resolved, visited, record);
    }

    /** Drop what no longer belongs to anything: progress without a candidate, notifications too old to matter. */
    method RetainLive(present: set<Fingerprint>, nowMs: int)
      modifies this`streaks, this`calibrations, this`notifyMemory
      ensures forall k :: At(View(), k) == Retain(At(old(View()), k), k in present, nowMs)
    {
      streaks := map k | k in streaks && (k in present || k in active) :: streaks[k];
      calibrations := map k | k in calibrations && (k in present || k in active) :: calibrations[k];
      notifyMemory := map k | k in notifyMemory && (k in active || nowMs - notifyMemory[k].atMs <= QUIET_PERIOD_MS)
        :: notifyMemory[k];
    }

    method ReadyForScoring(present: set<Fingerprint>, nowMs: int, dpcQuality: CandidateQuality)
      modifies this`streaks, this`calibrations, this`notifyMemory
      ensures ReadyAll(old(View()), present, nowMs, dpcQuality, View())
    {
      hide Retain;
      RetainLive(present, nowMs);
      if DPC_KEY in active {
        var terms := if DPC_KEY in calibrations then calibrations[DPC_KEY] else NO_TERMS;
        calibrations := calibrations[DPC_KEY := terms.(quality := dpcQuality)];
      }
    }

    /** Mark an alert with its score and decision; a delivered change spends the latch. */
    method MarkAlert(key: Fingerprint, quality: AlertQuality, decision: NotifyDecision)
      requires key in active && Keyed(active)
      modifies this`active, this`pendingVerdictChange
      ensures Keyed(active) && active == old(active)[key := Marked(old(active)[key], quality, decision)]
      ensures var was := At(old(View()), key);
              At(View(), key) == was.(alert := Some(Marked(was.alert.value, quality, decision)),
                                      pendingChange := was.pendingChange && !decision.bumpGeneration)
      ensures forall k :: k != key ==> At(View(), k) == At(old(View()), k)
    {
      hide Marked;
      if key == DPC_KEY && pendingVerdictChange && decision.bumpGeneration {
        pendingVerdictChange := false;
      }
      active := active[key := Marked(active[key], quality, decision)];
    }

    /** What a notifying decision leaves behind: no severity to compare with, and when it notified. */
    method RememberNotifying(key: Fingerprint, generation: nat, nowMs: int)
      modifies this`calibrations, this`notifyMemory
      ensures var was := At(old(View()), key);
              At(View(), key)
              == was.(terms := if was.terms.Some? then Some(was.terms.value.(reopenedFromSeverity := None))
                      else was.terms,
                      notified := if was.notified.None? || was.notified.value.generation != generation
                                  then Some(NotifyMemory(generation, nowMs)) else was.notified)
      ensures forall k :: k != key ==> At(View(), k) == At(old(View()), k)
    {
      if key in calibrations {
        calibrations := calibrations[key := calibrations[key].(reopenedFromSeverity := None)];
      }
      if key !in notifyMemory || notifyMemory[key].generation != generation {
        notifyMemory := notifyMemory[key := NotifyMemory(generation, nowMs)];
      }
    }

    method ApplyDecision(key: Fingerprint, quality: AlertQuality, decision: NotifyDecision, nowMs: int)
      requires key in active && Keyed(active)
      modifies this`active, this`calibrations, this`notifyMemory, this`pendingVerdictChange
      ensures Keyed(active) && active == old(active)[key := Marked(old(active)[key], quality, decision)]
      ensures At(View(), key) == Applied(At(old(View()), key), quality, decision, nowMs)
      ensures forall k :: k != key ==> At(View(), k) == At(old(View()), k)
    {
      hide Marked;
      MarkAlert(key, quality, decision);
      if decision.notify {
        RememberNotifying(key, active[key].notifyGeneration, nowMs);
      }
    }

    method ScoreOne(key: Fingerprint, context: Context, previous: Option<Alert>)
      requires key in active && Keyed(active)
      modifies this`active, this`calibrations, this`notifyMemory, this`pendingVerdictChange
      ensures Keyed(active) && active.Keys == old(active.Keys)
      ensures At(View(), key) == Scored(At(old(View()), key), previous, context)
      ensures At(View(), key).alert == Some(active[key])
      ensures forall k :: k in active && k != key ==> active[k] == old(active)[k]
      ensures forall k :: k != key ==> At(View(), k) == At(old(View()), k)
    {
      hide Score, Decide, Lookup, InputsFor, PreviousFor, Applied;
      var alert := active[key];
      var terms := if key in calibrations then calibrations[key] else NO_TERMS;
      var notified := Get(notifyMemory, key);
      var quality := Score(InputsFor(alert, terms, notified, context));
      var pendingChange := key == DPC_KEY && pendingVerdictChange;
      var decision := Decide(alert.severity, quality, context.learning, PreviousFor(terms, notified, previous),
                             terms.materialChange || pendingChange,
                             Lookup(context.offsets, alert.kind, context.demand));
      if !terms.quality.notify {
        decision := NotifyDecision(false, false);
      }
      ApplyDecision(key, quality, decision, context.nowMs);
    }

    method ScoreAll(context: Context, previous: map<Fingerprint, Alert>, touched: set<Fingerprint>)
        returns (changed: seq<Alert>)
      requires Keyed(active)
      modifies this`active, this`calibrations, this`notifyMemory, this`pendingVerdictChange
      ensures Keyed(active)
      ensures ScoredAll(old(View()), context, previous, View())
      ensures CollectsShown(changed, old(View()), context, previous, touched)
    {
      hide Scored, ScoredAt, ShownAt, At, PartWay, Collected, Collects, Visible;
      ghost var before := View();
      ghost var record := k => ShownAt(before, context, previous, touched, k);
      ghost var target := k => ScoredAt(before, context, previous, k);
      var waiting := active.Keys;
      ghost var visited := {};
      changed := [];
      ClosedStayPut(before, context, previous, touched, target, record);
      NothingCollected(record);
      while waiting != {}
        invariant waiting !! visited && visited + waiting == before.active.Keys
        invariant waiting <= active.Keys && Keyed(active)
        invariant forall k :: k in waiting ==> active[k] == before.active[k]
        invariant PartWay(View(), before, waiting, target)
        invariant Collected(changed, visited, record)
      {
        var key :| key in waiting;
        ghost var now := View();
        PartWayAt(now, before, waiting, target, key);
        OpenIsScored(before, context, previous, touched, key);
        var was := active[key];
        ScoreOne(key, context, Get(previous, key));
        PartWayOn(now, View(), before, waiting, target, key);
        CollectOne(changed, visited, key, record);
        waiting := waiting - {key};
        visited := visited + {key};
        if key in touched || Visible(was, active[key]) {
          changed := changed + [active[key]];
        }
      }
      PartWayDone(View(), before, target);
      CollectedAll(changed, visited, record);
    }
  }
}
