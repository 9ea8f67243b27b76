/**
 * A service with a single incident in it: small enough to be followed event by event, and still a run of the service
 * like any other.
 */
module OneIncident {
  import opened Models
  import opened Quality
  import opened Incidents
  import opened Lifecycle
  import opened Impact
  import opened Alerting
  import opened AlertTable
  import opened Worlds
  import opened Backing
  import opened Retention

  // -------------------------------------------------------------- identifiers

  function Marks(n: nat): string {
    if n == 0 then "" else "|" + Marks(n - 1)
  }

  /** A spelling that tells fingerprints apart. */
  function Spelled(k: Fingerprint): string {
    match k
    case Absent => ""
    case OfMachine(name) => "m" + name
    case OfProcess(kind, pid, startedAtMs) =>
      "p" + (Marks(pid) + "," + ((if startedAtMs < 0 then "-" else "+")
                                 + (Marks(if startedAtMs < 0 then -startedAtMs else startedAtMs) + "," + kind)))
  }

  lemma {:induction false} MarksAreCounted(a: nat, b: nat, x: string, y: string)
    requires Marks(a) + "," + x == Marks(b) + "," + y
    ensures a == b && x == y
  {
    var left, right := Marks(a) + "," + x, Marks(b) + "," + y;
    if a > 0 && b > 0 {
      assert left[1..] == Marks(a - 1) + "," + x && right[1..] == Marks(b - 1) + "," + y;
      MarksAreCounted(a - 1, b - 1, x, y);
    } else {
      assert left[0] == if a == 0 then ',' else '|';
      assert right[0] == if b == 0 then ',' else '|';
      assert left[1..] == x && right[1..] == y;
    }
  }

  lemma FirstLetter(k: Fingerprint)
    ensures Spelled(k) == [] <==> k == Absent
    ensures k != Absent ==> Spelled(k)[0] == if k.OfMachine? then 'm' else 'p'
  {
  }

  lemma SpellingsDiffer(j: Fingerprint, k: Fingerprint)
    requires Spelled(j) == Spelled(k)
    ensures j == k
  {
    var left, right := Spelled(j), Spelled(k);
    FirstLetter(j);
    FirstLetter(k);
    match (j, k) {
      case (OfMachine(a), OfMachine(b)) =>
        assert left[1..] == a && right[1..] == b;
      case (OfProcess(kind, pid, at), OfProcess(kind', pid', at')) =>
        var x, y := left[1..], right[1..];
        var age, age' := (if at < 0 then -at else at), (if at' < 0 then -at' else at');
        var sign, sign' := (if at < 0 then "-" else "+"), (if at' < 0 then "-" else "+");
        MarksAreCounted(pid, pid', sign + (Marks(age) + "," + kind), sign' + (Marks(age') + "," + kind'));
        var u, v := sign + (Marks(age) + "," + kind), sign' + (Marks(age') + "," + kind');
        assert u[0] == sign[0] && v[0] == sign'[0];
        assert u[1..] == Marks(age) + "," + kind && v[1..] == Marks(age') + "," + kind';
        MarksAreCounted(age, age', kind, kind');
      case _ =>
    }
  }

  /** Identifiers drawn on one occasion. */
  function Drawn(occasion: char): Fingerprint -> AlertId {
    k => [occasion] + Spelled(k)
  }

  lemma DrawnAreFresh(occasion: char, issued: set<AlertId>)
    requires forall id :: id in issued ==> id != [] && id[0] != occasion
    ensures FreshMint(Drawn(occasion), issued)
  {
    forall j, k | j != k
      ensures Drawn(occasion)(j) != Drawn(occasion)(k)
    {
      if Drawn(occasion)(j) == Drawn(occasion)(k) {
        assert ([occasion] + Spelled(j))[1..] == Spelled(j) && ([occasion] + Spelled(k))[1..] == Spelled(k);
        SpellingsDiffer(j, k);
      }
    }
  }

  // -------------------------------------------- an engine with one incident in it

  const DISK := OfMachine("disk")

  function One<V>(o: Option<V>): map<Fingerprint, V> {
    if o.Some? then map[DISK := o.value] else map[]
  }

  function Solo(s: Slot): Books {
    Books(One(s.streak), One(s.alert), One(s.guard), One(s.belowExitSince), One(s.memory), One(s.terms),
          One(s.notified),
          false)
  }

  lemma SoloAt(s: Slot, k: Fingerprint)
    requires !s.pendingChange
    ensures At(Solo(s), k) == if k == DISK then s else BLANK
  {
  }

  function Listed(a: Option<Alert>): seq<Alert> {
    if a.Some? then [a.value] else []
  }

  function SlotAfter(s: Slot, sample: Sample): Slot {
    Step(s, TickFor(sample, DISK)).slot
  }

  function RecordOf(s: Slot, sample: Sample): seq<Alert> {
    Listed(Step(s, TickFor(sample, DISK)).emitted)
  }

  function WorldAfter(w: World, s: Slot, sample: Sample): World {
    World(Solo(SlotAfter(s, sample)), UpsertAll(w.rows, RecordOf(s, sample)),
          w.issued + OpenIds(Solo(SlotAfter(s, sample))), sample.context.nowMs)
  }

  predicate OnlyTheDisk(candidates: seq<Candidate>) {
    |candidates| <= 1 && forall c :: c in candidates ==> c.key == DISK
  }

  lemma BlankStaysBlank(t: Tick)
    requires t.candidate.None?
    ensures Step(BLANK, t) == Outcome(BLANK, None)
  {
  }

  lemma OthersStayBlank(sample: Sample, k: Fingerprint)
    requires OnlyTheDisk(sample.candidates) && k != DISK
    ensures Step(BLANK, TickFor(sample, k)) == Outcome(BLANK, None)
  {
    hide Step;
    CandidateForIsTheOne(sample.candidates, k);
    BlankStaysBlank(TickFor(sample, k));
  }

  lemma AlertKeepsKey(s: Slot, t: Tick, k: Fingerprint)
    requires Tidy(s) && (s.alert.Some? ==> s.alert.value.fingerprint == k)
    requires t.candidate.Some? ==> t.candidate.value.key == k
    ensures Step(s, t).slot.alert.Some? ==> Step(s, t).slot.alert.value.fingerprint == k
    ensures Step(s, t).emitted.Some? ==> Step(s, t).emitted.value.fingerprint == k
  {
    StepMoves(s, t);
    if Step(s, t).emitted.Some? {
      EmittedUnderOwnKey(s, t, k);
    }
    hide Step, Tidy;
  }

  lemma SoloSteps(s: Slot, sample: Sample)
    requires !s.pendingChange && !SlotAfter(s, sample).pendingChange && OnlyTheDisk(sample.candidates)
    ensures Evaluated(Solo(s), sample, Solo(SlotAfter(s, sample)))
    ensures forall k :: EmittedAt(Solo(s), sample, k)
                        == if k == DISK then Step(s, TickFor(sample, DISK)).emitted else None
  {
    var r := SlotAfter(s, sample);
    hide Step, At, Solo, TickFor;
    forall k
      ensures At(Solo(r), k) == Step(At(Solo(s), k), TickFor(sample, k)).slot
      ensures EmittedAt(Solo(s), sample, k) == if k == DISK then Step(s, TickFor(sample, DISK)).emitted else None
    {
      SoloAt(s, k);
      SoloAt(r, k);
      if k != DISK {
        OthersStayBlank(sample, k);
      }
    }
  }

  lemma SoloDelivers(s: Slot, sample: Sample)
    requires !s.pendingChange && !SlotAfter(s, sample).pendingChange && OnlyTheDisk(sample.candidates)
    requires Tidy(s) && (s.alert.Some? ==> s.alert.value.fingerprint == DISK)
    ensures Delivers(Solo(s), sample, RecordOf(s, sample)) && Keyed(Solo(SlotAfter(s, sample)).active)
  {
    hide Step, Tidy, EmittedAt, TickFor, Evaluated;
    SoloSteps(s, sample);
    var t := TickFor(sample, DISK);
    assert t.candidate == CandidateFor(sample.candidates, DISK) by {
      TicksCarryCandidates(sample);
    }
    CandidateForIsTheOne(sample.candidates, DISK);
    AlertKeepsKey(s, t, DISK);
    SoloIsKeyed(SlotAfter(s, sample));
    hide Solo;
  }

  lemma TicksCarryCandidates(sample: Sample)
    ensures TickFor(sample, DISK).candidate == CandidateFor(sample.candidates, DISK)
  {
  }

  lemma SoloEvaluates(w: World, s: Slot, sample: Sample)
    requires Sound(w) && w.books == Solo(s) && !s.pendingChange && !SlotAfter(s, sample).pendingChange
    requires OnlyTheDisk(sample.candidates) && FreshMint(sample.mint, w.issued) && w.nowMs <= sample.context.nowMs
    ensures Evaluates(w, sample, RecordOf(s, sample), WorldAfter(w, s, sample))
    ensures Sound(WorldAfter(w, s, sample))
  {
    SoloAt(s, DISK);
    SoundSlot(w, DISK);
    SoundKeys(w, DISK);
    hide Sound, At, Tidy, Evaluated, Delivers, Solo, SlotAfter, RecordOf, FreshMint;
    SoloSteps(s, sample);
    SoloDelivers(s, sample);
    assert Named(sample.candidates);
    EvaluationKeepsSound(w, sample, RecordOf(s, sample), WorldAfter(w, s, sample));
  }

  lemma SoundKeys(w: World, k: Fingerprint)
    requires Sound(w)
    ensures At(w.books, k).alert.Some? ==> At(w.books, k).alert.value.fingerprint == k
  {
  }

  lemma SoloIsKeyed(s: Slot)
    requires s.alert.Some? ==> s.alert.value.fingerprint == DISK
    ensures Keyed(Solo(s).active)
  {
  }

  // ---------------------------------------------------------------- the one slot

  const SECOND := 1000

  /**
   * Samples a second apart, two of them to a sustained window; no kernel pressure, nothing captured, nobody vouching.
   */
  function SampleAt(nowMs: int, candidates: seq<Candidate>, reading: real, occasion: char): Sample {
    Sample(Context(nowMs, SECOND, 2, false, 1.0, Light, NO_OFFSETS), candidates, map[DISK := reading], map[],
           DpcQuality(0, Interrupts(NoCapture, 0), false), Drawn(occasion))
  }

  /** Entered at ninety, left below seventy-two. */
  function BusyDisk(): Candidate {
    Candidate(DISK, "disk", Warning, 2, Subject(None, None, "", "", ""), [], Some(90.0), 0.8, false,
              CandidateQuality(Some(true), 0, 0, true))
  }

  /** Two breaching samples a second apart. */
  function First(): Sample { SampleAt(0, [BusyDisk()], 95.0, '1') }
  function Second(): Sample { SampleAt(SECOND, [BusyDisk()], 95.0, '2') }

  lemma FirstBreach()
    ensures var r := SlotAfter(BLANK, First());
            r.alert.None? && r.streak == Some(1) && r.memory.None? && r.terms.Some? && !r.pendingChange
  {
    var sample := First();
    assert sample.candidates[..0] == [];
    assert CandidateFor(sample.candidates, DISK) == Some(BusyDisk());
    hide Scored;
  }

  lemma SecondBreach(s: Slot)
    requires s.alert.None? && s.streak == Some(1) && s.memory.None? && s.terms.Some? && !s.pendingChange
    ensures var r := SlotAfter(s, Second());
            r.alert.Some? && r.alert.value.lastSeenMs == SECOND && r.guard == Some(ExitGuard(72.0, 2 * SECOND))
            && r.alert.value.id == Drawn('2')(DISK) && !r.alert.value.acknowledged && !r.pendingChange
            && r.streak == Some(2) && r.belowExitSince.None?
  {
    hide Score, Decide;
    assert CandidateFor(Second().candidates, DISK) == Some(BusyDisk());
  }

  // ---------------------------------------------------------------------- the run

  function Opening(): World {
    World(Solo(BLANK), map[], {}, 0)
  }

  lemma OpeningIsAStart()
    ensures IsStart(Service(Opening(), None, None)) && Sound(Opening())
  {
    var w := Opening();
    EmptyTableOpens(w, w);
    assert Opens(w, 0, [], w);
    StartIsSound(Service(w, None, None));
  }

  /** Opening a table with nothing in it. */
  lemma EmptyTableOpens(w: World, w': World)
    requires w.rows == w'.rows == map[] && w.issued == w'.issued && w'.books == Solo(BLANK) && w.nowMs <= w'.nowMs
    ensures TableSound(w) && Restarts(w, w'.nowMs, [], w')
  {
    var atMs := w'.nowMs;
    assert ResolveOpen(w.rows, atMs) == map[];
    assert Eligible(w'.rows, atMs - QUIET_PERIOD_MS) == {};
    assert Newest(w'.rows, atMs - QUIET_PERIOD_MS, []) && Payloads(w'.rows, []) == [];
    forall k
      ensures At(w'.books, k) == BLANK
    {
      SoloAt(BLANK, k);
    }
    hide At, Solo;
    assert forall k :: LatestOf([], k).None?;
  }

  lemma IssuedUnder(issued: set<AlertId>, s: Slot)
    ensures forall id :: id in issued + OpenIds(Solo(s)) ==> id in issued || (s.alert.Some? && id == s.alert.value.id)
  {
  }

  lemma DrawnStarts(occasion: char, k: Fingerprint)
    ensures Drawn(occasion)(k) != [] && Drawn(occasion)(k)[0] == occasion
  {
  }

  lemma OpenInSolo(s: Slot)
    requires s.alert.Some?
    ensures DISK in Solo(s).active
  {
  }

  /** Nothing waits and nothing is underway. */
  function Idle(w: World): Service {
    Service(w, None, None)
  }

  /** The same service between an evaluation and its upsert. */
  function Between(w: World, s: Slot, sample: Sample): Service {
    Service(WorldAfter(w, s, sample).(rows := w.rows), Some(RecordOf(s, sample)), None)
  }

  lemma RunStarts(s: Service)
    requires IsStart(s)
    ensures IsRun([s], [])
  {
  }

  lemma RunGoesOn(services: seq<Service>, events: seq<Event>, event: Event, s: Service)
    requires IsRun(services, events) && Next(services[|events|], event, s)
    ensures IsRun(services + [s], events + [event])
  {
    hide Next, IsStart;
    var services', events' := services + [s], events + [event];
    forall i | 0 <= i < |events'|
      ensures Next(services'[i], events'[i], services'[i + 1])
    {
      if i == |events| {
        assert services'[i] == services[|events|];
      } else {
        assert Next(services[i], events[i], services[i + 1]);
      }
    }
  }

  /** One evaluation, not stored yet. */
  lemma SoloEvaluatesAhead(w: World, s: Slot, sample: Sample)
    requires Sound(w) && w.books == Solo(s) && !s.pendingChange && !SlotAfter(s, sample).pendingChange
    requires OnlyTheDisk(sample.candidates) && FreshMint(sample.mint, w.issued) && w.nowMs <= sample.context.nowMs
    ensures Next(Idle(w), Evaluation(sample, RecordOf(s, sample)), Between(w, s, sample))
    ensures CaughtUp(Between(w, s, sample)) == WorldAfter(w, s, sample) && Sound(WorldAfter(w, s, sample))
  {
    SoloEvaluates(w, s, sample);
    hide Sound, Evaluates, SlotAfter, RecordOf, FreshMint, Solo, UpsertAll, OpenIds;
    var mid := Between(w, s, sample);
    assert CaughtUp(mid) == WorldAfter(w, s, sample);
    assert EvaluatesAhead(Idle(w), sample, RecordOf(s, sample), mid);
  }

  lemma StoringArrives(s: Service)
    requires s.waiting.Some?
    ensures Next(s, Stored, Service(CaughtUp(s), None, s.underway))
  {
    hide CaughtUp;
  }

  /** One evaluation and its upsert, with nothing in between. */
  lemma EvaluateAndStore(services: seq<Service>, events: seq<Event>, w: World, s: Slot, sample: Sample)
    returns (services': seq<Service>, events': seq<Event>)
    requires IsRun(services, events) && services[|events|] == Idle(w)
    requires Sound(w) && w.books == Solo(s) && !s.pendingChange && !SlotAfter(s, sample).pendingChange
    requires OnlyTheDisk(sample.candidates) && FreshMint(sample.mint, w.issued) && w.nowMs <= sample.context.nowMs
    ensures IsRun(services', events') && services'[|events'|] == Idle(WorldAfter(w, s, sample))
    ensures events' == events + [Evaluation(sample, RecordOf(s, sample)), Stored]
    ensures Sound(WorldAfter(w, s, sample))
  {
    hide IsRun, Next, Sound, SlotAfter, RecordOf, FreshMint, Solo, WorldAfter, CaughtUp, OnlyTheDisk;
    SoloEvaluatesAhead(w, s, sample);
    var mid, end := Between(w, s, sample), Idle(WorldAfter(w, s, sample));
    assert |services| == |events| + 1 by {
      RunsHavePoints(services, events);
    }
    RunGoesOn(services, events, Evaluation(sample, RecordOf(s, sample)), mid);
    services', events' := services + [mid], events + [Evaluation(sample, RecordOf(s, sample))];
    StoringArrives(mid);
    RunGoesOn(services', events', Stored, end);
    services', events' := services' + [end], events' + [Stored];
  }

  lemma RunsHavePoints(services: seq<Service>, events: seq<Event>)
    requires IsRun(services, events)
    ensures |services| == |events| + 1
  {
  }

  /** An incident has just been opened, and stored. */
  predicate JustOpened(s: Slot, w: World) {
    && s.alert.Some? && s.alert.value.id == Drawn('2')(DISK) && s.alert.value.lastSeenMs == SECOND
    && !s.alert.value.acknowledged && s.streak == Some(2) && s.belowExitSince.None?
    && s.guard == Some(ExitGuard(72.0, 2 * SECOND)) && !s.pendingChange
    && w.books == Solo(s) && w.nowMs == SECOND
    && forall id :: id in w.issued ==> id == s.alert.value.id
  }

  /** The service opens an empty table, and two breaching samples open an incident. */
  lemma TwoBreaches() returns (services: seq<Service>, events: seq<Event>, s: Slot, w: World)
    ensures IsRun(services, events) && |events| == 4 && services[|events|] == Idle(w)
    ensures JustOpened(s, w) && Sound(w)
  {
    hide IsRun, SlotAfter, RecordOf, Sound, FreshMint, Solo, UpsertAll, OpenIds, Drawn, Evaluates, IsStart;
    OpeningIsAStart();
    RunStarts(Idle(Opening()));
    FirstBreach();
    DrawnAreFresh('1', {});
    services, events := EvaluateAndStore([Idle(Opening())], [], Opening(), BLANK, First());
    s, w := SlotAfter(BLANK, First()), WorldAfter(Opening(), BLANK, First());
    IssuedUnder({}, s);
    assert w.issued == {};
    SecondBreach(s);
    DrawnAreFresh('2', {});
    services, events := EvaluateAndStore(services, events, w, s, Second());
    w := WorldAfter(w, s, Second());
    s := SlotAfter(s, Second());
    IssuedUnder({}, s);
  }
}
