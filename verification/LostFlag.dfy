/**
 * Two runs, event by event, in which an acknowledgement arrives between an evaluation and its upsert, is set in engine
 * and table alike, and then is overwritten in the table: for an incident that stays open, and for one that has just
 * been resolved, of which no further record will be sent.
 */
module LostFlag {
  import opened Models
  import opened Quality
  import opened Incidents
  import opened Lifecycle
  import opened Alerting
  import opened AlertTable
  import opened Worlds
  import opened Retention
  import opened StaleDeltas
  import opened OneIncident

  /** A third breach, and two calm samples that last a hold. */
  function Third(): Sample { SampleAt(2 * SECOND, [BusyDisk()], 95.0, '3') }
  function Calm(): Sample { SampleAt(2 * SECOND, [], 50.0, '3') }
  function StillCalm(): Sample { SampleAt(4 * SECOND, [], 50.0, '4') }

  /** An open alert nobody has acknowledged. */
  predicate Plain(s: Slot) {
    && s.alert.Some? && s.alert.value.id == Drawn('2')(DISK) && !s.alert.value.acknowledged && !s.pendingChange
    && s.alert.value.resolvedAtMs.None?
  }

  lemma ThirdBreach(s: Slot)
    requires Plain(s) && s.streak == Some(2)
    ensures Plain(SlotAfter(s, Third())) && RecordOf(s, Third()) == [SlotAfter(s, Third()).alert.value]
  {
    hide Score, Decide, Drawn;
    assert CandidateFor(Third().candidates, DISK) == Some(BusyDisk());
  }

  lemma FirstCalm(s: Slot)
    requires Plain(s) && s.guard == Some(ExitGuard(72.0, 2 * SECOND)) && s.belowExitSince.None?
    ensures var r := SlotAfter(s, Calm());
            Plain(r) && r.guard == Some(ExitGuard(72.0, 2 * SECOND)) && r.belowExitSince == Some(2 * SECOND)
  {
    hide Score, Decide, Drawn;
    assert CandidateFor(Calm().candidates, DISK).None?;
  }

  lemma SecondCalm(s: Slot)
    requires Plain(s) && s.guard == Some(ExitGuard(72.0, 2 * SECOND)) && s.belowExitSince == Some(2 * SECOND)
    ensures SlotAfter(s, StillCalm()).alert.None? && !SlotAfter(s, StillCalm()).pendingChange
    ensures |RecordOf(s, StillCalm())| == 1
    ensures var a := RecordOf(s, StillCalm())[0];
            a.id == Drawn('2')(DISK) && !a.acknowledged && a.resolvedAtMs == Some(4 * SECOND)
  {
    hide Drawn;
    assert CandidateFor(StillCalm().candidates, DISK).None?;
  }

  // ------------------------------------------------ a flag between the two halves

  /** An acknowledgement, heard and arrived, and then the delta stored. */
  function Interrupted(between: Service, id: AlertId): (steps: seq<Service>)
    ensures |steps| == 3
  {
    var heard := between.world.(books := FlaggedBooks(between.world.books, id, Acknowledging));
    var arrived := heard.(rows := Acknowledged(heard.rows, id));
    [Service(heard, between.waiting, Some(UserFlagOf(id, Acknowledging))),
     Service(arrived, between.waiting, None),
     Service(Backing.Over(arrived, StoredInto(arrived.rows, between.waiting)), None, None)]
  }

  lemma SoloIsFlagged(s: Slot, id: AlertId)
    requires s.alert.Some? ==> s.alert.value.id == id
    ensures FlagsAlert(Solo(s), id, Acknowledging, FlaggedBooks(Solo(s), id, Acknowledging))
    ensures s.alert.Some? ==>
              DISK in FlaggedBooks(Solo(s), id, Acknowledging).active
              && FlaggedBooks(Solo(s), id, Acknowledging).active[DISK] == Flagging(s.alert.value, Acknowledging)
  {
    var b, b' := Solo(s), FlaggedBooks(Solo(s), id, Acknowledging);
    if s.alert.Some? {
      assert b'.active == b.active[DISK := Flagging(b.active[DISK], Acknowledging)];
      assert UserFlag(b.active, id, FlagWith(Acknowledging), b'.active, Some(Flagging(b.active[DISK], Acknowledging)));
    } else {
      assert b'.active == b.active;
      assert UserFlag(b.active, id, FlagWith(Acknowledging), b'.active, None);
    }
  }

  lemma OneRecordStored(rows: Rows, a: Alert)
    ensures a.id in StoredInto(rows, Some([a])) && StoredInto(rows, Some([a]))[a.id].payload == a
    ensures StoredInto(rows, Some([a]))[a.id].resolvedAtMs == a.resolvedAtMs
  {
    assert [a][..0] == [];
  }

  lemma AcknowledgementArrives(w: World, s: Slot, sample: Sample, id: AlertId)
    requires SlotAfter(s, sample).alert.Some? ==> SlotAfter(s, sample).alert.value.id == id
    ensures var (mid, steps) := (Between(w, s, sample), Interrupted(Between(w, s, sample), id));
            && Next(mid, AlertFlagged(id, Acknowledging), steps[0])
            && Next(steps[0], RowFlagged, steps[1]) && Next(steps[1], Stored, steps[2])
  {
    hide SlotAfter, RecordOf, Solo, FlaggedBooks, FlagsAlert, StoredInto, OpenIds;
    SoloIsFlagged(SlotAfter(s, sample), id);
  }

  lemma FourStepsOn(services: seq<Service>, events: seq<Event>, s: seq<Service>, e: seq<Event>)
    requires IsRun(services, events) && |s| == |e| == 4 && Next(services[|events|], e[0], s[0])
    requires Next(s[0], e[1], s[1]) && Next(s[1], e[2], s[2]) && Next(s[2], e[3], s[3])
    ensures IsRun(services + s, events + e)
  {
    hide IsRun, Next;
    RunsHavePoints(services, events);
    RunGoesOn(services, events, e[0], s[0]);
    RunGoesOn(services + [s[0]], events + [e[0]], e[1], s[1]);
    RunGoesOn(services + [s[0]] + [s[1]], events + [e[0]] + [e[1]], e[2], s[2]);
    RunGoesOn(services + [s[0]] + [s[1]] + [s[2]], events + [e[0]] + [e[1]] + [e[2]], e[3], s[3]);
    assert services + [s[0]] + [s[1]] + [s[2]] + [s[3]] == services + s;
    assert events + [e[0]] + [e[1]] + [e[2]] + [e[3]] == events + e;
  }

  /** A run goes on through an evaluation, an acknowledgement in between, and the upsert. */
  lemma InterruptedRun(services: seq<Service>, events: seq<Event>, w: World, s: Slot, sample: Sample, id: AlertId)
    returns (services': seq<Service>, events': seq<Event>)
    requires IsRun(services, events) && services[|events|] == Idle(w)
    requires Sound(w) && w.books == Solo(s) && !s.pendingChange && !SlotAfter(s, sample).pendingChange
    requires OnlyTheDisk(sample.candidates) && FreshMint(sample.mint, w.issued) && w.nowMs <= sample.context.nowMs
    requires SlotAfter(s, sample).alert.Some? ==> SlotAfter(s, sample).alert.value.id == id
    ensures IsRun(services', events')
    ensures events'
            == events + [Evaluation(sample, RecordOf(s, sample)), AlertFlagged(id, Acknowledging), RowFlagged, Stored]
    ensures services'[|events'|] == Interrupted(Between(w, s, sample), id)[2]
    ensures services'[|events|] == Idle(w)
  {
    hide IsRun, Next, Sound, SlotAfter, RecordOf, FreshMint, Solo, Interrupted, CaughtUp, WorldAfter, OnlyTheDisk;
    SoloEvaluatesAhead(w, s, sample);
    AcknowledgementArrives(w, s, sample, id);
    RunsHavePoints(services, events);
    var mid, steps := Between(w, s, sample), Interrupted(Between(w, s, sample), id);
    var s4 := [mid, steps[0], steps[1], steps[2]];
    var e4 := [Evaluation(sample, RecordOf(s, sample)), AlertFlagged(id, Acknowledging), RowFlagged, Stored];
    FourStepsOn(services, events, s4, e4);
    services', events' := services + s4, events + e4;
  }

  // ----------------------------------------------------------------- the two runs

  /** What an opened incident has to say for the lemmas above. */
  lemma OpenedIsPlain(s: Slot, w: World)
    requires JustOpened(s, w) && Sound(w)
    ensures Plain(s) && s.streak.Some?
  {
    hide IdentitiesSound, RowsSound, PastIsPast;
    SoloAt(s, DISK);
    assert Tidy(At(w.books, DISK));
  }

  /** The engine knows of the acknowledgement, and the table does not, though nothing waits and nothing is underway. */
  lemma OpenIncidentDisagrees() returns (services: seq<Service>, events: seq<Event>)
    ensures IsRun(services, events) && |events| == 8
    ensures events[4].Evaluation? && events[6] == RowFlagged && events[7] == Stored
    ensures events[5] == AlertFlagged(Drawn('2')(DISK), Acknowledging)
    ensures services[8].waiting.None? && services[8].underway.None? && Disagree(services[8].world, DISK)
  {
    hide IsRun, SlotAfter, RecordOf, Sound, FreshMint, Solo, OpenIds, Drawn, Evaluates, UpsertAll;
    var s, w;
    services, events, s, w := TwoBreaches();
    OpenedIsPlain(s, w);
    ThirdBreach(s);
    DrawnStarts('2', DISK);
    DrawnAreFresh('3', w.issued);
    var id, r := Drawn('2')(DISK), SlotAfter(s, Third());
    services, events := InterruptedRun(services, events, w, s, Third(), id);
    RunsHavePoints(services, events);
    SoloIsFlagged(r, id);
    OneRecordStored(Acknowledged(w.rows, id), r.alert.value);
    hide FlaggedBooks, StoredInto;
    var end := services[8].world;
    assert end.books == FlaggedBooks(Solo(r), id, Acknowledging);
    assert end.rows == StoredInto(Acknowledged(w.rows, id), Some([r.alert.value]));
  }

  /** The same engine two seconds on, its reading calm. */
  lemma CalmedDown() returns (services: seq<Service>, events: seq<Event>, s: Slot, w: World)
    ensures IsRun(services, events) && |events| == 6 && services[|events|] == Idle(w) && Sound(w)
    ensures Plain(s) && s.guard == Some(ExitGuard(72.0, 2 * SECOND)) && s.belowExitSince == Some(2 * SECOND)
    ensures w.books == Solo(s) && w.nowMs == 2 * SECOND
    ensures forall id :: id in w.issued ==> id == s.alert.value.id
  {
    hide IsRun, SlotAfter, RecordOf, Sound, FreshMint, Solo, UpsertAll, OpenIds, Drawn, Evaluates;
    services, events, s, w := TwoBreaches();
    OpenedIsPlain(s, w);
    FirstCalm(s);
    DrawnStarts('2', DISK);
    DrawnAreFresh('3', w.issued);
    services, events := EvaluateAndStore(services, events, w, s, Calm());
    var issued := w.issued;
    w := WorldAfter(w, s, Calm());
    s := SlotAfter(s, Calm());
    IssuedUnder(issued, s);
  }

  lemma OpenIsStored(w: World, s: Slot)
    requires Sound(w) && w.books == Solo(s) && s.alert.Some?
    ensures s.alert.value.id in w.rows
  {
    hide SlotsSound, IdentitiesSound, PastIsPast;
    assert w.books.active[DISK] == s.alert.value;
  }

  /**
   * The user acknowledges an incident of which the table has a row, and it is resolved meanwhile: the row ends up
   * unacknowledged, and the engine has nothing open to send another record of.
   */
  lemma ResolvedIncidentForgetsItsUser() returns (services: seq<Service>, events: seq<Event>)
    ensures IsRun(services, events) && |events| == 10
    ensures events[6].Evaluation? && events[8] == RowFlagged && events[9] == Stored
    ensures events[7] == AlertFlagged(Drawn('2')(DISK), Acknowledging)
    ensures var (before, w, id) := (services[6].world, services[10].world, Drawn('2')(DISK));
            && id in before.rows && w.books.active == map[] && id in w.rows && w.rows[id].resolvedAtMs.Some?
            && !w.rows[id].payload.acknowledged
    ensures services[10].waiting.None? && services[10].underway.None?
  {
    hide IsRun, SlotAfter, RecordOf, Sound, FreshMint, Solo, OpenIds, Drawn, Evaluates, UpsertAll;
    var s, w;
    services, events, s, w := CalmedDown();
    OpenIsStored(w, s);
    SecondCalm(s);
    DrawnStarts('2', DISK);
    DrawnAreFresh('4', w.issued);
    var id, r, a := Drawn('2')(DISK), SlotAfter(s, StillCalm()), RecordOf(s, StillCalm())[0];
    services, events := InterruptedRun(services, events, w, s, StillCalm(), id);
    RunsHavePoints(services, events);
    assert RecordOf(s, StillCalm()) == [a];
    OneRecordStored(Acknowledged(w.rows, id), a);
    NothingOpen(r, id);
    hide FlaggedBooks, StoredInto;
  }

  lemma NothingOpen(s: Slot, id: AlertId)
    requires s.alert.None?
    ensures FlaggedBooks(Solo(s), id, Acknowledging).active == map[]
  {
  }
}
