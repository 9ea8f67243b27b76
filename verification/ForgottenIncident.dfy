/**
 * One run, event by event, in which a restart forgets an incident that was open all along: held open by a reading just
 * below its entry threshold, not seen again for two days, and kept for one.
 */
module ForgottenIncident {
  import opened Models
  import opened Quality
  import opened Incidents
  import opened Lifecycle
  import opened Alerting
  import opened AlertTable
  import opened Worlds
  import opened Retention
  import opened OneIncident

  /** A sample two days on, neither breaching nor clear. */
  function Third(): Sample { SampleAt(2 * DAY_MS, [], 80.0, '3') }

  lemma ParkedReading(s: Slot)
    requires s.alert.Some? && s.alert.value.lastSeenMs == SECOND && s.guard == Some(ExitGuard(72.0, 2 * SECOND))
    requires !s.pendingChange
    ensures var r := SlotAfter(s, Third());
            r.alert.Some? && r.alert.value.lastSeenMs == SECOND && r.alert.value.id == s.alert.value.id
            && !r.pendingChange
  {
    hide Score, Decide;
    assert CandidateFor(Third().candidates, DISK).None?;
  }

  /**
   * In a world that ever issued one identifier, that of its open alert, an expiry that reaches the alert leaves no row.
   */
  lemma NothingIsLeft(w: World, s: Slot, retentionDays: nat)
    requires Sound(w) && w.books == Solo(s) && s.alert.Some? && !s.pendingChange
    requires forall id :: id in w.issued ==> id == s.alert.value.id
    requires s.alert.value.lastSeenMs < w.nowMs - retentionDays * DAY_MS
    ensures Expired(w, retentionDays).rows == map[]
  {
    hide SlotsSound, PastIsPast, Tidy, DistinctIdentities;
    assert w.books.active[DISK] == s.alert.value;
    assert RowHolds(w.rows, s.alert.value);
    forall id | id in w.rows
      ensures w.rows[id].lastSeenMs == s.alert.value.lastSeenMs
    {
      assert id == s.alert.value.id;
    }
  }

  lemma OpenInSolo(s: Slot)
    requires s.alert.Some?
    ensures DISK in Solo(s).active
  {
  }

  /** Two days on it is still open, and has not been seen again. */
  lemma StillOpen() returns (services: seq<Service>, events: seq<Event>, s: Slot, w: World)
    ensures IsRun(services, events) && |events| == 6 && services[|events|] == Idle(w)
    ensures s.alert.Some? && s.alert.value.lastSeenMs == SECOND && !s.pendingChange
    ensures Sound(w) && w.books == Solo(s) && w.nowMs == 2 * DAY_MS
    ensures forall id :: id in w.issued ==> id == s.alert.value.id
  {
    hide IsRun, SlotAfter, RecordOf, Sound, FreshMint, Solo, UpsertAll, OpenIds, Drawn, Evaluates;
    services, events, s, w := TwoBreaches();
    ParkedReading(s);
    DrawnStarts('2', DISK);
    DrawnAreFresh('3', w.issued);
    services, events := EvaluateAndStore(services, events, w, s, Third());
    var issued := w.issued;
    w := WorldAfter(w, s, Third());
    s := SlotAfter(s, Third());
    IssuedUnder(issued, s);
  }

  /**
   * The service opens an empty table, an incident opens and stays open, a day's retention takes its row, and after a
   * restart nobody knows of it.
   */
  lemma OpenIncidentIsForgotten() returns (services: seq<Service>, events: seq<Event>)
    ensures IsRun(services, events) && |events| == 8
    ensures events[6] == Expiry(1) && events[7].Restart?
    ensures DISK in services[7].world.books.active
    ensures At(services[8].world.books, DISK) == BLANK
  {
    hide IsRun, Sound, Evaluates, Restarts, Solo, At;
    var s, w;
    services, events, s, w := StillOpen();
    RunsHavePoints(services, events);
    NothingIsLeft(w, s, 1);
    OpenInSolo(s);
    var w1 := Expired(w, 1);
    var w2 := World(Solo(BLANK), map[], w1.issued, w1.nowMs + 1);
    EmptyTableOpens(w1, w2);
    SoloAt(BLANK, DISK);
    RunGoesOn(services, events, Expiry(1), Idle(w1));
    services, events := services + [Idle(w1)], events + [Expiry(1)];
    RunGoesOn(services, events, Restart(w2.nowMs, []), Idle(w2));
    services, events := services + [Idle(w2)], events + [Restart(w2.nowMs, [])];
  }
}
