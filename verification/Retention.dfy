/**
 * The service over whole runs. Two threads share engine and table. One evaluates, and only later stores what the
 * evaluation delivered; the other sets a user's flag in the engine, and only later in the table; and what comes between
 * may meet the one before the other. Once a day the table loses the rows last seen too long ago, whether their
 * incidents are open or not. Here is what holds nevertheless, and exactly when a row is missing; StaleDeltas does the
 * same for flags.
 */
module Retention {
  import opened Models
  import opened Incidents
  import opened Lifecycle
  import opened Alerting
  import opened AlertTable
  import opened Worlds
  import opened Backing

  /** Engine and table, the delta that waits to be stored, and the flag that waits to reach the table. */
  datatype Service = Service(world: World, waiting: Option<seq<Alert>>, underway: Option<UserFlagOf>)

  datatype UserFlagOf = UserFlagOf(id: AlertId, flag: Flag)

  datatype Event =
    | Evaluation(sample: Sample, changed: seq<Alert>)
    | Stored
    | AlertFlagged(id: AlertId, flag: Flag)
    | RowFlagged
    | VerdictLatched
    | Expiry(retentionDays: nat)
    | Restart(atMs: int, seed: seq<Alert>)

  // -------------------------------------------------------------- transitions

  /** The table with a delta stored into it. */
  function StoredInto(rows: Rows, delta: Option<seq<Alert>>): Rows {
    if delta.Some? then UpsertAll(rows, delta.value) else rows
  }

  /** Engine and table as they will be once the waiting delta, if any, is stored. */
  function CaughtUp(s: Service): World {
    Over(s.world, StoredInto(s.world.rows, s.waiting))
  }

  /** The engine moves at once; the table stays as it was, and the delta waits. */
  ghost predicate EvaluatesAhead(s: Service, sample: Sample, changed: seq<Alert>, s': Service) {
    && s.waiting.None? && s' == Service(s'.world, Some(changed), s.underway)
    && s'.world.rows == s.world.rows
    && Evaluates(s.world, sample, changed, CaughtUp(s'))
  }

  /**
   * What may happen next. Either thread may die at any moment, and a restart knows neither the waiting delta nor the
   * flag that was underway.
   */
  ghost predicate Next(s: Service, event: Event, s': Service) {
    match event
    case Evaluation(sample, changed) => EvaluatesAhead(s, sample, changed, s')
    case Stored => s.waiting.Some? && s' == Service(CaughtUp(s), None, s.underway)
    case AlertFlagged(id, flag) =>
      && s.underway.None? && FlagsAlert(s.world.books, id, flag, s'.world.books)
      && s' == Service(s.world.(books := s'.world.books), s.waiting, Some(UserFlagOf(id, flag)))
    case RowFlagged =>
      && s.underway.Some?
      && s' == Service(s.world.(rows := Worlds.RowFlagged(s.world.rows, s.underway.value.id, s.underway.value.flag)),
                       s.waiting, None)
    case VerdictLatched => s' == s.(world := s.world.(books := s.world.books.(pendingVerdictChange := true)))
    case Expiry(retentionDays) => s.waiting.None? && s' == s.(world := Expired(s.world, retentionDays))
    case Restart(atMs, seed) => Restarts(s.world, atMs, seed, s'.world) && s' == Service(s'.world, None, None)
  }

  // ---------------------------------------------------------------- invariant

  /** Storing leaves every row where it was, and under the fingerprint it had. */
  predicate KeepsFingerprints(rows: Rows, rows': Rows) {
    forall id :: id in rows ==> id in rows' && rows'[id].payload.fingerprint == rows[id].payload.fingerprint
  }

  /**
   * The table is part of one in agreement with the engine, once the waiting delta is counted in; and as it stands, of
   * one in agreement with some engine, that of before the evaluation whose delta waits.
   */
  ghost predicate ServiceBacked(s: Service) {
    && Backed(CaughtUp(s))
    && (exists was :: Backed(s.world.(books := was)))
    && (s.waiting.Some? ==> DistinctIds(s.waiting.value))
    && KeepsFingerprints(s.world.rows, CaughtUp(s).rows)
  }

  /** An incident keeps its identifier, so a record only ever goes to a row of its own fingerprint. */
  lemma RecordsMeetTheirOwn(w: World, sample: Sample, changed: seq<Alert>, w': World, a: Alert)
    requires Backed(w) && Evaluates(w, sample, changed, w') && a in changed && a.id in w.rows
    ensures w.rows[a.id].payload.fingerprint == a.fingerprint
  {
    hide Sound, Evaluates, KeyMoves, BareRow;
    var full: Rows :| Backs(full, w);
    EvaluationKeepsBacked(w, sample, changed, w', full);
    var v, v' := Over(w, full), Over(w', UpsertAll(full, changed));
    DeliveriesHold(v, sample, changed, v');
    SameBareRow(w.rows[a.id], full[a.id]);
    assert EmittedAt(v.books, sample, a.fingerprint) == Some(a) && FreshMint(sample.mint, v.issued) by {
      OnesOwnEmission(v, sample, changed, v', a);
    }
    assert KeyMoves(v, sample, v', a.fingerprint);
    FullRowIsItsOwn(v, sample, v', a.fingerprint, a);
  }

  lemma OnesOwnEmission(w: World, sample: Sample, changed: seq<Alert>, w': World, a: Alert)
    requires Evaluates(w, sample, changed, w') && a in changed
    ensures EmittedAt(w.books, sample, a.fingerprint) == Some(a) && FreshMint(sample.mint, w.issued)
  {
    hide Evaluated, EmittedAt;
  }

  lemma FullRowIsItsOwn(w: World, sample: Sample, w': World, k: Fingerprint, a: Alert)
    requires Sound(w) && KeyMoves(w, sample, w', k) && EmittedAt(w.books, sample, k) == Some(a)
    requires FreshMint(sample.mint, w.issued) && a.id in w.rows
    ensures w.rows[a.id].payload.fingerprint == k
  {
    hide EmittedAt, Tidy, PastIsPast;
    var s := At(w.books, k);
    if s.alert.Some? {
      assert RowHolds(w.rows, s.alert.value);
    } else if Remembers(s.memory, sample.context.nowMs) {
      assert RowRemembers(w.rows, k, s.memory.value);
    }
  }

  lemma DeltasKeepFingerprints(w: World, sample: Sample, changed: seq<Alert>, w': World)
    requires Backed(w) && Evaluates(w, sample, changed, w') && DistinctIds(changed)
    ensures KeepsFingerprints(w.rows, w'.rows)
  {
    assert w'.rows == UpsertAll(w.rows, changed);
    hide Backed, Evaluates, Upsert, UpsertAll, DistinctIds, Holds;
    forall id | id in w.rows
      ensures id in w'.rows && w'.rows[id].payload.fingerprint == w.rows[id].payload.fingerprint
    {
      var a := StoredRow(w.rows, changed, id);
      if a.Some? {
        RecordsMeetTheirOwn(w, sample, changed, w', a.value);
        UpsertHolds(w.rows, a.value);
      }
    }
  }

  lemma EvaluationKeepsServiceBacked(s: Service, sample: Sample, changed: seq<Alert>, s': Service)
    requires ServiceBacked(s) && EvaluatesAhead(s, sample, changed, s')
    ensures ServiceBacked(s')
  {
    hide Sound, Backs, Evaluates, KeepsFingerprints, DistinctIds, UpsertAll;
    var w' := CaughtUp(s');
    assert s.world == CaughtUp(s);
    var full: Rows :| Backs(full, s.world);
    EvaluationKeepsBacked(s.world, sample, changed, w', full);
    assert Backed(w');
    DeltasKeepFingerprints(s.world, sample, changed, w');
    ClockOfAnEvaluation(s.world, sample, changed, w');
    TimePasses(s.world, w'.nowMs, w'.issued);
    assert s'.world.(books := s.world.books) == s.world.(nowMs := w'.nowMs, issued := w'.issued);
  }

  lemma ClockOfAnEvaluation(w: World, sample: Sample, changed: seq<Alert>, w': World)
    requires Evaluates(w, sample, changed, w')
    ensures w.nowMs <= w'.nowMs && w.issued <= w'.issued
  {
    hide Evaluated, Delivers, UpsertAll;
  }

  predicate Holds(delta: seq<Alert>, id: AlertId) {
    exists a :: a in delta && a.id == id
  }

  /** What a delta leaves in one row. */
  lemma StoredRow(rows: Rows, delta: seq<Alert>, id: AlertId) returns (a: Option<Alert>)
    requires DistinctIds(delta)
    ensures a.Some? <==> Holds(delta, id)
    ensures a.Some? ==> a.value in delta && a.value.id == id && id in UpsertAll(rows, delta)
                        && UpsertAll(rows, delta)[id] == Upsert(rows, a.value)[id]
    ensures a.None? ==> (id in UpsertAll(rows, delta) <==> id in rows)
                        && (id in rows ==> UpsertAll(rows, delta)[id] == rows[id])
  {
    UpsertAllWritesEach(rows, delta);
    hide UpsertAll, Upsert, DistinctIds;
    if Holds(delta, id) {
      var r :| r in delta && r.id == id;
      a := Some(r);
    } else {
      a := None;
      assert forall r :: r in delta ==> r.id != id;
    }
  }

  /** One record goes where there is one, whichever of the two tables is asked. */
  lemma StoredRowsAlike(rows: Rows, flagged: Rows, id: AlertId, flag: Flag, delta: seq<Alert>, i: AlertId)
    requires flagged == FlaggedRows(rows, id, flag) && DistinctIds(delta)
    ensures i in UpsertAll(flagged, delta) <==> i in UpsertAll(rows, delta)
    ensures i in UpsertAll(rows, delta) ==>
              UpsertAll(flagged, delta)[i]
              == if i == id && !Holds(delta, id) then FlaggedRow(UpsertAll(rows, delta)[i], flag)
                 else UpsertAll(rows, delta)[i]
  {
    var a := StoredRow(rows, delta, i);
    var c := StoredRow(flagged, delta, i);
    hide UpsertAll, FlaggedRow, Holds;
    if a.Some? {
      assert c.Some? && c.value == a.value by {
        OneOfEach(delta, a.value, c.value);
      }
      UpsertsIgnoreFlags(rows, flagged, id, flag, a.value);
    }
  }

  lemma OneOfEach(delta: seq<Alert>, a: Alert, c: Alert)
    requires DistinctIds(delta) && a in delta && c in delta && a.id == c.id
    ensures a == c
  {
    var i :| 0 <= i < |delta| && delta[i] == a;
    var j :| 0 <= j < |delta| && delta[j] == c;
  }

  lemma UpsertsIgnoreFlags(rows: Rows, flagged: Rows, id: AlertId, flag: Flag, a: Alert)
    requires flagged == FlaggedRows(rows, id, flag)
    ensures a.id in Upsert(rows, a) && a.id in Upsert(flagged, a) && Upsert(flagged, a)[a.id] == Upsert(rows, a)[a.id]
  {
  }

  /** A flag set in the table shows through the waiting delta, unless a waiting record overwrites it. */
  lemma FlaggingBeforeStoring(rows: Rows, id: AlertId, flag: Flag, delta: seq<Alert>)
    requires DistinctIds(delta)
    ensures var (flagged, stored) := (FlaggedRows(rows, id, flag), UpsertAll(rows, delta));
            UpsertAll(flagged, delta) == if Holds(delta, id) then stored else FlaggedRows(stored, id, flag)
  {
    var flagged := FlaggedRows(rows, id, flag);
    forall i
      ensures i in UpsertAll(flagged, delta) <==> i in UpsertAll(rows, delta)
      ensures i in UpsertAll(rows, delta) ==>
                UpsertAll(flagged, delta)[i]
                == if i == id && !Holds(delta, id) then FlaggedRow(UpsertAll(rows, delta)[i], flag)
                   else UpsertAll(rows, delta)[i]
    {
      StoredRowsAlike(rows, flagged, id, flag, delta, i);
    }
    hide UpsertAll, FlaggedRow, Holds, DistinctIds;
    assert Holds(delta, id) ==> UpsertAll(flagged, delta) == UpsertAll(rows, delta);
    assert !Holds(delta, id) ==> UpsertAll(flagged, delta) == FlaggedRows(UpsertAll(rows, delta), id, flag);
  }

  /** A record with this identifier waits to be stored. */
  predicate Awaited(s: Service, id: AlertId) {
    s.waiting.Some? && Holds(s.waiting.value, id)
  }

  /**
   * The table's half of a flag, as it will be seen once the delta is stored: not at all, if it meets a waiting record.
   */
  lemma RowFlagCaughtUp(s: Service, s': Service)
    requires ServiceBacked(s) && Next(s, RowFlagged, s')
    ensures var (w, id, flag) := (CaughtUp(s), s.underway.value.id, s.underway.value.flag);
            CaughtUp(s') == w.(rows := if Awaited(s, id) then w.rows else FlaggedRows(w.rows, id, flag))
    ensures s'.world.rows == FlaggedRows(s.world.rows, s.underway.value.id, s.underway.value.flag)
  {
    var id, flag := s.underway.value.id, s.underway.value.flag;
    RowFlagAsItStands(s, id, flag);
    if s.waiting.Some? {
      FlaggingBeforeStoring(s.world.rows, id, flag, s.waiting.value);
    }
    hide FlaggedRows, UpsertAll, Worlds.RowFlagged, Holds, ServiceBacked;
  }

  lemma RowFlagAsItStands(s: Service, id: AlertId, flag: Flag)
    requires ServiceBacked(s)
    ensures Worlds.RowFlagged(s.world.rows, id, flag) == FlaggedRows(s.world.rows, id, flag)
    ensures exists was :: Backed(s.world.(books := was, rows := FlaggedRows(s.world.rows, id, flag)))
  {
    hide Sound, FlaggedRows, StoredInto, Consistent;
    var was :| Backed(s.world.(books := was));
    var full: Rows :| Backs(full, s.world.(books := was));
    RowFlagKeepsBacked(s.world.(books := was), id, flag, full);
    assert s.world.(books := was).(rows := Worlds.RowFlagged(s.world.rows, id, flag))
           == s.world.(books := was, rows := FlaggedRows(s.world.rows, id, flag));
  }

  /** The caught-up table, flagged or not, is still a part of one in agreement. */
  lemma FlaggedOrNotIsBacked(w: World, id: AlertId, flag: Flag, flagged: bool)
    requires Backed(w)
    ensures Backed(w.(rows := if flagged then FlaggedRows(w.rows, id, flag) else w.rows))
  {
    hide Backs;
    var full: Rows :| Backs(full, w);
    RowFlagKeepsBacked(w, id, flag, full);
    hide FlaggedRows, Worlds.RowFlagged;
    assert w.(rows := w.rows) == w;
  }

  lemma FlaggedOrNotKeepsFingerprints(rows: Rows, rows': Rows, id: AlertId, flag: Flag, flagged: bool)
    requires KeepsFingerprints(rows, rows')
    ensures KeepsFingerprints(FlaggedRows(rows, id, flag), if flagged then FlaggedRows(rows', id, flag) else rows')
  {
    hide FlaggedRows;
    FlaggingKeepsFingerprints(rows, id, flag);
    FlaggingKeepsFingerprints(rows', id, flag);
  }

  lemma RowFlagKeepsServiceBacked(s: Service, s': Service)
    requires ServiceBacked(s) && Next(s, RowFlagged, s')
    ensures ServiceBacked(s')
  {
    hide DistinctIds, CaughtUp, FlaggedRows, Worlds.RowFlagged, Backed, Awaited, KeepsFingerprints;
    var id, flag, w := s.underway.value.id, s.underway.value.flag, CaughtUp(s);
    RowFlagCaughtUp(s, s');
    RowFlagAsItStands(s, id, flag);
    FlaggedOrNotIsBacked(w, id, flag, !Awaited(s, id));
    FlaggedOrNotKeepsFingerprints(s.world.rows, w.rows, id, flag, !Awaited(s, id));
    var was :| Backed(s.world.(books := was, rows := FlaggedRows(s.world.rows, id, flag)));
    assert s'.world.(books := was) == s.world.(books := was, rows := FlaggedRows(s.world.rows, id, flag));
  }

  lemma FlaggingKeepsFingerprints(rows: Rows, id: AlertId, flag: Flag)
    ensures var flagged := FlaggedRows(rows, id, flag);
            flagged.Keys == rows.Keys
            && forall i :: i in rows ==> flagged[i].payload.fingerprint == rows[i].payload.fingerprint
  {
  }

  lemma AlertFlagKeepsServiceBacked(s: Service, id: AlertId, flag: Flag, s': Service)
    requires ServiceBacked(s) && Next(s, AlertFlagged(id, flag), s')
    ensures ServiceBacked(s') && s'.world.books == FlaggedBooks(s.world.books, id, flag)
  {
    hide Sound, DistinctIds, StoredInto, FlagsAlert, KeepsFingerprints;
    var w, b := CaughtUp(s), s'.world.books;
    var full: Rows :| Backs(full, w);
    AlertFlagKeepsBacked(w, id, flag, b, full);
    assert CaughtUp(s') == w.(books := b);
    assert Backed(CaughtUp(s'));
    var was :| Backed(s.world.(books := was));
    assert s'.world.(books := was) == s.world.(books := was);
  }

  lemma LatchKeepsServiceBacked(s: Service, s': Service)
    requires ServiceBacked(s) && Next(s, VerdictLatched, s')
    ensures ServiceBacked(s')
  {
    hide Sound, DistinctIds, StoredInto, KeepsFingerprints;
    var w := CaughtUp(s);
    var full: Rows :| Backs(full, w);
    LatchKeepsBacked(w, full);
    assert CaughtUp(s') == w.(books := w.books.(pendingVerdictChange := true));
    assert Backed(CaughtUp(s'));
    var was :| Backed(s.world.(books := was));
    assert s'.world.(books := was) == s.world.(books := was);
  }

  lemma ExpiryKeepsServiceBacked(s: Service, retentionDays: nat, s': Service)
    requires ServiceBacked(s) && Next(s, Expiry(retentionDays), s')
    ensures ServiceBacked(s')
  {
    hide Sound;
    assert CaughtUp(s) == s.world && CaughtUp(s') == s'.world;
    var full: Rows :| Backs(full, s.world);
    ExpiryKeepsBacked(s.world, retentionDays, full);
    assert s'.world.(books := s'.world.books) == s'.world;
  }

  lemma SoundServiceBacked(s: Service)
    requires Sound(s.world) && s.waiting.None?
    ensures ServiceBacked(s)
  {
    hide Sound;
    SoundIsBacked(s.world);
    assert CaughtUp(s) == s.world == s.world.(books := s.world.books);
  }

  lemma RestartKeepsServiceBacked(s: Service, atMs: int, seed: seq<Alert>, s': Service)
    requires ServiceBacked(s) && Next(s, Restart(atMs, seed), s')
    ensures ServiceBacked(s') && Sound(s'.world) && TableSound(s.world)
  {
    hide Sound, Backed, Restarts, TableSound, KeepsFingerprints, DistinctIds, CaughtUp;
    var was :| Backed(s.world.(books := was));
    assert Restarts(s.world.(books := was), atMs, seed, s'.world) by {
      RestartsForgetTheEngine(s.world, was, atMs, seed, s'.world);
    }
    RestartMakesSound(s.world.(books := was), atMs, seed, s'.world);
    BackedTables(s.world.(books := was));
    SoundServiceBacked(s');
    assert TableSound(s.world) by {
      TablesForgetTheEngine(s.world, was);
    }
  }

  lemma TablesForgetTheEngine(w: World, was: Books)
    requires TableSound(w.(books := was))
    ensures TableSound(w)
  {
  }

  lemma RestartsForgetTheEngine(w: World, was: Books, atMs: int, seed: seq<Alert>, w': World)
    requires Restarts(w, atMs, seed, w')
    ensures Restarts(w.(books := was), atMs, seed, w')
  {
  }

  lemma StoringKeepsServiceBacked(s: Service, s': Service)
    requires ServiceBacked(s) && Next(s, Stored, s')
    ensures ServiceBacked(s') && CaughtUp(s') == CaughtUp(s)
  {
    hide Backed, DistinctIds;
    assert CaughtUp(s') == CaughtUp(s) == s'.world == s'.world.(books := s'.world.books);
  }

  lemma NextKeepsServiceBacked(s: Service, event: Event, s': Service)
    requires ServiceBacked(s) && Next(s, event, s')
    ensures ServiceBacked(s')
  {
    hide ServiceBacked, EvaluatesAhead, Restarts, FlagsAlert;
    match event {
      case Evaluation(sample, changed) => EvaluationKeepsServiceBacked(s, sample, changed, s');
      case Stored => StoringKeepsServiceBacked(s, s');
      case AlertFlagged(id, flag) => AlertFlagKeepsServiceBacked(s, id, flag, s');
      case RowFlagged => RowFlagKeepsServiceBacked(s, s');
      case VerdictLatched => LatchKeepsServiceBacked(s, s');
      case Expiry(retentionDays) => ExpiryKeepsServiceBacked(s, retentionDays, s');
      case Restart(atMs, seed) => RestartKeepsServiceBacked(s, atMs, seed, s');
    }
  }

  // -------------------------------------------------------------- whole runs

  /** The service has just opened a table, whichever it was given. */
  ghost predicate IsStart(s: Service) {
    s.waiting.None? && s.underway.None? && exists before, atMs, seed :: Opens(before, atMs, seed, s.world)
  }

  ghost predicate Opens(before: World, atMs: int, seed: seq<Alert>, w: World) {
    TableSound(before) && Restarts(before, atMs, seed, w)
  }

  ghost predicate IsRun(services: seq<Service>, events: seq<Event>) {
    && |services| == |events| + 1 && IsStart(services[0])
    && forall i :: 0 <= i < |events| ==> Next(services[i], events[i], services[i + 1])
  }

  lemma StartIsSound(s: Service)
    requires IsStart(s)
    ensures Sound(s.world) && s.world.books.active == map[]
  {
    hide TableSound, Restarts, Sound;
    var before, atMs, seed :| Opens(before, atMs, seed, s.world);
    RestartKeepsSound(before, atMs, seed, s.world);
    assert Reopens(before, atMs, seed, s.world) by {
      ARestartReopens(before, atMs, seed, s.world);
    }
    forall k
      ensures k !in s.world.books.active
    {
      RestartIsBlank(before, atMs, seed, s.world, k);
    }
  }

  lemma ARestartReopens(w: World, atMs: int, seed: seq<Alert>, w': World)
    requires Restarts(w, atMs, seed, w')
    ensures Reopens(w, atMs, seed, w')
  {
    hide Reopens;
  }

  /**
   * At every point of every run the table is part of one in agreement with the engine, the waiting delta counted in.
   */
  lemma {:induction false} RunStaysBacked(services: seq<Service>, events: seq<Event>, i: nat)
    requires IsRun(services, events) && i < |services|
    ensures ServiceBacked(services[i])
    decreases i
  {
    hide Sound, Next, ServiceBacked;
    if i == 0 {
      StartIsSound(services[0]);
      SoundServiceBacked(services[0]);
    } else {
      RunStaysBacked(services, events, i - 1);
      NextKeepsServiceBacked(services[i - 1], events[i - 1], services[i]);
    }
  }

  // ------------------------------------------------------- when a row is missing

  /** An evaluation sends the table a record of this fingerprint. */
  predicate Rewrites(s: Service, event: Event, k: Fingerprint) {
    event.Evaluation? && EmittedAt(s.world.books, event.sample, k).Some?
  }

  /** An expiry takes the row of the incident a fingerprint stands for. */
  predicate Cuts(s: Service, event: Event, k: Fingerprint) {
    event.Expiry? && TakesRow(s.world, event.retentionDays, k)
  }

  /** A record of this fingerprint waits to be stored. */
  predicate WaitingAbout(s: Service, k: Fingerprint) {
    s.waiting.Some? && exists a :: a in s.waiting.value && a.fingerprint == k
  }

  /** A restart with no record of a fingerprint waiting remembers of it what the engine stood for. */
  lemma RestartMissesNothing(s: Service, atMs: int, seed: seq<Alert>, s': Service, k: Fingerprint)
    requires ServiceBacked(s) && Next(s, Restart(atMs, seed), s') && !WaitingAbout(s, k)
    requires IdentityOf(At(s'.world.books, k)).Some?
    ensures !Missing(CaughtUp(s), k) && IdentityOf(At(s.world.books, k)) == IdentityOf(At(s'.world.books, k))
  {
    hide Sound, Backed, Restarts, TableSound, IdentityOf, At;
    RestartKeepsServiceBacked(s, atMs, seed, s');
    ARestartReopens(s.world, atMs, seed, s'.world);
    RestartReads(s.world, atMs, seed, s'.world, k);
    var id, rows := IdentityOf(At(s'.world.books, k)).value, CaughtUp(s).rows;
    assert id in rows && rows[id].payload.fingerprint == k;
    if s.waiting.Some? {
      UpsertAllWritesEach(s.world.rows, s.waiting.value);
      hide UpsertAll, Upsert;
      if a :| a in s.waiting.value && a.id == id {
        UpsertHolds(s.world.rows, a);
        assert false;
      }
    }
    assert rows[id] == s.world.rows[id];
    hide StoredInto;
    CurrentIsStoodFor(CaughtUp(s), id);
  }

  lemma EvaluationSends(s: Service, sample: Sample, changed: seq<Alert>, s': Service, k: Fingerprint)
    requires ServiceBacked(s) && EvaluatesAhead(s, sample, changed, s') && IdentityOf(At(s'.world.books, k)).Some?
    ensures Rewrites(s, Evaluation(sample, changed), k) ==> !Missing(CaughtUp(s'), k)
    ensures !Rewrites(s, Evaluation(sample, changed), k) ==>
              IdentityOf(At(s.world.books, k)) == IdentityOf(At(s'.world.books, k))
              && (Missing(CaughtUp(s'), k) <==> Missing(CaughtUp(s), k))
  {
    hide Backed, Evaluates, IdentityOf, At, EmittedAt;
    assert CaughtUp(s) == s.world;
    EvaluationMisses(s.world, sample, changed, CaughtUp(s'), k);
  }

  /** Anything but an evaluation and a restart leaves identities alone, and none but an expiry takes rows. */
  lemma OthersMissAlike(s: Service, event: Event, s': Service, k: Fingerprint)
    requires ServiceBacked(s) && Next(s, event, s') && !event.Evaluation? && !event.Restart?
    ensures IdentityOf(At(s.world.books, k)) == IdentityOf(At(s'.world.books, k))
    ensures Missing(CaughtUp(s'), k) <==> Missing(CaughtUp(s), k) || Cuts(s, event, k)
  {
    hide ServiceBacked, FlagsAlert;
    match event {
      case Stored => StoringKeepsServiceBacked(s, s');
      case AlertFlagged(id, flag) =>
        AlertFlagKeepsServiceBacked(s, id, flag, s');
        FlaggedSlot(s.world.books, id, flag, k);
      case RowFlagged =>
        RowFlagCaughtUp(s, s');
        FlaggingKeepsFingerprints(CaughtUp(s).rows, s.underway.value.id, s.underway.value.flag);
      case VerdictLatched =>
      case Expiry(retentionDays) =>
        hide IdentityOf, At;
        assert s'.world == Expired(s.world, retentionDays);
    }
    hide IdentityOf, At, FlaggedRows, StoredInto;
  }

  /** The evaluation whose delta waits: nothing has come since but flags and latched verdicts. */
  ghost predicate WaitingSince(services: seq<Service>, events: seq<Event>, e: nat, n: nat)
    requires n < |services| == |events| + 1
  {
    && e < n && events[e].Evaluation? && services[n].waiting == Some(events[e].changed)
    && forall l :: e < l < n ==> events[l].AlertFlagged? || events[l].RowFlagged? || events[l].VerdictLatched?
  }

  lemma {:induction false} EvaluationBehind(services: seq<Service>, events: seq<Event>, n: nat) returns (e: nat)
    requires IsRun(services, events) && n < |services| && services[n].waiting.Some?
    ensures WaitingSince(services, events, e, n)
  {
    hide EvaluatesAhead, FlagsAlert, Restarts, CaughtUp;
    var m := n - 1;
    assert Next(services[m], events[m], services[n]);
    if events[m].Evaluation? {
      EvaluationWaits(services[m], events[m], services[n]);
      e := m;
    } else {
      e := EvaluationBehind(services, events, m);
    }
  }

  lemma EvaluationWaits(s: Service, event: Event, s': Service)
    requires event.Evaluation? && Next(s, event, s')
    ensures s.waiting.None? && s'.waiting == Some(event.changed) && s'.world.rows == s.world.rows
    ensures Delivers(s.world.books, event.sample, event.changed)
  {
    hide Delivers, Evaluated;
  }

  /** The waiting delta is about exactly the fingerprints that evaluation rewrote. */
  lemma WaitingWasRewritten(services: seq<Service>, events: seq<Event>, e: nat, n: nat, k: Fingerprint)
    requires IsRun(services, events) && n < |services| && WaitingSince(services, events, e, n)
    ensures WaitingAbout(services[n], k) <==> Rewrites(services[e], events[e], k)
  {
    assert Next(services[e], events[e], services[e + 1]);
    RunStaysBacked(services, events, e);
    hide IsRun, EvaluatesAhead, Rewrites, WaitingAbout, ServiceBacked;
    DeliveredIsRewritten(services[e], events[e], services[e + 1], services[n], k);
  }

  lemma DeliveredIsRewritten(s: Service, event: Event, s': Service, later: Service, k: Fingerprint)
    requires event.Evaluation? && Next(s, event, s') && later.waiting == Some(event.changed) && ServiceBacked(s)
    ensures WaitingAbout(later, k) <==> Rewrites(s, event, k)
  {
    EvaluationWaits(s, event, s');
    if Rewrites(s, event, k) {
      EmissionsAreOwn(s, event, s', k);
    }
    hide Next, EmittedAt, ServiceBacked;
  }

  lemma EmissionsAreOwn(s: Service, event: Event, s': Service, k: Fingerprint)
    requires event.Evaluation? && Next(s, event, s') && ServiceBacked(s) && Rewrites(s, event, k)
    ensures EmittedAt(s.world.books, event.sample, k).value.fingerprint == k
  {
    hide Sound, Evaluates, KeepsFingerprints, EmittedAt;
    assert CaughtUp(s) == s.world;
    var w' := CaughtUp(s');
    var full: Rows :| Backs(full, s.world);
    EvaluationKeepsBacked(s.world, event.sample, event.changed, w', full);
    EveryKeyMoves(Over(s.world, full), event.sample, event.changed, Over(w', UpsertAll(full, event.changed)), k);
  }

  /**
   * Expiry `j` took the row of the incident a fingerprint stands for, and no record of it was sent before point `n`.
   */
  ghost predicate LastCut(services: seq<Service>, events: seq<Event>, j: nat, n: nat, k: Fingerprint)
    requires n <= |events| && |services| == |events| + 1
  {
    && j < n && Cuts(services[j], events[j], k)
    && forall l :: j < l < n ==> !Rewrites(services[l], events[l], k)
  }

  /** What a run has to say of a fingerprint at one point. */
  ghost predicate MissingIffCut(services: seq<Service>, events: seq<Event>, n: nat, k: Fingerprint)
    requires n <= |events| && |services| == |events| + 1
  {
    Missing(CaughtUp(services[n]), k) <==> exists j :: LastCut(services, events, j, n, k)
  }

  lemma SilenceKeepsCuts(services: seq<Service>, events: seq<Event>, m: nat, n: nat, k: Fingerprint)
    requires m < |events| && |services| == |events| + 1 && !Rewrites(services[m], events[m], k) && n == m + 1
    requires MissingIffCut(services, events, m, k)
    requires Missing(CaughtUp(services[n]), k)
             <==> Missing(CaughtUp(services[m]), k) || Cuts(services[m], events[m], k)
    ensures MissingIffCut(services, events, n, k)
  {
    hide Missing, Cuts, Rewrites;
    if Cuts(services[m], events[m], k) {
      assert LastCut(services, events, m, n, k);
    }
    forall j: nat | LastCut(services, events, j, m, k)
      ensures LastCut(services, events, j, n, k)
    {
    }
    forall j: nat | LastCut(services, events, j, n, k)
      ensures j == m || LastCut(services, events, j, m, k)
    {
    }
  }

  /** A restart that found a row of the fingerprint: nothing about it is missing, and nothing about it was last cut. */
  lemma RestartCutsNothing(services: seq<Service>, events: seq<Event>, m: nat, n: nat, k: Fingerprint)
    requires IsRun(services, events) && m < |events| && events[m].Restart? && n == m + 1
    requires IdentityOf(At(services[n].world.books, k)).Some?
    requires IdentityOf(At(services[m].world.books, k)).Some? ==> MissingIffCut(services, events, m, k)
    ensures MissingIffCut(services, events, n, k)
  {
    hide ServiceBacked, EvaluatesAhead, Restarts, FlagsAlert, IsStart, Sound, Missing, At, IdentityOf, CaughtUp;
    var s, s', atMs, seed := services[m], services[n], events[m].atMs, events[m].seed;
    RunStaysBacked(services, events, m);
    assert Next(s, Restart(atMs, seed), s');
    RestartedMissesNothing(s, atMs, seed, s', k);
    if WaitingAbout(s, k) {
      var e := EvaluationBehind(services, events, m);
      WaitingWasRewritten(services, events, e, m, k);
      RewrittenWhileWaiting(services, events, e, m, n, k);
    } else {
      RestartMissesNothing(s, atMs, seed, s', k);
      RestartsCutNothing(services, events, m, n, k);
    }
    hide IsRun;
  }

  lemma RestartedMissesNothing(s: Service, atMs: int, seed: seq<Alert>, s': Service, k: Fingerprint)
    requires ServiceBacked(s) && Next(s, Restart(atMs, seed), s')
    ensures !Missing(CaughtUp(s'), k)
  {
    hide ServiceBacked, Sound, Missing, Restarts;
    RestartKeepsServiceBacked(s, atMs, seed, s');
    SoundMissesNothing(s'.world, k);
    assert CaughtUp(s') == s'.world;
  }

  /** A delta about a fingerprint waits: then no expiry has come since it was sent. */
  lemma RewrittenWhileWaiting(services: seq<Service>, events: seq<Event>, e: nat, m: nat, n: nat, k: Fingerprint)
    requires m < |events| && |services| == |events| + 1 && events[m].Restart? && n == m + 1
    requires WaitingSince(services, events, e, m) && Rewrites(services[e], events[e], k)
    ensures forall j: nat :: !LastCut(services, events, j, n, k)
  {
    hide Rewrites;
  }

  lemma RestartsCutNothing(services: seq<Service>, events: seq<Event>, m: nat, n: nat, k: Fingerprint)
    requires m < |events| && |services| == |events| + 1 && events[m].Restart? && n == m + 1
    requires forall j: nat :: !LastCut(services, events, j, m, k)
    ensures forall j: nat :: !LastCut(services, events, j, n, k)
  {
    hide Rewrites;
    forall j: nat
      ensures !LastCut(services, events, j, n, k)
    {
      assert !LastCut(services, events, j, m, k);
    }
  }

  /**
   * At every point of every run, the incident a fingerprint stands for, open or remembered, has no row, neither in the
   * table nor in the waiting delta, if and only if an expiry took the row and no record of the incident has been sent
   * since.
   */
  lemma {:induction false} RowIsMissingIff(services: seq<Service>, events: seq<Event>, n: nat, k: Fingerprint)
    requires IsRun(services, events) && n < |services| && IdentityOf(At(services[n].world.books, k)).Some?
    ensures Missing(CaughtUp(services[n]), k) <==> exists j :: LastCut(services, events, j, n, k)
  {
    hide Next, ServiceBacked, Missing, Cuts, Rewrites, At, IdentityOf, IsStart, CaughtUp, LastCut;
    if n == 0 {
      StartMisses(services[0], k);
      NothingCutYet(services, events, n, k);
    } else {
      var m := n - 1;
      var s, event, s' := services[m], events[m], services[n];
      RunStaysBacked(services, events, m);
      if event.Evaluation? {
        assert EvaluatesAhead(s, event.sample, event.changed, s') by {
          EvaluationIsAhead(s, event, s');
        }
        EvaluationSends(s, event.sample, event.changed, s', k);
        if Rewrites(s, event, k) {
          RewritingIsNoCut(services, events, m, n, k);
        } else {
          RowIsMissingIff(services, events, m, k);
          OnlyAnExpiryCuts(s, event, k);
          SilenceKeepsCuts(services, events, m, n, k);
        }
      } else if event.Restart? {
        if IdentityOf(At(s.world.books, k)).Some? {
          RowIsMissingIff(services, events, m, k);
        }
        RestartCutsNothing(services, events, m, n, k);
      } else {
        OthersMissAlike(s, event, s', k);
        RowIsMissingIff(services, events, m, k);
        OnlyAnEvaluationRewrites(s, event, k);
        SilenceKeepsCuts(services, events, m, n, k);
      }
    }
  }

  lemma EvaluationIsAhead(s: Service, event: Event, s': Service)
    requires event.Evaluation? && Next(s, event, s')
    ensures EvaluatesAhead(s, event.sample, event.changed, s')
  {
    hide EvaluatesAhead;
  }

  lemma OnlyAnExpiryCuts(s: Service, event: Event, k: Fingerprint)
    ensures !event.Expiry? ==> !Cuts(s, event, k)
  {
  }

  lemma OnlyAnEvaluationRewrites(s: Service, event: Event, k: Fingerprint)
    ensures !event.Evaluation? ==> !Rewrites(s, event, k)
  {
  }

  lemma NothingCutYet(services: seq<Service>, events: seq<Event>, n: nat, k: Fingerprint)
    requires |services| == |events| + 1 && n == 0
    ensures forall j: nat :: !LastCut(services, events, j, n, k)
  {
  }

  lemma RewritingIsNoCut(services: seq<Service>, events: seq<Event>, m: nat, n: nat, k: Fingerprint)
    requires m < |events| && |services| == |events| + 1 && Rewrites(services[m], events[m], k) && n == m + 1
    ensures forall j: nat :: !LastCut(services, events, j, n, k)
  {
  }

  lemma StartMisses(s: Service, k: Fingerprint)
    requires IsStart(s)
    ensures !Missing(CaughtUp(s), k)
  {
    hide Sound, TableSound, Missing;
    StartIsSound(s);
    SoundMissesNothing(s.world, k);
    assert CaughtUp(s) == s.world;
  }

  /** No fingerprint is open and remembered at once, and no identifier ever stands for two of them. */
  lemma IdentitiesStayApart(services: seq<Service>, events: seq<Event>, i: nat)
    requires IsRun(services, events) && i < |services|
    ensures services[i].world.books.active.Keys !! services[i].world.books.resolvedMemory.Keys
    ensures DistinctIdentities(services[i].world.books)
  {
    RunStaysBacked(services, events, i);
    var b, w := services[i].world.books, CaughtUp(services[i]);
    var full: Rows :| Backs(full, w);
    forall k | k in b.active
      ensures k !in b.resolvedMemory
    {
      assert Tidy(At(b, k)) && At(b, k).alert.Some?;
    }
    hide DistinctIdentities, RowsSound, PastIsPast;
  }

  // ------------------------------------------------------------------- restarts

  /**
   * Over whole runs, with no delta waiting: a restart forgets an open incident if and only if an expiry took its row
   * behind the engine's back.
   */
  lemma RestartsForgetIff(services: seq<Service>, events: seq<Event>, n: nat, atMs: int, seed: seq<Alert>, w': World,
                          k: Fingerprint)
    requires IsRun(services, events) && n < |services| && services[n].waiting.None?
    requires Reopens(services[n].world, atMs, seed, w') && |ResolvedJustAt(w'.rows, atMs)| <= RECENT_LIMIT
    requires k in services[n].world.books.active
    ensures At(w'.books, k).memory.None? <==> exists j :: LastCut(services, events, j, n, k)
  {
    var w := services[n].world;
    RunStaysBacked(services, events, n);
    assert CaughtUp(services[n]) == w;
    assert IdentityOf(At(w.books, k)) == Some(w.books.active[k].id);
    RowIsMissingIff(services, events, n, k);
    hide IsRun, LastCut, Missing, Reopens;
    RestartReattaches(w, atMs, seed, w', k);
  }

  /** Flags and latches while a delta waits leave the rows as they are, flags aside. */
  lemma {:induction false} RowsWait(services: seq<Service>, events: seq<Event>, e: nat, n: nat)
    requires IsRun(services, events) && n < |services| && WaitingSince(services, events, e, n)
    ensures var (w, w') := (services[e].world, services[n].world);
            && w'.rows.Keys == w.rows.Keys && Within(w'.rows, w.rows) && Consistent(w'.rows)
            && w.nowMs <= w'.nowMs && w.issued <= w'.issued
    ensures services[e].waiting.None? && Backed(services[e].world)
  {
    hide ServiceBacked, Backed, IsStart, EvaluatesAhead, FlagsAlert, BareRow, Consistent, Worlds.RowFlagged;
    assert Next(services[e], events[e], services[e + 1]);
    RunStaysBacked(services, events, e);
    BackedBeforeEvaluating(services[e], events[e], services[e + 1]);
    if n == e + 1 {
    } else {
      var m := n - 1;
      assert Next(services[m], events[m], services[n]);
      RowsWait(services, events, e, m);
      if events[m].RowFlagged? {
        RunStaysBacked(services, events, m);
        RowFlagCaughtUp(services[m], services[n]);
        var id, flag := services[m].underway.value.id, services[m].underway.value.flag;
        FlaggingKeepsWithin(services[m].world.rows, services[e].world.rows, id, flag);
        FlaggingKeepsFingerprints(services[m].world.rows, id, flag);
        FlaggingKeepsConsistent(services[m].world.rows, id, flag);
      }
    }
  }

  lemma BackedBeforeEvaluating(s: Service, event: Event, s': Service)
    requires event.Evaluation? && Next(s, event, s') && ServiceBacked(s)
    ensures s.waiting.None? && Backed(s.world) && s'.world.rows == s.world.rows && Consistent(s.world.rows)
    ensures s.world.nowMs <= s'.world.nowMs && s.world.issued <= s'.world.issued
    ensures Within(s.world.rows, s.world.rows)
  {
    hide Backed, Evaluated, Delivers, UpsertAll, Consistent;
    assert CaughtUp(s) == s.world;
    assert Consistent(s.world.rows) by {
      BackedTables(s.world);
    }
  }

  /**
   * A service that dies between an evaluation and its upsert comes back as if the evaluation had never been: it recalls
   * what the engine stood for before.
   */
  lemma CrashesUndoTheEvaluation(services: seq<Service>, events: seq<Event>, e: nat, n: nat, k: Fingerprint)
    requires IsRun(services, events) && n < |events| && WaitingSince(services, events, e, n) && events[n].Restart?
    ensures At(services[n + 1].world.books, k)
            == BLANK.(memory := Recalled(services[e].world, k, events[n].atMs))
  {
    hide IsStart, EvaluatesAhead, FlagsAlert, Restarts, Worlds.RowFlagged, Backs, At, IdentityOf;
    assert Next(services[n], events[n], services[n + 1]);
    RowsWait(services, events, e, n);
    var was, now := services[e].world, services[n].world;
    TimePasses(was, now.nowMs, now.issued);
    var aged := was.(nowMs := now.nowMs, issued := now.issued);
    var u := now.(books := was.books);
    var full: Rows :| Backs(full, aged);
    assert Backs(full, u) by {
      SmallerTablesAreBacked(aged, u, full);
    }
    RestartsForgetTheEngine(now, was.books, events[n].atMs, events[n].seed, services[n + 1].world);
    RestartRecalls(u, events[n].atMs, events[n].seed, services[n + 1].world, k);
    assert Missing(u, k) == Missing(was, k);
  }

  lemma SmallerTablesAreBacked(w: World, u: World, full: Rows)
    requires Backs(full, w) && u == w.(rows := u.rows) && Consistent(u.rows) && Within(u.rows, w.rows)
    ensures Backs(full, u)
  {
    hide Sound, BareRow;
    assert Over(u, full) == Over(w, full);
  }
}
