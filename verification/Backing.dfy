/**
 * Engine and table when rows may be gone or flagged otherwise than the engine's alerts: what every step leaves of the
 * agreement, and what a restart finds.
 */
module Backing {
  import opened Models
  import opened Incidents
  import opened Lifecycle
  import opened Alerting
  import opened AlertTable
  import opened Worlds

  // ---------------------------------------------------------------- invariant

  /** A row with its user's flags put aside. */
  function BareRow(row: Row): Row {
    row.(archived := false, payload := Bare(row.payload))
  }

  /** Every row of one table is in the other, flags aside. */
  predicate Within(rows: Rows, full: Rows) {
    forall id :: id in rows ==> id in full && BareRow(rows[id]) == BareRow(full[id])
  }

  /** The same world over another table. */
  function Over(w: World, full: Rows): World {
    w.(rows := full)
  }

  /** The table is what is left, flags aside, of one in full agreement with the engine. */
  ghost predicate Backed(w: World) {
    exists full :: Backs(full, w)
  }

  ghost predicate Backs(full: Rows, w: World) {
    Sound(Over(w, full)) && Consistent(w.rows) && Within(w.rows, full)
  }

  lemma SoundIsBacked(w: World)
    requires Sound(w)
    ensures Backed(w)
  {
    assert Over(w, w.rows) == w;
    assert Backs(w.rows, w);
  }

  lemma PartsOfTablesAreSound(w: World, full: Rows)
    requires TableSound(Over(w, full)) && Consistent(w.rows) && Within(w.rows, full)
    ensures TableSound(w)
  {
    hide Consistent;
    forall id | id in w.rows
      ensures id in full && w.rows[id].resolvedAtMs == full[id].resolvedAtMs
              && w.rows[id].payload.fingerprint == full[id].payload.fingerprint
    {
      SameBareRow(w.rows[id], full[id]);
    }
    hide Within;
    forall i, j | Current(w.rows, w.nowMs, i) && Current(w.rows, w.nowMs, j) && SameFingerprint(w.rows, i, j)
      ensures i == j
    {
      assert Current(full, w.nowMs, i) && Current(full, w.nowMs, j) && SameFingerprint(full, i, j);
    }
  }

  lemma SameBareRow(r: Row, q: Row)
    requires BareRow(r) == BareRow(q)
    ensures r.firstSeenMs == q.firstSeenMs && r.lastSeenMs == q.lastSeenMs && r.resolvedAtMs == q.resolvedAtMs
    ensures r.payload.fingerprint == q.payload.fingerprint && r.payload.id == q.payload.id
    ensures SeededFrom(r.payload) == SeededFrom(q.payload)
  {
    assert SeededFrom(Bare(r.payload)) == SeededFrom(r.payload) && SeededFrom(Bare(q.payload)) == SeededFrom(q.payload);
  }

  lemma BackedTables(w: World)
    requires Backed(w)
    ensures TableSound(w)
  {
    hide Sound;
    var full: Rows :| Backs(full, w);
    SoundTables(Over(w, full));
    PartsOfTablesAreSound(w, full);
  }

  /** A restart needs nothing of the engine that went before: agreement is whole again after it. */
  lemma RestartMakesSound(w: World, atMs: int, seed: seq<Alert>, w': World)
    requires Backed(w) && Restarts(w, atMs, seed, w')
    ensures Sound(w')
  {
    hide Sound, Restarts, TableSound, Backed;
    BackedTables(w);
    RestartKeepsSound(w, atMs, seed, w');
  }

  /** Time passing and identifiers being issued take nothing away. */
  lemma TimePasses(w: World, nowMs: int, issued: set<AlertId>)
    requires Backed(w) && w.nowMs <= nowMs && w.issued <= issued
    ensures Backed(w.(nowMs := nowMs, issued := issued))
  {
    hide SlotsSound, RowsSound, Consistent, Within, At, IdentityOf, DistinctIdentities;
    var w' := w.(nowMs := nowMs, issued := issued);
    var full: Rows :| Backs(full, w);
    assert SlotsSound(Over(w', full)) && RowsSound(Over(w', full)) by {
      OnlyTheClockMoved(Over(w, full), Over(w', full));
    }
    assert Backs(full, w');
  }

  lemma OnlyTheClockMoved(w: World, w': World)
    requires w' == w.(nowMs := w'.nowMs, issued := w'.issued) && SlotsSound(w) && RowsSound(w)
    ensures SlotsSound(w') && RowsSound(w')
  {
  }

  // ------------------------------------------------------------- one evaluation

  /** What an evaluation delivers goes to distinct rows, which hold it afterwards exactly. */
  lemma DeliveriesHold(w: World, sample: Sample, changed: seq<Alert>, w': World)
    requires Sound(w) && Evaluates(w, sample, changed, w')
    ensures AllMove(w, sample, w') && DistinctIds(changed) && DistinctIdentities(w'.books)
    ensures forall a :: a in changed ==> RowHolds(w'.rows, a)
  {
    assert AllMove(w, sample, w') by {
      hide KeyMoves, Sound, Evaluates;
      forall k
        ensures KeyMoves(w, sample, w', k)
      {
        EveryKeyMoves(w, sample, changed, w', k);
      }
    }
    EvaluationKeepsIdentities(w, sample, w');
    EmissionsAreDistinct(w, sample, changed, w');
    EvaluationWrites(w, sample, changed, w');
    hide EmittedAt, Sound, Writes, KeyMoves, RowHolds;
    forall a | a in changed
      ensures RowHolds(w'.rows, a)
    {
      WrittenRowHolds(w, sample, w', a.fingerprint);
    }
  }

  /** Of one record the smaller table makes what the larger makes of it. */
  lemma UpsertsAlike(rows: Rows, full: Rows, a: Alert)
    requires Within(rows, full) && a.id in Upsert(full, a) && RowHolds(Upsert(full, a), a)
    ensures Upsert(rows, a)[a.id] == Row(a.firstSeenMs, a.lastSeenMs, a.resolvedAtMs, a.archived, a)
    ensures a.id in rows ==> rows[a.id].firstSeenMs == a.firstSeenMs
  {
    if a.id in rows {
      SameBareRow(rows[a.id], full[a.id]);
    }
  }

  /** The same delta on a smaller table leaves a part of what it leaves on the larger. */
  lemma UpsertsStayWithin(rows: Rows, full: Rows, changed: seq<Alert>)
    requires Within(rows, full) && Consistent(rows) && DistinctIds(changed)
    requires forall a :: a in changed ==> RowHolds(UpsertAll(full, changed), a)
    ensures Within(UpsertAll(rows, changed), UpsertAll(full, changed)) && Consistent(UpsertAll(rows, changed))
    ensures forall a :: a in changed ==> RowHolds(UpsertAll(rows, changed), a)
  {
    UpsertAllWritesEach(rows, changed);
    UpsertAllWritesEach(full, changed);
    hide UpsertAll, Upsert, BareRow;
    var rows', full' := UpsertAll(rows, changed), UpsertAll(full, changed);
    forall a | a in changed
      ensures RowHolds(rows', a)
    {
      UpsertHolds(full, a);
      UpsertsAlike(rows, full, a);
    }
    forall id | id in rows'
      ensures id in full' && BareRow(rows'[id]) == BareRow(full'[id])
      ensures rows'[id].payload.id == id && RowHolds(rows', rows'[id].payload)
    {
      if a :| a in changed && a.id == id {
        assert RowHolds(full', a) && RowHolds(rows', a);
      } else {
        assert id in rows && rows'[id] == rows[id] && RowHolds(rows, rows[id].payload);
      }
    }
  }

  lemma UpsertHolds(rows: Rows, a: Alert)
    ensures a.id in Upsert(rows, a) && Upsert(rows, a)[a.id].payload == a
    ensures Upsert(rows, a)[a.id] == Row(Upsert(rows, a)[a.id].firstSeenMs, a.lastSeenMs, a.resolvedAtMs, a.archived, a)
  {
  }

  lemma EvaluationKeepsBacked(w: World, sample: Sample, changed: seq<Alert>, w': World, full: Rows)
    requires Backs(full, w) && Evaluates(w, sample, changed, w')
    ensures Backs(UpsertAll(full, changed), w')
    ensures Evaluates(Over(w, full), sample, changed, Over(w', UpsertAll(full, changed)))
    ensures DistinctIds(changed) && forall a :: a in changed ==> RowHolds(w'.rows, a)
  {
    var v, v' := Over(w, full), Over(w', UpsertAll(full, changed));
    assert Evaluates(v, sample, changed, v');
    hide Sound, Evaluates, Within, Consistent;
    EvaluationKeepsSound(v, sample, changed, v');
    DeliveriesHold(v, sample, changed, v');
    UpsertsStayWithin(w.rows, full, changed);
  }

  // -------------------------------------------------------- flags, latches, expiry

  /** The engine's half of a flag. */
  lemma AlertFlagKeepsBacked(w: World, id: AlertId, flag: Flag, b: Books, full: Rows)
    requires Backs(full, w) && FlagsAlert(w.books, id, flag, b)
    ensures Backs(FlaggedRows(full, id, flag), w.(books := b)) && b == FlaggedBooks(w.books, id, flag)
  {
    hide Sound, FlagsAlert, RowFlagged, FlaggedBooks, Consistent;
    var v := Over(w, full);
    var v' := v.(books := b, rows := RowFlagged(full, id, flag));
    FlagKeepsSound(v, id, flag, v');
    FlaggingKeepsWithin(w.rows, full, id, flag);
    assert Over(w.(books := b), FlaggedRows(full, id, flag)) == v';
  }

  lemma FlaggingKeepsWithin(rows: Rows, full: Rows, id: AlertId, flag: Flag)
    requires Within(rows, full)
    ensures Within(rows, FlaggedRows(full, id, flag)) && Within(FlaggedRows(rows, id, flag), full)
  {
  }

  /** The table's half. */
  lemma RowFlagKeepsBacked(w: World, id: AlertId, flag: Flag, full: Rows)
    requires Backs(full, w)
    ensures Backs(full, w.(rows := RowFlagged(w.rows, id, flag)))
    ensures RowFlagged(w.rows, id, flag) == FlaggedRows(w.rows, id, flag)
  {
    hide Sound;
    RowFlagIsExact(w.rows, id, flag);
    FlaggingKeepsWithin(w.rows, full, id, flag);
    FlaggingKeepsConsistent(w.rows, id, flag);
    assert Over(w.(rows := RowFlagged(w.rows, id, flag)), full) == Over(w, full);
  }

  lemma FlaggingKeepsConsistent(rows: Rows, id: AlertId, flag: Flag)
    requires Consistent(rows)
    ensures Consistent(FlaggedRows(rows, id, flag))
  {
    hide RowHolds;
    forall i | i in rows
      ensures FlaggedRows(rows, id, flag)[i].payload.id == i
              && RowHolds(FlaggedRows(rows, id, flag), FlaggedRows(rows, id, flag)[i].payload)
    {
      FlaggedRowHolds(rows, id, flag, rows[i].payload);
    }
  }

  lemma LatchKeepsBacked(w: World, full: Rows)
    requires Backs(full, w)
    ensures Backs(full, w.(books := w.books.(pendingVerdictChange := true)))
  {
    hide Sound;
    LatchKeepsSound(Over(w, full));
  }

  lemma ExpiryKeepsBacked(w: World, retentionDays: nat, full: Rows)
    requires Backs(full, w)
    ensures Backs(full, Expired(w, retentionDays))
  {
    hide Sound;
    assert Over(Expired(w, retentionDays), full) == Over(w, full);
  }

  // ------------------------------------------------------- when a row is missing

  /** A fingerprint stands for an incident, open or remembered, that the table has no row of. */
  predicate Missing(w: World, k: Fingerprint) {
    IdentityOf(At(w.books, k)).Some? && IdentityOf(At(w.books, k)).value !in w.rows
  }

  lemma SilenceKeepsIdentity(s: Slot, t: Tick)
    requires Tidy(s) && Step(s, t).emitted.None? && IdentityOf(Step(s, t).slot).Some?
    ensures IdentityOf(Step(s, t).slot) == IdentityOf(s)
  {
    SilentMeansUnchanged(s, t);
    if s.alert.None? {
      StayingClosedForgets(s, t);
    }
    hide Step;
  }

  lemma EvaluationMisses(w: World, sample: Sample, changed: seq<Alert>, w': World, k: Fingerprint)
    requires Backed(w) && Evaluates(w, sample, changed, w') && IdentityOf(At(w'.books, k)).Some?
    ensures EmittedAt(w.books, sample, k).Some? ==> !Missing(w', k)
    ensures EmittedAt(w.books, sample, k).None? ==>
              IdentityOf(At(w.books, k)) == IdentityOf(At(w'.books, k)) && (Missing(w', k) <==> Missing(w, k))
  {
    hide Sound, KeyMoves, IdentityOf, At, Step, Within, FreshMint;
    var full: Rows :| Backs(full, w);
    EvaluationKeepsBacked(w, sample, changed, w', full);
    var v, v' := Over(w, full), Over(w', UpsertAll(full, changed));
    DeliveriesHold(v, sample, changed, v');
    UpsertAllWritesEach(w.rows, changed);
    hide UpsertAll, Upsert, RowHolds, Backs, Backed;
    IdentityMoves(v, sample, v', k);
    if EmittedAt(w.books, sample, k).None? {
      assert Tidy(At(w.books, k)) by {
        SoundSlot(v, k);
      }
      SilenceKeepsIdentity(At(w.books, k), TickFor(sample, k));
      forall a | a in changed
        ensures a.id != IdentityOf(At(w'.books, k)).value
      {
        assert KeyMoves(v, sample, v', a.fingerprint);
        IdentityMoves(v, sample, v', a.fingerprint);
        assert EmittedAt(w.books, sample, a.fingerprint) == Some(a);
      }
    }
  }

  lemma SoundSlot(w: World, k: Fingerprint)
    requires Sound(w)
    ensures Tidy(At(w.books, k))
  {
    hide Tidy, At;
  }

  /** A current row is the one its fingerprint stands for. */
  lemma CurrentIsStoodFor(w: World, id: AlertId)
    requires Backed(w) && Current(w.rows, w.nowMs, id) && w.rows[id].payload.fingerprint != Absent
    ensures IdentityOf(At(w.books, w.rows[id].payload.fingerprint)) == Some(id)
  {
    hide SlotsSound, IdentitiesSound, Tidy, BareRow, Consistent;
    var full: Rows :| Backs(full, w);
    assert id in full && BareRow(full[id]) == BareRow(w.rows[id]);
    SameBareRow(full[id], w.rows[id]);
  }

  /** A restart stands for nothing but what it read, and what it read had been current. */
  lemma RestartReads(w: World, atMs: int, seed: seq<Alert>, w': World, k: Fingerprint)
    requires TableSound(w) && Reopens(w, atMs, seed, w') && IdentityOf(At(w'.books, k)).Some?
    ensures var id := IdentityOf(At(w'.books, k)).value;
            id in w'.rows && Current(w.rows, w.nowMs, id) && w.rows[id].payload.fingerprint == k != Absent
  {
    assert Consistent(w.rows);
    hide TableSound, Consistent;
    RestartIsBlank(w, atMs, seed, w', k);
    var id := RestartMemory(w, atMs, seed, w', k);
    RestartedRow(w, atMs, id.value);
  }

  lemma RestartMisses(w: World, atMs: int, seed: seq<Alert>, w': World, k: Fingerprint)
    requires Backed(w) && Reopens(w, atMs, seed, w') && IdentityOf(At(w'.books, k)).Some?
    ensures !Missing(w', k) && !Missing(w, k) && IdentityOf(At(w.books, k)) == IdentityOf(At(w'.books, k))
  {
    hide Sound, Consistent, Within, Backed, TableSound, Reopens, IdentityOf, At;
    BackedTables(w);
    RestartReads(w, atMs, seed, w', k);
    CurrentIsStoodFor(w, IdentityOf(At(w'.books, k)).value);
  }

  lemma SoundMissesNothing(w: World, k: Fingerprint)
    requires Sound(w)
    ensures !Missing(w, k)
  {
    hide IdentitiesSound, PastIsPast, Tidy;
  }

  /**
   * One expiry, for what was all there before it: every open alert keeps its row iff none was last seen too long ago.
   */
  lemma ExpiryKeepsOpenRowsIff(w: World, retentionDays: nat)
    requires Sound(w)
    ensures (forall k :: k in w.books.active ==> w.books.active[k].id in Expired(w, retentionDays).rows)
            <==> forall k :: k in w.books.active ==> w.nowMs - w.books.active[k].lastSeenMs <= retentionDays * DAY_MS
  {
    forall k | k in w.books.active
      ensures w.books.active[k].id in Expired(w, retentionDays).rows
              <==> w.nowMs - w.books.active[k].lastSeenMs <= retentionDays * DAY_MS
    {
      assert RowHolds(w.rows, w.books.active[k]);
    }
    hide Sound, RowHolds, Expired;
  }

  /** An expiry takes the row of the incident a fingerprint stands for. */
  predicate TakesRow(w: World, retentionDays: nat, k: Fingerprint) {
    && IdentityOf(At(w.books, k)).Some? && IdentityOf(At(w.books, k)).value in w.rows
    && w.rows[IdentityOf(At(w.books, k)).value].lastSeenMs < w.nowMs - retentionDays * DAY_MS
  }

  /** The row of every open alert, where there is one, says what the alert says, flags and all. */
  predicate FlagsAgree(w: World) {
    forall k :: k in w.books.active && w.books.active[k].id in w.rows ==>
      w.rows[w.books.active[k].id].payload == w.books.active[k]
  }

  /**
   * A table from which nothing is missing that the engine stands for, and whose open rows carry the engine's flags, is
   * in full agreement with it.
   */
  lemma WholeIsSound(w: World, full: Rows)
    requires Backs(full, w) && (forall k :: !Missing(w, k)) && FlagsAgree(w)
    ensures Sound(w)
  {
    WholeRowsAreSound(w, full);
    WholePastIsPast(w, full);
    hide RowsSound, At, IdentityOf, Tidy, Missing, PastIsPast;
  }

  lemma WholePastIsPast(w: World, full: Rows)
    requires Backs(full, w)
    ensures PastIsPast(w)
  {
    hide SlotsSound, IdentitiesSound, RowsSound, At, IdentityOf, BareRow;
    forall id | id in w.rows
      ensures w.rows[id].resolvedAtMs == full[id].resolvedAtMs
              && w.rows[id].payload.fingerprint == full[id].payload.fingerprint
    {
      SameBareRow(w.rows[id], full[id]);
    }
  }

  lemma WholeRowsAreSound(w: World, full: Rows)
    requires Backs(full, w) && (forall k :: !Missing(w, k)) && FlagsAgree(w)
    ensures RowsSound(w)
  {
    hide IdentitiesSound, PastIsPast, BareRow;
    forall k | k in w.books.active
      ensures RowHolds(w.rows, w.books.active[k])
    {
      assert IdentityOf(At(w.books, k)) == Some(w.books.active[k].id);
      assert !Missing(w, k);
      assert RowHolds(w.rows, w.rows[w.books.active[k].id].payload);
    }
    forall k | k in w.books.resolvedMemory
      ensures RowRemembers(w.rows, k, w.books.resolvedMemory[k])
    {
      assert Tidy(At(w.books, k)) && k !in w.books.active;
      var id := w.books.resolvedMemory[k].id;
      assert IdentityOf(At(w.books, k)) == Some(id);
      assert !Missing(w, k);
      SameBareRow(w.rows[id], full[id]);
    }
    forall id | id in w.rows && w.rows[id].resolvedAtMs.None?
      ensures var k := w.rows[id].payload.fingerprint; k in w.books.active && w.books.active[k].id == id
    {
      SameBareRow(w.rows[id], full[id]);
    }
  }

  /** The agreement stays whole over an expiry exactly when the expiry reaches nothing the engine stands for. */
  lemma ExpiryKeepsSoundIff(w: World, retentionDays: nat)
    requires Sound(w)
    ensures Sound(Expired(w, retentionDays)) <==> forall k :: !TakesRow(w, retentionDays, k)
  {
    var w' := Expired(w, retentionDays);
    forall k
      ensures Missing(w', k) <==> TakesRow(w, retentionDays, k)
    {
      SoundMissesNothing(w, k);
    }
    assert Over(w', w.rows) == w && Backs(w.rows, w');
    assert FlagsAgree(w') by {
      SoundFlagsAgree(w);
    }
    hide TakesRow, Missing, Backs, Sound;
    if Sound(w') {
      forall k
        ensures !TakesRow(w, retentionDays, k)
      {
        SoundMissesNothing(w', k);
      }
    }
    if forall k :: !TakesRow(w, retentionDays, k) {
      WholeIsSound(w', w.rows);
    }
  }

  lemma SoundFlagsAgree(w: World)
    requires Sound(w)
    ensures FlagsAgree(w)
  {
    hide SlotsSound, IdentitiesSound, PastIsPast;
  }

  /** Flags aside, an open alert and its row say the same, and an unresolved row is that of an open alert. */
  lemma BackedRows(w: World)
    requires Backed(w)
    ensures forall id :: id in w.rows && w.rows[id].resolvedAtMs.None? ==>
                           var k := w.rows[id].payload.fingerprint;
                           k in w.books.active && w.books.active[k].id == id
    ensures forall k :: k in w.books.active && w.books.active[k].id in w.rows ==>
                          var row := w.rows[w.books.active[k].id];
                          Bare(row.payload) == Bare(w.books.active[k]) && row.resolvedAtMs.None?
                          && row.lastSeenMs == w.books.active[k].lastSeenMs
  {
    var full: Rows :| Backs(full, w);
    hide IdentitiesSound, PastIsPast, Bare;
    forall k | k in w.books.active
      ensures RowHolds(full, w.books.active[k]) && w.books.active[k].resolvedAtMs.None?
    {
      assert At(w.books, k).alert == Some(w.books.active[k]) && Tidy(At(w.books, k));
    }
    hide SlotsSound, Consistent;
    forall id | id in w.rows
      ensures id in full && w.rows[id].resolvedAtMs == full[id].resolvedAtMs
              && w.rows[id].payload.fingerprint == full[id].payload.fingerprint
              && w.rows[id].lastSeenMs == full[id].lastSeenMs
              && Bare(w.rows[id].payload) == Bare(full[id].payload)
    {
      SameBareRow(w.rows[id], full[id]);
    }
  }

  // ------------------------------------------------------------------- restarts

  /** The memory a restart leaves of a current row it is handed: what the row says. */
  lemma CurrentIsRemembered(w: World, atMs: int, seed: seq<Alert>, w': World, k: Fingerprint, id: AlertId)
    requires TableSound(w) && Reopens(w, atMs, seed, w') && k != Absent
    requires HandedOut(w'.rows, atMs, id) && id in w.rows && w.rows[id].payload.fingerprint == k
    ensures At(w'.books, k).memory == Some(SeededFrom(w'.rows[id].payload))
  {
    assert w'.rows == ResolveOpen(w.rows, atMs);
    assert w'.rows[id].payload.fingerprint == k;
    hide TableSound, At, Tidy, Reopens, HandedOut, ResolveOpen;
    var found := RestartMemory(w, atMs, seed, w', k);
  }

  /** The rows resolved at one instant. */
  function ResolvedJustAt(rows: Rows, atMs: int): set<AlertId> {
    set id | id in rows && rows[id].resolvedAtMs == Some(atMs)
  }

  lemma JustClosedAreHandedOut(w: World, atMs: int, seed: seq<Alert>, w': World, id: AlertId)
    requires TableSound(w) && Reopens(w, atMs, seed, w') && id in w.rows && w.rows[id].resolvedAtMs.None?
    requires |ResolvedJustAt(w'.rows, atMs)| <= RECENT_LIMIT
    ensures HandedOut(w'.rows, atMs, id)
  {
    var since := atMs - QUIET_PERIOD_MS;
    assert w'.rows == ResolveOpen(w.rows, atMs);
    forall i | i in NoOlder(w'.rows, since, id)
      ensures i in ResolvedJustAt(w'.rows, atMs)
    {
      assert w.rows[i].resolvedAtMs.Some? ==> w.rows[i].resolvedAtMs.value <= w.nowMs;
    }
    SmallerSets(NoOlder(w'.rows, since, id), ResolvedJustAt(w'.rows, atMs));
  }

  lemma OpenIsNamed(w: World, k: Fingerprint)
    requires Backed(w) && k in w.books.active
    ensures k != Absent && w.books.active[k].fingerprint == k && w.books.active[k].resolvedAtMs.None?
  {
    var full: Rows :| Backs(full, w);
    hide IdentitiesSound, RowsSound, PastIsPast;
    assert At(w.books, k).alert == Some(w.books.active[k]) && Tidy(At(w.books, k));
  }

  lemma RestartMakesBlank(w: World, atMs: int, seed: seq<Alert>, w': World, k: Fingerprint)
    requires Reopens(w, atMs, seed, w')
    ensures At(w'.books, k) == BLANK.(memory := At(w'.books, k).memory)
  {
    hide At, ResolveOpen, RecentResolved, Eligible;
  }

  /** What is remembered of an open row that a restart closed. */
  lemma ClosedIsRemembered(row: Row, a: Alert, atMs: int)
    requires Bare(row.payload) == Bare(a)
    ensures SeededFrom(ResolvedByRestart(row.payload, atMs)) == Remembered(a, atMs)
  {
    assert SeededFrom(ResolvedByRestart(row.payload, atMs)) == Remembered(Bare(row.payload), atMs);
    assert Remembered(Bare(a), atMs) == Remembered(a, atMs);
  }

  /**
   * A restart remembers exactly the open incident of a fingerprint, resolved at the restart, and so will reopen it,
   * unless its row is missing; then it knows nothing of it. The limit of the query matters only if it is exceeded by
   * the rows resolved at that very instant, which are the open ones.
   */
  lemma RestartReattaches(w: World, atMs: int, seed: seq<Alert>, w': World, k: Fingerprint)
    requires Backed(w) && Reopens(w, atMs, seed, w') && k in w.books.active
    requires |ResolvedJustAt(w'.rows, atMs)| <= RECENT_LIMIT
    ensures At(w'.books, k)
            == BLANK.(memory := if Missing(w, k) then None else Some(Remembered(w.books.active[k], atMs)))
  {
    var a := w.books.active[k];
    OpenIsNamed(w, k);
    BackedRows(w);
    BackedTables(w);
    hide Backed, Sound, Tidy, TableSound, ResolvedByRestart, Remembered;
    assert IdentityOf(At(w.books, k)) == Some(a.id);
    RestartMakesBlank(w, atMs, seed, w', k);
    if IdentityOf(At(w'.books, k)).Some? {
      RestartMisses(w, atMs, seed, w', k);
    }
    if a.id in w.rows {
      SameFingerprintAs(w.rows[a.id], a);
      JustClosedAreHandedOut(w, atMs, seed, w', a.id);
      CurrentIsRemembered(w, atMs, seed, w', k, a.id);
      assert w'.rows[a.id].payload == ResolvedByRestart(w.rows[a.id].payload, atMs);
      ClosedIsRemembered(w.rows[a.id], a, atMs);
    }
  }

  lemma SameFingerprintAs(row: Row, a: Alert)
    requires Bare(row.payload) == Bare(a)
    ensures row.payload.fingerprint == a.fingerprint
  {
  }

  lemma MemoryIsNamed(w: World, k: Fingerprint)
    requires Backed(w) && k in w.books.resolvedMemory
    ensures var m := w.books.resolvedMemory[k];
            && k != Absent && k !in w.books.active && IdentityOf(At(w.books, k)) == Some(m.id)
            && (m.id in w.rows ==> RowRemembers(w.rows, k, m))
  {
    var full: Rows :| Backs(full, w);
    hide IdentitiesSound, PastIsPast, BareRow;
    assert Tidy(At(w.books, k)) && At(w.books, Absent).memory.None?;
    var m := w.books.resolvedMemory[k];
    assert RowRemembers(full, k, m);
    if m.id in w.rows {
      SameBareRow(w.rows[m.id], full[m.id]);
    }
  }

  /** A restart leaves resolved rows alone. */
  lemma ResolvedRowsStay(w: World, atMs: int, seed: seq<Alert>, w': World, k: Fingerprint, m: ResolvedIncident)
    requires Reopens(w, atMs, seed, w') && RowRemembers(w.rows, k, m)
    ensures m.id in w'.rows && w'.rows[m.id] == w.rows[m.id] && SeededFrom(w'.rows[m.id].payload) == m
    ensures m.id in Eligible(w'.rows, atMs - QUIET_PERIOD_MS) <==> atMs - m.resolvedAtMs <= QUIET_PERIOD_MS
  {
    assert w'.rows == ResolveOpen(w.rows, atMs);
    hide Reopens;
  }

  /** What is remembered of a remembered incident is the same as before, and its row is there and recent. */
  lemma FoundAsRemembered(w: World, atMs: int, seed: seq<Alert>, w': World, k: Fingerprint, m: ResolvedIncident)
    requires Backed(w) && TableSound(w) && Reopens(w, atMs, seed, w') && k != Absent
    requires IdentityOf(At(w.books, k)) == Some(m.id) && (m.id in w.rows ==> RowRemembers(w.rows, k, m))
    requires At(w'.books, k).memory.Some?
    ensures m.id in w.rows && atMs - m.resolvedAtMs <= QUIET_PERIOD_MS && At(w'.books, k).memory == Some(m)
  {
    hide Backed, TableSound, Reopens, RowRemembers, SeededFrom, Eligible, At, IdentityOf;
    RestartIsBlank(w, atMs, seed, w', k);
    RestartMisses(w, atMs, seed, w', k);
    var id := RestartMemory(w, atMs, seed, w', k);
    SeedsKeepIds(w'.rows[id.value].payload);
    RestartReads(w, atMs, seed, w', k);
    RestartKeepsNames(w, atMs, seed, w', id.value);
    assert id.value == m.id;
    ResolvedRowsStay(w, atMs, seed, w', k, m);
  }

  lemma SeedsKeepIds(a: Alert)
    ensures SeededFrom(a).id == a.id
  {
  }

  lemma RestartKeepsNames(w: World, atMs: int, seed: seq<Alert>, w': World, id: AlertId)
    requires TableSound(w) && Reopens(w, atMs, seed, w') && id in w'.rows
    ensures w'.rows[id].payload.id == id
  {
  }

  /** And it keeps exactly the resolved incidents it finds a row of, within the quiet period and the query's limit. */
  lemma RestartKeepsMemories(w: World, atMs: int, seed: seq<Alert>, w': World, k: Fingerprint)
    requires Backed(w) && Reopens(w, atMs, seed, w') && k in w.books.resolvedMemory
    requires |NoOlder(w'.rows, atMs - QUIET_PERIOD_MS, w.books.resolvedMemory[k].id)| <= RECENT_LIMIT
    ensures var m := w.books.resolvedMemory[k];
            At(w'.books, k)
            == BLANK.(memory := if Missing(w, k) || atMs - m.resolvedAtMs > QUIET_PERIOD_MS then None else Some(m))
  {
    hide Backed, TableSound, Reopens, RowRemembers, SeededFrom, Eligible, NoOlder, At, IdentityOf;
    var m := w.books.resolvedMemory[k];
    MemoryIsNamed(w, k);
    BackedTables(w);
    RestartMakesBlank(w, atMs, seed, w', k);
    if At(w'.books, k).memory.Some? {
      FoundAsRemembered(w, atMs, seed, w', k, m);
    } else if m.id in w.rows && atMs - m.resolvedAtMs <= QUIET_PERIOD_MS {
      ResolvedRowsStay(w, atMs, seed, w', k, m);
      RemembersItsOwn(w.rows, k, m);
      CurrentIsRemembered(w, atMs, seed, w', k, m.id);
    }
  }

  lemma RemembersItsOwn(rows: Rows, k: Fingerprint, m: ResolvedIncident)
    requires RowRemembers(rows, k, m)
    ensures m.id in rows && rows[m.id].payload.fingerprint == k
  {
  }

  /** What a restart at some time makes of what a fingerprint stands for. */
  function Recalled(w: World, k: Fingerprint, atMs: int): Option<ResolvedIncident> {
    if Missing(w, k) then None
    else if k in w.books.active then Some(Remembered(w.books.active[k], atMs))
    else if k in w.books.resolvedMemory && atMs - w.books.resolvedMemory[k].resolvedAtMs <= QUIET_PERIOD_MS
    then Some(w.books.resolvedMemory[k])
    else None
  }

  lemma RestartRecalls(w: World, atMs: int, seed: seq<Alert>, w': World, k: Fingerprint)
    requires Backed(w) && Restarts(w, atMs, seed, w')
    ensures At(w'.books, k) == BLANK.(memory := Recalled(w, k, atMs))
  {
    var since := atMs - QUIET_PERIOD_MS;
    if k in w.books.active {
      SmallerSets(ResolvedJustAt(w'.rows, atMs), Eligible(w'.rows, since));
      RestartReattaches(w, atMs, seed, w', k);
    } else if k in w.books.resolvedMemory {
      SmallerSets(NoOlder(w'.rows, since, w.books.resolvedMemory[k].id), Eligible(w'.rows, since));
      MemoryIsNamed(w, k);
      RestartKeepsMemories(w, atMs, seed, w', k);
    } else {
      hide Backed;
      RestartMakesBlank(w, atMs, seed, w', k);
      assert IdentityOf(At(w.books, k)).None?;
      if At(w'.books, k).memory.Some? {
        RestartMisses(w, atMs, seed, w', k);
        assert false;
      }
    }
  }
}
