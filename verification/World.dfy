/**
 * The alert engine and its table together: evaluations with their upserts, user flags, latched verdicts, the daily
 * expiry of old rows, and restarts. Here is what each of them keeps when nothing comes between its two halves; Service
 * takes the halves apart and lets them interleave.
 */
module Worlds {
  import opened Models
  import opened Trend
  import opened Incidents
  import opened Lifecycle
  import opened Alerting
  import opened AlertTable

  datatype World = World(books: Books, rows: Rows, issued: set<AlertId>, nowMs: int)

  /** What a user may say about an incident. */
  datatype Flag = Acknowledging | Archiving(archived: bool)

  // -------------------------------------------------------------- transitions

  /** Identifiers drawn for new incidents are new, and differ between fingerprints. */
  ghost predicate FreshMint(mint: Fingerprint -> AlertId, issued: set<AlertId>) {
    && (forall k :: mint(k) !in issued)
    && (forall j, k :: j != k ==> mint(j) != mint(k))
  }

  predicate Named(candidates: seq<Candidate>) {
    UniqueKeys(candidates) && forall c :: c in candidates ==> c.key != Absent
  }

  function OpenIds(b: Books): set<AlertId> {
    set k | k in b.active :: b.active[k].id
  }

  ghost predicate Evaluates(w: World, sample: Sample, changed: seq<Alert>, w': World) {
    && w.nowMs <= sample.context.nowMs == w'.nowMs
    && Named(sample.candidates) && FreshMint(sample.mint, w.issued)
    && Evaluated(w.books, sample, w'.books) && Delivers(w.books, sample, changed) && Keyed(w'.books.active)
    && w'.rows == UpsertAll(w.rows, changed)
    && w'.issued == w.issued + OpenIds(w'.books)
  }

  function Flagging(a: Alert, flag: Flag): Alert {
    match flag
    case Acknowledging => a.(acknowledged := true)
    case Archiving(archived) => a.(archived := archived)
  }

  function FlagWith(flag: Flag): Alert -> Alert {
    a => Flagging(a, flag)
  }

  /** The engine's half of a user's flag. */
  ghost predicate FlagsAlert(b: Books, id: AlertId, flag: Flag, b': Books) {
    exists out :: UserFlag(b.active, id, FlagWith(flag), b'.active, out) && b' == b.(active := b'.active)
  }

  /** The table's half. */
  function RowFlagged(rows: Rows, id: AlertId, flag: Flag): Rows {
    match flag
    case Acknowledging => Acknowledged(rows, id)
    case Archiving(archived) => Archived(rows, id, archived)
  }

  /** Every row closed, and an engine seeded with what the table hands out of the newest resolutions. */
  ghost predicate Reopens(w: World, atMs: int, seed: seq<Alert>, w': World) {
    && w.nowMs <= atMs == w'.nowMs && w'.issued == w.issued
    && w'.rows == ResolveOpen(w.rows, atMs)
    && RecentResolved(w'.rows, atMs - QUIET_PERIOD_MS, seed)
    && forall k :: At(w'.books, k) == BLANK.(memory := if k == Absent then None else LatestOf(seed, k))
  }

  /** The same, when the limit of the query cuts nothing off. */
  ghost predicate Restarts(w: World, atMs: int, seed: seq<Alert>, w': World) {
    Reopens(w, atMs, seed, w') && |Eligible(w'.rows, atMs - QUIET_PERIOD_MS)| <= RECENT_LIMIT
  }

  /** The table loses the rows last seen longer ago than the retention, at the time of the latest evaluation. */
  function Expired(w: World, retentionDays: nat): World {
    w.(rows := Retained(w.rows, w.nowMs - retentionDays * DAY_MS))
  }

  // ---------------------------------------------------------------- invariant

  /** The incident a fingerprint stands for at the moment: the open one, or the one it would reopen. */
  function IdentityOf(s: Slot): Option<AlertId> {
    if s.alert.Some? then Some(s.alert.value.id)
    else if s.memory.Some? then Some(s.memory.value.id)
    else None
  }

  predicate RowHolds(rows: Rows, a: Alert) {
    a.id in rows && rows[a.id] == Row(a.firstSeenMs, a.lastSeenMs, a.resolvedAtMs, a.archived, a)
  }

  /** What a remembered incident knows is what its resolved row says. */
  predicate RowRemembers(rows: Rows, k: Fingerprint, m: ResolvedIncident) {
    && m.id in rows
    && rows[m.id].payload.fingerprint == k
    && rows[m.id].resolvedAtMs == Some(m.resolvedAtMs)
    && SeededFrom(rows[m.id].payload) == m
  }

  ghost predicate SlotsSound(w: World) {
    && Keyed(w.books.active)
    && (forall k :: Tidy(At(w.books, k)))
    && At(w.books, Absent).alert.None? && At(w.books, Absent).memory.None?
  }

  ghost predicate DistinctIdentities(b: Books) {
    forall j, k :: j != k && IdentityOf(At(b, j)).Some? ==> IdentityOf(At(b, j)) != IdentityOf(At(b, k))
  }

  /** No identifier stands for two fingerprints, and all of them have been issued. */
  ghost predicate IdentitiesSound(w: World) {
    && DistinctIdentities(w.books)
    && (forall k :: IdentityOf(At(w.books, k)).Some? ==> IdentityOf(At(w.books, k)).value in w.issued)
    && w.rows.Keys <= w.issued
  }

  /** Every row is under its payload's identifier, and its columns say what the payload says. */
  predicate Consistent(rows: Rows) {
    forall id :: id in rows ==> rows[id].payload.id == id && RowHolds(rows, rows[id].payload)
  }

  ghost predicate RowsSound(w: World) {
    && Consistent(w.rows)
    && (forall k :: k in w.books.active ==> RowHolds(w.rows, w.books.active[k]))
    && (forall id :: id in w.rows && w.rows[id].resolvedAtMs.None? ==>
                       var k := w.rows[id].payload.fingerprint; k in w.books.active && w.books.active[k].id == id)
    && (forall k :: k in w.books.resolvedMemory ==> RowRemembers(w.rows, k, w.books.resolvedMemory[k]))
  }

  /** A resolved row its fingerprint no longer stands for is past its quiet period. */
  ghost predicate PastIsPast(w: World) {
    forall id :: id in w.rows && w.rows[id].resolvedAtMs.Some? ==>
                   && w.rows[id].resolvedAtMs.value <= w.nowMs
                   && (w.rows[id].payload.fingerprint == Absent
                       || IdentityOf(At(w.books, w.rows[id].payload.fingerprint)) == Some(id)
                       || w.nowMs - w.rows[id].resolvedAtMs.value > QUIET_PERIOD_MS)
  }

  ghost predicate Sound(w: World) {
    SlotsSound(w) && IdentitiesSound(w) && RowsSound(w) && PastIsPast(w)
  }

  /** A row its fingerprint may yet stand for: open, or resolved no longer than a quiet period ago. */
  predicate Current(rows: Rows, nowMs: int, id: AlertId) {
    id in rows && (rows[id].resolvedAtMs.Some? ==> nowMs - rows[id].resolvedAtMs.value <= QUIET_PERIOD_MS)
  }

  predicate SameFingerprint(rows: Rows, i: AlertId, j: AlertId)
    requires i in rows && j in rows
  {
    rows[i].payload.fingerprint == rows[j].payload.fingerprint != Absent
  }

  /**
   * What a table promises whoever opens it: consistent rows, resolved in the past, at most one current row to a
   * fingerprint, and identifiers that will not be issued again.
   */
  ghost predicate TableSound(w: World) {
    && w.rows.Keys <= w.issued
    && Consistent(w.rows)
    && (forall id :: id in w.rows && w.rows[id].resolvedAtMs.Some? ==> w.rows[id].resolvedAtMs.value <= w.nowMs)
    && (forall i, j :: Current(w.rows, w.nowMs, i) && Current(w.rows, w.nowMs, j) && SameFingerprint(w.rows, i, j) ==>
          i == j)
  }

  lemma SoundTables(w: World)
    requires Sound(w)
    ensures TableSound(w)
  {
    hide SlotsSound, Tidy, RowHolds;
    forall id | Current(w.rows, w.nowMs, id) && w.rows[id].payload.fingerprint != Absent
      ensures IdentityOf(At(w.books, w.rows[id].payload.fingerprint)) == Some(id)
    {
    }
    hide At, IdentityOf;
  }

  // ---------------------------------------------------------------- evaluation

  /** One evaluation of a sound world, seen from one fingerprint. */
  ghost predicate KeyMoves(w: World, sample: Sample, w': World, k: Fingerprint) {
    && Moves(At(w.books, k), At(w'.books, k), EmittedAt(w.books, sample, k), sample.context.nowMs, sample.mint(k))
    && Tidy(At(w.books, k)) && Tidy(At(w'.books, k))
    && (EmittedAt(w.books, sample, k).Some? ==> EmittedAt(w.books, sample, k).value.fingerprint == k)
  }

  lemma EveryKeyMoves(w: World, sample: Sample, changed: seq<Alert>, w': World, k: Fingerprint)
    requires Sound(w) && Evaluates(w, sample, changed, w')
    ensures KeyMoves(w, sample, w', k)
  {
    hide Step, Moves, IdentitiesSound, RowsSound, PastIsPast;
    var s, t := At(w.books, k), TickFor(sample, k);
    assert Tidy(s) && (s.alert.Some? ==> s.alert.value.fingerprint == k);
    hide Tidy;
    StepMoves(s, t);
    StepKeepsTidy(s, t);
    CandidateForIsTheOne(sample.candidates, k);
    if EmittedAt(w.books, sample, k).Some? {
      EmittedUnderOwnKey(s, t, k);
    }
  }

  lemma EmittedUnderOwnKey(s: Slot, t: Tick, k: Fingerprint)
    requires Tidy(s) && (s.alert.Some? ==> s.alert.value.fingerprint == k)
    requires t.candidate.Some? ==> t.candidate.value.key == k
    requires Step(s, t).emitted.Some?
    ensures Step(s, t).emitted.value.fingerprint == k
  {
    StepMoves(s, t);
    if s.alert.None? {
      if Remembers(s.memory, t.context.nowMs) {
        ReopeningContinues(s, t);
      } else {
        OpeningAfreshMints(s, t);
      }
    }
    hide Step;
  }

  /** A fingerprint keeps its identity, loses it, or takes the one minted for it. */
  lemma IdentityMoves(w: World, sample: Sample, w': World, k: Fingerprint)
    requires KeyMoves(w, sample, w', k)
    ensures var (old', new') := (IdentityOf(At(w.books, k)), IdentityOf(At(w'.books, k)));
            new'.Some? ==> new' == old' || new'.value == sample.mint(k)
    ensures EmittedAt(w.books, sample, k).Some? ==>
              IdentityOf(At(w'.books, k)) == Some(EmittedAt(w.books, sample, k).value.id)
  {
    hide Step;
  }

  /** All the fingerprints of one evaluation at once. */
  ghost predicate AllMove(w: World, sample: Sample, w': World) {
    forall k :: KeyMoves(w, sample, w', k)
  }

  lemma EvaluationKeepsIdentities(w: World, sample: Sample, w': World)
    requires AllMove(w, sample, w') && IdentitiesSound(w) && FreshMint(sample.mint, w.issued)
    ensures DistinctIdentities(w'.books)
  {
    hide KeyMoves, IdentityOf, At;
    forall j, k | j != k && IdentityOf(At(w'.books, j)).Some?
      ensures IdentityOf(At(w'.books, j)) != IdentityOf(At(w'.books, k))
    {
      IdentityMoves(w, sample, w', j);
      IdentityMoves(w, sample, w', k);
    }
  }

  lemma EmissionsAreDistinct(w: World, sample: Sample, changed: seq<Alert>, w': World)
    requires AllMove(w, sample, w') && Delivers(w.books, sample, changed)
    requires DistinctIdentities(w'.books)
    ensures DistinctIds(changed)
  {
    hide KeyMoves, IdentityOf, At, EmittedAt;
    forall i, j | 0 <= i < j < |changed|
      ensures changed[i].id != changed[j].id
    {
      assert changed[i] in changed && changed[j] in changed;
      IdentityMoves(w, sample, w', changed[i].fingerprint);
      IdentityMoves(w, sample, w', changed[j].fingerprint);
    }
  }

  /** What one evaluation writes: each fingerprint's emission, to the row of its identity, and nothing else. */
  ghost predicate Writes(w: World, sample: Sample, w': World) {
    && (forall k :: EmittedAt(w.books, sample, k).Some? ==>
          var a := EmittedAt(w.books, sample, k).value;
          a.id in w'.rows && w'.rows[a.id] == Upsert(w.rows, a)[a.id])
    && (forall id ::
          (forall k :: EmittedAt(w.books, sample, k).Some? ==> EmittedAt(w.books, sample, k).value.id != id) ==>
          (id in w'.rows <==> id in w.rows) && (id in w.rows ==> w'.rows[id] == w.rows[id]))
  }

  lemma EvaluationWrites(w: World, sample: Sample, changed: seq<Alert>, w': World)
    requires Delivers(w.books, sample, changed) && DistinctIds(changed) && w'.rows == UpsertAll(w.rows, changed)
    ensures Writes(w, sample, w')
  {
    hide EmittedAt, UpsertAll, Upsert;
    UpsertAllWritesEach(w.rows, changed);
    forall id | forall k :: EmittedAt(w.books, sample, k).Some? ==> EmittedAt(w.books, sample, k).value.id != id
      ensures (id in w'.rows <==> id in w.rows) && (id in w.rows ==> w'.rows[id] == w.rows[id])
    {
      forall a | a in changed
        ensures a.id != id
      {
        assert EmittedAt(w.books, sample, a.fingerprint) == Some(a);
      }
    }
  }

  /** The emission that wrote a row, if one did. */
  lemma WriterOf(w: World, sample: Sample, w': World, id: AlertId) returns (k: Option<Fingerprint>)
    requires Writes(w, sample, w')
    ensures k.Some? ==> EmittedAt(w.books, sample, k.value).Some? && EmittedAt(w.books, sample, k.value).value.id == id
    ensures k.None? ==> (id in w'.rows <==> id in w.rows) && (id in w.rows ==> w'.rows[id] == w.rows[id])
    ensures k.None? ==> forall j :: EmittedAt(w.books, sample, j).Some? ==> EmittedAt(w.books, sample, j).value.id != id
  {
    hide EmittedAt, Upsert;
    if j :| EmittedAt(w.books, sample, j).Some? && EmittedAt(w.books, sample, j).value.id == id {
      k := Some(j);
    } else {
      k := None;
    }
  }

  /** A written row holds exactly the emission, first-seen column included. */
  lemma WrittenRowHolds(w: World, sample: Sample, w': World, k: Fingerprint)
    requires Sound(w) && KeyMoves(w, sample, w', k) && Writes(w, sample, w')
    requires EmittedAt(w.books, sample, k).Some? && FreshMint(sample.mint, w.issued)
    ensures RowHolds(w'.rows, EmittedAt(w.books, sample, k).value)
  {
    hide EmittedAt, Tidy, PastIsPast;
    var a, s := EmittedAt(w.books, sample, k).value, At(w.books, k);
    if s.alert.Some? {
      assert RowHolds(w.rows, s.alert.value);
    } else if Remembers(s.memory, sample.context.nowMs) {
      assert RowRemembers(w.rows, k, s.memory.value);
      assert RowHolds(w.rows, w.rows[a.id].payload);
    } else {
      assert a.id !in w.rows;
    }
  }

  lemma OpenAlertsStayStored(w: World, sample: Sample, w': World, k: Fingerprint)
    requires Sound(w) && AllMove(w, sample, w') && Writes(w, sample, w') && FreshMint(sample.mint, w.issued)
    requires DistinctIdentities(w'.books)
    requires k in w'.books.active
    ensures RowHolds(w'.rows, w'.books.active[k])
  {
    hide EmittedAt, Tidy, PastIsPast, Writes, SlotsSound;
    var a := w'.books.active[k];
    assert KeyMoves(w, sample, w', k);
    var writer := WriterOf(w, sample, w', a.id);
    if writer.Some? {
      var j := writer.value;
      assert KeyMoves(w, sample, w', j);
      IdentityMoves(w, sample, w', j);
      assert IdentityOf(At(w'.books, k)) == Some(a.id);
      assert j == k;
      WrittenRowHolds(w, sample, w', k);
    } else {
      assert EmittedAt(w.books, sample, k).None?;
      assert k in w.books.active && w.books.active[k] == a;
    }
  }

  lemma UnresolvedRowsStayOpen(w: World, sample: Sample, w': World, id: AlertId)
    requires Sound(w) && AllMove(w, sample, w') && Writes(w, sample, w') && FreshMint(sample.mint, w.issued)
    requires id in w'.rows
    ensures w'.rows[id].payload.id == id && RowHolds(w'.rows, w'.rows[id].payload)
    ensures w'.rows[id].resolvedAtMs.None? ==>
              var k := w'.rows[id].payload.fingerprint; k in w'.books.active && w'.books.active[k].id == id
  {
    hide EmittedAt, Tidy, PastIsPast, Writes, IdentitiesSound;
    var writer := WriterOf(w, sample, w', id);
    if writer.Some? {
      var k := writer.value;
      assert KeyMoves(w, sample, w', k);
      WrittenRowHolds(w, sample, w', k);
    } else if w.rows[id].resolvedAtMs.None? {
      var k := w.rows[id].payload.fingerprint;
      assert KeyMoves(w, sample, w', k);
      assert w.books.active[k].id == id;
      IdentityMoves(w, sample, w', k);
    }
  }

  lemma MemoryStaysStored(w: World, sample: Sample, w': World, k: Fingerprint)
    requires Sound(w) && AllMove(w, sample, w') && Writes(w, sample, w') && FreshMint(sample.mint, w.issued)
    requires DistinctIdentities(w'.books)
    requires k in w'.books.resolvedMemory
    ensures RowRemembers(w'.rows, k, w'.books.resolvedMemory[k])
  {
    hide EmittedAt, PastIsPast, Writes;
    var m := w'.books.resolvedMemory[k];
    assert KeyMoves(w, sample, w', k);
    assert IdentityOf(At(w'.books, k)) == Some(m.id);
    if k in w.books.active {
      WrittenRowHolds(w, sample, w', k);
    } else {
      var writer := WriterOf(w, sample, w', m.id);
      if writer.Some? {
        assert KeyMoves(w, sample, w', writer.value);
        IdentityMoves(w, sample, w', writer.value);
      }
      assert RowRemembers(w.rows, k, m);
    }
  }

  lemma PastStaysPast(w: World, sample: Sample, w': World, id: AlertId)
    requires Sound(w) && AllMove(w, sample, w') && Writes(w, sample, w') && FreshMint(sample.mint, w.issued)
    requires w.nowMs <= sample.context.nowMs == w'.nowMs
    requires id in w'.rows && w'.rows[id].resolvedAtMs.Some?
    ensures w'.rows[id].resolvedAtMs.value <= w'.nowMs
    ensures var k := w'.rows[id].payload.fingerprint;
            k == Absent || IdentityOf(At(w'.books, k)) == Some(id)
            || w'.nowMs - w'.rows[id].resolvedAtMs.value > QUIET_PERIOD_MS
  {
    hide EmittedAt, Writes;
    var writer := WriterOf(w, sample, w', id);
    if writer.Some? {
      var k := writer.value;
      assert KeyMoves(w, sample, w', k);
      WrittenRowHolds(w, sample, w', k);
      IdentityMoves(w, sample, w', k);
    } else {
      var k := w.rows[id].payload.fingerprint;
      assert KeyMoves(w, sample, w', k);
      if k != Absent && IdentityOf(At(w.books, k)) == Some(id) {
        IdentityMoves(w, sample, w', k);
      }
    }
  }

  lemma EvaluationIssues(w: World, sample: Sample, changed: seq<Alert>, w': World)
    requires Sound(w) && Evaluates(w, sample, changed, w') && AllMove(w, sample, w') && Writes(w, sample, w')
    ensures forall k :: IdentityOf(At(w'.books, k)).Some? ==> IdentityOf(At(w'.books, k)).value in w'.issued
    ensures w'.rows.Keys <= w'.issued
  {
    hide EmittedAt, Writes, RowsSound, PastIsPast, Evaluated, Delivers;
    forall k | IdentityOf(At(w'.books, k)).Some?
      ensures IdentityOf(At(w'.books, k)).value in w'.issued
    {
      assert KeyMoves(w, sample, w', k);
      if k in w'.books.active {
        assert w'.books.active[k].id in OpenIds(w'.books);
      }
    }
    forall id | id in w'.rows
      ensures id in w'.issued
    {
      var writer := WriterOf(w, sample, w', id);
      if writer.Some? {
        assert KeyMoves(w, sample, w', writer.value);
        IdentityMoves(w, sample, w', writer.value);
      }
    }
  }

  lemma EvaluationKeepsSound(w: World, sample: Sample, changed: seq<Alert>, w': World)
    requires Sound(w) && Evaluates(w, sample, changed, w')
    ensures Sound(w')
  {
    assert AllMove(w, sample, w') by {
      hide KeyMoves, Sound, Evaluates;
      forall k
        ensures KeyMoves(w, sample, w', k)
      {
        EveryKeyMoves(w, sample, changed, w', k);
      }
    }
    EvaluationKeepsIdentities(w, sample, w');
    EmissionsAreDistinct(w, sample, changed, w');
    EvaluationWrites(w, sample, changed, w');
    EvaluationIssues(w, sample, changed, w');
    EvaluationKeepsRows(w, sample, w');
    AbsentStaysClosed(w, sample, changed, w');
    assert SlotsSound(w') by {
      hide EmittedAt, Step, Delivers, Evaluated, Tidy, Moves;
      forall k
        ensures Tidy(At(w'.books, k))
      {
        assert KeyMoves(w, sample, w', k);
      }
    }
    hide AllMove, Writes, RowsSound, PastIsPast, SlotsSound;
  }

  lemma EvaluationKeepsRows(w: World, sample: Sample, w': World)
    requires Sound(w) && AllMove(w, sample, w') && Writes(w, sample, w') && FreshMint(sample.mint, w.issued)
    requires w.nowMs <= sample.context.nowMs == w'.nowMs && DistinctIdentities(w'.books)
    ensures RowsSound(w') && PastIsPast(w')
  {
    hide AllMove, Writes, Sound, FreshMint, RowHolds, RowRemembers, At, IdentityOf, DistinctIdentities;
    forall id | id in w'.rows
      ensures w'.rows[id].payload.id == id && RowHolds(w'.rows, w'.rows[id].payload)
      ensures w'.rows[id].resolvedAtMs.None? ==>
                var k := w'.rows[id].payload.fingerprint; k in w'.books.active && w'.books.active[k].id == id
    {
      UnresolvedRowsStayOpen(w, sample, w', id);
    }
    forall k | k in w'.books.active
      ensures RowHolds(w'.rows, w'.books.active[k])
    {
      OpenAlertsStayStored(w, sample, w', k);
    }
    forall k | k in w'.books.resolvedMemory
      ensures RowRemembers(w'.rows, k, w'.books.resolvedMemory[k])
    {
      MemoryStaysStored(w, sample, w', k);
    }
    forall id | id in w'.rows && w'.rows[id].resolvedAtMs.Some?
      ensures w'.rows[id].resolvedAtMs.value <= w'.nowMs
      ensures w'.rows[id].payload.fingerprint == Absent
              || IdentityOf(At(w'.books, w'.rows[id].payload.fingerprint)) == Some(id)
              || w'.nowMs - w'.rows[id].resolvedAtMs.value > QUIET_PERIOD_MS
    {
      PastStaysPast(w, sample, w', id);
    }
  }

  /** No detector names an incident with the empty fingerprint, so none ever opens under it. */
  lemma AbsentStaysClosed(w: World, sample: Sample, changed: seq<Alert>, w': World)
    requires Sound(w) && Evaluates(w, sample, changed, w')
    ensures At(w'.books, Absent).alert.None? && At(w'.books, Absent).memory.None?
  {
    hide IdentitiesSound, RowsSound, PastIsPast, Delivers;
    CandidateForIsTheOne(sample.candidates, Absent);
    var s, t := At(w.books, Absent), TickFor(sample, Absent);
    assert t.candidate.None?;
    StepMoves(s, t);
    if Step(s, t).slot.alert.Some? {
      OpeningIsEmitted(s, t);
    }
    hide Step;
  }

  // -------------------------------------------------- flags, latches, restarts

  function FlaggedAlert(a: Alert, id: AlertId, flag: Flag): Alert {
    if a.id == id then Flagging(a, flag) else a
  }

  function FlaggedActive(active: map<Fingerprint, Alert>, id: AlertId, flag: Flag): map<Fingerprint, Alert> {
    map k | k in active :: FlaggedAlert(active[k], id, flag)
  }

  function FlaggedBooks(b: Books, id: AlertId, flag: Flag): Books {
    b.(active := FlaggedActive(b.active, id, flag))
  }

  function FlaggedRow(row: Row, flag: Flag): Row {
    row.(archived := Flagging(row.payload, flag).archived, payload := Flagging(row.payload, flag))
  }

  function FlaggedRows(rows: Rows, id: AlertId, flag: Flag): Rows {
    map i | i in rows :: if i == id then FlaggedRow(rows[i], flag) else rows[i]
  }

  lemma RowFlagIsExact(rows: Rows, id: AlertId, flag: Flag)
    requires Consistent(rows)
    ensures RowFlagged(rows, id, flag) == FlaggedRows(rows, id, flag)
  {
    assert id in rows ==> RowHolds(rows, rows[id].payload);
  }

  /** Identifiers being distinct, the engine flags exactly the alert that carries the identifier. */
  lemma FlagIsExact(b: Books, id: AlertId, flag: Flag, b': Books)
    requires DistinctIdentities(b) && FlagsAlert(b, id, flag, b')
    ensures b' == FlaggedBooks(b, id, flag)
  {
    forall j, k | j in b.active && k in b.active && j != k
      ensures b.active[j].id != b.active[k].id
    {
      assert IdentityOf(At(b, j)) == Some(b.active[j].id);
      assert IdentityOf(At(b, k)) == Some(b.active[k].id);
    }
    hide At, IdentityOf, DistinctIdentities;
    var out :| UserFlag(b.active, id, FlagWith(flag), b'.active, out) && b' == b.(active := b'.active);
    if out.Some? {
      var j :| j in b.active && b.active[j].id == id
               && out.value == FlagWith(flag)(b.active[j]) && b'.active == b.active[j := out.value];
      assert b'.active.Keys == b.active.Keys;
    }
    assert b'.active == FlaggedActive(b.active, id, flag);
  }

  function FlaggedWorld(w: World, id: AlertId, flag: Flag): World {
    w.(books := FlaggedBooks(w.books, id, flag), rows := FlaggedRows(w.rows, id, flag))
  }

  lemma FlaggedSlot(b: Books, id: AlertId, flag: Flag, k: Fingerprint)
    ensures var (s, r) := (At(b, k), At(FlaggedBooks(b, id, flag), k));
            && r == s.(alert := if s.alert.Some? then Some(FlaggedAlert(s.alert.value, id, flag)) else None)
            && IdentityOf(r) == IdentityOf(s) && (Tidy(s) ==> Tidy(r))
  {
  }

  /** Identities and the past survive whatever leaves identities, memories and row resolutions alone. */
  lemma SameIdentitiesStaySound(w: World, w': World)
    requires SlotsSound(w) && IdentitiesSound(w) && PastIsPast(w)
    requires w'.nowMs == w.nowMs && w'.issued == w.issued && w'.rows.Keys == w.rows.Keys && Keyed(w'.books.active)
    requires forall k :: IdentityOf(At(w'.books, k)) == IdentityOf(At(w.books, k)) && Tidy(At(w'.books, k))
    requires At(w'.books, Absent).alert.None? && At(w'.books, Absent).memory.None?
    requires forall i :: i in w.rows ==>
               w'.rows[i].resolvedAtMs == w.rows[i].resolvedAtMs
               && w'.rows[i].payload.fingerprint == w.rows[i].payload.fingerprint
    ensures SlotsSound(w') && IdentitiesSound(w') && PastIsPast(w')
  {
    hide At, IdentityOf, Tidy;
  }

  lemma FlaggedSlotsSound(w: World, id: AlertId, flag: Flag)
    requires SlotsSound(w) && IdentitiesSound(w) && PastIsPast(w)
    ensures var w' := FlaggedWorld(w, id, flag); SlotsSound(w') && IdentitiesSound(w') && PastIsPast(w')
  {
    hide At, IdentityOf, Tidy, IdentitiesSound, PastIsPast;
    var w' := FlaggedWorld(w, id, flag);
    forall k
      ensures IdentityOf(At(w'.books, k)) == IdentityOf(At(w.books, k)) && Tidy(At(w'.books, k))
    {
      FlaggedSlot(w.books, id, flag, k);
    }
    FlaggedSlot(w.books, id, flag, Absent);
    SameIdentitiesStaySound(w, w');
  }

  lemma FlaggedRowHolds(rows: Rows, id: AlertId, flag: Flag, a: Alert)
    requires RowHolds(rows, a)
    ensures RowHolds(FlaggedRows(rows, id, flag), FlaggedAlert(a, id, flag))
  {
  }

  lemma FlaggedRowRemembers(rows: Rows, id: AlertId, flag: Flag, k: Fingerprint, m: ResolvedIncident)
    requires RowRemembers(rows, k, m)
    ensures RowRemembers(FlaggedRows(rows, id, flag), k, m)
  {
  }

  lemma FlaggedRowsSound(w: World, id: AlertId, flag: Flag)
    requires RowsSound(w)
    ensures RowsSound(FlaggedWorld(w, id, flag))
  {
    hide RowHolds, RowRemembers;
    var w' := FlaggedWorld(w, id, flag);
    forall i | i in w'.rows
      ensures w'.rows[i].payload.id == i && RowHolds(w'.rows, w'.rows[i].payload)
      ensures w'.rows[i].resolvedAtMs.None? ==>
                var k := w'.rows[i].payload.fingerprint; k in w'.books.active && w'.books.active[k].id == i
    {
      FlaggedRowHolds(w.rows, id, flag, w.rows[i].payload);
    }
    forall k | k in w'.books.active
      ensures RowHolds(w'.rows, w'.books.active[k])
    {
      FlaggedRowHolds(w.rows, id, flag, w.books.active[k]);
    }
    forall k | k in w'.books.resolvedMemory
      ensures RowRemembers(w'.rows, k, w'.books.resolvedMemory[k])
    {
      FlaggedRowRemembers(w.rows, id, flag, k, w.books.resolvedMemory[k]);
    }
  }

  /** A flag whose two halves meet the same state keeps the agreement. */
  lemma FlagKeepsSound(w: World, id: AlertId, flag: Flag, w': World)
    requires Sound(w) && FlagsAlert(w.books, id, flag, w'.books)
    requires w' == w.(books := w'.books, rows := RowFlagged(w.rows, id, flag))
    ensures Sound(w') && w' == FlaggedWorld(w, id, flag)
  {
    RowFlagIsExact(w.rows, id, flag);
    FlagIsExact(w.books, id, flag, w'.books);
    hide FlaggedBooks, FlaggedRows, SlotsSound, RowsSound, PastIsPast, DistinctIdentities;
    FlaggedSlotsSound(w, id, flag);
    FlaggedRowsSound(w, id, flag);
  }

  lemma LatchKeepsSound(w: World)
    requires Sound(w)
    ensures Sound(w.(books := w.books.(pendingVerdictChange := true)))
  {
    var w' := w.(books := w.books.(pendingVerdictChange := true));
    forall k
      ensures IdentityOf(At(w'.books, k)) == IdentityOf(At(w.books, k)) && Tidy(At(w'.books, k))
    {
      assert At(w'.books, k) == At(w.books, k).(pendingChange := k == DPC_KEY);
    }
    hide At, IdentityOf, Tidy, SlotsSound, IdentitiesSound, PastIsPast;
    SameIdentitiesStaySound(w, w');
  }

  lemma {:induction false} LatestIsFromTheSeed(seed: seq<Alert>, k: Fingerprint)
    ensures LatestOf(seed, k).Some? ==>
              exists a :: a in seed && a.fingerprint == k && LatestOf(seed, k) == Some(SeededFrom(a))
    ensures (exists a :: a in seed && a.fingerprint == k) ==> LatestOf(seed, k).Some?
  {
    if seed != [] {
      var n := |seed| - 1;
      LatestIsFromTheSeed(seed[..n], k);
      assert seed == seed[..n] + [seed[n]];
      assert seed[n] in seed;
    }
  }

  /** Of a fingerprint's rows at most one is recent enough to be handed to a restart. */
  lemma OneEligibleRow(w: World, atMs: int, i: AlertId, j: AlertId)
    requires TableSound(w) && w.nowMs <= atMs
    requires i in Eligible(ResolveOpen(w.rows, atMs), atMs - QUIET_PERIOD_MS)
    requires j in Eligible(ResolveOpen(w.rows, atMs), atMs - QUIET_PERIOD_MS)
    requires w.rows[i].payload.fingerprint == w.rows[j].payload.fingerprint != Absent
    ensures i == j
  {
    hide Consistent;
    assert Current(w.rows, w.nowMs, i) && Current(w.rows, w.nowMs, j) && SameFingerprint(w.rows, i, j);
  }

  /** A row recent enough for a restart to be handed, with no more rows as recent as the query returns. */
  predicate HandedOut(rows: Rows, atMs: int, id: AlertId) {
    && id in Eligible(rows, atMs - QUIET_PERIOD_MS)
    && |NoOlder(rows, atMs - QUIET_PERIOD_MS, id)| <= RECENT_LIMIT
  }

  lemma {:induction false} SmallerSets(some: set<AlertId>, all: set<AlertId>)
    requires some <= all
    ensures |some| <= |all|
  {
    if some != {} {
      var id :| id in some;
      SmallerSets(some - {id}, all - {id});
    }
  }

  lemma AllAreHandedOut(w: World, atMs: int, seed: seq<Alert>, w': World)
    requires Restarts(w, atMs, seed, w')
    ensures forall id :: id in Eligible(w'.rows, atMs - QUIET_PERIOD_MS) ==> HandedOut(w'.rows, atMs, id)
  {
    forall id | id in Eligible(w'.rows, atMs - QUIET_PERIOD_MS)
      ensures HandedOut(w'.rows, atMs, id)
    {
      SmallerSets(NoOlder(w'.rows, atMs - QUIET_PERIOD_MS, id), Eligible(w'.rows, atMs - QUIET_PERIOD_MS));
    }
  }

  /** Of the rows of a fingerprint only one is recent, before the restart and after it. */
  lemma OneRecentRow(w: World, atMs: int, i: AlertId, j: AlertId)
    requires TableSound(w) && w.nowMs <= atMs
    requires i in Eligible(ResolveOpen(w.rows, atMs), atMs - QUIET_PERIOD_MS)
    requires j in Eligible(ResolveOpen(w.rows, atMs), atMs - QUIET_PERIOD_MS)
    requires ResolveOpen(w.rows, atMs)[i].payload.fingerprint
             == ResolveOpen(w.rows, atMs)[j].payload.fingerprint != Absent
    ensures i == j
  {
    RestartKeepsFingerprints(w, atMs, i);
    RestartKeepsFingerprints(w, atMs, j);
    hide TableSound, ResolveOpen, Eligible;
    OneEligibleRow(w, atMs, i, j);
  }

  /** The rows a restart is handed, and the fingerprint's own among them, if there is one. */
  lemma RestartIsHanded(w: World, atMs: int, seed: seq<Alert>, w': World, k: Fingerprint)
    returns (ids: seq<AlertId>, id: Option<AlertId>)
    requires Reopens(w, atMs, seed, w') && k != Absent
    ensures Newest(w'.rows, atMs - QUIET_PERIOD_MS, ids)
    ensures forall i :: i in ids ==> i in Eligible(w'.rows, atMs - QUIET_PERIOD_MS)
    ensures id.Some? ==>
              && id.value in ids && w'.rows[id.value].payload.fingerprint == k
              && At(w'.books, k).memory == Some(SeededFrom(w'.rows[id.value].payload))
    ensures id.None? ==>
              At(w'.books, k).memory.None? && forall i :: i in ids ==> w'.rows[i].payload.fingerprint != k
  {
    hide At, Eligible, Newest, IdentityOf, ResolveOpen;
    var since := atMs - QUIET_PERIOD_MS;
    ids := HandOut(w'.rows, since, seed);
    PayloadsAreTheRows(w'.rows, ids);
    LatestIsFromTheSeed(seed, k);
    if LatestOf(seed, k).Some? {
      var a :| a in seed && a.fingerprint == k && LatestOf(seed, k) == Some(SeededFrom(a));
      var i :| i in ids && w'.rows[i].payload == a;
      id := Some(i);
    } else {
      id := None;
      forall i | i in ids
        ensures w'.rows[i].payload.fingerprint != k
      {
        assert w'.rows[i].payload.fingerprint != Absent ==> w'.rows[i].payload in seed;
      }
    }
  }

  /** What a restart remembers of a fingerprint: its recent row, if it was handed one. */
  lemma RestartMemory(w: World, atMs: int, seed: seq<Alert>, w': World, k: Fingerprint) returns (id: Option<AlertId>)
    requires TableSound(w) && Reopens(w, atMs, seed, w') && k != Absent
    ensures id.Some? ==>
              && id.value in Eligible(w'.rows, atMs - QUIET_PERIOD_MS)
              && w'.rows[id.value].payload.fingerprint == k
              && At(w'.books, k).memory == Some(SeededFrom(w'.rows[id.value].payload))
    ensures id.None? ==> At(w'.books, k).memory.None?
    ensures forall i :: HandedOut(w'.rows, atMs, i) && w'.rows[i].payload.fingerprint == k ==> id == Some(i)
  {
    hide TableSound, At, Eligible, Newest, NoOlder, ResolveOpen, SeededFrom, RecentResolved;
    var ids;
    ids, id := RestartIsHanded(w, atMs, seed, w', k);
    forall i | HandedOut(w'.rows, atMs, i) && w'.rows[i].payload.fingerprint == k
      ensures id == Some(i)
    {
      NewestAreSeen(w'.rows, atMs - QUIET_PERIOD_MS, ids, i);
      OneRecentRow(w, atMs, i, id.value);
    }
  }

  lemma HandOut(rows: Rows, sinceMs: int, seed: seq<Alert>) returns (ids: seq<AlertId>)
    requires RecentResolved(rows, sinceMs, seed)
    ensures Newest(rows, sinceMs, ids)
    ensures forall id :: id in ids ==> id in rows && id in Eligible(rows, sinceMs)
    ensures seed == Payloads(rows, ids)
  {
    ids :| Newest(rows, sinceMs, ids) && seed == Payloads(rows, ids);
  }

  lemma RestartKeepsFingerprints(w: World, atMs: int, id: AlertId)
    requires id in Eligible(ResolveOpen(w.rows, atMs), atMs - QUIET_PERIOD_MS)
    ensures id in w.rows && w.rows[id].payload.fingerprint == ResolveOpen(w.rows, atMs)[id].payload.fingerprint
  {
  }

  /** The parts of a restart that need no table lookup. */
  lemma RestartIsBlank(w: World, atMs: int, seed: seq<Alert>, w': World, k: Fingerprint)
    requires Reopens(w, atMs, seed, w')
    ensures k !in w'.books.active && Tidy(At(w'.books, k)) && At(w'.books, k).alert.None?
    ensures IdentityOf(At(w'.books, k))
            == if At(w'.books, k).memory.Some? then Some(At(w'.books, k).memory.value.id) else None
    ensures k in w'.books.resolvedMemory <==> At(w'.books, k).memory.Some?
    ensures k in w'.books.resolvedMemory ==> At(w'.books, k).memory == Some(w'.books.resolvedMemory[k])
    ensures k == Absent ==> At(w'.books, k).memory.None?
  {
    hide ResolveOpen, RecentResolved, Eligible;
    var slot := At(w'.books, k);
    assert slot.alert == Get(w'.books.active, k) && slot.memory == Get(w'.books.resolvedMemory, k);
    assert slot == BLANK.(memory := slot.memory);
  }

  lemma RestartedRow(w: World, atMs: int, id: AlertId)
    requires Consistent(w.rows) && id in w.rows
    ensures var rows := ResolveOpen(w.rows, atMs);
            && id in rows && rows[id].payload.id == id && RowHolds(rows, rows[id].payload)
            && rows[id].payload.fingerprint == w.rows[id].payload.fingerprint
            && rows[id].resolvedAtMs
               == if w.rows[id].resolvedAtMs.Some? then w.rows[id].resolvedAtMs else Some(atMs)
  {
    assert RowHolds(w.rows, w.rows[id].payload);
    if w.rows[id].resolvedAtMs.None? {
      assert ResolveOpen(w.rows, atMs)[id].payload == ResolvedByRestart(w.rows[id].payload, atMs);
    }
  }

  lemma RestartKeepsSlotsSound(w: World, atMs: int, seed: seq<Alert>, w': World)
    requires TableSound(w) && Reopens(w, atMs, seed, w')
    ensures SlotsSound(w') && IdentitiesSound(w')
  {
    hide At, IdentityOf, Tidy, Reopens, RowsSound, PastIsPast, ResolveOpen;
    forall j, k | j != k && IdentityOf(At(w'.books, j)).Some?
      ensures IdentityOf(At(w'.books, j)) != IdentityOf(At(w'.books, k))
    {
      RestartIdentity(w, atMs, seed, w', j);
      RestartIdentity(w, atMs, seed, w', k);
    }
    forall k
      ensures k !in w'.books.active && Tidy(At(w'.books, k))
      ensures IdentityOf(At(w'.books, k)).Some? ==> IdentityOf(At(w'.books, k)).value in w'.issued
    {
      RestartIsBlank(w, atMs, seed, w', k);
      RestartIdentity(w, atMs, seed, w', k);
    }
    RestartIsBlank(w, atMs, seed, w', Absent);
    assert SlotsSound(w');
    assert w'.rows.Keys == w.rows.Keys && w'.issued == w.issued by {
      RestartKeepsKeys(w, atMs, seed, w');
    }
  }

  lemma RestartKeepsKeys(w: World, atMs: int, seed: seq<Alert>, w': World)
    requires Reopens(w, atMs, seed, w')
    ensures w'.rows.Keys == w.rows.Keys && w'.issued == w.issued
  {
  }

  /** After a restart a fingerprint's identity is that of a row of its own. */
  lemma RestartIdentity(w: World, atMs: int, seed: seq<Alert>, w': World, k: Fingerprint)
    requires TableSound(w) && Reopens(w, atMs, seed, w')
    ensures var id := IdentityOf(At(w'.books, k));
            id.Some? ==> id.value in w.rows && id.value in w'.issued && w.rows[id.value].payload.fingerprint == k
  {
    hide At, IdentityOf, Tidy, SlotsSound, PastIsPast;
    RestartIsBlank(w, atMs, seed, w', k);
    if k != Absent {
      var id := RestartMemory(w, atMs, seed, w', k);
      if id.Some? {
        RestartedRow(w, atMs, id.value);
      }
    }
  }

  lemma RestartKeepsSound(w: World, atMs: int, seed: seq<Alert>, w': World)
    requires TableSound(w) && Restarts(w, atMs, seed, w')
    ensures Sound(w')
  {
    RestartKeepsSlotsSound(w, atMs, seed, w');
    RestartKeepsKeys(w, atMs, seed, w');
    AllAreHandedOut(w, atMs, seed, w');
    assert Reopens(w, atMs, seed, w') && w.nowMs <= atMs == w'.nowMs && w'.rows == ResolveOpen(w.rows, atMs);
    hide At, IdentityOf, Tidy, SlotsSound, IdentitiesSound, ResolveOpen, RowHolds, HandedOut, Reopens;
    forall id | id in w'.rows
      ensures w'.rows[id].payload.id == id && RowHolds(w'.rows, w'.rows[id].payload)
      ensures w'.rows[id].resolvedAtMs.Some? && w'.rows[id].resolvedAtMs.value <= w'.nowMs
    {
      RestartedRow(w, atMs, id);
    }
    forall k
      ensures k !in w'.books.active
      ensures k in w'.books.resolvedMemory ==> RowRemembers(w'.rows, k, w'.books.resolvedMemory[k])
    {
      RestartIsBlank(w, atMs, seed, w', k);
      if k in w'.books.resolvedMemory {
        var id := RestartMemory(w, atMs, seed, w', k);
        RowHoldsItsTimes(w'.rows, id.value);
      }
    }
    forall id | id in w'.rows && w'.rows[id].payload.fingerprint != Absent
                && w'.nowMs - w'.rows[id].resolvedAtMs.value <= QUIET_PERIOD_MS
      ensures IdentityOf(At(w'.books, w'.rows[id].payload.fingerprint)) == Some(id)
    {
      var k := w'.rows[id].payload.fingerprint;
      var current := RestartMemory(w, atMs, seed, w', k);
      RestartIsBlank(w, atMs, seed, w', k);
      assert id in Eligible(w'.rows, atMs - QUIET_PERIOD_MS);
      assert HandedOut(w'.rows, atMs, id);
      assert current == Some(id);
    }
  }

  lemma RowHoldsItsTimes(rows: Rows, id: AlertId)
    requires id in rows && rows[id].payload.id == id && RowHolds(rows, rows[id].payload)
    requires rows[id].resolvedAtMs.Some?
    ensures SeededFrom(rows[id].payload).id == id
    ensures rows[id].resolvedAtMs == Some(SeededFrom(rows[id].payload).resolvedAtMs)
  {
  }
}
