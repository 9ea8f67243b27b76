/** The alerts table: an id-keyed map of rows, each with a few columns beside the stored alert. */
module AlertTable {
  import opened Models

  const RESTART_RESOLUTION_LABEL := "Resolved by"
  const RECENT_LIMIT := 5000

  datatype Row = Row(firstSeenMs: int, lastSeenMs: int, resolvedAtMs: Option<int>, archived: bool, payload: Alert)

  type Rows = map<AlertId, Row>

  /** Insert, or on conflict update every column but the first-seen one. */
  function Upsert(rows: Rows, a: Alert): Rows {
    var first := if a.id in rows then rows[a.id].firstSeenMs else a.firstSeenMs;
    rows[a.id := Row(first, a.lastSeenMs, a.resolvedAtMs, a.archived, a)]
  }

  function UpsertAll(rows: Rows, alerts: seq<Alert>): Rows {
    if alerts == [] then rows else Upsert(UpsertAll(rows, alerts[..|alerts| - 1]), alerts[|alerts| - 1])
  }

  predicate DistinctIds(alerts: seq<Alert>) {
    forall i, j :: 0 <= i < j < |alerts| ==> alerts[i].id != alerts[j].id
  }

  /** Upserting alerts with distinct ids writes each of them and leaves every other row alone, in any order. */
  lemma {:induction false} UpsertAllWritesEach(rows: Rows, alerts: seq<Alert>)
    requires DistinctIds(alerts)
    ensures forall a :: a in alerts ==>
              a.id in UpsertAll(rows, alerts) && UpsertAll(rows, alerts)[a.id] == Upsert(rows, a)[a.id]
    ensures forall id :: (forall a :: a in alerts ==> a.id != id) ==>
              (id in UpsertAll(rows, alerts) <==> id in rows)
              && (id in rows ==> UpsertAll(rows, alerts)[id] == rows[id])
  {
    if alerts != [] {
      var prefix, last := alerts[..|alerts| - 1], alerts[|alerts| - 1];
      assert alerts == prefix + [last];
      UpsertAllWritesEach(rows, prefix);
      UpsertWritesOne(UpsertAll(rows, prefix), last);
      hide Upsert;
      forall a | a in alerts
        ensures a.id in UpsertAll(rows, alerts) && UpsertAll(rows, alerts)[a.id] == Upsert(rows, a)[a.id]
      {
        UpsertReadsItsRow(UpsertAll(rows, prefix), rows, last);
        if a in prefix {
          assert a.id != last.id;
        }
      }
      assert last in alerts && forall a :: a in prefix ==> a in alerts;
    }
  }

  lemma UpsertWritesOne(rows: Rows, a: Alert)
    ensures a.id in Upsert(rows, a)
    ensures forall id :: id != a.id ==> (id in Upsert(rows, a) <==> id in rows)
                                        && (id in rows ==> Upsert(rows, a)[id] == rows[id])
  {
  }

  lemma UpsertReadsItsRow(rows: Rows, others: Rows, a: Alert)
    requires (a.id in rows <==> a.id in others) && (a.id in rows ==> rows[a.id] == others[a.id])
    ensures a.id in Upsert(rows, a) && a.id in Upsert(others, a) && Upsert(rows, a)[a.id] == Upsert(others, a)[a.id]
  {
  }

  function RestartNote(evidence: seq<Evidence>): seq<Evidence> {
    if exists e :: e in evidence && e.row == RESTART_RESOLUTION_LABEL then evidence
    else evidence + [Evidence(RESTART_RESOLUTION_LABEL, "Service restart")]
  }

  function ResolvedByRestart(a: Alert, atMs: int): Alert {
    a.(resolvedAtMs := Some(atMs), state := Resolved, evidence := RestartNote(a.evidence))
  }

  /** Every open row closed at one instant; nothing else moves. */
  function ResolveOpen(rows: Rows, atMs: int): Rows {
    map id | id in rows :: if rows[id].resolvedAtMs.Some? then rows[id]
                           else rows[id].(resolvedAtMs := Some(atMs),
                                          payload := ResolvedByRestart(rows[id].payload, atMs))
  }

  const DAY_MS := 86_400_000

  /** What retention leaves: the rows last seen no earlier than a cutoff, whether their incidents are open or not. */
  function Retained(rows: Rows, cutoffMs: int): Rows {
    map id | id in rows && rows[id].lastSeenMs >= cutoffMs :: rows[id]
  }

  /** When a row was resolved; an open row has no such time, and zero stands in. */
  function ResolvedAt(rows: Rows, id: AlertId): int {
    if id in rows then rows[id].resolvedAtMs.GetOr(0) else 0
  }

  /** The rows a restart may reopen: resolved, and recently enough. */
  function Eligible(rows: Rows, sinceMs: int): (ids: set<AlertId>)
    ensures ids <= rows.Keys
  {
    set id | id in rows && rows[id].resolvedAtMs.Some? && rows[id].resolvedAtMs.value >= sinceMs
  }

  /** The eligible rows resolved no earlier than a given one. */
  function NoOlder(rows: Rows, sinceMs: int, id: AlertId): set<AlertId> {
    set i | i in Eligible(rows, sinceMs) && ResolvedAt(rows, i) >= ResolvedAt(rows, id)
  }

  function Payloads(rows: Rows, ids: seq<AlertId>): seq<Alert>
    requires forall id :: id in ids ==> id in rows
  {
    if ids == [] then []
    else
      var n := |ids| - 1;
      var a := rows[ids[n]].payload;
      Payloads(rows, ids[..n]) + if a.fingerprint == Absent then [] else [a]
  }

  /** The newest eligible rows, newest first, up to the limit; ties are the database's to break. */
  ghost predicate Newest(rows: Rows, sinceMs: int, ids: seq<AlertId>) {
    && (forall id :: id in ids ==> id in Eligible(rows, sinceMs))
    && (forall i, j :: 0 <= i < j < |ids| ==>
          ids[i] != ids[j] && ResolvedAt(rows, ids[i]) >= ResolvedAt(rows, ids[j]))
    && (forall id, picked :: id in Eligible(rows, sinceMs) && id !in ids && picked in ids ==>
          ResolvedAt(rows, id) <= ResolvedAt(rows, picked))
    && (|ids| >= RECENT_LIMIT || forall id :: id in Eligible(rows, sinceMs) ==> id in ids)
  }

  ghost predicate RecentResolved(rows: Rows, sinceMs: int, seed: seq<Alert>) {
    exists ids :: Newest(rows, sinceMs, ids) && seed == Payloads(rows, ids)
  }

  function Acknowledged(rows: Rows, id: AlertId): Rows {
    if id !in rows then rows else rows[id := rows[id].(payload := rows[id].payload.(acknowledged := true))]
  }

  function Archived(rows: Rows, id: AlertId, archived: bool): Rows {
    if id !in rows then rows
    else rows[id := rows[id].(archived := archived, payload := rows[id].payload.(archived := archived))]
  }

  class Storage {
    var alerts: Rows

    method UpsertAlerts(changed: seq<Alert>)
      modifies this
      ensures alerts == UpsertAll(old(alerts), changed)
    {
      for i := 0 to |changed|
        invariant alerts == UpsertAll(old(alerts), changed[..i])
      {
        assert changed[..i + 1][..i] == changed[..i];
        alerts := Upsert(alerts, changed[i]);
      }
      assert changed[..|changed|] == changed;
    }

    method ResolveOpenAlerts(atMs: int) returns (closed: nat)
      modifies this
      ensures alerts == ResolveOpen(old(alerts), atMs)
      ensures closed == |set id | id in old(alerts) && old(alerts)[id].resolvedAtMs.None?|
    {
      ghost var before := alerts;
      var open := set id | id in alerts && alerts[id].resolvedAtMs.None?;
      closed := |open|;
      var waiting := open;
      while waiting != {}
        invariant waiting <= open && alerts.Keys == before.Keys
        invariant forall id :: id in before ==>
                    alerts[id] == if id in open - waiting then ResolveOpen(before, atMs)[id] else before[id]
      {
        var id :| id in waiting;
        var alert := alerts[id].payload;
        alert := alert.(resolvedAtMs := Some(atMs), state := Resolved);
        if !exists e :: e in alert.evidence && e.row == RESTART_RESOLUTION_LABEL {
          alert := alert.(evidence := alert.evidence + [Evidence(RESTART_RESOLUTION_LABEL, "Service restart")]);
        }
        assert alert == ResolvedByRestart(before[id].payload, atMs);
        alerts := alerts[id := alerts[id].(resolvedAtMs := Some(atMs), payload := alert)];
        waiting := waiting - {id};
      }
      assert forall id :: id in before ==> alerts[id] == ResolveOpen(before, atMs)[id];
    }

    method RecentResolvedAlerts(sinceMs: int) returns (seed: seq<Alert>)
      ensures RecentResolved(alerts, sinceMs, seed)
    {
      var remaining := Eligible(alerts, sinceMs);
      var ids: seq<AlertId> := [];
      while remaining != {} && |ids| < RECENT_LIMIT
        invariant remaining <= Eligible(alerts, sinceMs)
        invariant forall id :: id in Eligible(alerts, sinceMs) <==> id in ids || id in remaining
        invariant forall id :: id in ids ==> id !in remaining
        invariant forall i, j :: 0 <= i < j < |ids| ==>
                    ids[i] != ids[j] && ResolvedAt(alerts, ids[i]) >= ResolvedAt(alerts, ids[j])
        invariant forall id, picked :: id in remaining && picked in ids ==>
                    ResolvedAt(alerts, id) <= ResolvedAt(alerts, picked)
        decreases remaining
      {
        var newest := MostRecent(remaining);
        ids := ids + [newest];
        remaining := remaining - {newest};
      }
      assert Newest(alerts, sinceMs, ids);
      seed := Payloads(alerts, ids);
    }

    method MostRecent(ids: set<AlertId>) returns (newest: AlertId)
      requires ids != {}
      ensures newest in ids
      ensures forall id :: id in ids ==> ResolvedAt(alerts, id) <= ResolvedAt(alerts, newest)
    {
      newest :| newest in ids;
      var waiting := ids - {newest};
      while waiting != {}
        invariant waiting <= ids && newest in ids
        invariant forall id :: id in ids - waiting ==>
                    ResolvedAt(alerts, id) <= ResolvedAt(alerts, newest)
      {
        var id :| id in waiting;
        if ResolvedAt(alerts, id) > ResolvedAt(alerts, newest) {
          newest := id;
        }
        waiting := waiting - {id};
      }
    }

    method Prune(retentionDays: nat, nowMs: int)
      modifies this
      ensures alerts == Retained(old(alerts), nowMs - retentionDays * DAY_MS)
    {
      var cutoff := nowMs - retentionDays * DAY_MS;
      var expired := set id | id in alerts && alerts[id].lastSeenMs < cutoff;
      alerts := alerts - expired;
    }

    method AcknowledgeAlert(id: AlertId) returns (found: bool)
      modifies this
      ensures found == (id in old(alerts)) && alerts == Acknowledged(old(alerts), id)
    {
      found := id in alerts;
      if found {
        alerts := alerts[id := alerts[id].(payload := alerts[id].payload.(acknowledged := true))];
      }
    }

    method ArchiveAlert(id: AlertId, archived: bool) returns (found: bool)
      modifies this
      ensures found == (id in old(alerts)) && alerts == Archived(old(alerts), id, archived)
    {
      found := id in alerts;
      if found {
        alerts := alerts[id := alerts[id].(archived := archived,
                                           payload := alerts[id].payload.(archived := archived))];
      }
    }
  }

  // ---------------------------------------------------- what a restart is handed

  lemma {:induction false} DistinctElements(ids: seq<AlertId>, all: set<AlertId>)
    requires forall id :: id in ids ==> id in all
    requires forall i, j :: 0 <= i < j < |ids| ==> ids[i] != ids[j]
    ensures |ids| <= |all|
    ensures |ids| == |all| ==> forall id :: id in all ==> id in ids
  {
    if ids != [] {
      var n := |ids| - 1;
      assert ids == ids[..n] + [ids[n]];
      DistinctElements(ids[..n], all - {ids[n]});
    }
  }

  /** Within the limit, nothing eligible is left behind. */
  lemma WithinTheLimitAllAreSeen(rows: Rows, sinceMs: int, ids: seq<AlertId>)
    requires Newest(rows, sinceMs, ids) && |Eligible(rows, sinceMs)| <= RECENT_LIMIT
    ensures forall id :: id in Eligible(rows, sinceMs) ==> id in ids
  {
    DistinctElements(ids, Eligible(rows, sinceMs));
  }

  /** And beyond the limit none that fewer than the limit are newer than, or as new as. */
  lemma NewestAreSeen(rows: Rows, sinceMs: int, ids: seq<AlertId>, id: AlertId)
    requires Newest(rows, sinceMs, ids) && id in Eligible(rows, sinceMs)
    requires |NoOlder(rows, sinceMs, id)| <= RECENT_LIMIT
    ensures id in ids
  {
    assert id in NoOlder(rows, sinceMs, id);
    if id !in ids {
      DistinctElements(ids, NoOlder(rows, sinceMs, id) - {id});
    }
  }

  lemma {:induction false} PayloadsAreTheRows(rows: Rows, ids: seq<AlertId>)
    requires forall id :: id in ids ==> id in rows
    ensures forall id :: id in ids && rows[id].payload.fingerprint != Absent ==> rows[id].payload in Payloads(rows, ids)
    ensures forall a :: a in Payloads(rows, ids) ==>
              a.fingerprint != Absent && exists id :: id in ids && rows[id].payload == a
  {
    if ids != [] {
      var n := |ids| - 1;
      assert ids == ids[..n] + [ids[n]];
      PayloadsAreTheRows(rows, ids[..n]);
      assert ids[n] in ids;
    }
  }
}
