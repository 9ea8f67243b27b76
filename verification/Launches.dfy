/**
 * The launch tracker: start, stop, window and drain events turned into launch rows, with process ids that
 * come back under new launches.
 */
module Launches {
  import opened Models

  const RECENT_CAP := 4096
  const LINEAGE_MAX_DEPTH := 5
  const RUNNING_FLUSH_THRESHOLD_MS := 60_000
  const STALE_PENDING_THRESHOLD_MS := 24 * 60 * 60 * 1000

  datatype WindowState = Windowed | NeverWindowed | Unobserved | Running

  datatype Key = Key(pid: nat, startMs: int)

  /** What an image path resolves to; the mapping of device paths to drives is not modelled. */
  datatype Image = Image(exeName: string, exePath: string, rawPath: Option<string>, consoleHost: bool)

  datatype LiveProcess = LiveProcess(name: string, path: Option<string>, parentPid: nat)

  datatype StartProps = StartProps(pid: nat, createMs: int, parentPid: nat, sessionId: nat, image: Image)

  datatype Stop = Stop(atMs: int, exitCode: nat)

  datatype Event =
    | Started(props: StartProps, live: map<nat, LiveProcess>)
    | Stopped(pid: nat, stop: Stop)
    | WindowSeen(pid: nat, visible: bool)
    | Drained(nowMs: int)

  datatype LineageEntry = LineageEntry(pid: nat, name: string, path: Option<string>)

  datatype RecentLaunch = RecentLaunch(pid: nat, parentPid: nat, startMs: int, name: string, path: string)

  datatype PendingLaunch = PendingLaunch(props: StartProps, lineage: seq<LineageEntry>, stop: Option<Stop>,
                                         sampled: bool, visible: bool, window: WindowState, emittedRunning: bool)

  datatype LaunchRow = LaunchRow(props: StartProps, lineage: seq<LineageEntry>, stop: Option<Stop>, window: WindowState)

  function KeyOf(p: StartProps): Key {
    Key(p.pid, p.createMs)
  }

  // ------------------------------------------------------------------ lineage

  /**
   * The last of the newest launches of a pid among the first `n`, counting only those up to a bound if one is given.
   */
  function NewestOf(recent: seq<RecentLaunch>, pid: nat, bound: Option<int>, n: nat): Option<RecentLaunch>
    requires n <= |recent|
  {
    if n == 0 then None
    else
      var e, best := recent[n - 1], NewestOf(recent, pid, bound, n - 1);
      if e.pid == pid && (bound.Some? ==> e.startMs <= bound.value) && (best.Some? ==> best.value.startMs <= e.startMs)
      then Some(e) else best
  }

  function RecentLookup(recent: seq<RecentLaunch>, pid: nat, atMs: int): Option<RecentLaunch> {
    var alive := NewestOf(recent, pid, Some(atMs), |recent|);
    if alive.Some? then alive else NewestOf(recent, pid, None, |recent|)
  }

  const UNKNOWN := "unknown"

  /** An ancestor and, unless it is unknown, the pid of its own parent. */
  datatype Link = Link(entry: LineageEntry, parent: Option<nat>)

  function LinkOf(recent: seq<RecentLaunch>, live: map<nat, LiveProcess>, pid: nat, atMs: int): (l: Link)
    ensures l.entry.pid == pid
  {
    if pid in live then Link(LineageEntry(pid, live[pid].name, live[pid].path), Some(live[pid].parentPid))
    else
      match RecentLookup(recent, pid, atMs)
      case Some(e) => Link(LineageEntry(pid, e.name, Some(e.path)), Some(e.parentPid))
      case None => Link(LineageEntry(pid, UNKNOWN, None), None)
  }

  function LineageFrom(recent: seq<RecentLaunch>, live: map<nat, LiveProcess>, pid: nat, atMs: int, depth: nat)
    : seq<LineageEntry>
    decreases depth
  {
    if depth == 0 then []
    else
      var link := LinkOf(recent, live, pid, atMs);
      [link.entry] + if link.parent.None? then [] else LineageFrom(recent, live, link.parent.value, atMs, depth - 1)
  }

  lemma LineageStarts(recent: seq<RecentLaunch>, live: map<nat, LiveProcess>, pid: nat, atMs: int, depth: nat)
    ensures LineageFrom(recent, live, pid, atMs, 0) == []
    ensures var link := LinkOf(recent, live, pid, atMs);
            LineageFrom(recent, live, pid, atMs, depth + 1)
            == [link.entry] + if link.parent.None? then []
              else LineageFrom(recent, live, link.parent.value, atMs, depth)
  {
  }

  lemma {:induction false} NewestIsNewest(recent: seq<RecentLaunch>, pid: nat, bound: Option<int>, n: nat)
    requires n <= |recent|
    ensures var best := NewestOf(recent, pid, bound, n);
            && (best.Some? ==> best.value in recent[..n] && best.value.pid == pid
                               && (bound.Some? ==> best.value.startMs <= bound.value))
            && forall i :: 0 <= i < n && recent[i].pid == pid && (bound.Some? ==> recent[i].startMs <= bound.value) ==>
                 best.Some? && recent[i].startMs <= best.value.startMs
  {
    if n > 0 {
      NewestIsNewest(recent, pid, bound, n - 1);
      assert recent[n - 1] in recent[..n];
    }
  }

  /** An ancestor is resolved to the launch of its pid that was alive at the time, if the ring has one. */
  lemma LookupIsReuseProof(recent: seq<RecentLaunch>, pid: nat, atMs: int)
    ensures var found := RecentLookup(recent, pid, atMs);
            && (found.None? <==> forall e :: e in recent ==> e.pid != pid)
            && (found.Some? ==> found.value in recent && found.value.pid == pid)
            && (found.Some? && (exists e :: e in recent && e.pid == pid && e.startMs <= atMs) ==>
                  found.value.startMs <= atMs
                  && forall e :: e in recent && e.pid == pid && e.startMs <= atMs ==> e.startMs <= found.value.startMs)
  {
    NewestIsNewest(recent, pid, Some(atMs), |recent|);
    NewestIsNewest(recent, pid, None, |recent|);
    assert recent[..|recent|] == recent;
    forall e | e in recent && e.pid == pid
      ensures RecentLookup(recent, pid, atMs).Some?
      ensures e.startMs <= atMs ==>
                RecentLookup(recent, pid, atMs).value.startMs <= atMs
                && e.startMs <= RecentLookup(recent, pid, atMs).value.startMs
    {
      var i :| 0 <= i < |recent| && recent[i] == e;
    }
  }

  /** Each ancestor in a lineage is the parent of the one before, and only an unknown one cuts the walk short. */
  lemma {:induction false} LineageIsAChain(recent: seq<RecentLaunch>, live: map<nat, LiveProcess>, pid: nat, atMs: int,
                                           depth: nat)
    ensures var chain := LineageFrom(recent, live, pid, atMs, depth);
            && |chain| <= depth && (depth > 0 ==> chain != [] && chain[0].pid == pid)
            && (forall i :: 0 <= i < |chain| ==> chain[i] == LinkOf(recent, live, chain[i].pid, atMs).entry)
            && (forall i :: 0 <= i < |chain| - 1 ==>
                  LinkOf(recent, live, chain[i].pid, atMs).parent == Some(chain[i + 1].pid))
            && (|chain| < depth ==> LinkOf(recent, live, chain[|chain| - 1].pid, atMs).parent.None?)
    decreases depth
  {
    hide LinkOf;
    if depth > 0 {
      var parent := LinkOf(recent, live, pid, atMs).parent;
      if parent.Some? {
        LineageIsAChain(recent, live, parent.value, atMs, depth - 1);
      }
    }
  }

  // -------------------------------------------------------------- the tracker

  datatype Tracker = Tracker(pending: map<Key, PendingLaunch>, pidIndex: map<nat, int>, recent: seq<RecentLaunch>,
                             startsSeen: nat, stopsSeen: nat, persisted: nat, orphanStops: nat, staleEvicted: nat)

  const IDLE := Tracker(map[], map[], [], 0, 0, 0, 0, 0)

  function LaunchOf(p: StartProps): RecentLaunch {
    RecentLaunch(p.pid, p.parentPid, p.createMs, p.image.exeName, p.image.exePath)
  }

  function Capped(ring: seq<RecentLaunch>): seq<RecentLaunch> {
    if |ring| > RECENT_CAP then ring[1..] else ring
  }

  function Remember(recent: seq<RecentLaunch>, p: StartProps): seq<RecentLaunch> {
    Capped(recent + [LaunchOf(p)])
  }

  function NewRow(recent: seq<RecentLaunch>, p: StartProps, live: map<nat, LiveProcess>): PendingLaunch {
    PendingLaunch(p, LineageFrom(recent, live, p.parentPid, p.createMs, LINEAGE_MAX_DEPTH), None, false, false,
                  Unobserved, false)
  }

  function OnStart(t: Tracker, p: StartProps, live: map<nat, LiveProcess>): Tracker {
    var counted := t.(startsSeen := t.startsSeen + 1);
    if KeyOf(p) in t.pending then counted
    else counted.(pending := t.pending[KeyOf(p) := NewRow(t.recent, p, live)],
                  pidIndex := t.pidIndex[p.pid := p.createMs],
                  recent := Remember(t.recent, p))
  }

  function WindowOf(row: PendingLaunch): WindowState {
    if row.visible then Windowed else if row.sampled then NeverWindowed else Unobserved
  }

  /** The row that stops and window samples of a pid are routed to. */
  function RouteOf(t: Tracker, pid: nat): Option<Key> {
    if pid in t.pidIndex && Key(pid, t.pidIndex[pid]) in t.pending then Some(Key(pid, t.pidIndex[pid])) else None
  }

  function OnStop(t: Tracker, pid: nat, stop: Stop): Tracker {
    match RouteOf(t, pid)
    case None => t.(stopsSeen := t.stopsSeen + 1, orphanStops := t.orphanStops + 1)
    case Some(key) =>
      var row := t.pending[key];
      t.(stopsSeen := t.stopsSeen + 1,
         pending := t.pending[key := row.(stop := Some(stop), window := WindowOf(row))],
         pidIndex := t.pidIndex - {pid})
  }

  function OnWindow(t: Tracker, pid: nat, visible: bool): Tracker {
    match RouteOf(t, pid)
    case None => t
    case Some(key) =>
      var row := t.pending[key];
      t.(pending := t.pending[key := row.(sampled := true, visible := row.visible || visible)])
  }

  predicate Stale(row: PendingLaunch, nowMs: int) {
    row.stop.None? && nowMs - row.props.createMs >= STALE_PENDING_THRESHOLD_MS
  }

  predicate Flushable(row: PendingLaunch, nowMs: int) {
    row.stop.None? && !Stale(row, nowMs) && !row.emittedRunning
    && nowMs - row.props.createMs >= RUNNING_FLUSH_THRESHOLD_MS
  }

  function FinalRow(row: PendingLaunch): LaunchRow {
    LaunchRow(row.props, row.lineage, row.stop, row.window)
  }

  function RunningRow(row: PendingLaunch): LaunchRow {
    LaunchRow(row.props, row.lineage, None, Running)
  }

  function Emission(row: PendingLaunch, nowMs: int): Option<LaunchRow> {
    if row.stop.Some? then Some(FinalRow(row))
    else if Flushable(row, nowMs) then Some(RunningRow(row))
    else None
  }

  function Flushed(row: PendingLaunch, nowMs: int): PendingLaunch {
    if Flushable(row, nowMs) then row.(emittedRunning := true) else row
  }

  function Kept(pending: map<Key, PendingLaunch>, nowMs: int): map<Key, PendingLaunch> {
    map k | k in pending && pending[k].stop.None? && !Stale(pending[k], nowMs) ::
      Flushed(pending[k], nowMs)
  }

  function FinishedKeys(pending: map<Key, PendingLaunch>): set<Key> {
    set k | k in pending && pending[k].stop.Some?
  }

  function StaleKeys(pending: map<Key, PendingLaunch>, nowMs: int): set<Key> {
    set k | k in pending && Stale(pending[k], nowMs)
  }

  function Unindexed(index: map<nat, int>, gone: set<Key>): map<nat, int> {
    map pid | pid in index && Key(pid, index[pid]) !in gone :: index[pid]
  }

  function OnDrain(t: Tracker, nowMs: int): Tracker {
    t.(pending := Kept(t.pending, nowMs),
       pidIndex := Unindexed(t.pidIndex, StaleKeys(t.pending, nowMs)),
       persisted := t.persisted + |FinishedKeys(t.pending)|,
       staleEvicted := t.staleEvicted + |StaleKeys(t.pending, nowMs)|)
  }

  /** The rows that a drain hands out for some of the pending keys: one for each key that has any, in any order. */
  ghost predicate HandsOut(pending: map<Key, PendingLaunch>, keys: set<Key>, nowMs: int, out: seq<LaunchRow>) {
    && (forall k :: k in keys && k in pending && Emission(pending[k], nowMs).Some? ==>
          Emission(pending[k], nowMs).value in out)
    && (forall r :: r in out ==>
          var k := KeyOf(r.props); k in keys && k in pending && Emission(pending[k], nowMs) == Some(r))
    && (forall i, j :: 0 <= i < j < |out| ==> KeyOf(out[i].props) != KeyOf(out[j].props))
  }

  lemma HandOne(pending: map<Key, PendingLaunch>, keys: set<Key>, nowMs: int, out: seq<LaunchRow>, key: Key)
    requires KeyedByProps(pending) && HandsOut(pending, keys, nowMs, out) && key !in keys && key in pending
    ensures var e := Emission(pending[key], nowMs);
            HandsOut(pending, keys + {key}, nowMs, if e.Some? then out + [e.value] else out)
  {
  }

  function Next(t: Tracker, e: Event): Tracker {
    match e
    case Started(props, live) => OnStart(t, props, live)
    case Stopped(pid, stop) => OnStop(t, pid, stop)
    case WindowSeen(pid, visible) => OnWindow(t, pid, visible)
    case Drained(nowMs) => OnDrain(t, nowMs)
  }

  predicate KeyedByProps(pending: map<Key, PendingLaunch>) {
    forall k :: k in pending ==> KeyOf(pending[k].props) == k
  }

  lemma UnindexOne(index: map<nat, int>, gone: set<Key>, key: Key)
    ensures var now := Unindexed(index, gone);
            Unindexed(index, gone + {key})
            == if key.pid in now && now[key.pid] == key.startMs then now - {key.pid} else now
  {
  }

  class LaunchTracker {
    var pending: map<Key, PendingLaunch>
    var pidIndex: map<nat, int>
    var recent: seq<RecentLaunch>
    var startsSeen: nat
    var stopsSeen: nat
    var persisted: nat
    var orphanStops: nat
    var staleEvicted: nat

    function View(): Tracker
      reads this
    {
      Tracker(pending, pidIndex, recent, startsSeen, stopsSeen, persisted, orphanStops, staleEvicted)
    }

    constructor ()
      ensures View() == IDLE
    {
      pending, pidIndex, recent := map[], map[], [];
      startsSeen, stopsSeen, persisted, orphanStops, staleEvicted := 0, 0, 0, 0, 0;
    }

    method BuildLineage(startPid: nat, atMs: int, live: map<nat, LiveProcess>, maxDepth: nat)
      returns (lineage: seq<LineageEntry>)
      ensures lineage == LineageFrom(recent, live, startPid, atMs, maxDepth)
    {
      hide LineageFrom, LinkOf;
      lineage := [];
      var currentPid := startPid;
      var depth := maxDepth;
      while depth > 0
        invariant LineageFrom(recent, live, startPid, atMs, maxDepth)
                  == lineage + LineageFrom(recent, live, currentPid, atMs, depth)
      {
        depth := depth - 1;
        var link := FindLink(currentPid, atMs, live);
        LineageStarts(recent, live, currentPid, atMs, depth);
        lineage := lineage + [link.entry];
        if link.parent.None? {
          return;
        }
        currentPid := link.parent.value;
      }
      LineageStarts(recent, live, currentPid, atMs, depth);
    }

    method FindLink(pid: nat, atMs: int, live: map<nat, LiveProcess>) returns (link: Link)
      ensures link == LinkOf(recent, live, pid, atMs)
    {
      if pid in live {
        return Link(LineageEntry(pid, live[pid].name, live[pid].path), Some(live[pid].parentPid));
      }
      var entry := RecentLookup(recent, pid, atMs);
      if entry.Some? {
        return Link(LineageEntry(pid, entry.value.name, Some(entry.value.path)), Some(entry.value.parentPid));
      }
      return Link(LineageEntry(pid, UNKNOWN, None), None);
    }

    method OnStartEvent(p: StartProps, live: map<nat, LiveProcess>)
      modifies this
      ensures View() == OnStart(old(View()), p, live)
    {
      startsSeen := startsSeen + 1;
      if KeyOf(p) in pending {
        return;
      }
      var lineage := BuildLineage(p.parentPid, p.createMs, live, LINEAGE_MAX_DEPTH);
      recent := recent + [RecentLaunch(p.pid, p.parentPid, p.createMs, p.image.exeName, p.image.exePath)];
      if |recent| > RECENT_CAP {
        recent := recent[1..];
      }
      pending := pending[KeyOf(p) := PendingLaunch(p, lineage, None, false, false, Unobserved, false)];
      pidIndex := pidIndex[p.pid := p.createMs];
    }

    method OnStopEvent(pid: nat, stop: Stop)
      modifies this
      ensures View() == OnStop(old(View()), pid, stop)
    {
      stopsSeen := stopsSeen + 1;
      if pid !in pidIndex || Key(pid, pidIndex[pid]) !in pending {
        orphanStops := orphanStops + 1;
        return;
      }
      var key := Key(pid, pidIndex[pid]);
      var launch := pending[key];
      pending := pending[key := launch.(stop := Some(stop), window := WindowOf(launch))];
      pidIndex := pidIndex - {pid};
    }

    method ObserveWindow(pid: nat, visible: bool)
      modifies this
      ensures View() == OnWindow(old(View()), pid, visible)
    {
      if pid in pidIndex && Key(pid, pidIndex[pid]) in pending {
        var key := Key(pid, pidIndex[pid]);
        pending := pending[key := pending[key].(sampled := true, visible := pending[key].visible || visible)];
      }
    }

    method DrainFlushable(nowMs: int) returns (out: seq<LaunchRow>)
      requires KeyedByProps(pending)
      modifies this
      ensures View() == OnDrain(old(View()), nowMs) && HandsOut(old(pending), old(pending).Keys, nowMs, out)
    {
      hide HandsOut, Stale, Emission, Flushed, Unindexed;
      var finished, stale;
      out, finished, stale := Sweep(nowMs);
      RemoveFinished(finished);
      RemoveStale(stale);
      assert pending == Kept(old(pending), nowMs);
    }

    method Sweep(nowMs: int) returns (out: seq<LaunchRow>, finished: set<Key>, stale: set<Key>)
      requires KeyedByProps(pending)
      modifies `pending
      ensures pending.Keys == old(pending).Keys
      ensures forall k :: k in pending ==> pending[k] == Flushed(old(pending)[k], nowMs)
      ensures HandsOut(old(pending), old(pending).Keys, nowMs, out)
      ensures finished == FinishedKeys(old(pending)) && stale == StaleKeys(old(pending), nowMs)
    {
      ghost var before := pending;
      out := [];
      finished, stale := {}, {};
      var waiting := pending.Keys;
      while waiting != {}
        invariant waiting <= pending.Keys == before.Keys
        invariant finished == FinishedKeys(before) - waiting && stale == StaleKeys(before, nowMs) - waiting
        invariant forall k :: k in pending ==>
                    pending[k] == if k in waiting then before[k] else Flushed(before[k], nowMs)
        invariant HandsOut(before, before.Keys - waiting, nowMs, out)
      {
        var key :| key in waiting;
        var launch := pending[key];
        HandOne(before, before.Keys - waiting, nowMs, out, key);
        if launch.stop.Some? {
          out := out + [FinalRow(launch)];
          finished := finished + {key};
        } else if nowMs - launch.props.createMs >= STALE_PENDING_THRESHOLD_MS {
          stale := stale + {key};
        } else if !launch.emittedRunning && nowMs - launch.props.createMs >= RUNNING_FLUSH_THRESHOLD_MS {
          out := out + [RunningRow(launch)];
          pending := pending[key := launch.(emittedRunning := true)];
        }
        assert before.Keys - waiting + {key} == before.Keys - (waiting - {key});
        waiting := waiting - {key};
      }
      assert before.Keys - waiting == before.Keys;
    }

    method RemoveFinished(keys: set<Key>)
      modifies `pending, `persisted
      ensures pending == old(pending) - keys && persisted == old(persisted) + |keys|
    {
      var left := keys;
      while left != {}
        invariant left <= keys
        invariant pending == old(pending) - (keys - left) && persisted == old(persisted) + |keys| - |left|
      {
        var key :| key in left;
        left := left - {key};
        pending := pending - {key};
        persisted := persisted + 1;
        assert keys - left == keys - (left + {key}) + {key};
      }
      assert keys - left == keys;
    }

    method RemoveStale(keys: set<Key>)
      modifies `pending, `pidIndex, `staleEvicted
      ensures pending == old(pending) - keys && staleEvicted == old(staleEvicted) + |keys|
      ensures pidIndex == Unindexed(old(pidIndex), keys)
    {
      var left := keys;
      while left != {}
        invariant left <= keys
        invariant pending == old(pending) - (keys - left) && staleEvicted == old(staleEvicted) + |keys| - |left|
        invariant pidIndex == Unindexed(old(pidIndex), keys - left)
      {
        var key :| key in left;
        UnindexOne(old(pidIndex), keys - left, key);
        assert keys - (left - {key}) == keys - left + {key};
        left := left - {key};
        pending := pending - {key};
        if key.pid in pidIndex && pidIndex[key.pid] == key.startMs {
          pidIndex := pidIndex - {key.pid};
        }
        staleEvicted := staleEvicted + 1;
      }
      assert keys - left == keys;
    }
  }
}
