/**
 * What the launch tracker's rows say about the events that led to them, over every interleaving of starts,
 * stops, window samples and drains.
 */
module LaunchHistory {
  import opened Models
  import opened Launches

  function After(events: seq<Event>, n: nat): Tracker
    requires n <= |events|
  {
    if n == 0 then IDLE else Next(After(events, n - 1), events[n - 1])
  }

  lemma AfterNext(events: seq<Event>, n: nat)
    requires n < |events|
    ensures After(events, n + 1) == Next(After(events, n), events[n])
  {
    hide Next;
  }

  lemma StartsIdle(events: seq<Event>)
    ensures After(events, 0) == IDLE
  {
  }

  // ---------------------------------------------------------------- invariant

  predicate Routed(t: Tracker, k: Key) {
    k.pid in t.pidIndex && t.pidIndex[k.pid] == k.startMs
  }

  /** Rows sit under their own key, and the index only ever leads to a pending row that has not stopped. */
  ghost predicate WellIndexed(t: Tracker) {
    && KeyedByProps(t.pending)
    && forall k: Key :: Routed(t, k) ==> k in t.pending && t.pending[k].stop.None?
  }

  lemma NextStaysIndexed(t: Tracker, e: Event)
    requires WellIndexed(t)
    ensures WellIndexed(Next(t, e))
  {
    hide LineageFrom, Remember;
    forall k: Key | Routed(Next(t, e), k)
      ensures k in Next(t, e).pending && Next(t, e).pending[k].stop.None?
    {
      assert Routed(t, k) || (e.Started? && k == KeyOf(e.props));
    }
  }

  /** Over every run, the pid index points at pending rows without a stop. */
  lemma {:induction false} AlwaysIndexed(events: seq<Event>, n: nat)
    requires n <= |events|
    ensures WellIndexed(After(events, n))
  {
    hide After, Next;
    if n == 0 {
      StartsIdle(events);
    } else {
      AlwaysIndexed(events, n - 1);
      AfterNext(events, n - 1);
      NextStaysIndexed(After(events, n - 1), events[n - 1]);
    }
  }

  // ------------------------------------------------- the life of a row, declared

  /** Event `i` is a start that opens a row under `k`. */
  predicate Accepts(events: seq<Event>, i: nat, k: Key) {
    i < |events| && events[i].Started? && KeyOf(events[i].props) == k && k !in After(events, i).pending
  }

  predicate StaleDrain(e: Event, k: Key) {
    e.Drained? && e.nowMs - k.startMs >= STALE_PENDING_THRESHOLD_MS
  }

  /** Event `j` ends the routing of the pid's stops and samples to `k`. */
  predicate Diverts(events: seq<Event>, j: nat, k: Key)
    requires j < |events|
  {
    || (events[j].Stopped? && events[j].pid == k.pid)
    || (events[j].Started? && events[j].props.pid == k.pid && Accepts(events, j, KeyOf(events[j].props)))
    || StaleDrain(events[j], k)
  }

  /** The row opened at `i` is the one its pid's events still go to, just before event `n`. */
  predicate Routes(events: seq<Event>, i: nat, n: nat, k: Key) {
    i < n <= |events| && Accepts(events, i, k) && forall j :: i < j < n ==> !Diverts(events, j, k)
  }

  predicate SampledIn(events: seq<Event>, i: nat, n: nat, pid: nat)
    requires n <= |events|
  {
    exists j :: i < j < n && events[j].WindowSeen? && events[j].pid == pid
  }

  predicate VisibleIn(events: seq<Event>, i: nat, n: nat, pid: nat)
    requires n <= |events|
  {
    exists j :: i < j < n && events[j].WindowSeen? && events[j].pid == pid && events[j].visible
  }

  predicate FlushedIn(events: seq<Event>, i: nat, n: nat, k: Key)
    requires n <= |events|
  {
    exists j :: i < j < n && events[j].Drained? && events[j].nowMs - k.startMs >= RUNNING_FLUSH_THRESHOLD_MS
  }

  function BornRow(events: seq<Event>, i: nat): PendingLaunch
    requires i < |events| && events[i].Started?
  {
    NewRow(After(events, i).recent, events[i].props, events[i].live)
  }

  /** What the events up to `n` say of a row opened at `i`, its samples counted up to `m`. */
  function OpenRow(events: seq<Event>, i: nat, m: nat, n: nat): PendingLaunch
    requires i < m <= n <= |events| && events[i].Started?
  {
    var p := events[i].props;
    BornRow(events, i).(sampled := SampledIn(events, i, m, p.pid), visible := VisibleIn(events, i, m, p.pid),
                        emittedRunning := FlushedIn(events, i, n, KeyOf(p)))
  }

  /** The row opened at `i` lost its pid to a newer launch at `j`, and has not gone stale before event `n`. */
  predicate Superseded(events: seq<Event>, i: nat, j: nat, n: nat, k: Key) {
    && j < n <= |events| && Routes(events, i, j, k)
    && events[j].Started? && events[j].props.pid == k.pid && Accepts(events, j, KeyOf(events[j].props))
    && forall m :: j < m < n ==> !StaleDrain(events[m], k)
  }

  /** The row opened at `i` was stopped at `j`, and has not been drained before event `n`. */
  predicate Ended(events: seq<Event>, i: nat, j: nat, n: nat, k: Key) {
    && j < n <= |events| && Routes(events, i, j, k)
    && events[j].Stopped? && events[j].pid == k.pid
    && forall m :: j < m < n ==> !events[m].Drained?
  }

  function EndedRow(events: seq<Event>, i: nat, j: nat): PendingLaunch
    requires i < j < |events| && events[i].Started? && events[j].Stopped?
  {
    var row := OpenRow(events, i, j, j);
    row.(stop := Some(events[j].stop), window := WindowOf(row))
  }

  // --------------------------------------------- the declaration is what happens

  lemma BornIsRouted(events: seq<Event>, i: nat, k: Key)
    requires Accepts(events, i, k)
    ensures Routed(After(events, i + 1), k) && k in After(events, i + 1).pending
    ensures After(events, i + 1).pending[k] == OpenRow(events, i, i + 1, i + 1)
  {
    AfterNext(events, i);
    hide After, LineageFrom, Remember;
  }

  /** One event that neither diverts nor drops the row updates it as declared. */
  lemma RoutedStep(t: Tracker, e: Event, k: Key)
    requires WellIndexed(t) && Routed(t, k)
    requires !(e.Stopped? && e.pid == k.pid) && !StaleDrain(e, k)
    requires e.Started? && e.props.pid == k.pid ==> KeyOf(e.props) in t.pending
    ensures var (row, next) := (t.pending[k], Next(t, e));
            && Routed(next, k) && k in next.pending
            && next.pending[k] == row.(
                 sampled := row.sampled || (e.WindowSeen? && e.pid == k.pid),
                 visible := row.visible || (e.WindowSeen? && e.pid == k.pid && e.visible),
                 emittedRunning := row.emittedRunning
                                   || (e.Drained? && e.nowMs - k.startMs >= RUNNING_FLUSH_THRESHOLD_MS))
  {
    hide LineageFrom, Remember;
    assert KeyOf(t.pending[k].props) == k;
  }

  /** How the declared row changes over one event. */
  lemma OpenRowGrows(events: seq<Event>, i: nat, n: nat, k: Key)
    requires i < n < |events| && events[i].Started? && KeyOf(events[i].props) == k
    ensures var (row, e) := (OpenRow(events, i, n, n), events[n]);
            OpenRow(events, i, n + 1, n + 1) == row.(
              sampled := row.sampled || (e.WindowSeen? && e.pid == k.pid),
              visible := row.visible || (e.WindowSeen? && e.pid == k.pid && e.visible),
              emittedRunning := row.emittedRunning
                                || (e.Drained? && e.nowMs - k.startMs >= RUNNING_FLUSH_THRESHOLD_MS))
  {
    hide BornRow, After;
  }

  lemma FlushedGrows(events: seq<Event>, i: nat, n: nat, k: Key)
    requires i < n < |events|
    ensures FlushedIn(events, i, n + 1, k)
            <==> FlushedIn(events, i, n, k)
                 || (events[n].Drained? && events[n].nowMs - k.startMs >= RUNNING_FLUSH_THRESHOLD_MS)
  {
  }

  lemma OpenRowAges(events: seq<Event>, i: nat, m: nat, n: nat, k: Key)
    requires i < m <= n < |events| && events[i].Started? && KeyOf(events[i].props) == k
    ensures var (row, e) := (OpenRow(events, i, m, n), events[n]);
            row.stop.None? && OpenRow(events, i, m, n + 1) == row.(
              emittedRunning := row.emittedRunning
                                || (e.Drained? && e.nowMs - k.startMs >= RUNNING_FLUSH_THRESHOLD_MS))
  {
    NewRowIsOpen(events, i);
    hide BornRow, SampledIn, VisibleIn, FlushedIn, After;
    FlushedGrows(events, i, n, k);
  }

  lemma {:induction false} RoutesHold(events: seq<Event>, i: nat, n: nat, k: Key)
    requires Routes(events, i, n, k)
    ensures Routed(After(events, n), k) && k in After(events, n).pending
    ensures After(events, n).pending[k] == OpenRow(events, i, n, n)
    decreases n
  {
    hide After, Next, WellIndexed, OpenRow;
    if n == i + 1 {
      BornIsRouted(events, i, k);
    } else {
      RoutesHold(events, i, n - 1, k);
      AlwaysIndexed(events, n - 1);
      assert !Diverts(events, n - 1, k);
      OpenRowGrows(events, i, n - 1, k);
      AfterNext(events, n - 1);
      RoutedStep(After(events, n - 1), events[n - 1], k);
    }
  }

  /** A pid's events go to a row exactly when the trace says so. */
  lemma {:induction false} RoutedWasBorn(events: seq<Event>, n: nat, k: Key) returns (i: nat)
    requires n <= |events| && Routed(After(events, n), k)
    ensures Routes(events, i, n, k)
    decreases n
  {
    hide Next, WellIndexed;
    assert n > 0;
    hide After;
    var t, e := After(events, n - 1), events[n - 1];
    AfterNext(events, n - 1);
    AlwaysIndexed(events, n - 1);
    if Accepts(events, n - 1, k) {
      i := n - 1;
    } else {
      assert Routed(t, k) && !Diverts(events, n - 1, k) by {
        RoutedEarlier(t, e, k);
      }
      i := RoutedWasBorn(events, n - 1, k);
    }
  }

  lemma RoutedEarlier(t: Tracker, e: Event, k: Key)
    requires WellIndexed(t) && Routed(Next(t, e), k)
    requires !(e.Started? && KeyOf(e.props) == k && k !in t.pending)
    ensures Routed(t, k) && !(e.Stopped? && e.pid == k.pid) && !StaleDrain(e, k)
    ensures e.Started? && e.props.pid == k.pid ==> KeyOf(e.props) in t.pending
  {
    hide LineageFrom, Remember;
    if Routed(t, k) {
      assert KeyOf(t.pending[k].props) == k;
    }
  }

  /** A pending row nothing is routed to changes only in having been flushed, until a drain takes it. */
  lemma LeftAloneStep(t: Tracker, e: Event, k: Key)
    requires WellIndexed(t) && k in t.pending && !Routed(t, k)
    ensures !Routed(Next(t, e), k)
    ensures k in Next(t, e).pending <==> !(e.Drained? && (t.pending[k].stop.Some? || StaleDrain(e, k)))
    ensures k in Next(t, e).pending ==>
              Next(t, e).pending[k] == t.pending[k].(
                emittedRunning := t.pending[k].emittedRunning
                                  || (e.Drained? && e.nowMs - k.startMs >= RUNNING_FLUSH_THRESHOLD_MS))
  {
    hide LineageFrom, Remember;
    assert KeyOf(t.pending[k].props) == k;
  }

  lemma SupersedingStep(t: Tracker, e: Event, k: Key)
    requires WellIndexed(t) && Routed(t, k) && k in t.pending
    requires e.Started? && e.props.pid == k.pid && KeyOf(e.props) !in t.pending
    ensures var next := Next(t, e); k in next.pending && next.pending[k] == t.pending[k] && !Routed(next, k)
  {
    hide LineageFrom, Remember;
  }

  lemma {:induction false} SupersededHolds(events: seq<Event>, i: nat, j: nat, n: nat, k: Key)
    requires Superseded(events, i, j, n, k)
    ensures k in After(events, n).pending && !Routed(After(events, n), k)
    ensures After(events, n).pending[k] == OpenRow(events, i, j, n)
    decreases n
  {
    hide After, Next, WellIndexed, OpenRow;
    AlwaysIndexed(events, n - 1);
    AfterNext(events, n - 1);
    if n == j + 1 {
      RoutesHold(events, i, j, k);
      OpenRowAges(events, i, j, j, k);
      SupersedingStep(After(events, j), events[j], k);
    } else {
      SupersededHolds(events, i, j, n - 1, k);
      OpenRowAges(events, i, j, n - 1, k);
      LeftAloneStep(After(events, n - 1), events[n - 1], k);
    }
  }

  lemma StoppingStep(t: Tracker, e: Event, k: Key)
    requires WellIndexed(t) && Routed(t, k) && k in t.pending && e.Stopped? && e.pid == k.pid
    ensures var (row, next) := (t.pending[k], Next(t, e));
            k in next.pending && !Routed(next, k)
            && next.pending[k] == row.(stop := Some(e.stop), window := WindowOf(row))
  {
  }

  lemma {:induction false} EndedHolds(events: seq<Event>, i: nat, j: nat, n: nat, k: Key)
    requires Ended(events, i, j, n, k)
    ensures k in After(events, n).pending && !Routed(After(events, n), k)
    ensures After(events, n).pending[k] == EndedRow(events, i, j)
    decreases n
  {
    hide After, Next, WellIndexed, OpenRow;
    AlwaysIndexed(events, n - 1);
    AfterNext(events, n - 1);
    if n == j + 1 {
      RoutesHold(events, i, j, k);
      StoppingStep(After(events, j), events[j], k);
    } else {
      EndedHolds(events, i, j, n - 1, k);
      LeftAloneStep(After(events, n - 1), events[n - 1], k);
    }
  }

  datatype Explanation = Alive(i: nat) | Overtaken(i: nat, j: nat) | Finished(i: nat, j: nat)

  predicate Explains(events: seq<Event>, n: nat, k: Key, why: Explanation) {
    match why
    case Alive(i) => Routes(events, i, n, k)
    case Overtaken(i, j) => Superseded(events, i, j, n, k)
    case Finished(i, j) => Ended(events, i, j, n, k)
  }

  lemma PendingEarlier(t: Tracker, e: Event, k: Key)
    requires WellIndexed(t) && k in Next(t, e).pending
    requires !(e.Started? && KeyOf(e.props) == k && k !in t.pending)
    ensures k in t.pending
    ensures !(e.Drained? && (t.pending[k].stop.Some? || StaleDrain(e, k)))
  {
    hide LineageFrom, Remember;
    if k in t.pending {
      assert KeyOf(t.pending[k].props) == k;
    }
  }

  /** Every pending row has exactly one kind of past: still routed to, overtaken, or stopped. */
  lemma {:induction false} PendingIsExplained(events: seq<Event>, n: nat, k: Key) returns (why: Explanation)
    requires n <= |events| && k in After(events, n).pending
    ensures Explains(events, n, k, why)
    decreases n
  {
    hide After, Next, WellIndexed, Routes, Ended, Superseded, Emission;
    if Routed(After(events, n), k) {
      var i := RoutedWasBorn(events, n, k);
      return Alive(i);
    }
    if n == 0 {
      StartsIdle(events);
      assert false;
    }
    var t, e := After(events, n - 1), events[n - 1];
    AfterNext(events, n - 1);
    AlwaysIndexed(events, n - 1);
    if Accepts(events, n - 1, k) {
      BornIsRouted(events, n - 1, k);
      assert false;
    }
    PendingEarlier(t, e, k);
    if Routed(t, k) {
      var i := RoutedWasBorn(events, n - 1, k);
      Dethroned(t, e, k);
      why := if e.Stopped? then Finished(i, n - 1) else Overtaken(i, n - 1);
      LostAt(events, i, n - 1, k);
    } else {
      why := PendingIsExplained(events, n - 1, k);
      ExplainedBefore(events, n, k, why);
    }
  }

  lemma LostAt(events: seq<Event>, i: nat, j: nat, k: Key)
    requires j < |events| && Routes(events, i, j, k)
    ensures events[j].Stopped? && events[j].pid == k.pid ==> Ended(events, i, j, j + 1, k)
    ensures events[j].Started? && events[j].props.pid == k.pid && Accepts(events, j, KeyOf(events[j].props)) ==>
              Superseded(events, i, j, j + 1, k)
  {
  }

  lemma ExplainedBefore(events: seq<Event>, n: nat, k: Key, why: Explanation)
    requires 0 < n <= |events| && Explains(events, n - 1, k, why) && !Routed(After(events, n - 1), k)
    requires k in After(events, n - 1).pending
    requires !(events[n - 1].Drained? && (After(events, n - 1).pending[k].stop.Some? || StaleDrain(events[n - 1], k)))
    ensures Explains(events, n, k, why)
  {
    hide After, OpenRow;
    match why {
      case Alive(i) => RoutesHold(events, i, n - 1, k);
      case Overtaken(i, j) =>
      case Finished(i, j) => EndedHolds(events, i, j, n - 1, k);
    }
  }

  /** A pending row only loses its routing to a stop or to a newer launch. */
  lemma Dethroned(t: Tracker, e: Event, k: Key)
    requires WellIndexed(t) && Routed(t, k) && k in Next(t, e).pending && !Routed(Next(t, e), k)
    ensures (e.Stopped? && e.pid == k.pid)
            || (e.Started? && e.props.pid == k.pid && KeyOf(e.props) !in t.pending && KeyOf(e.props) != k)
  {
    hide LineageFrom, Remember;
    assert KeyOf(t.pending[k].props) == k;
  }

  /**
   * A launch has a pending row if and only if the events say so: it is still routed to, or was overtaken and is not yet
   * stale, or was stopped and is not yet drained.
   */
  lemma PendingIff(events: seq<Event>, n: nat, k: Key)
    requires n <= |events|
    ensures k in After(events, n).pending <==> exists why :: Explains(events, n, k, why)
  {
    hide After, Routes, Ended, Superseded;
    if k in After(events, n).pending {
      var why := PendingIsExplained(events, n, k);
    }
    if why :| Explains(events, n, k, why) {
      match why {
        case Alive(i) => RoutesHold(events, i, n, k);
        case Overtaken(i, j) => SupersededHolds(events, i, j, n, k);
        case Finished(i, j) => EndedHolds(events, i, j, n, k);
      }
    }
  }

  /**
   * So whether a start is accepted is settled by the events before it alone: it is, unless they explain a pending row
   * under its key, and they do so through starts that come earlier still.
   */
  lemma AcceptedUnlessExplained(events: seq<Event>, i: nat, k: Key)
    requires i < |events| && events[i].Started? && KeyOf(events[i].props) == k
    ensures Accepts(events, i, k) <==> !exists why :: Explains(events, i, k, why)
    ensures forall why :: Explains(events, i, k, why) ==> why.i < i && Accepts(events, why.i, k)
  {
    hide After;
    PendingIff(events, i, k);
  }

  // -------------------------------------------------------------- what is handed out

  /** The row that drain `d` hands out for `k`, if it does. */
  function HandedOut(events: seq<Event>, d: nat, k: Key): Option<LaunchRow>
    requires d < |events| && events[d].Drained?
  {
    var t := After(events, d);
    if k in t.pending then Emission(t.pending[k], events[d].nowMs) else None
  }

  /** The row a stop at `j` should close for the launch opened at `i`. */
  function TracedRow(events: seq<Event>, i: nat, j: nat): LaunchRow
    requires i < j < |events| && events[i].Started? && events[j].Stopped?
  {
    var p := events[i].props;
    LaunchRow(p, BornRow(events, i).lineage, Some(events[j].stop),
              if VisibleIn(events, i, j, p.pid) then Windowed
              else if SampledIn(events, i, j, p.pid) then NeverWindowed
              else Unobserved)
  }

  /**
   * A drain hands out a finished row for a launch exactly when the trace holds its start, then the first stop of its
   * pid with no newer start of that pid and no stale drain in between, then no drain: and the row carries that
   * start, that stop, and the window state the samples in between imply.
   */
  lemma FinalRowsAreTraced(events: seq<Event>, d: nat, k: Key, row: LaunchRow)
    requires d < |events| && events[d].Drained? && row.stop.Some?
    ensures HandedOut(events, d, k) == Some(row)
            <==> exists i, j :: Ended(events, i, j, d, k) && row == TracedRow(events, i, j)
  {
    hide BornRow, After;
    if HandedOut(events, d, k) == Some(row) {
      var why := PendingIsExplained(events, d, k);
      match why {
        case Alive(i) => RoutesHold(events, i, d, k); NewRowIsOpen(events, i);
        case Overtaken(i, j) => SupersededHolds(events, i, j, d, k); NewRowIsOpen(events, i);
        case Finished(i, j) => EndedHolds(events, i, j, d, k); NewRowIsOpen(events, i);
      }
    }
    if i, j :| Ended(events, i, j, d, k) && row == TracedRow(events, i, j) {
      EndedHolds(events, i, j, d, k);
      NewRowIsOpen(events, i);
    }
  }

  /** A launch that lost its pid to a newer one is never finished, whatever stops arrive afterwards. */
  lemma OvertakenNeverFinishes(events: seq<Event>, i: nat, j: nat, d: nat, k: Key)
    requires d < |events| && events[d].Drained? && Superseded(events, i, j, d, k)
    ensures HandedOut(events, d, k).Some? ==> HandedOut(events, d, k).value.stop.None?
  {
    SupersededHolds(events, i, j, d, k);
    NewRowIsOpen(events, i);
    hide BornRow, After;
  }

  lemma NewRowIsOpen(events: seq<Event>, i: nat)
    requires i < |events| && events[i].Started?
    ensures BornRow(events, i).stop.None? && BornRow(events, i).props == events[i].props
  {
  }

  /** The launch opened at `i` has neither stopped nor been evicted before event `n`, overtaken or not. */
  ghost predicate OpenAt(events: seq<Event>, i: nat, n: nat, k: Key) {
    Routes(events, i, n, k) || exists j :: Superseded(events, i, j, n, k)
  }

  predicate OfRunningAge(nowMs: int, k: Key) {
    RUNNING_FLUSH_THRESHOLD_MS <= nowMs - k.startMs < STALE_PENDING_THRESHOLD_MS
  }

  /** A drain reports a launch as running exactly when it is open, old enough, and no earlier drain found it so. */
  lemma RunningRowsAreTraced(events: seq<Event>, d: nat, k: Key)
    requires d < |events| && events[d].Drained?
    ensures (exists row :: HandedOut(events, d, k) == Some(row) && row.stop.None?)
            <==> exists i :: OpenAt(events, i, d, k) && OfRunningAge(events[d].nowMs, k) && !FlushedIn(events, i, d, k)
  {
    AlwaysIndexed(events, d);
    hide BornRow, After;
    if row :| HandedOut(events, d, k) == Some(row) && row.stop.None? {
      var why := PendingIsExplained(events, d, k);
      match why {
        case Alive(i) =>
          RoutesHold(events, i, d, k);
          NewRowIsOpen(events, i);
          assert OpenAt(events, i, d, k);
        case Overtaken(i, j) =>
          SupersededHolds(events, i, j, d, k);
          NewRowIsOpen(events, i);
          assert OpenAt(events, i, d, k);
        case Finished(i, j) => EndedHolds(events, i, j, d, k);
      }
    }
    if i :| OpenAt(events, i, d, k) && OfRunningAge(events[d].nowMs, k) && !FlushedIn(events, i, d, k) {
      NewRowIsOpen(events, i);
      if Routes(events, i, d, k) {
        RoutesHold(events, i, d, k);
      } else {
        var j :| Superseded(events, i, j, d, k);
        SupersededHolds(events, i, j, d, k);
      }
      var row := After(events, d).pending[k];
      assert HandedOut(events, d, k) == Some(RunningRow(row));
    }
  }

  /** Until it is opened again, a row is past being reported as running, or gone. */
  predicate Reported(t: Tracker, k: Key) {
    k in t.pending ==> t.pending[k].stop.Some? || t.pending[k].emittedRunning
  }

  lemma ReportedStep(t: Tracker, e: Event, k: Key)
    requires WellIndexed(t) && Reported(t, k) && !(e.Started? && KeyOf(e.props) == k && k !in t.pending)
    ensures Reported(Next(t, e), k) && (k !in t.pending ==> k !in Next(t, e).pending)
  {
    hide LineageFrom, Remember;
  }

  lemma {:induction false} StaysReported(events: seq<Event>, m: nat, n: nat, k: Key)
    requires m <= n <= |events| && Reported(After(events, m), k)
    requires forall i :: m <= i < n ==> !Accepts(events, i, k)
    ensures Reported(After(events, n), k)
    ensures k !in After(events, m).pending ==> k !in After(events, n).pending
    decreases n
  {
    hide After, Next, WellIndexed, Reported;
    if m < n {
      AfterNext(events, n - 1);
      StaysReported(events, m, n - 1, k);
      AlwaysIndexed(events, n - 1);
      assert !Accepts(events, n - 1, k);
      ReportedStep(After(events, n - 1), events[n - 1], k);
    }
  }

  lemma DrainReports(t: Tracker, nowMs: int, k: Key)
    requires k in t.pending && Emission(t.pending[k], nowMs).Some?
    ensures Reported(OnDrain(t, nowMs), k)
    ensures Emission(t.pending[k], nowMs).value.stop.Some? ==> k !in OnDrain(t, nowMs).pending
  {
  }

  /** A row is handed out at most twice: once as running, and then once finished. */
  lemma RunningThenFinal(events: seq<Event>, d: nat, d': nat, k: Key)
    requires d < d' < |events| && events[d].Drained? && events[d'].Drained?
    requires HandedOut(events, d, k).Some? && HandedOut(events, d', k).Some?
    requires forall i :: d < i < d' ==> !Accepts(events, i, k)
    ensures HandedOut(events, d, k).value.stop.None? && HandedOut(events, d', k).value.stop.Some?
  {
    var t := After(events, d);
    DrainReports(t, events[d].nowMs, k);
    assert After(events, d + 1) == OnDrain(t, events[d].nowMs);
    hide After, Next, OnDrain;
    StaysReported(events, d + 1, d', k);
    assert Emission(t.pending[k], events[d].nowMs).value.stop == t.pending[k].stop;
  }

  /** No start is delivered again after its row has been drained. */
  predicate NoRedelivery(events: seq<Event>) {
    forall i, j :: 0 <= i < j < |events| && events[i].Started? && events[j].Started?
                   && KeyOf(events[i].props) == KeyOf(events[j].props) ==>
                     KeyOf(events[j].props) in After(events, j).pending
  }

  /** Then each launch is finished at most once in the whole run. */
  lemma FinishedAtMostOnce(events: seq<Event>, d: nat, d': nat, k: Key)
    requires NoRedelivery(events) && d < d' < |events| && events[d].Drained? && events[d'].Drained?
    requires HandedOut(events, d, k).Some? && HandedOut(events, d, k).value.stop.Some?
    ensures HandedOut(events, d', k).None?
  {
    hide HandedOut, After;
    if HandedOut(events, d', k).Some? {
      BornBefore(events, d, k);
      RunningThenFinal(events, d, d', k);
    }
  }

  lemma BornBefore(events: seq<Event>, d: nat, k: Key)
    requires d < |events| && events[d].Drained? && HandedOut(events, d, k).Some?
    ensures exists i :: 0 <= i < d && events[i].Started? && KeyOf(events[i].props) == k
  {
    var why := PendingIsExplained(events, d, k);
    assert Accepts(events, why.i, k);
  }

  // -------------------------------------------------------------- conservation

  function StartsIn(events: seq<Event>, n: nat): nat
    requires n <= |events|
  {
    if n == 0 then 0 else StartsIn(events, n - 1) + if events[n - 1].Started? then 1 else 0
  }

  function StopsIn(events: seq<Event>, n: nat): nat
    requires n <= |events|
  {
    if n == 0 then 0 else StopsIn(events, n - 1) + if events[n - 1].Stopped? then 1 else 0
  }

  function AcceptedStarts(events: seq<Event>, n: nat): nat
    requires n <= |events|
  {
    if n == 0 then 0
    else AcceptedStarts(events, n - 1)
         + if events[n - 1].Started? && Accepts(events, n - 1, KeyOf(events[n - 1].props)) then 1 else 0
  }

  lemma DrainSplitsPending(pending: map<Key, PendingLaunch>, nowMs: int)
    ensures |Kept(pending, nowMs)| + |FinishedKeys(pending)| + |StaleKeys(pending, nowMs)| == |pending|
    ensures FinishedKeys(Kept(pending, nowMs)) == {}
  {
    var finished, stale, kept := FinishedKeys(pending), StaleKeys(pending, nowMs), Kept(pending, nowMs).Keys;
    assert pending.Keys == finished + stale + kept;
    assert finished !! stale && (finished + stale) !! kept;
    assert |pending| == |pending.Keys| && |Kept(pending, nowMs)| == |kept|;
  }

  lemma AddingOne(pending: map<Key, PendingLaunch>, k: Key, row: PendingLaunch)
    ensures |pending[k := row]| == if k in pending then |pending| else |pending| + 1
  {
    assert pending[k := row].Keys == pending.Keys + {k};
    assert |pending[k := row]| == |pending[k := row].Keys| && |pending| == |pending.Keys|;
  }

  /** What an event adds to each side of the two balances. */
  lemma BalanceStep(t: Tracker, e: Event)
    requires WellIndexed(t)
    ensures var next := Next(t, e);
            && |next.pending| + next.persisted + next.staleEvicted
               == |t.pending| + t.persisted + t.staleEvicted
                  + (if e.Started? && KeyOf(e.props) !in t.pending then 1 else 0)
            && next.stopsSeen - next.orphanStops - next.persisted - |FinishedKeys(next.pending)|
               == t.stopsSeen - t.orphanStops - t.persisted - |FinishedKeys(t.pending)|
  {
    hide LineageFrom, Remember, Kept, StaleKeys, FinishedKeys, WellIndexed, RouteOf;
    match e {
      case Started(props, live) => StartBalance(t, props, live);
      case Stopped(pid, stop) => StopBalance(t, pid, stop);
      case WindowSeen(pid, visible) => WindowBalance(t, pid, visible);
      case Drained(nowMs) => DrainSplitsPending(t.pending, nowMs);
    }
  }

  lemma NewRowsAreUnfinished(pending: map<Key, PendingLaunch>, k: Key, row: PendingLaunch)
    requires row.stop.None? && (k in pending ==> pending[k].stop.None?)
    ensures FinishedKeys(pending[k := row]) == FinishedKeys(pending)
  {
  }

  lemma StartBalance(t: Tracker, p: StartProps, live: map<nat, LiveProcess>)
    ensures var next := OnStart(t, p, live);
            && |next.pending| == |t.pending| + (if KeyOf(p) in t.pending then 0 else 1)
            && FinishedKeys(next.pending) == FinishedKeys(t.pending)
  {
    hide LineageFrom, Remember;
    if KeyOf(p) !in t.pending {
      AddingOne(t.pending, KeyOf(p), NewRow(t.recent, p, live));
      NewRowsAreUnfinished(t.pending, KeyOf(p), NewRow(t.recent, p, live));
    }
  }

  lemma StopBalance(t: Tracker, pid: nat, stop: Stop)
    requires WellIndexed(t)
    ensures var next := OnStop(t, pid, stop);
            && |next.pending| == |t.pending|
            && next.orphanStops + |FinishedKeys(next.pending)| == t.orphanStops + |FinishedKeys(t.pending)| + 1
  {
    var route := RouteOf(t, pid);
    if route.Some? {
      assert Routed(t, route.value);
      var row := OnStop(t, pid, stop).pending[route.value];
      AddingOne(t.pending, route.value, row);
      assert FinishedKeys(t.pending[route.value := row]) == FinishedKeys(t.pending) + {route.value};
    }
  }

  lemma WindowBalance(t: Tracker, pid: nat, visible: bool)
    requires WellIndexed(t)
    ensures var next := OnWindow(t, pid, visible);
            |next.pending| == |t.pending| && FinishedKeys(next.pending) == FinishedKeys(t.pending)
  {
    var route := RouteOf(t, pid);
    if route.Some? {
      assert Routed(t, route.value);
      var row := OnWindow(t, pid, visible).pending[route.value];
      AddingOne(t.pending, route.value, row);
      NewRowsAreUnfinished(t.pending, route.value, row);
    }
  }

  /**
   * At every point of every run: each accepted start is pending, persisted or evicted, and each stop was an orphan,
   * closed a persisted row, or closed one that waits to be drained.
   */
  lemma {:induction false} NothingIsLost(events: seq<Event>, n: nat)
    requires n <= |events|
    ensures var t := After(events, n);
            && AcceptedStarts(events, n) == |t.pending| + t.persisted + t.staleEvicted
            && t.stopsSeen == t.orphanStops + t.persisted + |FinishedKeys(t.pending)|
            && t.startsSeen == StartsIn(events, n) && t.stopsSeen == StopsIn(events, n)
  {
    hide After, Next, WellIndexed;
    if n == 0 {
      StartsIdle(events);
    } else {
      hide FinishedKeys;
      NothingIsLost(events, n - 1);
      AlwaysIndexed(events, n - 1);
      AfterNext(events, n - 1);
      BalanceStep(After(events, n - 1), events[n - 1]);
      SeenStep(After(events, n - 1), events[n - 1]);
    }
  }

  lemma SeenStep(t: Tracker, e: Event)
    ensures Next(t, e).startsSeen == t.startsSeen + if e.Started? then 1 else 0
    ensures Next(t, e).stopsSeen == t.stopsSeen + if e.Stopped? then 1 else 0
  {
  }

  // ------------------------------------------------------------- the recent ring

  function Launched(events: seq<Event>, n: nat): seq<RecentLaunch>
    requires n <= |events|
  {
    if n == 0 then []
    else
      var e := events[n - 1];
      Launched(events, n - 1)
      + if e.Started? && Accepts(events, n - 1, KeyOf(e.props))
        then [LaunchOf(e.props)]
        else []
  }

  /** The ring holds the most recent accepted launches, in order, as many as fit. */
  lemma {:induction false} RingIsTheRecentPast(events: seq<Event>, n: nat)
    requires n <= |events|
    ensures var (all, ring) := (Launched(events, n), After(events, n).recent);
            IsRecentPast(all, ring)
  {
    hide After, Next, LaunchOf;
    if n == 0 {
      StartsIdle(events);
    } else {
      hide IsRecentPast, Capped;
      var all, ring, e := Launched(events, n - 1), After(events, n - 1).recent, events[n - 1];
      RingIsTheRecentPast(events, n - 1);
      AfterNext(events, n - 1);
      RingStep(After(events, n - 1), e);
      if e.Started? && KeyOf(e.props) !in After(events, n - 1).pending {
        RecentPastGrows(all, ring, LaunchOf(e.props));
      } else {
        assert all + [] == all;
      }
    }
  }

  predicate IsRecentPast(all: seq<RecentLaunch>, ring: seq<RecentLaunch>) {
    |ring| <= RECENT_CAP && |ring| <= |all| && ring == all[|all| - |ring|..] && (|ring| < RECENT_CAP ==> ring == all)
  }

  lemma RecentPastGrows(all: seq<RecentLaunch>, ring: seq<RecentLaunch>, launch: RecentLaunch)
    requires IsRecentPast(all, ring)
    ensures IsRecentPast(all + [launch], Capped(ring + [launch]))
  {
    assert all == all[..|all| - |ring|] + ring;
  }

  lemma RingStep(t: Tracker, e: Event)
    ensures Next(t, e).recent == if e.Started? && KeyOf(e.props) !in t.pending
                                 then Capped(t.recent + [LaunchOf(e.props)]) else t.recent
  {
    hide LineageFrom, Kept, StaleKeys, FinishedKeys;
  }
}
