/**
 * What becomes of a user's flags in a service whose evaluations are stored a moment after they are made. The engine
 * hears of a flag at once; the table may have it overwritten by a record that was drawn up before.
 */
module StaleDeltas {
  import opened Models
  import opened Incidents
  import opened Lifecycle
  import opened Alerting
  import opened AlertTable
  import opened Worlds
  import opened Backing
  import opened Retention

  // --------------------------------------------------------------- flags in turn

  function WithFlags(a: Alert, flags: seq<Flag>): Alert {
    if flags == [] then a else Flagging(WithFlags(a, flags[..|flags| - 1]), flags[|flags| - 1])
  }

  /** Whether the incident counts as filed away after these flags, given whether it did before. */
  function LastArchiving(flags: seq<Flag>, before: bool): bool {
    if flags == [] then before
    else if flags[|flags| - 1].Archiving? then flags[|flags| - 1].archived
    else LastArchiving(flags[..|flags| - 1], before)
  }

  predicate Archives(flags: seq<Flag>) {
    exists f :: f in flags && f.Archiving?
  }

  lemma {:induction false} FlagsInClosedForm(a: Alert, flags: seq<Flag>)
    ensures WithFlags(a, flags)
            == a.(acknowledged := a.acknowledged || Acknowledging in flags,
                  archived := LastArchiving(flags, a.archived))
  {
    if flags != [] {
      var n := |flags| - 1;
      FlagsInClosedForm(a, flags[..n]);
      assert flags == flags[..n] + [flags[n]];
      assert Acknowledging in flags <==> Acknowledging in flags[..n] || flags[n] == Acknowledging;
    }
  }

  lemma {:induction false} ArchivingsInTurn(first: seq<Flag>, then': seq<Flag>, before: bool)
    ensures LastArchiving(first + then', before) == LastArchiving(then', LastArchiving(first, before))
    ensures !Archives(then') ==> LastArchiving(then', before) == before
    ensures Archives(then') ==> LastArchiving(then', before) == LastArchiving(then', !before)
  {
    if then' == [] {
      assert first + then' == first;
    } else {
      var n := |then'| - 1;
      assert then' == then'[..n] + [then'[n]];
      ArchivingsInTurn(first, then'[..n], before);
      assert (first + then')[..|first + then'| - 1] == first + then'[..n];
      assert then'[n] in then';
      assert forall f :: f in then'[..n] ==> f in then';
      assert forall f :: f in then' ==> f in then'[..n] || f == then'[n];
    }
  }

  // ---------------------------------------------------------- flags along a run

  /** The flags on an identifier that the engine heard of from one point to another. */
  function Heard(events: seq<Event>, from: nat, to: nat, id: AlertId): seq<Flag>
    requires to <= |events|
  {
    if to <= from then []
    else Heard(events, from, to - 1, id) + HeardAt(events[to - 1], id)
  }

  function HeardAt(event: Event, id: AlertId): seq<Flag> {
    if event.AlertFlagged? && event.id == id then [event.flag] else []
  }

  function ArrivingAt(s: Service, event: Event, id: AlertId): seq<Flag> {
    if event.RowFlagged? && s.underway.Some? && s.underway.value.id == id then [s.underway.value.flag] else []
  }

  /** One that arrives while a record of the incident waits to overwrite it. */
  function SwallowedAt(s: Service, event: Event, id: AlertId): seq<Flag> {
    if Awaited(s, id) then ArrivingAt(s, event, id) else []
  }

  /** One that arrives when none does. */
  function LandingAt(s: Service, event: Event, id: AlertId): seq<Flag> {
    if Awaited(s, id) then [] else ArrivingAt(s, event, id)
  }

  function Swallowed(services: seq<Service>, events: seq<Event>, from: nat, to: nat, id: AlertId): seq<Flag>
    requires to <= |events| && |services| == |events| + 1
  {
    if to <= from then []
    else Swallowed(services, events, from, to - 1, id) + SwallowedAt(services[to - 1], events[to - 1], id)
  }

  function Landed(services: seq<Service>, events: seq<Event>, from: nat, to: nat, id: AlertId): seq<Flag>
    requires to <= |events| && |services| == |events| + 1
  {
    if to <= from then []
    else Landed(services, events, from, to - 1, id) + LandingAt(services[to - 1], events[to - 1], id)
  }

  /**
   * Evaluation `e` sent a record of a fingerprint, the last one before point `n`, and the service has not died since.
   */
  ghost predicate LastSent(services: seq<Service>, events: seq<Event>, e: nat, n: nat, k: Fingerprint)
    requires n <= |events| && |services| == |events| + 1
  {
    && e < n && Rewrites(services[e], events[e], k)
    && forall l :: e < l < n ==> !Rewrites(services[l], events[l], k) && !events[l].Restart?
  }

  function Sent(s: Service, event: Event, k: Fingerprint): Alert
    requires Rewrites(s, event, k)
  {
    EmittedAt(s.world.books, event.sample, k).value
  }

  // --------------------------------------------------------------- one evaluation

  /** One evaluation of the service, as one fingerprint lives it. */
  lemma ServiceMoves(s: Service, event: Event, s': Service, k: Fingerprint)
    requires ServiceBacked(s) && event.Evaluation? && Next(s, event, s')
    ensures Moves(At(s.world.books, k), At(s'.world.books, k), EmittedAt(s.world.books, event.sample, k),
                  event.sample.context.nowMs, event.sample.mint(k))
    ensures EmittedAt(s.world.books, event.sample, k).Some? ==>
              EmittedAt(s.world.books, event.sample, k).value.fingerprint == k
  {
    hide Sound, Evaluates, KeepsFingerprints, EmittedAt, Moves;
    assert CaughtUp(s) == s.world;
    var w' := CaughtUp(s');
    var full: Rows :| Backs(full, s.world);
    EvaluationKeepsBacked(s.world, event.sample, event.changed, w', full);
    EveryKeyMoves(Over(s.world, full), event.sample, event.changed, Over(w', UpsertAll(full, event.changed)), k);
  }

  /** What a fingerprint's record says is what the engine now holds, if it holds the incident open. */
  lemma SentIsHeld(s: Service, event: Event, s': Service, k: Fingerprint)
    requires ServiceBacked(s) && Next(s, event, s') && Rewrites(s, event, k)
    ensures k in s'.world.books.active ==> s'.world.books.active[k] == Sent(s, event, k)
    ensures Sent(s, event, k).fingerprint == k
    ensures Awaited(s', Sent(s, event, k).id)
  {
    ServiceMoves(s, event, s', k);
    EvaluationWaits(s, event, s');
    hide Next, EmittedAt, ServiceBacked;
    assert At(s'.world.books, k).alert == Get(s'.world.books.active, k);
    assert Sent(s, event, k) in event.changed;
  }

  lemma UnsentIsUnmoved(s: Service, event: Event, s': Service, k: Fingerprint)
    requires ServiceBacked(s) && event.Evaluation? && Next(s, event, s') && !Rewrites(s, event, k)
    requires k in s'.world.books.active
    ensures k in s.world.books.active && s'.world.books.active[k] == s.world.books.active[k]
  {
    ServiceMoves(s, event, s', k);
    hide Next, EmittedAt, ServiceBacked;
    assert At(s'.world.books, k).alert == Some(s'.world.books.active[k]);
    assert At(s.world.books, k).alert == Get(s.world.books.active, k);
  }

  /** Anything else leaves open alerts alone, but for the flag it may set. */
  lemma OthersLeaveAlerts(s: Service, event: Event, s': Service, k: Fingerprint)
    requires ServiceBacked(s) && Next(s, event, s') && !event.Evaluation? && !event.Restart?
    ensures k in s'.world.books.active <==> k in s.world.books.active
    ensures k in s.world.books.active ==>
              var a := s.world.books.active[k];
              s'.world.books.active[k] == WithFlags(a, HeardAt(event, a.id))
  {
    hide ServiceBacked, CaughtUp, FlagsAlert;
    if k in s.world.books.active {
      NoFlags(s.world.books.active[k]);
      OneFlag(s.world.books.active[k], event);
    }
    match event {
      case AlertFlagged(id, flag) => AlertFlagKeepsServiceBacked(s, id, flag, s');
      case Stored =>
        SameBooks(s);
      case _ =>
    }
  }

  lemma OneFlag(a: Alert, event: Event)
    ensures WithFlags(a, HeardAt(event, a.id))
            == if event.AlertFlagged? then FlaggedAlert(a, event.id, event.flag) else a
  {
    NoFlags(a);
    if event.AlertFlagged? && event.id == a.id {
      assert [event.flag][..0] == [];
    }
  }

  lemma RestartOpensNothing(s: Service, event: Event, s': Service, k: Fingerprint)
    requires event.Restart? && Next(s, event, s')
    ensures k !in s'.world.books.active
  {
    hide Restarts;
    ARestartReopens(s.world, event.atMs, event.seed, s'.world);
    RestartIsBlank(s.world, event.atMs, event.seed, s'.world, k);
  }

  // ------------------------------------------------------ the engine's side of it

  lemma FlagsKeepNames(a: Alert, flags: seq<Flag>)
    ensures var r := WithFlags(a, flags); r.id == a.id && r.fingerprint == a.fingerprint
  {
    FlagsInClosedForm(a, flags);
  }

  lemma OneFlagMore(a: Alert, flags: seq<Flag>, more: seq<Flag>)
    requires |more| <= 1
    ensures WithFlags(WithFlags(a, flags), more) == WithFlags(a, flags + more)
  {
    if more == [] {
      assert flags + more == flags;
    } else {
      assert more == [more[0]] && (flags + more)[..|flags|] == flags && more[..0] == [];
      assert WithFlags(WithFlags(a, flags), more[..0]) == WithFlags(a, flags);
    }
  }

  lemma HeardEnds(events: seq<Event>, from: nat, to: nat, id: AlertId)
    requires to <= |events|
    ensures from == to ==> Heard(events, from, to, id) == []
    ensures from < to ==> Heard(events, from, to, id) == Heard(events, from, to - 1, id) + HeardAt(events[to - 1], id)
    ensures forall event :: |HeardAt(event, id)| <= 1
  {
  }

  lemma SentEarlier(services: seq<Service>, events: seq<Event>, e: nat, n: nat, k: Fingerprint)
    requires n <= |events| && |services| == |events| + 1 && LastSent(services, events, e, n, k)
    ensures e < n && Rewrites(services[e], events[e], k)
    ensures forall l :: e + 1 <= l < n ==> !events[l].Restart?
  {
    hide Rewrites;
  }

  lemma LastSentBefore(services: seq<Service>, events: seq<Event>, e: nat, n: nat, k: Fingerprint)
    requires n <= |events| && |services| == |events| + 1 && LastSent(services, events, e, n, k) && e + 1 < n
    ensures LastSent(services, events, e, n - 1, k)
    ensures !Rewrites(services[n - 1], events[n - 1], k) && !events[n - 1].Restart?
  {
    hide Rewrites;
  }

  /** An open alert is the last record that was sent of it, with the flags heard of since. */
  lemma {:induction false} AlertSinceRecord(services: seq<Service>, events: seq<Event>, e: nat, n: nat, k: Fingerprint)
    requires IsRun(services, events) && n <= |events| && LastSent(services, events, e, n, k)
    requires k in services[n].world.books.active
    ensures var a := Sent(services[e], events[e], k);
            services[n].world.books.active[k] == WithFlags(a, Heard(events, e + 1, n, a.id))
    decreases n
  {
    var m, a := n - 1, Sent(services[e], events[e], k);
    assert Next(services[m], events[m], services[n]);
    hide Next, ServiceBacked, Rewrites, Sent, IsStart, Heard, WithFlags, LastSent, HeardAt;
    RunStaysBacked(services, events, m);
    HeardEnds(events, e + 1, n, a.id);
    if e == m {
      SentIsHeld(services[m], events[m], services[n], k);
      NoFlags(a);
    } else {
      LastSentBefore(services, events, e, n, k);
      var event := events[m];
      if event.Evaluation? {
        UnsentIsUnmoved(services[m], event, services[n], k);
        assert HeardAt(event, a.id) == [] by {
          OnlyFlagsAreHeard(event, a.id);
        }
      } else {
        OthersLeaveAlerts(services[m], event, services[n], k);
      }
      AlertSinceRecord(services, events, e, m, k);
      FlagsKeepNames(a, Heard(events, e + 1, m, a.id));
      OneFlagMore(a, Heard(events, e + 1, m, a.id), HeardAt(event, a.id));
      NoFlags(services[m].world.books.active[k]);
    }
  }

  lemma NoFlags(a: Alert)
    ensures WithFlags(a, []) == a
  {
  }

  lemma OnlyFlagsAreHeard(event: Event, id: AlertId)
    ensures !event.AlertFlagged? ==> HeardAt(event, id) == []
  {
  }

  /** Of every open incident a record was sent, since the service started last. */
  lemma {:induction false} OpenSince(services: seq<Service>, events: seq<Event>, n: nat, k: Fingerprint)
    returns (e: nat)
    requires IsRun(services, events) && n <= |events| && k in services[n].world.books.active
    ensures LastSent(services, events, e, n, k)
  {
    hide Next, ServiceBacked, Rewrites, IsStart;
    if n == 0 {
      StartIsSound(services[0]);
      assert false;
    } else {
      var m := n - 1;
      var event := events[m];
      assert Next(services[m], event, services[n]);
      RunStaysBacked(services, events, m);
      if Rewrites(services[m], event, k) {
        e := m;
      } else {
        if event.Evaluation? {
          UnsentIsUnmoved(services[m], event, services[n], k);
        } else if event.Restart? {
          RestartOpensNothing(services[m], event, services[n], k);
          assert false;
        } else {
          OthersLeaveAlerts(services[m], event, services[n], k);
        }
        e := OpenSince(services, events, m, k);
      }
    }
  }

  // ------------------------------------------------------- the table's side of it

  /** An evaluation that sends nothing of a fingerprint leaves its row alone. */
  lemma UnsentRowStays(s: Service, event: Event, s': Service, k: Fingerprint, id: AlertId)
    requires ServiceBacked(s) && event.Evaluation? && Next(s, event, s') && !Rewrites(s, event, k)
    requires id in CaughtUp(s').rows && CaughtUp(s').rows[id].payload.fingerprint == k
    ensures id in CaughtUp(s).rows && CaughtUp(s').rows[id] == CaughtUp(s).rows[id]
  {
    EvaluationWaits(s, event, s');
    var full: Rows :| Backs(full, CaughtUp(s));
    assert CaughtUp(s) == s.world && CaughtUp(s').rows == UpsertAll(s.world.rows, event.changed);
    EvaluationKeepsBacked(s.world, event.sample, event.changed, CaughtUp(s'), full);
    hide Sound, Next, CaughtUp, EmittedAt, ServiceBacked, Upsert, UpsertAll, Backs, DistinctIds;
    var a := StoredRow(s.world.rows, event.changed, id);
    if a.Some? {
      UpsertHolds(s.world.rows, a.value);
      assert false;
    }
  }

  /** What was sent is what the table will say once it is stored. */
  lemma SentIsStored(s: Service, event: Event, s': Service, k: Fingerprint)
    requires ServiceBacked(s) && Next(s, event, s') && Rewrites(s, event, k)
    ensures Sent(s, event, k).id in CaughtUp(s').rows
    ensures CaughtUp(s').rows[Sent(s, event, k).id].payload == Sent(s, event, k)
  {
    EvaluationWaits(s, event, s');
    var full: Rows :| Backs(full, CaughtUp(s));
    assert CaughtUp(s) == s.world && CaughtUp(s').rows == UpsertAll(s.world.rows, event.changed);
    EvaluationKeepsBacked(s.world, event.sample, event.changed, CaughtUp(s'), full);
    hide Sound, Next, CaughtUp, EmittedAt, ServiceBacked, UpsertAll, Backs;
    assert Sent(s, event, k) in event.changed;
  }

  lemma OthersLeaveRows(s: Service, event: Event, s': Service, id: AlertId)
    requires ServiceBacked(s) && Next(s, event, s') && !event.Evaluation? && !event.Restart?
    requires id in CaughtUp(s').rows
    ensures id in CaughtUp(s).rows
    ensures CaughtUp(s').rows[id].payload == WithFlags(CaughtUp(s).rows[id].payload, LandingAt(s, event, id))
  {
    hide ServiceBacked, FlagsAlert, Awaited, StoredInto;
    NoFlags(CaughtUp(s').rows[id].payload);
    match event {
      case Stored => StoringKeepsServiceBacked(s, s');
      case RowFlagged => RowFlagCaughtUp(s, s');
      case Expiry(days) =>
        assert CaughtUp(s) == s.world && CaughtUp(s') == s'.world by {
          NothingWaits(s);
          NothingWaits(s');
        }
      case _ =>
    }
  }

  lemma NothingWaits(s: Service)
    requires s.waiting.None?
    ensures CaughtUp(s) == s.world
  {
  }

  lemma LandedEnds(services: seq<Service>, events: seq<Event>, from: nat, to: nat, id: AlertId)
    requires to <= |events| && |services| == |events| + 1
    ensures from == to ==> Landed(services, events, from, to, id) == []
    ensures from < to ==>
              Landed(services, events, from, to, id)
              == Landed(services, events, from, to - 1, id) + LandingAt(services[to - 1], events[to - 1], id)
    ensures forall s, event :: |LandingAt(s, event, id)| <= 1
  {
    hide Awaited;
  }

  lemma OnlyFlagsLand(s: Service, event: Event, id: AlertId)
    ensures !event.RowFlagged? ==> LandingAt(s, event, id) == []
  {
  }

  /**
   * The row of an incident is the last record that was sent of it, with the flags that landed since. That holds of open
   * and of resolved incidents, so a flag that a resolved record swallowed is gone for good.
   */
  lemma {:induction false} RowSinceRecord(services: seq<Service>, events: seq<Event>, e: nat, n: nat, k: Fingerprint)
    requires IsRun(services, events) && n <= |events| && LastSent(services, events, e, n, k)
    requires IsRowOf(CaughtUp(services[n]).rows, Sent(services[e], events[e], k).id, k)
    ensures var a := Sent(services[e], events[e], k);
            CaughtUp(services[n]).rows[a.id].payload == WithFlags(a, Landed(services, events, e + 1, n, a.id))
    decreases n
  {
    var m, a := n - 1, Sent(services[e], events[e], k);
    assert Next(services[m], events[m], services[n]);
    hide Next, ServiceBacked, Rewrites, Sent, IsStart, Landed, WithFlags, LastSent, LandingAt, CaughtUp;
    RunStaysBacked(services, events, m);
    LandedEnds(services, events, e + 1, n, a.id);
    if e == m {
      SentIsStored(services[m], events[m], services[n], k);
      NoFlags(a);
    } else {
      LastSentBefore(services, events, e, n, k);
      RowBefore(services[m], events[m], services[n], k, a.id);
      RowSinceRecord(services, events, e, m, k);
      OneFlagMore(a, Landed(services, events, e + 1, m, a.id), LandingAt(services[m], events[m], a.id));
    }
  }

  predicate IsRowOf(rows: Rows, id: AlertId, k: Fingerprint) {
    id in rows && rows[id].payload.fingerprint == k
  }

  lemma RowBefore(s: Service, event: Event, s': Service, k: Fingerprint, id: AlertId)
    requires ServiceBacked(s) && Next(s, event, s') && !Rewrites(s, event, k) && !event.Restart?
    requires IsRowOf(CaughtUp(s').rows, id, k)
    ensures IsRowOf(CaughtUp(s).rows, id, k)
    ensures CaughtUp(s').rows[id].payload == WithFlags(CaughtUp(s).rows[id].payload, LandingAt(s, event, id))
  {
    hide ServiceBacked, Next, Rewrites, CaughtUp, WithFlags, LandingAt;
    if event.Evaluation? {
      UnsentRowStays(s, event, s', k, id);
      OnlyFlagsLand(s, event, id);
      NoFlags(CaughtUp(s).rows[id].payload);
    } else {
      OthersLeaveRows(s, event, s', id);
      FlagsKeepNames(CaughtUp(s).rows[id].payload, LandingAt(s, event, id));
    }
  }

  // ------------------------------------------------------ when the two disagree

  /** The table's flags of an open incident are not the engine's. */
  predicate Disagree(w: World, k: Fingerprint) {
    && k in w.books.active && w.books.active[k].id in w.rows
    && w.rows[w.books.active[k].id].payload != w.books.active[k]
  }

  /** The flags a record ends up with are not the same, heard and landed. */
  ghost predicate FlagsParted(services: seq<Service>, events: seq<Event>, e: nat, n: nat, k: Fingerprint)
    requires n <= |events| && |services| == |events| + 1
  {
    && LastSent(services, events, e, n, k)
    && var a := Sent(services[e], events[e], k);
       WithFlags(a, Heard(events, e + 1, n, a.id)) != WithFlags(a, Landed(services, events, e + 1, n, a.id))
  }

  lemma OpenRowIsOwn(s: Service, k: Fingerprint)
    requires ServiceBacked(s) && k in s.world.books.active && s.world.books.active[k].id in CaughtUp(s).rows
    ensures IsRowOf(CaughtUp(s).rows, s.world.books.active[k].id, k)
  {
    hide Backed, KeepsFingerprints, CaughtUp, DistinctIds;
    var w := CaughtUp(s);
    assert w.books == s.world.books by {
      SameBooks(s);
    }
    BackedRows(w);
    OpenIsNamed(w, k);
    SameFingerprintAs(w.rows[w.books.active[k].id], w.books.active[k]);
  }

  lemma SameBooks(s: Service)
    ensures CaughtUp(s).books == s.world.books
  {
  }

  /**
   * Engine and table differ about an open incident exactly when what was heard of it since its last record is not what
   * landed.
   */
  lemma DisagreeIffParted(services: seq<Service>, events: seq<Event>, e: nat, n: nat, k: Fingerprint)
    requires IsRun(services, events) && n <= |events| && LastSent(services, events, e, n, k)
    requires k in services[n].world.books.active
    requires services[n].world.books.active[k].id in CaughtUp(services[n]).rows
    ensures services[n].world.books.active[k].id == Sent(services[e], events[e], k).id
    ensures Disagree(CaughtUp(services[n]), k) <==> FlagsParted(services, events, e, n, k)
  {
    var a := Sent(services[e], events[e], k);
    RunStaysBacked(services, events, n);
    hide IsRun, ServiceBacked, Sent, CaughtUp, WithFlags, Heard, Landed, LastSent;
    AlertSinceRecord(services, events, e, n, k);
    FlagsKeepNames(a, Heard(events, e + 1, n, a.id));
    OpenRowIsOwn(services[n], k);
    RowSinceRecord(services, events, e, n, k);
    SameBooks(services[n]);
  }

  // ------------------------------------------------------ which flags get lost

  /** Every flag on an identifier that arrived at the table. */
  function Arrived(services: seq<Service>, events: seq<Event>, from: nat, to: nat, id: AlertId): seq<Flag>
    requires to <= |events| && |services| == |events| + 1
  {
    if to <= from then []
    else Arrived(services, events, from, to - 1, id) + ArrivingAt(services[to - 1], events[to - 1], id)
  }

  /** The flag on an identifier that the engine has heard of and the table has not. */
  function InFlight(s: Service, id: AlertId): seq<Flag> {
    if s.underway.Some? && s.underway.value.id == id then [s.underway.value.flag] else []
  }

  lemma FlagsPassThrough(s: Service, event: Event, s': Service, id: AlertId)
    requires Next(s, event, s') && !event.Restart?
    ensures InFlight(s, id) + HeardAt(event, id) == ArrivingAt(s, event, id) + InFlight(s', id)
  {
    hide CaughtUp, FlagsAlert, Evaluates, Worlds.RowFlagged;
  }

  lemma ArrivedEnds(services: seq<Service>, events: seq<Event>, from: nat, to: nat, id: AlertId)
    requires to <= |events| && |services| == |events| + 1
    ensures from == to ==> Arrived(services, events, from, to, id) == []
    ensures from < to ==>
              Arrived(services, events, from, to, id)
              == Arrived(services, events, from, to - 1, id) + ArrivingAt(services[to - 1], events[to - 1], id)
  {
  }

  lemma Handed<T>(a: seq<T>, b: seq<T>, c: seq<T>, d: seq<T>, e: seq<T>, f: seq<T>, g: seq<T>)
    requires a + b == c + d && d + e == f + g
    ensures a + (b + e) == (c + f) + g
  {
    assert a + (b + e) == (a + b) + e;
    assert (c + d) + e == c + (d + e);
    assert c + (f + g) == (c + f) + g;
  }

  lemma AtOnce(services: seq<Service>, events: seq<Event>, from: nat, id: AlertId)
    requires from <= |events| && |services| == |events| + 1
    ensures InFlight(services[from], id) + Heard(events, from, from, id)
            == Arrived(services, events, from, from, id) + InFlight(services[from], id)
  {
  }

  /** While the service lives, what the engine has heard and what has arrived differ by what is in flight. */
  lemma {:induction false} HeardIsArrived(services: seq<Service>, events: seq<Event>, from: nat, n: nat, id: AlertId)
    requires IsRun(services, events) && from <= n <= |events|
    requires forall l :: from <= l < n ==> !events[l].Restart?
    ensures InFlight(services[from], id) + Heard(events, from, n, id)
            == Arrived(services, events, from, n, id) + InFlight(services[n], id)
    decreases n
  {
    hide Next, IsStart, Heard, Arrived, InFlight, HeardAt, ArrivingAt;
    if from == n {
      AtOnce(services, events, n, id);
    } else {
      var m := n - 1;
      assert Next(services[m], events[m], services[n]);
      HeardIsArrived(services, events, from, m, id);
      FlagsPassThrough(services[m], events[m], services[n], id);
      HeardEnds(events, from, n, id);
      ArrivedEnds(services, events, from, n, id);
      Handed(InFlight(services[from], id), Heard(events, from, m, id), Arrived(services, events, from, m, id),
             InFlight(services[m], id), HeardAt(events[m], id), ArrivingAt(services[m], events[m], id),
             InFlight(services[n], id));
    }
  }

  /** A delta that says nothing of an open incident does not begin to wait for it. */
  lemma NothingNewAwaited(s: Service, event: Event, s': Service, k: Fingerprint)
    requires ServiceBacked(s) && ServiceBacked(s') && Next(s, event, s') && !Rewrites(s, event, k) && !event.Restart?
    requires k in s'.world.books.active && !Awaited(s, s'.world.books.active[k].id)
    ensures !Awaited(s', s'.world.books.active[k].id)
  {
    if event.Evaluation? {
      var id := s'.world.books.active[k].id;
      EvaluationWaits(s, event, s');
      if Awaited(s', id) {
        var a :| a in event.changed && a.id == id;
        EmittersKeepApart(s, event, s', k, a);
      }
    }
    hide CaughtUp, FlagsAlert, ServiceBacked, Worlds.RowFlagged;
  }

  lemma EmittersKeepApart(s: Service, event: Event, s': Service, k: Fingerprint, a: Alert)
    requires ServiceBacked(s) && event.Evaluation? && Next(s, event, s') && !Rewrites(s, event, k)
    requires k in s'.world.books.active && a in event.changed
    ensures a.id != s'.world.books.active[k].id
  {
    EvaluationWaits(s, event, s');
    hide Sound, Evaluates, KeepsFingerprints, EmittedAt, KeyMoves;
    assert CaughtUp(s) == s.world;
    var w', j := CaughtUp(s'), a.fingerprint;
    var full: Rows :| Backs(full, s.world);
    EvaluationKeepsBacked(s.world, event.sample, event.changed, w', full);
    var v, v' := Over(s.world, full), Over(w', UpsertAll(full, event.changed));
    DeliveriesHold(v, event.sample, event.changed, v');
    assert KeyMoves(v, event.sample, v', j);
    IdentityMoves(v, event.sample, v', j);
    assert EmittedAt(s.world.books, event.sample, j) == Some(a);
    assert IdentityOf(At(s'.world.books, k)) == Some(s'.world.books.active[k].id);
  }

  lemma SwallowedEnds(services: seq<Service>, events: seq<Event>, from: nat, to: nat, id: AlertId)
    requires to <= |events| && |services| == |events| + 1
    ensures from == to ==> Swallowed(services, events, from, to, id) == []
    ensures from < to ==>
              Swallowed(services, events, from, to, id)
              == Swallowed(services, events, from, to - 1, id) + SwallowedAt(services[to - 1], events[to - 1], id)
  {
    hide Awaited;
  }

  lemma OpenBefore(s: Service, event: Event, s': Service, k: Fingerprint)
    requires ServiceBacked(s) && Next(s, event, s') && !Rewrites(s, event, k) && !event.Restart?
    requires k in s'.world.books.active
    ensures k in s.world.books.active && s.world.books.active[k].id == s'.world.books.active[k].id
  {
    hide Next, Rewrites, ServiceBacked, WithFlags, HeardAt;
    if event.Evaluation? {
      UnsentIsUnmoved(s, event, s', k);
    } else {
      OthersLeaveAlerts(s, event, s', k);
      FlagsKeepNames(s.world.books.active[k], HeardAt(event, s.world.books.active[k].id));
    }
  }

  /** The flags a waiting record swallows come before those that land. */
  ghost predicate InOrder(services: seq<Service>, events: seq<Event>, from: nat, n: nat, id: AlertId)
    requires n <= |events| && |services| == |events| + 1
  {
    && Arrived(services, events, from, n, id)
       == Swallowed(services, events, from, n, id) + Landed(services, events, from, n, id)
    && (Awaited(services[n], id) ==> Landed(services, events, from, n, id) == [])
  }

  lemma OrderStep(services: seq<Service>, events: seq<Event>, from: nat, m: nat, n: nat, id: AlertId)
    requires from <= m < |events| && |services| == |events| + 1 && n == m + 1
    requires InOrder(services, events, from, m, id) && (!Awaited(services[m], id) ==> !Awaited(services[n], id))
    ensures InOrder(services, events, from, n, id)
  {
    ArrivedEnds(services, events, from, n, id);
    SwallowedEnds(services, events, from, n, id);
    LandedEnds(services, events, from, n, id);
    hide Arrived, Swallowed, Landed, ArrivingAt, Awaited;
    SwallowedOrLanding(services[m], events[m], id);
    Sorted(Arrived(services, events, from, m, id), Swallowed(services, events, from, m, id),
           Landed(services, events, from, m, id), ArrivingAt(services[m], events[m], id),
           SwallowedAt(services[m], events[m], id), LandingAt(services[m], events[m], id));
  }

  lemma InOrderAtOnce(services: seq<Service>, events: seq<Event>, n: nat, id: AlertId)
    requires n <= |events| && |services| == |events| + 1
    ensures InOrder(services, events, n, n, id)
  {
    hide Awaited;
  }

  lemma {:induction false} SwallowedComeFirst(services: seq<Service>, events: seq<Event>, e: nat, n: nat,
                                              k: Fingerprint)
    requires IsRun(services, events) && n <= |events| && LastSent(services, events, e, n, k)
    requires k in services[n].world.books.active
    ensures InOrder(services, events, e + 1, n, services[n].world.books.active[k].id)
    decreases n
  {
    hide Next, ServiceBacked, Rewrites, IsStart, InOrder, LastSent, Awaited;
    SentEarlier(services, events, e, n, k);
    var id, m := services[n].world.books.active[k].id, n - 1;
    if e == m {
      InOrderAtOnce(services, events, n, id);
    } else {
      assert Next(services[m], events[m], services[n]);
      RunStaysBacked(services, events, m);
      RunStaysBacked(services, events, n);
      LastSentBefore(services, events, e, n, k);
      OpenBefore(services[m], events[m], services[n], k);
      SwallowedComeFirst(services, events, e, m, k);
      if !Awaited(services[m], id) {
        NothingNewAwaited(services[m], events[m], services[n], k);
      }
      OrderStep(services, events, e + 1, m, n, id);
    }
  }

  lemma SwallowedOrLanding(s: Service, event: Event, id: AlertId)
    ensures Awaited(s, id) ==> SwallowedAt(s, event, id) == ArrivingAt(s, event, id) && LandingAt(s, event, id) == []
    ensures !Awaited(s, id) ==> SwallowedAt(s, event, id) == [] && LandingAt(s, event, id) == ArrivingAt(s, event, id)
  {
    hide Awaited, ArrivingAt;
  }

  lemma Sorted<T>(all: seq<T>, first: seq<T>, second: seq<T>, more: seq<T>, x: seq<T>, y: seq<T>)
    requires all == first + second
    requires (x == more && y == [] && second == []) || (x == [] && y == more)
    ensures all + more == (first + x) + (second + y)
  {
    if x == [] && y == more {
      assert first + x == first;
    } else {
      assert second + y == [];
    }
  }

  /** What flags in between make of a record that another then does not make. */
  lemma PartedInClosedForm(a: Alert, swallowed: seq<Flag>, landed: seq<Flag>)
    ensures WithFlags(a, swallowed + landed) != WithFlags(a, landed)
            <==> (Acknowledging in swallowed && Acknowledging !in landed && !a.acknowledged)
                 || (!Archives(landed) && LastArchiving(swallowed, a.archived) != a.archived)
  {
    hide WithFlags, LastArchiving, Archives;
    FlagsInClosedForm(a, swallowed + landed);
    FlagsInClosedForm(a, landed);
    ArchivingsInTurn(swallowed, landed, a.archived);
    ArchivingsInTurn([], landed, a.archived);
    ArchivingsInTurn([], landed, !a.archived);
    var before := LastArchiving(swallowed, a.archived);
    assert before == a.archived || before == !a.archived;
    ArchivingsInTurn([], landed, before);
  }

  /** With no flag in flight, what was heard of a record is what was swallowed and then what landed. */
  lemma HeardIsSwallowedAndLanded(services: seq<Service>, events: seq<Event>, e: nat, n: nat, k: Fingerprint)
    requires IsRun(services, events) && n <= |events| && LastSent(services, events, e, n, k)
    requires services[e].underway.None? && services[n].underway.None?
    requires k in services[n].world.books.active
    ensures var id := services[n].world.books.active[k].id;
            Heard(events, e + 1, n, id)
            == Swallowed(services, events, e + 1, n, id) + Landed(services, events, e + 1, n, id)
  {
    hide Rewrites, IsStart, Heard, Arrived, Swallowed, Landed, LastSent, Next, Awaited;
    var id := services[n].world.books.active[k].id;
    SentEarlier(services, events, e, n, k);
    assert Next(services[e], events[e], services[e + 1]);
    EvaluationsFlagNothing(services[e], events[e], services[e + 1], k);
    SwallowedComeFirst(services, events, e, n, k);
    HeardIsArrived(services, events, e + 1, n, id);
    NothingInFlight(services[e + 1], id);
    NothingInFlight(services[n], id);
    assert [] + Heard(events, e + 1, n, id) == Heard(events, e + 1, n, id);
    assert Arrived(services, events, e + 1, n, id) + [] == Arrived(services, events, e + 1, n, id);
  }

  lemma EvaluationsFlagNothing(s: Service, event: Event, s': Service, k: Fingerprint)
    requires Next(s, event, s') && Rewrites(s, event, k)
    ensures s'.underway == s.underway
  {
    hide Evaluates, EmittedAt;
  }

  lemma NothingInFlight(s: Service, id: AlertId)
    requires s.underway.None?
    ensures InFlight(s, id) == []
  {
  }

  /**
   * With no flag in flight, the table's flags of an open incident are not the engine's if and only if a flag arrived
   * between an evaluation that sent a record of it and the storing of that record, nothing has been sent of it since,
   * and no later flag has made up for it: an acknowledgement the record did not carry yet, or an archiving to other
   * than the record said.
   */
  lemma FlagsAreLostIff(services: seq<Service>, events: seq<Event>, e: nat, n: nat, k: Fingerprint)
    requires IsRun(services, events) && n <= |events| && LastSent(services, events, e, n, k)
    requires services[e].underway.None? && services[n].underway.None?
    requires k in services[n].world.books.active
    requires services[n].world.books.active[k].id in CaughtUp(services[n]).rows
    ensures var a := Sent(services[e], events[e], k);
            var swallowed := Swallowed(services, events, e + 1, n, a.id);
            var landed := Landed(services, events, e + 1, n, a.id);
            Disagree(CaughtUp(services[n]), k)
            <==> (Acknowledging in swallowed && Acknowledging !in landed && !a.acknowledged)
                 || (!Archives(landed) && LastArchiving(swallowed, a.archived) != a.archived)
  {
    assert |services| == |events| + 1 && Rewrites(services[e], events[e], k);
    hide IsRun, Sent, CaughtUp, LastSent, WithFlags, Heard, Swallowed, Landed, Disagree, Archives, LastArchiving;
    var a := Sent(services[e], events[e], k);
    DisagreeIffParted(services, events, e, n, k);
    HeardIsSwallowedAndLanded(services, events, e, n, k);
    PartedInClosedForm(a, Swallowed(services, events, e + 1, n, a.id), Landed(services, events, e + 1, n, a.id));
  }

  // ------------------------------------------------------- engine and table in full

  /**
   * At every point of every run, engine and table are in full agreement, the waiting delta counted in, if and only if
   * of all the incidents the engine stands for none has had its row taken by an expiry without being sent again since,
   * and of no open one has a flag been heard since its last record that did not land as well.
   */
  lemma RunStaysSound(services: seq<Service>, events: seq<Event>, n: nat)
    requires IsRun(services, events) && n < |services|
    ensures Sound(CaughtUp(services[n]))
            <==> && (forall j, k :: IdentityOf(At(services[n].world.books, k)).Some? ==>
                       !LastCut(services, events, j, n, k))
                 && (forall e, k :: k in services[n].world.books.active ==> !FlagsParted(services, events, e, n, k))
  {
    hide Next, IsStart, LastCut, Sound, FlagsParted, CaughtUp, ServiceBacked, Disagree, Missing, Backed, AgreedUpon;
    var w := CaughtUp(services[n]);
    RunStaysBacked(services, events, n);
    BackedCaughtUp(services[n]);
    forall k
      ensures AgreedUpon(services, events, n, k) <==> !Missing(w, k) && !Disagree(w, k)
    {
      AgreedUponIff(services, events, n, k);
    }
    SoundIff(w);
    AllAgreedUpon(services, events, n);
  }

  /** Nothing in the run has parted engine and table about this fingerprint. */
  ghost predicate AgreedUpon(services: seq<Service>, events: seq<Event>, n: nat, k: Fingerprint)
    requires n <= |events| && |services| == |events| + 1
  {
    && (IdentityOf(At(services[n].world.books, k)).Some? ==> forall j :: !LastCut(services, events, j, n, k))
    && (k in services[n].world.books.active ==> forall e :: !FlagsParted(services, events, e, n, k))
  }

  lemma AllAgreedUpon(services: seq<Service>, events: seq<Event>, n: nat)
    requires n <= |events| && |services| == |events| + 1
    ensures (forall k :: AgreedUpon(services, events, n, k))
            <==> && (forall j, k :: IdentityOf(At(services[n].world.books, k)).Some? ==>
                       !LastCut(services, events, j, n, k))
                 && (forall e, k :: k in services[n].world.books.active ==> !FlagsParted(services, events, e, n, k))
  {
    hide LastCut, FlagsParted, IdentityOf, At;
    if forall k :: AgreedUpon(services, events, n, k) {
      forall j: nat, k | IdentityOf(At(services[n].world.books, k)).Some?
        ensures !LastCut(services, events, j, n, k)
      {
        assert AgreedUpon(services, events, n, k);
      }
      forall e: nat, k | k in services[n].world.books.active
        ensures !FlagsParted(services, events, e, n, k)
      {
        assert AgreedUpon(services, events, n, k);
      }
    }
  }

  lemma AgreedUponIff(services: seq<Service>, events: seq<Event>, n: nat, k: Fingerprint)
    requires IsRun(services, events) && n < |services|
    ensures AgreedUpon(services, events, n, k)
            <==> !Missing(CaughtUp(services[n]), k) && !Disagree(CaughtUp(services[n]), k)
  {
    hide Next, IsStart, LastCut, FlagsParted, CaughtUp, Disagree, At, IdentityOf;
    var w := CaughtUp(services[n]);
    SameBooks(services[n]);
    if IdentityOf(At(w.books, k)).Some? {
      RowIsMissingIff(services, events, n, k);
    }
    if !Missing(w, k) {
      DisagreeIffSomeParted(services, events, n, k);
      assert AgreedUpon(services, events, n, k) <==> !Disagree(w, k);
    } else {
      assert !AgreedUpon(services, events, n, k);
    }
  }

  /** What full agreement takes, of a table that is part of one in agreement. */
  lemma SoundIff(w: World)
    requires Backed(w)
    ensures Sound(w) <==> forall k :: !Missing(w, k) && !Disagree(w, k)
  {
    hide Sound, Missing;
    if Sound(w) {
      SoundFlagsAgree(w);
      forall k
        ensures !Missing(w, k)
      {
        SoundMissesNothing(w, k);
      }
    }
    if forall k :: !Missing(w, k) && !Disagree(w, k) {
      var full: Rows :| Backs(full, w);
      hide Backs;
      assert FlagsAgree(w) by {
        forall k | k in w.books.active && w.books.active[k].id in w.rows
          ensures w.rows[w.books.active[k].id].payload == w.books.active[k]
        {
          assert !Disagree(w, k);
        }
      }
      WholeIsSound(w, full);
    }
  }

  lemma DisagreeIffSomeParted(services: seq<Service>, events: seq<Event>, n: nat, k: Fingerprint)
    requires IsRun(services, events) && n < |services| && !Missing(CaughtUp(services[n]), k)
    ensures Disagree(CaughtUp(services[n]), k)
            <==> k in services[n].world.books.active && exists e :: FlagsParted(services, events, e, n, k)
  {
    var s, w := services[n], CaughtUp(services[n]);
    SameBooks(s);
    if k in s.world.books.active {
      OpenMissesNothing(w, k);
      var e := OpenSince(services, events, n, k);
      DisagreeIffParted(services, events, e, n, k);
      hide IsRun, CaughtUp, Disagree, FlagsParted;
      forall e': nat | FlagsParted(services, events, e', n, k)
        ensures Disagree(w, k)
      {
        PartedWasSent(services, events, e', n, k);
        DisagreeIffParted(services, events, e', n, k);
      }
    }
  }

  lemma PartedWasSent(services: seq<Service>, events: seq<Event>, e: nat, n: nat, k: Fingerprint)
    requires n <= |events| && |services| == |events| + 1 && FlagsParted(services, events, e, n, k)
    ensures LastSent(services, events, e, n, k)
  {
  }

  lemma BackedCaughtUp(s: Service)
    requires ServiceBacked(s)
    ensures Backed(CaughtUp(s))
  {
  }

  lemma OpenMissesNothing(w: World, k: Fingerprint)
    requires k in w.books.active
    ensures w.books.active[k].id in w.rows <==> !Missing(w, k)
  {
  }

  /**
   * At every point of every run, the waiting delta counted in, the unresolved rows of the table are open alerts of the
   * engine; an open alert has such a row unless an expiry took it and nothing has been sent about the alert since; and
   * the row says what the alert says, field for field, flags aside, and with its flags unless they have parted.
   */
  lemma DeltasAreComplete(services: seq<Service>, events: seq<Event>, n: nat)
    requires IsRun(services, events) && n < |services|
    ensures var w := CaughtUp(services[n]);
            && (forall id :: id in w.rows && w.rows[id].resolvedAtMs.None? ==>
                  var k := w.rows[id].payload.fingerprint; k in w.books.active && w.books.active[k].id == id)
            && (forall k :: k in w.books.active ==>
                  var a := w.books.active[k];
                  && (a.id in w.rows <==> !exists j :: LastCut(services, events, j, n, k))
                  && (a.id in w.rows ==>
                        && w.rows[a.id].resolvedAtMs.None? && Bare(w.rows[a.id].payload) == Bare(a)
                        && (w.rows[a.id].payload == a <==> !exists e :: FlagsParted(services, events, e, n, k))))
  {
    hide Next, IsStart, LastCut, CaughtUp, ServiceBacked, Backed, Bare, FlagsParted, Disagree, IdentityOf;
    var s, w := services[n], CaughtUp(services[n]);
    RunStaysBacked(services, events, n);
    SameBooks(s);
    BackedCaughtUp(s);
    BackedRows(w);
    forall k | k in w.books.active
      ensures w.books.active[k].id in w.rows <==> !exists j :: LastCut(services, events, j, n, k)
    {
      OpenMissesNothing(w, k);
      OpenStandsForItself(w.books, k);
      RowIsMissingIff(services, events, n, k);
    }
    forall k | k in w.books.active && w.books.active[k].id in w.rows
      ensures w.rows[w.books.active[k].id].payload != w.books.active[k]
              <==> exists e :: FlagsParted(services, events, e, n, k)
    {
      OpenMissesNothing(w, k);
      DisagreeIffSomeParted(services, events, n, k);
      WhatDisagreeMeans(w, k);
    }
  }

  lemma OpenStandsForItself(b: Books, k: Fingerprint)
    requires k in b.active
    ensures IdentityOf(At(b, k)) == Some(b.active[k].id)
  {
  }

  lemma WhatDisagreeMeans(w: World, k: Fingerprint)
    requires k in w.books.active && w.books.active[k].id in w.rows
    ensures Disagree(w, k) <==> w.rows[w.books.active[k].id].payload != w.books.active[k]
  {
  }
}
