/**
 * The growth watch: which processes carry a long handle and thread window, when a window is given up, and
 * what the windows' shapes make the growth detectors report.
 */
module GrowthWatch {
  import opened Models
  import opened Rings
  import opened Trend
  import opened Incidents
  import opened GrowthLife
  import Baselines
  import BaselineStores

  const RING_MS := 5 * 60 * 1_000
  const PRIOR_MS := 60_000
  const GROWTH_WINDOW_MS := 30 * 60_000
  const GROWTH_MIN_SPAN_MS := 5 * 60_000
  const GROWTH_STEP_FRACTION := 0.1
  const GROWTH_WATCH_ENTRY := 0.25
  const GROWTH_WATCH_EXIT := 0.20
  const GROWTH_WATCH_CAP := 32

  type Norm = BaselineStores.BucketStats

  datatype Identity = Identity(pid: nat, startedAtMs: int)

  datatype Dimension = Handles | Threads

  datatype Point = Point(atMs: int, handles: nat, threads: nat) {
    function Count(d: Dimension): nat {
      if d.Handles? then handles else threads
    }
  }

  datatype Settings = Settings(handleGrowth: nat, threadGrowth: nat, sustainedSamples: nat, sampleIntervalMs: nat,
                               sigma: real) {
    function Threshold(d: Dimension): nat {
      if d.Handles? then handleGrowth else threadGrowth
    }

    function HoldMs(): nat {
      sustainedSamples * sampleIntervalMs
    }
  }

  /** A process as one evaluation sees it, with what the baseline store knows of its name at its age. */
  datatype Process = Process(id: Identity, now: Point, norm: Option<Norm>)

  /** A delta as a fraction of its threshold; a threshold of zero is exceeded without bound. */
  datatype Pressure = Finite(level: real) | Unbounded

  predicate Less(a: Pressure, b: Pressure) {
    a.Finite? && (b.Finite? ==> a.level < b.level)
  }

  predicate AtLeast(p: Pressure, level: real) {
    p.Finite? ==> p.level >= level
  }

  function Harder(a: Pressure, b: Pressure): Pressure {
    if Less(a, b) then b else a
  }

  datatype Window = Window(points: seq<Point>, pressure: Pressure, coolingSince: Option<int>, isProtected: bool,
                           norm: Option<Norm>)

  type Windows = map<Identity, Window>

  datatype Finding = Finding(key: Fingerprint, severity: Severity, entry: real)

  datatype Env = Env(nowMs: int, open: set<Fingerprint>, settings: Settings)

  function KeyFor(id: Identity, d: Dimension): Fingerprint {
    OfProcess(if d.Handles? then "handleGrowth" else "threadGrowth", id.pid, id.startedAtMs)
  }

  // ------------------------------------------------------------- readings

  function TimeOf(p: Point): int {
    p.atMs
  }

  function Extended(points: seq<Point>, now: Point, spanMs: int): seq<Point> {
    DropBefore(points + [now], TimeOf, now.atMs - spanMs)
  }

  /** The first point at least a minute old, else the oldest. */
  function PriorFrom(ring: seq<Point>, n: nat, atMs: int): Point
    requires n <= |ring| && ring != []
    decreases |ring| - n
  {
    if n == |ring| then ring[0]
    else if atMs - ring[n].atMs >= PRIOR_MS then ring[n]
    else PriorFrom(ring, n + 1, atMs)
  }

  /** What a delta is measured against: the first point at least a minute old, or the oldest if none is. */
  lemma {:induction false} PriorIsTheFirstAMinuteOld(ring: seq<Point>, n: nat, atMs: int)
    requires ring != [] && n <= |ring| && forall i :: 0 <= i < n ==> atMs - ring[i].atMs < PRIOR_MS
    ensures var prior := PriorFrom(ring, n, atMs);
            if forall p :: p in ring ==> atMs - p.atMs < PRIOR_MS then prior == ring[0]
            else exists i :: 0 <= i < |ring| && prior == ring[i] && atMs - prior.atMs >= PRIOR_MS
                             && forall j :: 0 <= j < i ==> atMs - ring[j].atMs < PRIOR_MS
    decreases |ring| - n
  {
    if n < |ring| {
      assert ring[n] in ring;
      if atMs - ring[n].atMs < PRIOR_MS {
        PriorIsTheFirstAMinuteOld(ring, n + 1, atMs);
      }
    }
  }

  function GrowthOf(ring: seq<Point>, now: Point, d: Dimension): nat
    requires ring != []
  {
    var prior := PriorFrom(ring, 0, now.atMs);
    if now.Count(d) > prior.Count(d) then now.Count(d) - prior.Count(d) else 0
  }

  function ThresholdFraction(growth: nat, threshold: nat): Pressure {
    if threshold > 0 then Finite(growth as real / threshold as real)
    else if growth > 0 then Unbounded
    else Finite(0.0)
  }

  function PressureOf(ring: seq<Point>, now: Point, s: Settings): Pressure
    requires ring != []
  {
    Harder(ThresholdFraction(GrowthOf(ring, now, Handles), s.handleGrowth),
           ThresholdFraction(GrowthOf(ring, now, Threads), s.threadGrowth))
  }

  predicate IsProtected(id: Identity, open: set<Fingerprint>) {
    KeyFor(id, Handles) in open || KeyFor(id, Threads) in open
  }

  // -------------------------------------------------------------- the windows

  /** One process's standing in one evaluation. */
  datatype Visit = Visit(now: Point, pressure: Pressure, isProtected: bool)

  predicate Calm(v: Visit) {
    !v.isProtected && !AtLeast(v.pressure, GROWTH_WATCH_EXIT)
  }

  /** An existing window after a visit, or nothing if it has cooled for a full hold. */
  function Revisited(w: Window, v: Visit, holdMs: int): Option<Window> {
    var held := w.(pressure := v.pressure, isProtected := v.isProtected);
    var since := w.coolingSince.GetOr(v.now.atMs);
    if !Calm(v) then Some(held.(coolingSince := None, points := Extended(w.points, v.now, GROWTH_WINDOW_MS)))
    else if v.now.atMs - since >= holdMs then None
    else Some(held.(coolingSince := Some(since), points := Extended(w.points, v.now, GROWTH_WINDOW_MS)))
  }

  /** No unprotected window is pushing less hard. */
  predicate Weakest(windows: Windows, id: Identity) {
    && id in windows && !windows[id].isProtected
    && forall j :: j in windows && !windows[j].isProtected ==> !Less(windows[j].pressure, windows[id].pressure)
  }

  predicate Displaces(weakest: Pressure, newcomer: Pressure) {
    Less(weakest, newcomer) || AtLeast(newcomer, 1.0)
  }

  /** Making room for a newcomer; which of several equally weak windows is tried is the hash map's to say. */
  ghost predicate Evicts(before: Windows, newcomer: Pressure, after: Windows) {
    if forall j :: j in before ==> before[j].isProtected then after == before
    else exists id :: Weakest(before, id)
                      && after == if Displaces(before[id].pressure, newcomer) then before - {id} else before
  }

  ghost predicate Admitted(before: Windows, id: Identity, entrant: Window, after: Windows) {
    exists room ::
      && (if |before| >= GROWTH_WATCH_CAP then Evicts(before, entrant.pressure, room) else room == before)
      && after == if |room| < GROWTH_WATCH_CAP then room[id := entrant] else room
  }

  ghost predicate WindowStep(before: Windows, p: Process, ring: seq<Point>, v: Visit, holdMs: int, after: Windows) {
    if p.id in before then
      var w := Revisited(before[p.id], v, holdMs);
      after == if w.Some? then before[p.id := w.value] else before - {p.id}
    else if AtLeast(v.pressure, GROWTH_WATCH_ENTRY) || v.isProtected then
      Admitted(before, p.id, Window(ring, v.pressure, None, v.isProtected, p.norm), after)
    else after == before
  }

  // --------------------------------------------------------------- the shapes

  function Series(points: seq<Point>, d: Dimension): (r: seq<TrendPoint>)
    ensures |r| == |points|
    ensures forall i :: 0 <= i < |r| ==> r[i] == TrendPoint(points[i].atMs, points[i].Count(d) as real)
  {
    seq(|points|, i requires 0 <= i < |points| => TrendPoint(points[i].atMs, points[i].Count(d) as real))
  }

  function GrowthStep(threshold: nat): real {
    var step := threshold as real * GROWTH_STEP_FRACTION;
    if step < 1.0 then 1.0 else step
  }

  function ShapeIn(windows: Windows, id: Identity, d: Dimension, s: Settings): Option<TrendShape> {
    if id in windows
    then Some(ClassifyTrend(Series(windows[id].points, d), GROWTH_MIN_SPAN_MS, GrowthStep(s.Threshold(d))))
    else None
  }

  predicate IsClimb(shape: Option<TrendShape>) {
    shape.Some? && shape.value.Monotonic?
  }

  function Noted(since: map<Fingerprint, int>, key: Fingerprint, shape: Option<TrendShape>, nowMs: int)
    : map<Fingerprint, int>
  {
    if !IsClimb(shape) then since - {key} else if key in since then since else since[key := nowMs]
  }

  function Seen(shapes: map<Fingerprint, TrendShape>, key: Fingerprint, shape: Option<TrendShape>)
    : map<Fingerprint, TrendShape>
  {
    if shape.Some? then shapes[key := shape.value] else shapes
  }

  function ClimbOf(since: map<Fingerprint, int>, key: Fingerprint, nowMs: int): int {
    ClimbMs(if key in since then Some(since[key]) else None, nowMs)
  }

  /** The per-name norm the window was opened with passes anything it has too little to judge. */
  predicate Admits(norm: Option<Norm>, d: Dimension, value: nat, sigma: real, minimumDelta: real) {
    norm.Some? ==>
      Baselines.Deviates(if d.Handles? then norm.value.handles else norm.value.threads, value as real, sigma,
                         minimumDelta)
  }

  function NormIn(windows: Windows, id: Identity): Option<Norm> {
    if id in windows then windows[id].norm else None
  }

  function Found(windows: Windows, since: map<Fingerprint, int>, p: Process, growth: nat, d: Dimension, env: Env)
    : seq<Finding>
  {
    var threshold := env.settings.Threshold(d);
    if growth >= threshold && IsClimb(ShapeIn(windows, p.id, d, env.settings))
       && Admits(NormIn(windows, p.id), d, p.now.Count(d), env.settings.sigma, threshold as real / 2.0)
    then [Finding(KeyFor(p.id, d), GrowthSeverity(ClimbOf(since, KeyFor(p.id, d), env.nowMs)), threshold as real)]
    else []
  }

  // ------------------------------------------------------------ one evaluation

  datatype Watch = Watch(history: map<Identity, seq<Point>>, windows: Windows, shapes: map<Fingerprint, TrendShape>,
                         since: map<Fingerprint, int>, quarantine: set<Identity>)

  const UNWATCHED := Watch(map[], map[], map[], map[], {})

  function RingFor(history: map<Identity, seq<Point>>, p: Process): (r: seq<Point>)
    ensures r != []
  {
    var ring := if p.id in history then history[p.id] else [];
    KeepsTheNewest(ring, p.now, RING_MS);
    Extended(ring, p.now, RING_MS)
  }

  lemma {:induction false} KeepsTheNewest(points: seq<Point>, now: Point, spanMs: int)
    requires spanMs >= 0
    ensures Extended(points, now, spanMs) != []
            && Extended(points, now, spanMs)[|Extended(points, now, spanMs)| - 1] == now
    decreases |points|
  {
    if points != [] && points[0].atMs < now.atMs - spanMs {
      KeepsTheNewest(points[1..], now, spanMs);
      assert (points + [now])[1..] == points[1..] + [now];
    }
  }

  function VisitOf(ring: seq<Point>, p: Process, env: Env): Visit
    requires ring != []
  {
    Visit(p.now, PressureOf(ring, p.now, env.settings), IsProtected(p.id, env.open))
  }

  /** The bookkeeping of shapes and runs for one process, once its window is settled. */
  function SinceAfter(since: map<Fingerprint, int>, windows: Windows, id: Identity, env: Env): map<Fingerprint, int> {
    Noted(Noted(since, KeyFor(id, Handles), ShapeIn(windows, id, Handles, env.settings), env.nowMs),
          KeyFor(id, Threads), ShapeIn(windows, id, Threads, env.settings), env.nowMs)
  }

  function ShapesAfter(shapes: map<Fingerprint, TrendShape>, windows: Windows, id: Identity, env: Env)
    : map<Fingerprint, TrendShape>
  {
    Seen(Seen(shapes, KeyFor(id, Handles), ShapeIn(windows, id, Handles, env.settings)),
         KeyFor(id, Threads), ShapeIn(windows, id, Threads, env.settings))
  }

  predicate LongClimb(since: map<Fingerprint, int>, id: Identity, nowMs: int) {
    Max(ClimbOf(since, KeyFor(id, Handles), nowMs), ClimbOf(since, KeyFor(id, Threads), nowMs)) >= GROWTH_PERSISTENCE_MS
  }

  ghost predicate ProcessStep(before: Watch, p: Process, env: Env, after: Watch, findings: seq<Finding>) {
    var ring := RingFor(before.history, p);
    && after.history == before.history[p.id := ring]
    && WindowStep(before.windows, p, ring, VisitOf(ring, p, env), env.settings.HoldMs(), after.windows)
    && after.shapes == ShapesAfter(before.shapes, after.windows, p.id, env)
    && after.since == SinceAfter(before.since, after.windows, p.id, env)
    && after.quarantine
       == before.quarantine + (if LongClimb(after.since, p.id, env.nowMs) then {p.id} else {})
    && findings == Found(after.windows, after.since, p, GrowthOf(ring, p.now, Handles), Handles, env)
                   + Found(after.windows, after.since, p, GrowthOf(ring, p.now, Threads), Threads, env)
  }

  /** A pass over the first `n` processes: the watch before and after each, and what each was found doing. */
  ghost predicate Passes(processes: seq<Process>, env: Env, n: nat, states: seq<Watch>, found: seq<seq<Finding>>) {
    && n <= |processes| && |states| == n + 1 && |found| == n
    && forall i :: 0 <= i < n ==> ProcessStep(states[i], processes[i], env, states[i + 1], found[i])
  }

  function StartedOver(w: Watch): Watch {
    w.(shapes := map[], quarantine := {})
  }

  function Flat(found: seq<seq<Finding>>, n: nat): seq<Finding>
    requires n <= |found|
  {
    if n == 0 then [] else Flat(found, n - 1) + found[n - 1]
  }

  lemma PassOn(processes: seq<Process>, env: Env, n: nat, states: seq<Watch>, found: seq<seq<Finding>>,
               after: Watch, more: seq<Finding>)
    requires Passes(processes, env, n, states, found) && n < |processes|
    requires ProcessStep(states[n], processes[n], env, after, more)
    ensures Passes(processes, env, n + 1, states + [after], found + [more])
    ensures Flat(found + [more], n + 1) == Flat(found, n) + more
  {
    hide ProcessStep;
    FlatStands(found, n, more);
  }

  lemma {:induction false} FlatStands(found: seq<seq<Finding>>, n: nat, more: seq<Finding>)
    requires n <= |found|
    ensures Flat(found + [more], n) == Flat(found, n)
  {
    if n > 0 {
      FlatStands(found, n - 1, more);
    }
  }

  function Live(processes: seq<Process>): set<Identity> {
    set p | p in processes :: p.id
  }

  predicate Watched(processes: seq<Process>, key: Fingerprint) {
    exists p :: p in processes && (key == KeyFor(p.id, Handles) || key == KeyFor(p.id, Threads))
  }

  function Retained(w: Watch, processes: seq<Process>): Watch {
    var live := Live(processes);
    w.(history := map id | id in w.history && id in live :: w.history[id],
       windows := map id | id in w.windows && id in live :: w.windows[id],
       since := map k | k in w.since && Watched(processes, k) :: w.since[k])
  }

  ghost predicate Evaluates(before: Watch, processes: seq<Process>, env: Env, after: Watch, findings: seq<Finding>) {
    exists states, found ::
      && Passes(processes, env, |processes|, states, found)
      && states[0] == StartedOver(before) && after == Retained(states[|processes|], processes)
      && findings == Flat(found, |processes|)
  }

  class GrowthWatcher {
    var history: map<Identity, seq<Point>>
    var windows: Windows
    var shapes: map<Fingerprint, TrendShape>
    var since: map<Fingerprint, int>
    var quarantine: set<Identity>

    function View(): Watch
      reads this
    {
      Watch(history, windows, shapes, since, quarantine)
    }

    constructor ()
      ensures View() == UNWATCHED
    {
      history, windows, shapes, since, quarantine := map[], map[], map[], map[], {};
    }

    method Evaluate(processes: seq<Process>, env: Env) returns (findings: seq<Finding>)
      modifies this
      ensures Evaluates(old(View()), processes, env, View(), findings)
    {
      hide ProcessStep, Retained;
      shapes, quarantine := map[], {};
      findings := [];
      ghost var states, found := [View()], [];
      var n := 0;
      while n < |processes|
        invariant n <= |processes|
        invariant Passes(processes, env, n, states, found) && findings == Flat(found, n)
        invariant states[0] == StartedOver(old(View())) && states[n] == View()
      {
        var more := Visit(processes[n], env);
        PassOn(processes, env, n, states, found, View(), more);
        findings := findings + more;
        states, found := states + [View()], found + [more];
        n := n + 1;
      }
      Retain(processes);
    }

    /** Processes that are gone take their rings, windows and runs with them. */
    method Retain(processes: seq<Process>)
      modifies `history, `windows, `since
      ensures View() == Retained(old(View()), processes)
    {
      var live := Live(processes);
      history := map id | id in history && id in live :: history[id];
      windows := map id | id in windows && id in live :: windows[id];
      since := map k | k in since && Watched(processes, k) :: since[k];
    }

    method Visit(p: Process, env: Env) returns (findings: seq<Finding>)
      modifies this
      ensures ProcessStep(old(View()), p, env, View(), findings)
    {
      hide WindowStep, SinceAfter, ShapesAfter, Found, GrowthOf, PressureOf;
      var ring := ExtendRing(p);
      var handleGrowth := GrowthOf(ring, p.now, Handles);
      var threadGrowth := GrowthOf(ring, p.now, Threads);
      var visit := VisitOf(ring, p, env);
      UpdateWindow(p, ring, visit, env.settings.HoldMs());
      NoteShapes(p.id, env);
      if LongClimb(since, p.id, env.nowMs) {
        quarantine := quarantine + {p.id};
      }
      findings := Found(windows, since, p, handleGrowth, Handles, env)
        + Found(windows, since, p, threadGrowth, Threads, env);
    }

    method ExtendRing(p: Process) returns (ring: seq<Point>)
      modifies `history
      ensures ring == RingFor(old(history), p) && history == old(history)[p.id := ring]
    {
      ring := (if p.id in history then history[p.id] else []) + [p.now];
      var cutoff := p.now.atMs - RING_MS;
      while ring != [] && ring[0].atMs < cutoff
        invariant DropBefore(ring, TimeOf, cutoff) == RingFor(old(history), p)
        decreases |ring|
      {
        ring := ring[1..];
      }
      history := history[p.id := ring];
    }

    method UpdateWindow(p: Process, ring: seq<Point>, v: Visit, holdMs: int)
      modifies `windows
      ensures WindowStep(old(windows), p, ring, v, holdMs, windows)
    {
      if p.id in windows {
        var cooledOff := RefreshWindow(p.id, v, holdMs);
        if cooledOff {
          windows := windows - {p.id};
        }
      } else if AtLeast(v.pressure, GROWTH_WATCH_ENTRY) || v.isProtected {
        var entrant := Window(ring, v.pressure, None, v.isProtected, p.norm);
        if |windows| >= GROWTH_WATCH_CAP {
          EvictWeakest(v.pressure);
        }
        ghost var room := windows;
        if |windows| < GROWTH_WATCH_CAP {
          windows := windows[p.id := entrant];
        }
        assert Admitted(old(windows), p.id, entrant, windows);
      }
    }

    method RefreshWindow(id: Identity, v: Visit, holdMs: int) returns (cooledOff: bool)
      requires id in windows
      modifies `windows
      ensures cooledOff == Revisited(old(windows)[id], v, holdMs).None?
      ensures !cooledOff ==> windows == old(windows)[id := Revisited(old(windows)[id], v, holdMs).value]
      ensures cooledOff ==> windows - {id} == old(windows) - {id}
    {
      var window := windows[id].(pressure := v.pressure, isProtected := v.isProtected);
      cooledOff := false;
      if v.isProtected || AtLeast(v.pressure, GROWTH_WATCH_EXIT) {
        window := window.(coolingSince := None);
      } else {
        var since := window.coolingSince.GetOr(v.now.atMs);
        window := window.(coolingSince := Some(since));
        cooledOff := v.now.atMs - since >= holdMs;
      }
      if !cooledOff {
        var points := window.points + [v.now];
        var cutoff := v.now.atMs - GROWTH_WINDOW_MS;
        while points != [] && points[0].atMs < cutoff
          invariant DropBefore(points, TimeOf, cutoff) == Extended(window.points, v.now, GROWTH_WINDOW_MS)
          decreases |points|
        {
          points := points[1..];
        }
        window := window.(points := points);
      }
      windows := windows[id := window];
    }

    method EvictWeakest(newcomer: Pressure)
      modifies `windows
      ensures Evicts(old(windows), newcomer, windows)
    {
      var weakest: Option<Identity> := None;
      var waiting := windows.Keys;
      while waiting != {}
        invariant waiting <= windows.Keys
        invariant weakest.Some? ==> weakest.value in windows && !windows[weakest.value].isProtected
        invariant forall j :: j in windows && j !in waiting && !windows[j].isProtected ==>
                    weakest.Some? && !Less(windows[j].pressure, windows[weakest.value].pressure)
      {
        var id :| id in waiting;
        if !windows[id].isProtected
           && (weakest.None? || Less(windows[id].pressure, windows[weakest.value].pressure)) {
          weakest := Some(id);
        }
        waiting := waiting - {id};
      }
      if weakest.Some? {
        assert Weakest(windows, weakest.value);
        if Displaces(windows[weakest.value].pressure, newcomer) {
          windows := windows - {weakest.value};
        }
      }
    }

    method NoteShapes(id: Identity, env: Env)
      modifies `shapes, `since
      ensures shapes == ShapesAfter(old(shapes), windows, id, env)
      ensures since == SinceAfter(old(since), windows, id, env)
    {
      NoteShape(KeyFor(id, Handles), ShapeIn(windows, id, Handles, env.settings), env.nowMs);
      NoteShape(KeyFor(id, Threads), ShapeIn(windows, id, Threads, env.settings), env.nowMs);
    }

    method NoteShape(key: Fingerprint, shape: Option<TrendShape>, nowMs: int)
      modifies `shapes, `since
      ensures shapes == Seen(old(shapes), key, shape) && since == Noted(old(since), key, shape, nowMs)
    {
      if shape.None? {
        since := since - {key};
        return;
      }
      shapes := shapes[key := shape.value];
      if shape.value.Monotonic? {
        if key !in since {
          since := since[key := nowMs];
        }
      } else {
        since := since - {key};
      }
    }
  }
}
