/** What the growth watch guarantees over whole runs: its size, its fairness, and the honesty of its findings. */
module GrowthRuns {
  import opened Models
  import opened Trend
  import opened Incidents
  import opened Lifecycle
  import opened GrowthLife
  import opened GrowthWatch

  // ---------------------------------------------------------------- the watch list

  lemma DroppingOne(windows: Windows, id: Identity)
    requires id in windows
    ensures |windows - {id}| == |windows| - 1
  {
    assert (windows - {id}).Keys == windows.Keys - {id};
    assert |windows - {id}| == |(windows - {id}).Keys| && |windows| == |windows.Keys|;
  }

  lemma PuttingOne(windows: Windows, id: Identity, w: Window)
    ensures |windows[id := w]| == if id in windows then |windows| else |windows| + 1
  {
    assert windows[id := w].Keys == windows.Keys + {id};
    assert |windows[id := w]| == |windows[id := w].Keys| && |windows| == |windows.Keys|;
  }

  lemma WindowStepKeepsCap(before: Windows, p: Process, ring: seq<Point>, v: Visit, holdMs: int, after: Windows)
    requires WindowStep(before, p, ring, v, holdMs, after) && |before| <= GROWTH_WATCH_CAP
    ensures |after| <= GROWTH_WATCH_CAP
  {
    hide Revisited;
    if p.id in before {
      DroppingOne(before, p.id);
      var w := Revisited(before[p.id], v, holdMs);
      if w.Some? {
        PuttingOne(before, p.id, w.value);
      }
    } else if AtLeast(v.pressure, GROWTH_WATCH_ENTRY) || v.isProtected {
      var entrant := Window(ring, v.pressure, None, v.isProtected, p.norm);
      var room :| (if |before| >= GROWTH_WATCH_CAP then Evicts(before, entrant.pressure, room) else room == before)
                  && after == if |room| < GROWTH_WATCH_CAP then room[p.id := entrant] else room;
      EvictingShrinks(before, entrant.pressure, room);
      PuttingOne(room, p.id, entrant);
    }
  }

  lemma EvictingShrinks(before: Windows, newcomer: Pressure, after: Windows)
    ensures Evicts(before, newcomer, after) ==> |after| <= |before|
  {
    if Evicts(before, newcomer, after) && exists j :: j in before && !before[j].isProtected {
      var id :| Weakest(before, id)
                && after == if Displaces(before[id].pressure, newcomer) then before - {id} else before;
      DroppingOne(before, id);
    }
  }

  lemma RetainingShrinks(windows: Windows, live: set<Identity>)
    ensures |map id | id in windows && id in live :: windows[id]| <= |windows|
  {
    var kept := map id | id in windows && id in live :: windows[id];
    assert windows.Keys == kept.Keys + (windows.Keys - kept.Keys);
    assert |kept| == |kept.Keys| && |windows| == |windows.Keys|;
  }

  lemma {:induction false} PassKeepsCap(processes: seq<Process>, env: Env, n: nat, states: seq<Watch>,
                                        found: seq<seq<Finding>>, i: nat)
    requires Passes(processes, env, n, states, found) && i <= n && |states[0].windows| <= GROWTH_WATCH_CAP
    ensures |states[i].windows| <= GROWTH_WATCH_CAP
  {
    hide WindowStep, SinceAfter, ShapesAfter, Found;
    if i > 0 {
      PassKeepsCap(processes, env, n, states, found, i - 1);
      var p, before := processes[i - 1], states[i - 1];
      assert ProcessStep(before, p, env, states[i], found[i - 1]);
      var ring := RingFor(before.history, p);
      WindowStepKeepsCap(before.windows, p, ring, VisitOf(ring, p, env), env.settings.HoldMs(), states[i].windows);
    }
  }

  datatype Round = Round(processes: seq<Process>, env: Env)

  predicate Distinct(processes: seq<Process>) {
    forall i, j :: 0 <= i < j < |processes| ==> processes[i].id != processes[j].id
  }

  ghost predicate IsHistory(watches: seq<Watch>, rounds: seq<Round>, findings: seq<seq<Finding>>) {
    && |watches| == |rounds| + 1 && |findings| == |rounds| && watches[0] == UNWATCHED
    && forall i :: 0 <= i < |rounds| ==>
         Distinct(rounds[i].processes)
         && Evaluates(watches[i], rounds[i].processes, rounds[i].env, watches[i + 1], findings[i])
  }

  lemma PassBehind(before: Watch, round: Round, after: Watch, findings: seq<Finding>)
    returns (states: seq<Watch>, found: seq<seq<Finding>>)
    requires Evaluates(before, round.processes, round.env, after, findings)
    ensures |states| == |round.processes| + 1 && |found| == |round.processes|
    ensures Passes(round.processes, round.env, |round.processes|, states, found)
    ensures states[0] == StartedOver(before) && after == Retained(states[|round.processes|], round.processes)
    ensures findings == Flat(found, |round.processes|)
  {
    hide ProcessStep, Retained;
    states, found :| && Passes(round.processes, round.env, |round.processes|, states, found)
                     && states[0] == StartedOver(before)
                     && after == Retained(states[|round.processes|], round.processes)
                     && findings == Flat(found, |round.processes|);
  }

  lemma EvaluationKeepsCap(before: Watch, round: Round, after: Watch, findings: seq<Finding>)
    requires Evaluates(before, round.processes, round.env, after, findings) && |before.windows| <= GROWTH_WATCH_CAP
    ensures |after.windows| <= GROWTH_WATCH_CAP
  {
    var processes := round.processes;
    var states, found := PassBehind(before, round, after, findings);
    hide Passes, Evaluates;
    PassKeepsCap(processes, round.env, |processes|, states, found, |processes|);
    RetainingShrinks(states[|processes|].windows, Live(processes));
  }

  /** In every state of every run at most thirty-two processes carry a window. */
  lemma {:induction false} NeverOverTheCap(watches: seq<Watch>, rounds: seq<Round>, findings: seq<seq<Finding>>, n: nat)
    requires IsHistory(watches, rounds, findings) && n < |watches|
    ensures |watches[n].windows| <= GROWTH_WATCH_CAP
    decreases n
  {
    hide Evaluates;
    if n > 0 {
      NeverOverTheCap(watches, rounds, findings, n - 1);
      EvaluationKeepsCap(watches[n - 1], rounds[n - 1], watches[n], findings[n - 1]);
    }
  }

  /**
   * While a process lives its window only goes by cooling for a full hold on its own visit, or by making room:
   * unprotected, with nothing unprotected weaker, for a newcomer pushing harder or breaching. Otherwise it keeps the
   * norm it was opened with.
   */
  lemma WindowsLeaveByTheRules(before: Windows, p: Process, ring: seq<Point>, v: Visit, holdMs: int, after: Windows,
                               id: Identity)
    requires WindowStep(before, p, ring, v, holdMs, after) && id in before
    ensures id !in after ==>
              || (id == p.id && Revisited(before[id], v, holdMs).None?)
              || (id != p.id && p.id !in before && |before| >= GROWTH_WATCH_CAP
                  && Weakest(before, id) && Displaces(before[id].pressure, v.pressure))
    ensures id in after ==> after[id].norm == before[id].norm && (id != p.id ==> after[id] == before[id])
  {
    if p.id !in before && (AtLeast(v.pressure, GROWTH_WATCH_ENTRY) || v.isProtected) {
      var entrant := Window(ring, v.pressure, None, v.isProtected, p.norm);
      var room :| (if |before| >= GROWTH_WATCH_CAP then Evicts(before, entrant.pressure, room) else room == before)
                  && after == if |room| < GROWTH_WATCH_CAP then room[p.id := entrant] else room;
      if |before| >= GROWTH_WATCH_CAP && exists j :: j in before && !before[j].isProtected {
        var gone :| Weakest(before, gone)
                    && room == if Displaces(before[gone].pressure, entrant.pressure) then before - {gone} else before;
      }
    }
  }

  /** Whether a newcomer finds a place, as the watch list stands. */
  predicate HasPlaceFor(windows: Windows, newcomer: Pressure) {
    || |windows| < GROWTH_WATCH_CAP
    || exists j :: j in windows && !windows[j].isProtected && Displaces(windows[j].pressure, newcomer)
  }

  lemma WeakestDecides(windows: Windows, id: Identity, newcomer: Pressure)
    requires Weakest(windows, id)
    ensures Displaces(windows[id].pressure, newcomer)
            <==> exists j :: j in windows && !windows[j].isProtected && Displaces(windows[j].pressure, newcomer)
  {
  }

  /** A process worth watching gets its window exactly when there is a place, however ties are broken. */
  lemma NewcomersArePlaced(before: Windows, p: Process, ring: seq<Point>, v: Visit, holdMs: int, after: Windows)
    requires WindowStep(before, p, ring, v, holdMs, after)
    requires |before| <= GROWTH_WATCH_CAP && p.id !in before
    requires AtLeast(v.pressure, GROWTH_WATCH_ENTRY) || v.isProtected
    ensures p.id in after <==> HasPlaceFor(before, v.pressure)
  {
    var entrant := Window(ring, v.pressure, None, v.isProtected, p.norm);
    var room :| (if |before| >= GROWTH_WATCH_CAP then Evicts(before, entrant.pressure, room) else room == before)
                && after == if |room| < GROWTH_WATCH_CAP then room[p.id := entrant] else room;
    if |before| >= GROWTH_WATCH_CAP && exists j :: j in before && !before[j].isProtected {
      var gone :| Weakest(before, gone)
                  && room == if Displaces(before[gone].pressure, entrant.pressure) then before - {gone} else before;
      WeakestDecides(before, gone, v.pressure);
      DroppingOne(before, gone);
    }
  }

  /** A process at or above its threshold is turned away only when all thirty-two windows belong to open incidents. */
  lemma BreachesAreTurnedAwayOnlyWhenAllAreProtected(before: Windows, p: Process, ring: seq<Point>, v: Visit,
                                                     holdMs: int, after: Windows)
    requires WindowStep(before, p, ring, v, holdMs, after)
    requires |before| <= GROWTH_WATCH_CAP && p.id !in before && AtLeast(v.pressure, 1.0)
    ensures p.id !in after <==> |before| == GROWTH_WATCH_CAP && forall j :: j in before ==> before[j].isProtected
  {
    NewcomersArePlaced(before, p, ring, v, holdMs, after);
  }

  // ---------------------------------------------------------------------- cooling

  /** A visit, and the hold that the settings asked for at the time. */
  datatype Look = Look(visit: Visit, holdMs: int)

  /** A window after a number of looks at it, or nothing once it has cooled. */
  function Visited(w: Window, looks: seq<Look>): Option<Window> {
    if looks == [] then Some(w)
    else
      match Visited(w, looks[..|looks| - 1])
      case None => None
      case Some(before) => Revisited(before, looks[|looks| - 1].visit, looks[|looks| - 1].holdMs)
  }

  predicate InOrder(looks: seq<Look>) {
    forall i, j :: 0 <= i <= j < |looks| ==> looks[i].visit.now.atMs <= looks[j].visit.now.atMs
  }

  predicate CalmThrough(looks: seq<Look>, i: nat) {
    i < |looks| && forall j :: i <= j < |looks| ==> Calm(looks[j].visit)
  }

  /** The start of the quiet stretch the looks end in. */
  lemma {:induction false} CoolingTracksTheQuiet(w: Window, looks: seq<Look>) returns (i: nat)
    requires w.coolingSince.None? && Visited(w, looks).Some?
    ensures var since := Visited(w, looks).value.coolingSince;
            && i <= |looks|
            && (since.None? <==> i == |looks|)
            && (since.Some? ==> CalmThrough(looks, i) && since.value == looks[i].visit.now.atMs)
            && (i > 0 ==> !Calm(looks[i - 1].visit))
  {
    if looks == [] {
      i := 0;
    } else {
      var n := |looks| - 1;
      i := CoolingTracksTheQuiet(w, looks[..n]);
      if !Calm(looks[n].visit) {
        i := n + 1;
      } else {
        forall j | i <= j < |looks|
          ensures Calm(looks[j].visit)
        {
          assert j < n ==> looks[..n][j] == looks[j];
        }
      }
    }
  }

  /** The looks end in an unbroken quiet stretch, unprotected and below the exit pressure, that spans the hold. */
  predicate QuietForTheHold(looks: seq<Look>)
    requires looks != []
  {
    var n := |looks| - 1;
    exists i :: 0 <= i <= n && CalmThrough(looks, i)
                && looks[n].visit.now.atMs - looks[i].visit.now.atMs >= looks[n].holdMs
  }

  lemma CoolsWhenQuiet(w: Window, looks: seq<Look>)
    requires w.coolingSince.None? && looks != [] && InOrder(looks)
    requires Visited(w, looks[..|looks| - 1]).Some?
    ensures Visited(w, looks).None? <==> QuietForTheHold(looks)
  {
    var n := |looks| - 1;
    var before := Visited(w, looks[..n]).value;
    var i := CoolingTracksTheQuiet(w, looks[..n]);
    if Calm(looks[n].visit) {
      forall j | i <= j < |looks|
        ensures Calm(looks[j].visit)
      {
        assert j < n ==> looks[..n][j] == looks[j];
      }
      assert CalmThrough(looks, i);
      assert before.coolingSince.GetOr(looks[n].visit.now.atMs) == looks[i].visit.now.atMs;
      assert i > 0 ==> looks[..n][i - 1] == looks[i - 1];
      assert forall j :: 0 <= j < i ==> !CalmThrough(looks, j);
    } else {
      assert forall j :: 0 <= j < |looks| ==> !CalmThrough(looks, j);
    }
  }

  // -------------------------------------------------- one window through a history

  /** Another process's visit takes a window away. */
  predicate LosesAt(processes: seq<Process>, states: seq<Watch>, j: nat, id: Identity)
    requires |states| == |processes| + 1 && j < |processes|
  {
    processes[j].id != id && id in states[j].windows && id !in states[j + 1].windows
  }

  /** In the course of an evaluation a window made room for somebody else. */
  ghost predicate MakesRoom(before: Watch, round: Round, after: Watch, findings: seq<Finding>, id: Identity) {
    exists states, found ::
      && PassOf(before, round, after, findings, states, found)
      && exists j :: 0 <= j < |round.processes| && LosesAt(round.processes, states, j, id)
  }

  ghost predicate PassOf(before: Watch, round: Round, after: Watch, findings: seq<Finding>, states: seq<Watch>,
                         found: seq<seq<Finding>>)
  {
    && Passes(round.processes, round.env, |round.processes|, states, found)
    && states[0] == StartedOver(before) && after == Retained(states[|round.processes|], round.processes)
    && findings == Flat(found, |round.processes|)
  }

  predicate IsVisited(round: Round, id: Identity) {
    exists i :: 0 <= i < |round.processes| && round.processes[i].id == id
  }

  /** How an evaluation looks at a process it visits. */
  ghost function LookAt(before: Watch, round: Round, id: Identity): Look
    requires IsVisited(round, id)
  {
    var i :| 0 <= i < |round.processes| && round.processes[i].id == id;
    var p := round.processes[i];
    Look(VisitOf(RingFor(before.history, p), p, round.env), round.env.settings.HoldMs())
  }

  predicate SameRing(before: Watch, after: Watch, id: Identity) {
    (id in after.history <==> id in before.history)
      && (id in before.history ==> after.history[id] == before.history[id])
  }

  lemma OthersLeaveItBe(before: Watch, p: Process, env: Env, after: Watch, findings: seq<Finding>, id: Identity)
    requires ProcessStep(before, p, env, after, findings) && p.id != id
    ensures SameRing(before, after, id)
    ensures id in after.windows ==> id in before.windows && after.windows[id] == before.windows[id]
  {
    var ring := RingFor(before.history, p);
    OthersWindow(before.windows, p, ring, VisitOf(ring, p, env), env.settings.HoldMs(), after.windows, id);
  }

  lemma OthersWindow(before: Windows, p: Process, ring: seq<Point>, v: Visit, holdMs: int, after: Windows, id: Identity)
    requires WindowStep(before, p, ring, v, holdMs, after) && p.id != id
    ensures id in after ==> id in before && after[id] == before[id]
  {
    hide Revisited;
  }

  /** One window through a pass: as it was until its process is visited, and from then on as that visit left it. */
  lemma {:induction false} PassAtWindow(processes: seq<Process>, env: Env, states: seq<Watch>, found: seq<seq<Finding>>,
                                        n: nat, id: Identity, i: nat)
    requires Passes(processes, env, |processes|, states, found) && Distinct(processes) && n <= |processes|
    requires i < |processes| && processes[i].id == id && id in states[0].windows
    requires forall j :: 0 <= j < |processes| ==> !LosesAt(processes, states, j, id)
    ensures n <= i ==> SameRing(states[0], states[n], id)
                       && id in states[n].windows && states[n].windows[id] == states[0].windows[id]
    ensures var v := VisitOf(RingFor(states[0].history, processes[i]), processes[i], env);
            var r := Revisited(states[0].windows[id], v, env.settings.HoldMs());
            n > i ==> (id in states[n].windows <==> r.Some?) && (r.Some? ==> states[n].windows[id] == r.value)
  {
    hide ProcessStep, Revisited, RingFor, VisitOf;
    if n > 0 {
      var m := n - 1;
      PassAtWindow(processes, env, states, found, m, id, i);
      assert ProcessStep(states[m], processes[m], env, states[n], found[m]);
      assert !LosesAt(processes, states, m, id);
      if m == i {
        OwnVisit(states[m], processes[m], env, states[n], found[m]);
        assert RingFor(states[m].history, processes[i]) == RingFor(states[0].history, processes[i]) by {
          SameRingSameView(states[0], states[m], processes[i]);
        }
      } else {
        OthersLeaveItBe(states[m], processes[m], env, states[n], found[m], id);
      }
    }
  }

  lemma SameRingSameView(before: Watch, after: Watch, p: Process)
    requires SameRing(before, after, p.id)
    ensures RingFor(after.history, p) == RingFor(before.history, p)
  {
  }

  lemma OwnVisit(before: Watch, p: Process, env: Env, after: Watch, findings: seq<Finding>)
    requires ProcessStep(before, p, env, after, findings) && p.id in before.windows
    ensures var v := VisitOf(RingFor(before.history, p), p, env);
            var r := Revisited(before.windows[p.id], v, env.settings.HoldMs());
            (p.id in after.windows <==> r.Some?) && (r.Some? ==> after.windows[p.id] == r.value)
  {
    hide Revisited, RingFor, VisitOf;
  }

  /** One evaluation that visits a watched process and does not give its window away leaves what the look leaves. */
  lemma EvaluationAtWindow(before: Watch, round: Round, after: Watch, findings: seq<Finding>, id: Identity)
    requires Evaluates(before, round.processes, round.env, after, findings) && Distinct(round.processes)
    requires id in before.windows && IsVisited(round, id) && !MakesRoom(before, round, after, findings, id)
    ensures var look := LookAt(before, round, id);
            var r := Revisited(before.windows[id], look.visit, look.holdMs);
            (id in after.windows <==> r.Some?) && (r.Some? ==> after.windows[id] == r.value)
  {
    var processes := round.processes;
    var states, found := PassBehind(before, round, after, findings);
    assert PassOf(before, round, after, findings, states, found);
    var i :| 0 <= i < |processes| && processes[i].id == id && LookAt(before, round, id)
             == Look(VisitOf(RingFor(before.history, processes[i]), processes[i], round.env),
                     round.env.settings.HoldMs());
    hide Evaluates, PassOf, Passes, Revisited, RingFor, VisitOf;
    assert states[0].windows == before.windows && states[0].history == before.history;
    PassAtWindow(processes, round.env, states, found, |processes|, id, i);
    assert processes[i] in processes;
  }

  /** A window makes room only unprotected and weakest, from a full list, for a newcomer that may displace it. */
  lemma RoomIsMadeByTheRules(before: Watch, round: Round, after: Watch, findings: seq<Finding>, states: seq<Watch>,
                             found: seq<seq<Finding>>, j: nat, id: Identity)
    requires PassOf(before, round, after, findings, states, found)
    requires j < |round.processes| && LosesAt(round.processes, states, j, id)
    ensures var (windows, p) := (states[j].windows, round.processes[j]);
            && |windows| >= GROWTH_WATCH_CAP && p.id !in windows && Weakest(windows, id)
            && Displaces(windows[id].pressure, VisitOf(RingFor(states[j].history, p), p, round.env).pressure)
  {
    var p, s := round.processes[j], states[j];
    var ring := RingFor(s.history, p);
    assert ProcessStep(s, p, round.env, states[j + 1], found[j]);
    hide Passes;
    WindowsLeaveByTheRules(s.windows, p, ring, VisitOf(ring, p, round.env), round.env.settings.HoldMs(),
                           states[j + 1].windows, id);
  }

  /** From evaluation `a` to `b` a process lives and its window is not given away. */
  ghost predicate KeepsItsPlace(watches: seq<Watch>, rounds: seq<Round>, findings: seq<seq<Finding>>, id: Identity,
                                a: nat, b: nat)
    requires |watches| == |rounds| + 1 && |findings| == |rounds| && b <= |rounds|
  {
    forall m :: a <= m < b ==>
      IsVisited(rounds[m], id) && !MakesRoom(watches[m], rounds[m], watches[m + 1], findings[m], id)
  }

  /** The looks that evaluations `a` to `b` take at it. */
  ghost function Looks(watches: seq<Watch>, rounds: seq<Round>, id: Identity, a: nat, b: nat): (looks: seq<Look>)
    requires |watches| == |rounds| + 1 && a <= b <= |rounds|
    requires forall m :: a <= m < b ==> IsVisited(rounds[m], id)
    ensures |looks| == b - a
  {
    if a == b then [] else Looks(watches, rounds, id, a, b - 1) + [LookAt(watches[b - 1], rounds[b - 1], id)]
  }

  /**
   * A watched process's window, followed through a history: what its looks make of it, norm unchanged, and gone when
   * they say it has cooled.
   */
  lemma {:induction false} WindowsFollowTheirLooks(watches: seq<Watch>, rounds: seq<Round>, findings: seq<seq<Finding>>,
                                                   id: Identity, a: nat, b: nat)
    requires IsHistory(watches, rounds, findings) && a <= b <= |rounds|
    requires KeepsItsPlace(watches, rounds, findings, id, a, b) && id in watches[a].windows
    requires forall m :: a <= m < b ==> id in watches[m].windows
    ensures Visited(watches[a].windows[id], Looks(watches, rounds, id, a, b))
            == if id in watches[b].windows then Some(watches[b].windows[id]) else None
    ensures id in watches[b].windows ==> watches[b].windows[id].norm == watches[a].windows[id].norm
    decreases b
  {
    hide Evaluates, MakesRoom, LookAt, Revisited;
    if a < b {
      var m := b - 1;
      WindowsFollowTheirLooks(watches, rounds, findings, id, a, m);
      EvaluationAtWindow(watches[m], rounds[m], watches[b], findings[m], id);
      var look := LookAt(watches[m], rounds[m], id);
      LooksKeepNorms(watches[m].windows[id], look.visit, look.holdMs);
      var looks := Looks(watches, rounds, id, a, b);
      assert looks[..|looks| - 1] == Looks(watches, rounds, id, a, m);
    }
  }

  lemma LooksKeepNorms(w: Window, v: Visit, holdMs: int)
    ensures Revisited(w, v, holdMs).Some? ==> Revisited(w, v, holdMs).value.norm == w.norm
  {
  }

  /**
   * In any history, a window that was not cooling and has been there ever since is given up by an evaluation exactly
   * when the looks at it now end in an unbroken quiet stretch that spans the hold asked for.
   */
  lemma CoolsExactlyAfterAFullHold(watches: seq<Watch>, rounds: seq<Round>, findings: seq<seq<Finding>>, id: Identity,
                                   a: nat, b: nat)
    requires IsHistory(watches, rounds, findings) && a < b <= |rounds|
    requires KeepsItsPlace(watches, rounds, findings, id, a, b)
    requires forall m :: a <= m < b ==> id in watches[m].windows
    requires watches[a].windows[id].coolingSince.None? && InOrder(Looks(watches, rounds, id, a, b))
    ensures id !in watches[b].windows <==> QuietForTheHold(Looks(watches, rounds, id, a, b))
  {
    hide Evaluates, MakesRoom, LookAt, Revisited, QuietForTheHold, Visited, InOrder;
    var looks := Looks(watches, rounds, id, a, b);
    WindowsFollowTheirLooks(watches, rounds, findings, id, a, b - 1);
    WindowsFollowTheirLooks(watches, rounds, findings, id, a, b);
    assert looks[..|looks| - 1] == Looks(watches, rounds, id, a, b - 1);
    CoolsWhenQuiet(watches[a].windows[id], looks);
  }

  // ------------------------------------------------------------ findings and climbs

  lemma KeysAreApart(a: Identity, d: Dimension, b: Identity, e: Dimension)
    requires KeyFor(a, d) == KeyFor(b, e)
    ensures a == b && d == e
  {
    assert "handleGrowth"[0] == 'h' && "threadGrowth"[0] == 't';
  }

  /** What one process's visit does to the bookkeeping of one key. */
  lemma StepAtKey(before: Watch, p: Process, env: Env, after: Watch, findings: seq<Finding>, id: Identity, d: Dimension)
    requires ProcessStep(before, p, env, after, findings)
    ensures var (key, shape) := (KeyFor(id, d), ShapeIn(after.windows, id, d, env.settings));
            if p.id == id then
              && Get(after.since, key)
                 == (if IsClimb(shape) then Some(Get(before.since, key).GetOr(env.nowMs)) else None)
              && (Get(before.shapes, key).None? ==> Get(after.shapes, key) == shape)
              && forall f :: f in findings && f.key == key ==>
                   IsClimb(shape) && f.severity == GrowthSeverity(ClimbMs(Get(after.since, key), env.nowMs))
            else
              && Get(after.since, key) == Get(before.since, key) && Get(after.shapes, key) == Get(before.shapes, key)
              && forall f :: f in findings ==> f.key != key
  {
    hide WindowStep, ShapeIn, Admits, GrowthOf, PressureOf, RingFor;
    if KeyFor(id, d) == KeyFor(p.id, Handles) {
      KeysAreApart(id, d, p.id, Handles);
    }
    if KeyFor(id, d) == KeyFor(p.id, Threads) {
      KeysAreApart(id, d, p.id, Threads);
    }
    if KeyFor(p.id, Threads) == KeyFor(p.id, Handles) {
      KeysAreApart(p.id, Threads, p.id, Handles);
    }
  }

  /** A key's bookkeeping part way through a pass, its process visited or not. */
  ghost predicate KeyAt(processes: seq<Process>, env: Env, before: Watch, now: Watch, findings: seq<Finding>, n: nat,
                        id: Identity, d: Dimension)
    requires n <= |processes|
  {
    var key := KeyFor(id, d);
    if exists i :: 0 <= i < n && processes[i].id == id then
      var shape := Get(now.shapes, key);
      && Get(now.since, key) == (if IsClimb(shape) then Some(Get(before.since, key).GetOr(env.nowMs)) else None)
      && forall f :: f in findings && f.key == key ==>
           IsClimb(shape) && f.severity == GrowthSeverity(ClimbMs(Get(now.since, key), env.nowMs))
    else
      && Get(now.since, key) == Get(before.since, key) && Get(now.shapes, key).None?
      && forall f :: f in findings ==> f.key != key
  }

  lemma {:induction false} PassAtKey(processes: seq<Process>, env: Env, states: seq<Watch>, found: seq<seq<Finding>>,
                                     n: nat, id: Identity, d: Dimension)
    requires n <= |processes| && Passes(processes, env, |processes|, states, found) && Distinct(processes)
    requires states[0].shapes == map[]
    ensures KeyAt(processes, env, states[0], states[n], Flat(found, n), n, id, d)
  {
    hide ProcessStep, ShapeIn, KeyFor;
    if n > 0 {
      PassAtKey(processes, env, states, found, n - 1, id, d);
      StepAtKey(states[n - 1], processes[n - 1], env, states[n], found[n - 1], id, d);
    }
  }

  /** One evaluation, as one growth fingerprint sees it. */
  ghost predicate KeyEvaluated(before: Watch, nowMs: int, after: Watch, findings: seq<Finding>, key: Fingerprint) {
    var shape := Get(after.shapes, key);
    && Get(after.since, key) == (if IsClimb(shape) then Some(Get(before.since, key).GetOr(nowMs)) else None)
    && forall f :: f in findings && f.key == key ==>
         IsClimb(shape) && f.severity == GrowthSeverity(ClimbMs(Get(after.since, key), nowMs))
  }

  /** Retention leaves a visited key as the pass left it, and takes the run of one that was not. */
  lemma RetainedAtKey(processes: seq<Process>, env: Env, before: Watch, now: Watch, findings: seq<Finding>,
                      id: Identity, d: Dimension)
    requires KeyAt(processes, env, StartedOver(before), now, findings, |processes|, id, d)
    requires Watched(processes, KeyFor(id, d)) <==> exists i :: 0 <= i < |processes| && processes[i].id == id
    ensures KeyEvaluated(before, env.nowMs, Retained(now, processes), findings, KeyFor(id, d))
  {
    hide KeyFor, ShapeIn, Watched;
  }

  lemma EvaluationAtKey(before: Watch, round: Round, after: Watch, findings: seq<Finding>, id: Identity, d: Dimension)
    requires Evaluates(before, round.processes, round.env, after, findings) && Distinct(round.processes)
    ensures KeyEvaluated(before, round.env.nowMs, after, findings, KeyFor(id, d))
  {
    hide Passes, Evaluates, KeyFor, KeyAt, KeyEvaluated, Retained, Watched, Distinct;
    var processes, env := round.processes, round.env;
    var states, found := PassBehind(before, round, after, findings);
    PassAtKey(processes, env, states, found, |processes|, id, d);
    VisitedIsWatched(processes, id, d);
    RetainedAtKey(processes, env, before, states[|processes|], findings, id, d);
  }

  lemma VisitedIsWatched(processes: seq<Process>, id: Identity, d: Dimension)
    ensures Watched(processes, KeyFor(id, d)) <==> exists i :: 0 <= i < |processes| && processes[i].id == id
  {
    var key := KeyFor(id, d);
    if Watched(processes, key) {
      var p :| p in processes && (key == KeyFor(p.id, Handles) || key == KeyFor(p.id, Threads));
      KeysAreApart(id, d, p.id, if key == KeyFor(p.id, Handles) then Handles else Threads);
    }
    if i :| 0 <= i < |processes| && processes[i].id == id {
      assert processes[i] in processes;
    }
  }

  /** The incident machine's ticks carry exactly the shapes the watch published and only candidates it found. */
  ghost predicate Reports(watches: seq<Watch>, rounds: seq<Round>, findings: seq<seq<Finding>>, key: Fingerprint,
                          ticks: seq<Tick>)
    requires |watches| == |rounds| + 1 && |findings| == |rounds|
  {
    && |ticks| == |rounds|
    && forall i :: 0 <= i < |ticks| ==>
         && ticks[i].context.nowMs == rounds[i].env.nowMs
         && ticks[i].shape == Get(watches[i + 1].shapes, key)
         && (ticks[i].candidate.Some? ==>
               exists f :: f in findings[i] && f.key == key && f.severity == ticks[i].candidate.value.severity)
  }

  /** The watch's monotonic-run clock is the run the ticks show, and its findings are banded by that run. */
  lemma {:induction false} WatchMakesGrowthRuns(watches: seq<Watch>, rounds: seq<Round>, findings: seq<seq<Finding>>,
                                                id: Identity, d: Dimension, ticks: seq<Tick>, n: nat)
    requires IsHistory(watches, rounds, findings) && n <= |rounds|
    requires Reports(watches, rounds, findings, KeyFor(id, d), ticks)
    ensures GrowthRun(ticks[..n]) && Climb(ticks[..n]) == Get(watches[n].since, KeyFor(id, d))
  {
    hide Evaluates, KeyFor;
    if n > 0 {
      WatchMakesGrowthRuns(watches, rounds, findings, id, d, ticks, n - 1);
      EvaluationAtKey(watches[n - 1], rounds[n - 1], watches[n], findings[n - 1], id, d);
      assert ticks[..n][..n - 1] == ticks[..n - 1] && ticks[..n][n - 1] == ticks[n - 1];
    }
  }

  /** Evaluations `i` to `j` all published a monotonic shape. */
  predicate PublishedClimb(watches: seq<Watch>, key: Fingerprint, i: nat, j: nat)
    requires j + 1 < |watches|
  {
    forall k :: i < k <= j + 1 ==> IsClimb(Get(watches[k].shapes, key))
  }

  /**
   * End to end: a growth incident fed by the watch never notifies unless the watch published a monotonic shape for it
   * in every evaluation across some thirty consecutive minutes.
   */
  lemma LeaksProveThemselvesFirst(watches: seq<Watch>, rounds: seq<Round>, findings: seq<seq<Finding>>, id: Identity,
                                  d: Dimension, ticks: seq<Tick>, s: Slot)
    requires IsHistory(watches, rounds, findings) && Reports(watches, rounds, findings, KeyFor(id, d), ticks)
    requires Dormant(s) && Run(s, ticks).alert.Some? && Run(s, ticks).alert.value.notify
    ensures exists i, j :: 0 <= i <= j < |rounds| && rounds[j].env.nowMs - rounds[i].env.nowMs >= GROWTH_PERSISTENCE_MS
                           && PublishedClimb(watches, KeyFor(id, d), i, j)
  {
    hide Evaluates, KeyFor, GrowthRun, Climb;
    WatchMakesGrowthRuns(watches, rounds, findings, id, d, ticks, |rounds|);
    assert ticks[..|rounds|] == ticks;
    GrowthNotifiesOnlyAfterALongClimb(s, ticks);
    hide Run;
    var i, j :| 0 <= i <= j < |ticks| && ClimbedThrough(ticks, i, j);
    forall k | i < k <= j + 1
      ensures IsClimb(Get(watches[k].shapes, KeyFor(id, d)))
    {
      assert Climbing(ticks[k - 1]) && ticks[k - 1].shape == Get(watches[k - 1 + 1].shapes, KeyFor(id, d));
    }
    assert PublishedClimb(watches, KeyFor(id, d), i, j);
  }
}
