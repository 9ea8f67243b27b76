/** The trailing window in which the machine is compared with its own learned kernel rates. */
module KernelPressure {
  import opened Rings

  const SUSTAINED_P95_MS := 15 * 60_000
  const SUSTAINED_P95_FRACTION := 0.9
  const P95_WINDOW_CAP := 2_048

  datatype Reading = Reading(atMs: int, above: bool)

  function TimeOf(r: Reading): int {
    r.atMs
  }

  function Pushed(window: seq<Reading>, r: Reading): seq<Reading> {
    Newest(DropBefore(window + [r], TimeOf, r.atMs - SUSTAINED_P95_MS), P95_WINDOW_CAP)
  }

  function AboveCount(window: seq<Reading>): nat {
    if window == [] then 0 else AboveCount(window[1..]) + if window[0].above then 1 else 0
  }

  /** As many readings as the sampling interval promises, but for a tenth. */
  predicate Populated(window: seq<Reading>, intervalMs: nat) {
    |window| as real >= (SUSTAINED_P95_MS / (if intervalMs < 1 then 1 else intervalMs)) as real * SUSTAINED_P95_FRACTION
  }

  predicate MostlyAbove(window: seq<Reading>) {
    AboveCount(window) as real >= |window| as real * SUSTAINED_P95_FRACTION
  }

  predicate Sustained(window: seq<Reading>, nowMs: int, intervalMs: nat) {
    && window != []
    && nowMs - window[0].atMs >= SUSTAINED_P95_MS
    && Populated(window, intervalMs)
    && MostlyAbove(window)
  }

  class P95Window {
    var window: seq<Reading>

    constructor ()
      ensures window == []
    {
      window := [];
    }

    method Push(nowMs: int, above: bool)
      modifies this
      ensures window == Pushed(old(window), Reading(nowMs, above))
    {
      window := window + [Reading(nowMs, above)];
      var cutoff := nowMs - SUSTAINED_P95_MS;
      ghost var all := window;
      while window != [] && window[0].atMs < cutoff
        invariant DropBefore(window, TimeOf, cutoff) == DropBefore(all, TimeOf, cutoff)
        decreases |window|
      {
        window := window[1..];
      }
      ghost var recent := window;
      while |window| > P95_WINDOW_CAP
        invariant |window| <= |recent| && window == recent[|recent| - |window|..]
        invariant if |recent| > P95_WINDOW_CAP then |window| >= P95_WINDOW_CAP else window == recent
        decreases |window|
      {
        window := window[1..];
      }
    }

    method SustainedAboveP95(nowMs: int, intervalMs: nat) returns (sustained: bool)
      ensures sustained == Sustained(window, nowMs, intervalMs)
    {
      if window == [] || nowMs - window[0].atMs < SUSTAINED_P95_MS {
        return false;
      }
      var expected := (SUSTAINED_P95_MS / (if intervalMs < 1 then 1 else intervalMs)) as real;
      if |window| as real < expected * SUSTAINED_P95_FRACTION {
        return false;
      }
      var above := 0;
      var i: nat := |window|;
      while i > 0
        invariant i <= |window| && above == AboveCount(window[i..])
      {
        i := i - 1;
        assert window[i..][1..] == window[i + 1..];
        if window[i].above {
          above := above + 1;
        }
      }
      assert window[0..] == window;
      sustained := above as real >= |window| as real * SUSTAINED_P95_FRACTION;
    }
  }

  // ------------------------------------------------------------- over any history

  /** The window after a history of readings. */
  function WindowOver(history: seq<Reading>): seq<Reading> {
    if history == [] then []
    else Pushed(WindowOver(history[..|history| - 1]), history[|history| - 1])
  }

  /** From `from` on, a history is recent enough and fits, and one reading more would not be or would not. */
  predicate Trims(history: seq<Reading>, from: nat, cutoffMs: int) {
    && from <= |history| && |history| - from <= P95_WINDOW_CAP
    && (from < |history| ==> history[from].atMs >= cutoffMs)
    && (from > 0 ==> |history| - from == P95_WINDOW_CAP || history[from - 1].atMs < cutoffMs)
  }

  lemma PushedTrims(window: seq<Reading>, r: Reading) returns (from: nat)
    requires InOrder(window + [r], TimeOf)
    ensures Trims(window + [r], from, r.atMs - SUSTAINED_P95_MS) && Pushed(window, r) == (window + [r])[from..]
  {
    var all, cutoff := window + [r], r.atMs - SUSTAINED_P95_MS;
    SpansItsPast(all, TimeOf, cutoff);
    var recent := DropBefore(all, TimeOf, cutoff);
    from := |all| - |recent|;
    if |recent| > P95_WINDOW_CAP {
      from := |all| - P95_WINDOW_CAP;
    }
  }

  /** What an earlier push threw away no later one would have kept. */
  lemma TrimsThrough(past: seq<Reading>, first: nat, earlierMs: int, r: Reading, second: nat, cutoffMs: int)
    requires Trims(past, first, earlierMs) && earlierMs <= cutoffMs && Trims(past[first..] + [r], second, cutoffMs)
    ensures Trims(past + [r], first + second, cutoffMs)
    ensures (past[first..] + [r])[second..] == (past + [r])[first + second..]
  {
    assert past[first..] + [r] == (past + [r])[first..];
  }

  /**
   * Over any history in time order, the window holds the readings of the last fifteen minutes, up to the newest 2,048
   * of them.
   */
  lemma {:induction false} WindowIsTheRecentPast(history: seq<Reading>) returns (from: nat)
    requires history != [] && InOrder(history, TimeOf)
    ensures Trims(history, from, history[|history| - 1].atMs - SUSTAINED_P95_MS)
            && WindowOver(history) == history[from..]
  {
    hide InOrder, Pushed;
    var n := |history| - 1;
    var past, r := history[..n], history[n];
    var cutoff := r.atMs - SUSTAINED_P95_MS;
    var first, earlier := 0, cutoff;
    assert past[0..] == past;
    if n > 0 {
      SliceInOrder(history, 0, n);
      assert history[0..n] == past && past[n - 1] == history[n - 1];
      first := WindowIsTheRecentPast(past);
      earlier := past[n - 1].atMs - SUSTAINED_P95_MS;
      LastTwoInOrder(history);
    }
    assert WindowOver(history) == Pushed(past[first..], r);
    hide WindowOver;
    assert past + [r] == history;
    assert past[first..] + [r] == history[first..|history|];
    SliceInOrder(history, first, |history|);
    var second := PushedTrims(past[first..], r);
    hide Trims;
    TrimsThrough(past, first, earlier, r, second, cutoff);
    from := first + second;
  }

  lemma SliceInOrder(history: seq<Reading>, from: nat, to: nat)
    requires InOrder(history, TimeOf) && from <= to <= |history|
    ensures InOrder(history[from..to], TimeOf)
  {
  }

  lemma LastTwoInOrder(history: seq<Reading>)
    requires InOrder(history, TimeOf) && |history| >= 2
    ensures history[|history| - 2].atMs <= history[|history| - 1].atMs
  {
    assert TimeOf(history[|history| - 2]) <= TimeOf(history[|history| - 1]);
  }

  /** A reading exactly fifteen minutes older than the last is among the newest 2,048. */
  predicate HasExactReading(history: seq<Reading>)
    requires history != []
  {
    exists i :: 0 <= i < |history| && |history| - i <= P95_WINDOW_CAP
                && history[i].atMs == history[|history| - 1].atMs - SUSTAINED_P95_MS
  }

  /**
   * Old readings go before the question is asked. So over any history in time order the gate is open if and only if
   * some reading among the newest 2,048 was taken exactly fifteen minutes before the last, and the window is populated
   * and above in the fractions asked for.
   */
  lemma GateNeedsAnExactReading(history: seq<Reading>, intervalMs: nat)
    requires history != [] && InOrder(history, TimeOf)
    ensures var window := WindowOver(history);
            Sustained(window, history[|history| - 1].atMs, intervalMs)
            <==> HasExactReading(history) && Populated(window, intervalMs) && MostlyAbove(window)
  {
    var n := |history|;
    var cutoff := history[n - 1].atMs - SUSTAINED_P95_MS;
    var from := WindowIsTheRecentPast(history);
    hide WindowOver, Populated, MostlyAbove;
    if HasExactReading(history) {
      var i :| 0 <= i < n && n - i <= P95_WINDOW_CAP && history[i].atMs == cutoff;
      assert i >= from && history[from].atMs <= history[i].atMs;
    }
  }

  // --------------------------------------------------------- at a steady cadence

  /** The time between a reading and the `i`th after it. */
  function Gap(i: int, intervalMs: int): int {
    i * intervalMs
  }

  /** Readings `from` to `to`, all above, taken every `intervalMs`. */
  function Steady(startMs: int, from: nat, to: nat, intervalMs: int): (r: seq<Reading>)
    requires from <= to + 1
    ensures |r| == to + 1 - from
    ensures forall i :: 0 <= i < |r| ==> r[i] == Reading(startMs + Gap(from + i, intervalMs), true)
  {
    seq(to + 1 - from, i requires 0 <= i < to + 1 - from => Reading(startMs + Gap(from + i, intervalMs), true))
  }

  function Intervals(intervalMs: nat): nat
    requires intervalMs > 0
  {
    SUSTAINED_P95_MS / intervalMs
  }

  lemma Whole(intervalMs: nat)
    requires intervalMs > 0
    ensures Gap(Intervals(intervalMs), intervalMs) <= SUSTAINED_P95_MS < Gap(Intervals(intervalMs) + 1, intervalMs)
    ensures Gap(Intervals(intervalMs), intervalMs) == SUSTAINED_P95_MS <==> SUSTAINED_P95_MS % intervalMs == 0
  {
    var q := Intervals(intervalMs);
    assert SUSTAINED_P95_MS == q * intervalMs + SUSTAINED_P95_MS % intervalMs;
    assert (q + 1) * intervalMs == q * intervalMs + intervalMs;
  }

  lemma Spacing(i: int, j: int, intervalMs: nat)
    requires i <= j
    ensures Gap(j, intervalMs) - Gap(i, intervalMs) == Gap(j - i, intervalMs)
    ensures Gap(i, intervalMs) <= Gap(j, intervalMs)
  {
    assert j * intervalMs - i * intervalMs == (j - i) * intervalMs;
    assert (j - i) * intervalMs >= 0;
  }

  /** Whether reading `i` has left the window when reading `k` arrives. */
  lemma LeavesAfter(i: nat, k: nat, intervalMs: nat)
    requires i <= k && intervalMs > 0
    ensures Gap(i, intervalMs) < Gap(k, intervalMs) - SUSTAINED_P95_MS <==> k - i > Intervals(intervalMs)
  {
    var q := Intervals(intervalMs);
    Whole(intervalMs);
    Spacing(i, k, intervalMs);
    if k - i > q {
      Spacing(q + 1, k - i, intervalMs);
    } else {
      Spacing(k - i, q, intervalMs);
    }
  }

  function FirstKept(k: nat, q: nat): nat {
    if k > q then k - q else 0
  }

  lemma AtMostNineHundred(intervalMs: nat)
    requires intervalMs >= 1_000
    ensures Intervals(intervalMs) <= 900
  {
    Whole(intervalMs);
    hide Intervals;
    Larger(Intervals(intervalMs), 1_000, intervalMs);
  }

  lemma Larger(q: nat, a: nat, b: nat)
    requires a <= b
    ensures q * a <= Gap(q, b)
  {
  }

  lemma DropsOne(all: seq<Reading>, cutoffMs: int)
    requires |all| >= 2 && all[0].atMs < cutoffMs <= all[1].atMs
    ensures DropBefore(all, TimeOf, cutoffMs) == all[1..]
  {
    assert all[1..][0] == all[1];
  }

  /** One more steady reading pushes out exactly the one that has grown too old, if any. */
  lemma SteadyPush(startMs: int, from: nat, k: nat, intervalMs: nat)
    requires intervalMs >= 1_000 && from == if k == 0 then 0 else FirstKept(k - 1, Intervals(intervalMs))
    ensures DropBefore(Steady(startMs, from, k, intervalMs), TimeOf, startMs + Gap(k, intervalMs) - SUSTAINED_P95_MS)
            == Steady(startMs, FirstKept(k, Intervals(intervalMs)), k, intervalMs)
  {
    var q, all := Intervals(intervalMs), Steady(startMs, from, k, intervalMs);
    LeavesAfter(from, k, intervalMs);
    hide Intervals, Gap;
    assert all[0] == Reading(startMs + Gap(from, intervalMs), true);
    if k - from > q {
      LeavesAfter(from + 1, k, intervalMs);
      DropsOne(all, startMs + Gap(k, intervalMs) - SUSTAINED_P95_MS);
      assert all[1..] == Steady(startMs, from + 1, k, intervalMs);
    }
  }

  lemma {:induction false} SteadyWindow(startMs: int, k: nat, intervalMs: nat)
    requires intervalMs >= 1_000
    ensures WindowOver(Steady(startMs, 0, k, intervalMs))
            == Steady(startMs, FirstKept(k, Intervals(intervalMs)), k, intervalMs)
    decreases k
  {
    AtMostNineHundred(intervalMs);
    hide Intervals, Gap, DropBefore;
    var from := if k == 0 then 0 else FirstKept(k - 1, Intervals(intervalMs));
    var history := Steady(startMs, 0, k, intervalMs);
    var before := WindowOver(history[..k]);
    if k > 0 {
      SteadyWindow(startMs, k - 1, intervalMs);
      assert history[..k] == Steady(startMs, 0, k - 1, intervalMs);
    }
    assert before + [Reading(startMs + Gap(k, intervalMs), true)] == Steady(startMs, from, k, intervalMs);
    SteadyPush(startMs, from, k, intervalMs);
  }

  lemma {:induction false} AllAbove(window: seq<Reading>)
    requires forall i :: 0 <= i < |window| ==> window[i].above
    ensures AboveCount(window) == |window|
  {
    if window != [] {
      AllAbove(window[1..]);
    }
  }

  /**
   * On a machine that never once dips below its own p95, sampled on the dot every `intervalMs`, the gate opens after
   * a quarter of an hour if and only if the interval divides fifteen minutes; at any other interval it never opens.
   */
  lemma SteadyPressureOpensIff(startMs: int, k: nat, intervalMs: nat)
    requires intervalMs >= 1_000
    ensures Sustained(WindowOver(Steady(startMs, 0, k, intervalMs)), startMs + Gap(k, intervalMs), intervalMs)
            <==> k >= Intervals(intervalMs) && SUSTAINED_P95_MS % intervalMs == 0
  {
    var q, first := Intervals(intervalMs), FirstKept(k, Intervals(intervalMs));
    SteadyWindow(startMs, k, intervalMs);
    var window := WindowOver(Steady(startMs, 0, k, intervalMs));
    AllAbove(window);
    Whole(intervalMs);
    Spacing(first, k, intervalMs);
    assert window[0].atMs == startMs + Gap(first, intervalMs);
    if k < q {
      Spacing(k + 1, q, intervalMs);
      Spacing(k, k + 1, intervalMs);
      assert Gap(1, intervalMs) == intervalMs;
    } else {
      hide WindowOver, Gap;
      assert |window| == q + 1;
      assert |window| as real >= q as real * SUSTAINED_P95_FRACTION;
      assert AboveCount(window) as real >= |window| as real * SUSTAINED_P95_FRACTION;
    }
  }
}
