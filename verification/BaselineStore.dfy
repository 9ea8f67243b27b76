/** The learning clock of the machine baseline, and the capped store of per-executable norms. */
module BaselineStores {
  import opened Models
  import opened Baselines

  // ------------------------------------------------------------ learning clock

  const LEARNING_PERIOD_MS := 24 * 3_600_000
  const MAX_OBSERVED_STEP_MS := 60_000
  const NOMINAL_SAMPLE_INTERVAL_MS := 2_000

  function Min(a: int, b: int): int {
    if a < b then a else b
  }

  /** Observed time, the previous sample of this run if any, and the samples in the occupancy sketch. */
  datatype Clock = Clock(observedMs: int, lastObservedMs: Option<int>, sketched: nat)

  datatype ClockEvent = Sampled(atMs: int) | Restored

  function StepMs(fromMs: int, toMs: int): int {
    Min(Max(toMs - fromMs, 0), MAX_OBSERVED_STEP_MS)
  }

  function Ticked(c: Clock, event: ClockEvent): Clock {
    match event
    case Sampled(atMs) =>
      var observed := if c.lastObservedMs.None? then c.observedMs
                      else Min(c.observedMs + StepMs(c.lastObservedMs.value, atMs), LEARNING_PERIOD_MS);
      Clock(observed, Some(atMs), c.sketched + 1)
    case Restored =>
      var observed := if c.observedMs > 0 then c.observedMs
                      else Min(c.sketched * NOMINAL_SAMPLE_INTERVAL_MS, LEARNING_PERIOD_MS);
      Clock(observed, None, c.sketched)
  }

  class MachineBaseline {
    var observedMs: int
    var lastObservedMs: Option<int>
    var sketched: nat

    function View(): Clock
      reads this
    {
      Clock(observedMs, lastObservedMs, sketched)
    }

    constructor ()
      ensures View() == Clock(0, None, 0)
    {
      observedMs, lastObservedMs, sketched := 0, None, 0;
    }

    method Observe(nowMs: int)
      modifies this
      ensures View() == Ticked(old(View()), Sampled(nowMs))
    {
      if lastObservedMs.Some? {
        var gapMs := Max(nowMs - lastObservedMs.value, 0);
        observedMs := Min(observedMs + Min(gapMs, MAX_OBSERVED_STEP_MS), LEARNING_PERIOD_MS);
      }
      lastObservedMs := Some(nowMs);
      sketched := sketched + 1;
    }

    /** Loading the persisted row: the previous sample is forgotten and an unmeasured row is estimated. */
    method Restore()
      modifies this
      ensures View() == Ticked(old(View()), Restored)
    {
      lastObservedMs := None;
      if observedMs <= 0 {
        observedMs := Min(sketched * NOMINAL_SAMPLE_INTERVAL_MS, LEARNING_PERIOD_MS);
      }
    }
  }

  function ClockAfter(events: seq<ClockEvent>): Clock {
    if events == [] then Clock(0, None, 0) else Ticked(ClockAfter(events[..|events| - 1]), events[|events| - 1])
  }

  /** The capped gaps between consecutive samples, summed. */
  function Credit(times: seq<int>): int {
    if |times| < 2 then 0
    else Credit(times[..|times| - 1]) + StepMs(times[|times| - 2], times[|times| - 1])
  }

  function Samples(times: seq<int>): (events: seq<ClockEvent>)
    ensures |events| == |times|
  {
    seq(|times|, i requires 0 <= i < |times| => Sampled(times[i]))
  }

  /** Within one run, learned time is the sum of the capped gaps, itself capped at one learning period. */
  lemma {:induction false} LearningIsCappedCredit(times: seq<int>)
    requires times != []
    ensures ClockAfter(Samples(times))
            == Clock(Min(Credit(times), LEARNING_PERIOD_MS), Some(times[|times| - 1]), |times|)
    ensures 0 <= Credit(times)
  {
    var n := |times| - 1;
    assert Samples(times)[..n] == Samples(times[..n]);
    if n > 0 {
      LearningIsCappedCredit(times[..n]);
    } else {
      assert Samples(times)[..0] == [];
    }
  }

  function SampleCount(events: seq<ClockEvent>): nat {
    if events == [] then 0
    else SampleCount(events[..|events| - 1]) + if events[|events| - 1].Sampled? then 1 else 0
  }

  /**
   * Over any run with any number of restarts, suspends and clock jumps, no sample is ever worth more than one
   * capped step, and learned time never goes back.
   */
  lemma {:induction false} LearningIsEarnedBySamples(events: seq<ClockEvent>)
    ensures var c := ClockAfter(events);
            c.sketched == SampleCount(events)
            && 0 <= c.observedMs <= Min(LEARNING_PERIOD_MS, MAX_OBSERVED_STEP_MS * SampleCount(events))
    ensures events != [] ==> ClockAfter(events[..|events| - 1]).observedMs <= ClockAfter(events).observedMs
  {
    if events != [] {
      LearningIsEarnedBySamples(events[..|events| - 1]);
    }
  }

  // ------------------------------------------------------------- per-name norms

  const YOUNG_BUCKET_MS := 5 * 60_000
  const WARM_BUCKET_MS := 60 * 60_000
  const NAME_CAP := 200

  datatype AgeBucket = Young | Warm | Mature

  function BucketOf(ageMs: int): AgeBucket {
    if ageMs < YOUNG_BUCKET_MS then Young else if ageMs < WARM_BUCKET_MS then Warm else Mature
  }

  datatype Channel = Cpu | WorkingSet | Handles | Threads

  datatype Metric = Metric(name: string, startedAtMs: int, cpu: real, workingSet: real, handles: real, threads: real) {
    function Value(channel: Channel): real {
      match channel
      case Cpu => cpu
      case WorkingSet => workingSet
      case Handles => handles
      case Threads => threads
    }
  }

  datatype BucketStats = BucketStats(cpu: Stats, workingSet: Stats, handles: Stats, threads: Stats) {
    function Of(channel: Channel): Stats {
      match channel
      case Cpu => cpu
      case WorkingSet => workingSet
      case Handles => handles
      case Threads => threads
    }

    function Observe(m: Metric): BucketStats {
      BucketStats(Baselines.Observe(cpu, m.cpu), Baselines.Observe(workingSet, m.workingSet),
                  Baselines.Observe(handles, m.handles), Baselines.Observe(threads, m.threads))
    }
  }

  const NO_STATS := BucketStats(UNLEARNED, UNLEARNED, UNLEARNED, UNLEARNED)

  datatype NameBaseline = NameBaseline(young: BucketStats, warm: BucketStats, mature: BucketStats, observations: nat) {
    function Bucket(bucket: AgeBucket): BucketStats {
      match bucket
      case Young => young
      case Warm => warm
      case Mature => mature
    }

    function Observe(bucket: AgeBucket, m: Metric): NameBaseline {
      match bucket
      case Young => this.(young := young.Observe(m), observations := observations + 1)
      case Warm => this.(warm := warm.Observe(m), observations := observations + 1)
      case Mature => this.(mature := mature.Observe(m), observations := observations + 1)
    }
  }

  const NEW_NAME := NameBaseline(NO_STATS, NO_STATS, NO_STATS, 0)

  type Names = map<string, NameBaseline>

  /** One process seen at one instant. */
  datatype Sighting = Sighting(metric: Metric, nowMs: int) {
    function Bucket(): AgeBucket {
      BucketOf(Max(nowMs - metric.startedAtMs, 0))
    }
  }

  function Fed(names: Names, s: Sighting): Names {
    var name := s.metric.name;
    names[name := (if name in names then names[name] else NEW_NAME).Observe(s.Bucket(), s.metric)]
  }

  predicate LeastObserved(names: Names, victim: string) {
    victim in names && forall n :: n in names ==> names[victim].observations <= names[n].observations
  }

  /** One observation; which of several least-observed names goes is the hash map's to say. */
  ghost predicate Observed(before: Names, s: Sighting, after: Names) {
    var fed := Fed(before, s);
    if |fed| <= NAME_CAP then after == fed
    else exists victim :: LeastObserved(fed, victim) && after == fed - {victim}
  }

  class BaselineStore {
    var names: Names

    constructor ()
      ensures names == map[]
    {
      names := map[];
    }

    method ObserveProcess(metric: Metric, nowMs: int)
      modifies this
      ensures Observed(old(names), Sighting(metric, nowMs), names)
    {
      var ageMs := Max(nowMs - metric.startedAtMs, 0);
      if metric.name !in names {
        names := names[metric.name := NEW_NAME];
      }
      names := names[metric.name := names[metric.name].Observe(BucketOf(ageMs), metric)];
      assert names == Fed(old(names), Sighting(metric, nowMs));
      if |names| > NAME_CAP {
        EvictLeastObserved();
      }
    }

    method EvictLeastObserved()
      requires names != map[]
      modifies this
      ensures exists victim :: LeastObserved(old(names), victim) && names == old(names) - {victim}
    {
      var victim :| victim in names;
      var waiting := names.Keys - {victim};
      while waiting != {}
        invariant waiting <= names.Keys && victim in names && names == old(names)
        invariant forall n :: n in names && n !in waiting ==> names[victim].observations <= names[n].observations
      {
        var name :| name in waiting;
        if names[name].observations < names[victim].observations {
          victim := name;
        }
        waiting := waiting - {name};
      }
      names := names - {victim};
    }
  }

  lemma FeedingAddsAtMostOne(names: Names, s: Sighting)
    ensures |Fed(names, s)| == if s.metric.name in names then |names| else |names| + 1
  {
    assert Fed(names, s).Keys == names.Keys + {s.metric.name};
    assert |Fed(names, s)| == |Fed(names, s).Keys| && |names| == |names.Keys|;
  }

  lemma EvictionDropsOne(names: Names, victim: string)
    requires victim in names
    ensures |names - {victim}| == |names| - 1
  {
    assert (names - {victim}).Keys == names.Keys - {victim};
    assert |names - {victim}| == |(names - {victim}).Keys|;
  }

  /** A store loaded above the cap may stay there, but an observation never takes it further. */
  lemma CapHolds(before: Names, s: Sighting, after: Names)
    requires Observed(before, s, after)
    ensures |after| <= Max(NAME_CAP, |before|)
  {
    FeedingAddsAtMostOne(before, s);
    var fed := Fed(before, s);
    if |fed| > NAME_CAP {
      var victim :| LeastObserved(fed, victim) && after == fed - {victim};
      EvictionDropsOne(fed, victim);
    }
  }

  /** Whether a name the store has never seen can stay after its first observation. */
  predicate HasRoom(names: Names) {
    |names| < NAME_CAP || exists n :: n in names && names[n].observations <= 1
  }

  /**
   * A newcomer can survive its own first observation exactly when there is room for it or some kept name has been
   * seen at most once; otherwise the store is left untouched.
   */
  lemma NewcomerStaysIffRoom(before: Names, s: Sighting)
    requires s.metric.name !in before
    ensures HasRoom(before) <==> exists after :: Observed(before, s, after) && s.metric.name in after
    ensures !HasRoom(before) ==> forall after :: Observed(before, s, after) ==> after == before
  {
    FeedingAddsAtMostOne(before, s);
    var fed := Fed(before, s);
    if |before| < NAME_CAP {
      assert Observed(before, s, fed);
    } else if HasRoom(before) {
      var rare := RarestOf(before);
      assert LeastObserved(fed, rare);
      assert Observed(before, s, fed - {rare});
    } else {
      forall after | Observed(before, s, after)
        ensures after == before
      {
        var victim :| LeastObserved(fed, victim) && after == fed - {victim};
        assert fed[s.metric.name].observations == 1;
        assert victim == s.metric.name;
        assert after == before;
      }
    }
  }

  lemma RarestOf(names: Names) returns (rare: string)
    requires exists n :: n in names && names[n].observations <= 1
    ensures rare in names && names[rare].observations <= 1
    ensures forall n :: n in names ==> names[rare].observations <= names[n].observations
  {
    if n :| n in names && names[n].observations == 0 {
      rare := n;
    } else {
      rare :| rare in names && names[rare].observations <= 1;
    }
  }

  ghost predicate IsStoreRun(states: seq<Names>, seen: seq<Sighting>) {
    && |states| == |seen| + 1
    && forall i :: 0 <= i < |seen| ==> Observed(states[i], seen[i], states[i + 1])
  }

  predicate FullHouse(names: Names) {
    |names| == NAME_CAP && forall n :: n in names ==> names[n].observations >= 2
  }

  /**
   * Once the store is full of names seen twice, it is closed for good: however often anything else is seen, the same
   * names stay. "Most observed" is therefore only ever judged among the first comers.
   */
  lemma {:induction false} FullHouseIsClosed(states: seq<Names>, seen: seq<Sighting>, i: nat)
    requires IsStoreRun(states, seen) && FullHouse(states[0]) && i < |states|
    ensures FullHouse(states[i]) && states[i].Keys == states[0].Keys
    decreases i
  {
    if i > 0 {
      FullHouseIsClosed(states, seen, i - 1);
      var before, s, after := states[i - 1], seen[i - 1], states[i];
      assert Observed(before, s, after);
      FeedingAddsAtMostOne(before, s);
      if s.metric.name in before {
        assert after == Fed(before, s);
        assert after.Keys == before.Keys;
      } else {
        NewcomerStaysIffRoom(before, s);
      }
    }
  }

  // ---------------------------------------------- the store against the history

  /** What one channel of one age bucket of one name was shown. */
  function Shown(seen: seq<Sighting>, name: string, bucket: AgeBucket, channel: Channel): seq<real> {
    if seen == [] then []
    else
      var last := seen[|seen| - 1];
      Shown(seen[..|seen| - 1], name, bucket, channel)
      + if last.metric.name == name && last.Bucket() == bucket then [last.metric.Value(channel)] else []
  }

  function NamesIn(seen: seq<Sighting>): set<string> {
    set s | s in seen :: s.metric.name
  }

  function StatsOf(names: Names, name: string, bucket: AgeBucket, channel: Channel): Stats {
    (if name in names then names[name] else NEW_NAME).Bucket(bucket).Of(channel)
  }

  lemma FedStats(names: Names, s: Sighting, name: string, bucket: AgeBucket, channel: Channel)
    ensures StatsOf(Fed(names, s), name, bucket, channel)
            == if name == s.metric.name && bucket == s.Bucket()
               then Observe(StatsOf(names, name, bucket, channel), s.metric.Value(channel))
               else StatsOf(names, name, bucket, channel)
  {
  }

  /** One more sighting appends to the one history it belongs to. */
  lemma ShownGrows(seen: seq<Sighting>, s: Sighting, name: string, bucket: AgeBucket, channel: Channel)
    ensures Learned(Shown(seen + [s], name, bucket, channel))
            == if name == s.metric.name && bucket == s.Bucket()
               then Observe(Learned(Shown(seen, name, bucket, channel)), s.metric.Value(channel))
               else Learned(Shown(seen, name, bucket, channel))
  {
    hide Observe;
    assert (seen + [s])[..|seen|] == seen;
    var shown := Shown(seen, name, bucket, channel);
    assert (shown + [s.metric.Value(channel)])[..|shown|] == shown;
    assert shown + [] == shown;
  }

  lemma NamesGrow(seen: seq<Sighting>, s: Sighting)
    ensures NamesIn(seen + [s]) == NamesIn(seen) + {s.metric.name}
    ensures |NamesIn(seen)| <= |NamesIn(seen + [s])|
  {
    var grown := NamesIn(seen) + {s.metric.name};
    assert NamesIn(seen + [s]) == grown;
    if s.metric.name in NamesIn(seen) {
      assert grown == NamesIn(seen);
    }
  }

  /** An observation that finds the store uncrowded evicts nothing. */
  lemma UncrowdedObservation(before: Names, s: Sighting, after: Names)
    requires Observed(before, s, after) && |before.Keys + {s.metric.name}| <= NAME_CAP
    ensures after == Fed(before, s) && after.Keys == before.Keys + {s.metric.name}
  {
    assert Fed(before, s).Keys == before.Keys + {s.metric.name};
    assert |Fed(before, s)| == |Fed(before, s).Keys|;
  }

  /**
   * While no more names have been seen than fit, every channel of every age bucket of every name holds exactly the
   * running stats of what that name showed at that age, whatever else was interleaved with it.
   */
  lemma {:induction false} NormsAreTheirHistories(states: seq<Names>, seen: seq<Sighting>, i: nat,
                                                  name: string, bucket: AgeBucket, channel: Channel)
    requires IsStoreRun(states, seen) && states[0] == map[] && i < |states| && |NamesIn(seen[..i])| <= NAME_CAP
    ensures states[i].Keys == NamesIn(seen[..i])
    ensures StatsOf(states[i], name, bucket, channel) == Learned(Shown(seen[..i], name, bucket, channel))
    decreases i
  {
    hide Learned, Fed, Observed;
    if i > 0 {
      var s := seen[i - 1];
      hide StatsOf, Shown, NamesIn;
      assert seen[..i] == seen[..i - 1] + [s];
      NamesGrow(seen[..i - 1], s);
      NormsAreTheirHistories(states, seen, i - 1, name, bucket, channel);
      UncrowdedObservation(states[i - 1], s, states[i]);
      FedStats(states[i - 1], s, name, bucket, channel);
      ShownGrows(seen[..i - 1], s, name, bucket, channel);
    } else {
      NothingShown(seen, name, bucket, channel);
    }
  }

  lemma NothingShown(seen: seq<Sighting>, name: string, bucket: AgeBucket, channel: Channel)
    ensures NamesIn(seen[..0]) == {}
    ensures StatsOf(map[], name, bucket, channel) == Learned(Shown(seen[..0], name, bucket, channel))
  {
  }
}
