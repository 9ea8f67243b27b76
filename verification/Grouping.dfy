/** Grouping recorded launches by executable and launcher chain, and ranking the groups by recent activity. */
module Grouping {
  import opened Models
  import opened Launches

  const TRAILING_24H_MS := 24 * 60 * 60 * 1000

  datatype GroupKey = GroupKey(exePath: string, lineageSig: string)

  datatype Group = Group(key: GroupKey, exeName: string, launcherSummary: string, count: nat, firstMs: int, lastMs: int,
                         medianIntervalMs: Option<int>, meanDurationMs: Option<int>, maxDurationMs: Option<int>,
                         windowed: nat, neverWindowed: nat, unobserved: nat, running: nat, consoleHost: bool)

  /** The lowercase launcher names, nearest first; `lower` is the Unicode lowercasing. */
  function LineageSig(lower: string -> string, lineage: seq<LineageEntry>): string {
    if lineage == [] then []
    else if |lineage| == 1 then lower(lineage[0].name)
    else lower(lineage[0].name) + "<" + LineageSig(lower, lineage[1..])
  }

  function KeyOf(lower: string -> string, e: LaunchRow): GroupKey {
    GroupKey(e.props.image.exePath, LineageSig(lower, e.lineage))
  }

  // -------------------------------------------------------------------- buckets

  function Bucket(lower: string -> string, events: seq<LaunchRow>, key: GroupKey): seq<LaunchRow> {
    if events == [] then []
    else
      var last := events[|events| - 1];
      Bucket(lower, events[..|events| - 1], key) + if KeyOf(lower, last) == key then [last] else []
  }

  function Keys(lower: string -> string, events: seq<LaunchRow>): set<GroupKey> {
    set e | e in events :: KeyOf(lower, e)
  }

  type Buckets = map<GroupKey, seq<LaunchRow>>

  ghost predicate AreBuckets(lower: string -> string, events: seq<LaunchRow>, buckets: Buckets) {
    buckets.Keys == Keys(lower, events) && forall k :: k in buckets ==> buckets[k] == Bucket(lower, events, k)
  }

  lemma {:induction false} EmptyIffAbsent(lower: string -> string, events: seq<LaunchRow>, key: GroupKey)
    ensures Bucket(lower, events, key) == [] <==> key !in Keys(lower, events)
    ensures forall e :: e in Bucket(lower, events, key) ==> e in events && KeyOf(lower, e) == key
  {
    if events != [] {
      var n := |events| - 1;
      EmptyIffAbsent(lower, events[..n], key);
      assert events == events[..n] + [events[n]];
    }
  }

  lemma OneMoreBucketed(lower: string -> string, events: seq<LaunchRow>, e: LaunchRow, buckets: Buckets)
    requires AreBuckets(lower, events, buckets)
    ensures var key := KeyOf(lower, e);
            AreBuckets(lower, events + [e], buckets[key := (if key in buckets then buckets[key] else []) + [e]])
  {
    hide KeyOf;
    var key := KeyOf(lower, e);
    EmptyIffAbsent(lower, events, key);
    var grown := buckets[key := (if key in buckets then buckets[key] else []) + [e]];
    assert (events + [e])[..|events|] == events;
    assert Keys(lower, events + [e]) == Keys(lower, events) + {key};
    forall k | k in grown
      ensures grown[k] == Bucket(lower, events + [e], k)
    {
      assert Bucket(lower, events, k) + [] == Bucket(lower, events, k);
    }
  }

  method FillBuckets(lower: string -> string, events: seq<LaunchRow>) returns (buckets: Buckets)
    ensures AreBuckets(lower, events, buckets)
  {
    buckets := map[];
    assert events[..0] == [] && AreBuckets(lower, [], buckets);
    hide AreBuckets, KeyOf;
    for i := 0 to |events|
      invariant AreBuckets(lower, events[..i], buckets)
    {
      var key := KeyOf(lower, events[i]);
      OneMoreBucketed(lower, events[..i], events[i], buckets);
      assert events[..i + 1] == events[..i] + [events[i]];
      buckets := buckets[key := (if key in buckets then buckets[key] else []) + [events[i]]];
    }
    assert events[..|events|] == events;
  }

  function SizeOfAll(lower: string -> string, events: seq<LaunchRow>, keys: seq<GroupKey>): nat {
    if keys == [] then 0 else |Bucket(lower, events, keys[0])| + SizeOfAll(lower, events, keys[1..])
  }

  lemma {:induction false} OneMoreEvent(lower: string -> string, events: seq<LaunchRow>, e: LaunchRow,
                                        keys: seq<GroupKey>)
    requires forall i, j :: 0 <= i < j < |keys| ==> keys[i] != keys[j]
    ensures SizeOfAll(lower, events + [e], keys)
            == SizeOfAll(lower, events, keys) + if KeyOf(lower, e) in keys then 1 else 0
  {
    if keys != [] {
      assert (events + [e])[..|events|] == events;
      OneMoreEvent(lower, events, e, keys[1..]);
      assert keys == [keys[0]] + keys[1..];
    }
  }

  /** Every launch is counted in exactly one group. */
  lemma {:induction false} BucketsPartition(lower: string -> string, events: seq<LaunchRow>, keys: seq<GroupKey>)
    requires forall i, j :: 0 <= i < j < |keys| ==> keys[i] != keys[j]
    requires forall k :: k in Keys(lower, events) ==> k in keys
    ensures SizeOfAll(lower, events, keys) == |events|
  {
    if events == [] {
      NoEvents(lower, keys);
    } else {
      var n := |events| - 1;
      assert events == events[..n] + [events[n]];
      BucketsPartition(lower, events[..n], keys);
      OneMoreEvent(lower, events[..n], events[n], keys);
    }
  }

  lemma {:induction false} NoEvents(lower: string -> string, keys: seq<GroupKey>)
    ensures SizeOfAll(lower, [], keys) == 0
  {
    if keys != [] {
      NoEvents(lower, keys[1..]);
    }
  }

  // ---------------------------------------------------------------- one group

  function Insert(x: int, xs: seq<int>): (r: seq<int>) {
    if xs == [] || x <= xs[0] then [x] + xs else [xs[0]] + Insert(x, xs[1..])
  }

  function Sorted(xs: seq<int>): seq<int> {
    if xs == [] then [] else Insert(xs[0], Sorted(xs[1..]))
  }

  predicate Ascending(xs: seq<int>) {
    forall i, j :: 0 <= i < j < |xs| ==> xs[i] <= xs[j]
  }

  lemma {:induction false} InsertAddsOne(x: int, xs: seq<int>)
    ensures multiset(Insert(x, xs)) == multiset{x} + multiset(xs)
    ensures forall y :: y in Insert(x, xs) ==> y == x || y in xs
  {
    if xs == [] || x <= xs[0] {
      assert multiset([x] + xs) == multiset{x} + multiset(xs);
    } else {
      InsertAddsOne(x, xs[1..]);
      assert xs == [xs[0]] + xs[1..];
    }
  }

  lemma {:induction false} InsertKeepsOrder(x: int, xs: seq<int>)
    requires Ascending(xs)
    ensures Ascending(Insert(x, xs))
  {
    if xs != [] && xs[0] < x {
      InsertKeepsOrder(x, xs[1..]);
      InsertAddsOne(x, xs[1..]);
      var rest := Insert(x, xs[1..]);
      forall i | 0 <= i < |rest|
        ensures xs[0] <= rest[i]
      {
        assert rest[i] in rest;
      }
      assert Insert(x, xs) == [xs[0]] + rest;
    }
  }

  lemma {:induction false} SortedIsSorted(xs: seq<int>)
    ensures Ascending(Sorted(xs)) && multiset(Sorted(xs)) == multiset(xs)
    ensures |Sorted(xs)| == |xs|
  {
    if xs != [] {
      SortedIsSorted(xs[1..]);
      InsertKeepsOrder(xs[0], Sorted(xs[1..]));
      InsertAddsOne(xs[0], Sorted(xs[1..]));
      assert xs == [xs[0]] + xs[1..];
    }
    assert |multiset(Sorted(xs))| == |multiset(xs)|;
  }

  function Gaps(starts: seq<int>): (r: seq<int>)
    ensures |r| == if |starts| < 2 then 0 else |starts| - 1
  {
    if |starts| < 2 then [] else [starts[1] - starts[0]] + Gaps(starts[1..])
  }

  /** The middle gap, or the average of the middle two with a half rounded up. */
  function MedianOfSorted(sorted: seq<int>): int
    requires sorted != []
  {
    var n := |sorted|;
    if n % 2 == 1 then sorted[n / 2]
    else
      var sum := sorted[n / 2 - 1] + sorted[n / 2];
      sum / 2 + sum % 2
  }

  function MedianInterval(starts: seq<int>): Option<int> {
    if |starts| < 2 then None
    else
      SortedIsSorted(starts);
      SortedIsSorted(Gaps(Sorted(starts)));
      Some(MedianOfSorted(Sorted(Gaps(Sorted(starts)))))
  }

  lemma {:induction false} GapsOfAscending(starts: seq<int>)
    requires Ascending(starts)
    ensures forall g :: g in Gaps(starts) ==> 0 <= g <= starts[|starts| - 1] - starts[0]
  {
    if |starts| >= 2 {
      GapsOfAscending(starts[1..]);
    }
  }

  predicate SplitBy(sorted: seq<int>, m: int) {
    && (forall i :: 0 <= i < |sorted| && 2 * i < |sorted| ==> sorted[i] <= m)
    && (forall i :: 0 <= i < |sorted| && 2 * i >= |sorted| ==> m <= sorted[i])
  }

  lemma MiddleSplits(sorted: seq<int>)
    requires sorted != [] && Ascending(sorted) && 0 <= sorted[0]
    ensures sorted[0] <= MedianOfSorted(sorted) <= sorted[|sorted| - 1]
    ensures SplitBy(sorted, MedianOfSorted(sorted))
  {
    var n := |sorted|;
    var h := n / 2;
    var m := MedianOfSorted(sorted);
    if n % 2 == 1 {
      assert m == sorted[h];
    } else {
      assert sorted[0] <= sorted[h - 1] <= m <= sorted[h] by {
        assert sorted[h - 1] <= sorted[h];
      }
    }
    forall i | 0 <= i < n && 2 * i < n
      ensures sorted[i] <= m
    {
      assert n % 2 == 0 ==> i <= h - 1;
      assert i <= h;
    }
    forall i | 0 <= i < n && 2 * i >= n
      ensures m <= sorted[i]
    {
      assert i >= h;
    }
  }

  /** A median interval is never negative, and splits the gaps: the lower half lie at or below it, the rest above. */
  lemma MedianSplits(starts: seq<int>)
    requires |starts| >= 2
    ensures var gaps := Sorted(Gaps(Sorted(starts)));
            |gaps| == |starts| - 1 && 0 <= MedianInterval(starts).value && SplitBy(gaps, MedianInterval(starts).value)
  {
    hide SplitBy, MedianOfSorted;
    SortedIsSorted(starts);
    var ascending := Sorted(starts);
    GapsOfAscending(ascending);
    SortedIsSorted(Gaps(ascending));
    var gaps := Sorted(Gaps(ascending));
    hide Sorted, Gaps;
    assert gaps[0] in multiset(gaps) && gaps[0] in multiset(Gaps(ascending));
    assert gaps[0] in Gaps(ascending);
    MiddleSplits(gaps);
  }

  function Starts(bucket: seq<LaunchRow>): (r: seq<int>)
    ensures |r| == |bucket|
  {
    seq(|bucket|, i requires 0 <= i < |bucket| => bucket[i].props.createMs)
  }

  function Durations(bucket: seq<LaunchRow>): seq<int> {
    if bucket == [] then []
    else
      var last := bucket[|bucket| - 1];
      Durations(bucket[..|bucket| - 1]) + if last.stop.Some? then [last.stop.value.atMs - last.props.createMs] else []
  }

  function CountIn(bucket: seq<LaunchRow>, state: WindowState): nat {
    if bucket == [] then 0
    else CountIn(bucket[..|bucket| - 1], state) + if bucket[|bucket| - 1].window == state then 1 else 0
  }

  function Lowest(xs: seq<int>): int
    requires xs != []
  {
    if |xs| == 1 then xs[0]
    else
      var low := Lowest(xs[..|xs| - 1]);
      if xs[|xs| - 1] < low then xs[|xs| - 1] else low
  }

  function Highest(xs: seq<int>): int
    requires xs != []
  {
    if |xs| == 1 then xs[0] else Models.Max(xs[|xs| - 1], Highest(xs[..|xs| - 1]))
  }

  lemma {:induction false} ExtremesAreReached(xs: seq<int>)
    requires xs != []
    ensures Lowest(xs) in xs && Highest(xs) in xs && forall x :: x in xs ==> Lowest(xs) <= x <= Highest(xs)
  {
    if |xs| > 1 {
      ExtremesAreReached(xs[..|xs| - 1]);
      assert xs == xs[..|xs| - 1] + [xs[|xs| - 1]];
    }
  }

  function Sum(xs: seq<int>): int {
    if xs == [] then 0 else Sum(xs[..|xs| - 1]) + xs[|xs| - 1]
  }

  /** Division that drops the fraction towards zero. */
  function Truncated(a: int, b: nat): int
    requires b > 0
  {
    if a >= 0 then a / b else -((-a) / b)
  }

  function GroupOf(lower: string -> string, bucket: seq<LaunchRow>): Group
    requires bucket != []
  {
    var first, starts, durations := bucket[0], Starts(bucket), Durations(bucket);
    Group(KeyOf(lower, first), first.props.image.exeName,
          if first.lineage == [] then UNKNOWN else first.lineage[0].name,
          |bucket|, Lowest(starts), Highest(starts), MedianInterval(starts),
          if durations == [] then None else Some(Truncated(Sum(durations), |durations|)),
          if durations == [] then None else Some(Highest(durations)),
          CountIn(bucket, Windowed), CountIn(bucket, NeverWindowed), CountIn(bucket, Unobserved),
          CountIn(bucket, Launches.Running), first.props.image.consoleHost)
  }

  lemma {:induction false} StatesAddUp(bucket: seq<LaunchRow>)
    ensures CountIn(bucket, Windowed) + CountIn(bucket, NeverWindowed) + CountIn(bucket, Unobserved)
            + CountIn(bucket, Launches.Running) == |bucket|
  {
    if bucket != [] {
      StatesAddUp(bucket[..|bucket| - 1]);
    }
  }

  lemma {:induction false} SumWithin(xs: seq<int>, high: int)
    requires forall x :: x in xs ==> 0 <= x <= high
    ensures 0 <= Sum(xs) <= high * |xs|
  {
    if xs != [] {
      var prefix, last := xs[..|xs| - 1], xs[|xs| - 1];
      assert xs == prefix + [last] && last in xs;
      assert forall x :: x in prefix ==> x in xs;
      SumWithin(prefix, high);
      assert high * |xs| == high * |prefix| + high;
    }
  }

  lemma MeanIsBelowTheLongest(durations: seq<int>)
    requires durations != [] && forall d :: d in durations ==> d >= 0
    ensures 0 <= Truncated(Sum(durations), |durations|) <= Highest(durations)
  {
    ExtremesAreReached(durations);
    SumWithin(durations, Highest(durations));
    hide Sum, Highest, Truncated;
    TruncatedBelow(Sum(durations), Highest(durations), |durations|);
  }

  lemma TruncatedBelow(sum: nat, high: int, n: nat)
    requires n > 0 && sum <= high * n
    ensures 0 <= Truncated(sum, n) <= high
  {
  }

  /**
   * What a group reports is about its launches: the first and last starts are starts of its own and bound all the
   * others, and for durations that are not negative the mean never exceeds the longest.
   */
  lemma GroupDescribesItsBucket(lower: string -> string, bucket: seq<LaunchRow>)
    requires bucket != []
    ensures var g := GroupOf(lower, bucket);
            && g.firstMs in Starts(bucket) && g.lastMs in Starts(bucket)
            && (forall t :: t in Starts(bucket) ==> g.firstMs <= t <= g.lastMs)
            && (g.meanDurationMs.Some? <==> exists e :: e in bucket && e.stop.Some?)
            && (g.meanDurationMs.Some? && (forall d :: d in Durations(bucket) ==> d >= 0) ==>
                  0 <= g.meanDurationMs.value <= g.maxDurationMs.value)
  {
    ExtremesAreReached(Starts(bucket));
    StoppedHaveDurations(bucket);
    hide MedianInterval, CountIn, KeyOf, Starts, Durations, Lowest, Highest, Sum, Truncated;
    var durations := Durations(bucket);
    if durations != [] && forall d :: d in durations ==> d >= 0 {
      MeanIsBelowTheLongest(durations);
    }
  }

  lemma {:induction false} StoppedHaveDurations(bucket: seq<LaunchRow>)
    ensures Durations(bucket) != [] <==> exists e :: e in bucket && e.stop.Some?
  {
    if bucket != [] {
      assert bucket == bucket[..|bucket| - 1] + [bucket[|bucket| - 1]];
      StoppedHaveDurations(bucket[..|bucket| - 1]);
    }
  }

  method BuildGroup(lower: string -> string, bucket: seq<LaunchRow>) returns (group: Group)
    requires bucket != []
    ensures group == GroupOf(lower, bucket)
    ensures group.windowed + group.neverWindowed + group.unobserved + group.running == group.count == |bucket|
  {
    var windowed, neverWindowed, unobserved, running := 0, 0, 0, 0;
    var starts, durations: seq<int> := [], [];
    for i := 0 to |bucket|
      invariant starts == Starts(bucket[..i]) && durations == Durations(bucket[..i])
      invariant windowed == CountIn(bucket[..i], Windowed) && neverWindowed == CountIn(bucket[..i], NeverWindowed)
      invariant unobserved == CountIn(bucket[..i], Unobserved) && running == CountIn(bucket[..i], Launches.Running)
    {
      var e := bucket[i];
      assert bucket[..i + 1][..i] == bucket[..i] && bucket[..i + 1][i] == e;
      starts := starts + [e.props.createMs];
      if e.stop.Some? {
        durations := durations + [e.stop.value.atMs - e.props.createMs];
      }
      match e.window {
        case Windowed => windowed := windowed + 1;
        case NeverWindowed => neverWindowed := neverWindowed + 1;
        case Unobserved => unobserved := unobserved + 1;
        case Running => running := running + 1;
      }
    }
    assert bucket[..|bucket|] == bucket;
    StatesAddUp(bucket);
    hide CountIn, Starts, Durations, MedianInterval, Sum, Highest, Lowest;
    var first := bucket[0];
    group := Group(KeyOf(lower, first), first.props.image.exeName,
                   if first.lineage == [] then UNKNOWN else first.lineage[0].name, |bucket|,
                   Lowest(starts), Highest(starts), MedianInterval(starts),
                   if durations == [] then None else Some(Truncated(Sum(durations), |durations|)),
                   if durations == [] then None else Some(Highest(durations)),
                   windowed, neverWindowed, unobserved, running, first.props.image.consoleHost);
  }

  // -------------------------------------------------------------------- ranking

  /** Strings in the order of their characters. */
  predicate Less(a: string, b: string) {
    b != [] && (a == [] || a[0] < b[0] || (a[0] == b[0] && Less(a[1..], b[1..])))
  }

  lemma {:induction false} LessIsTotal(a: string, b: string)
    ensures Less(a, b) || Less(b, a) || a == b
    ensures !(Less(a, b) && Less(b, a)) && !Less(a, a)
  {
    if a != [] {
      LessIsTotal(a[1..], a[1..]);
      if b != [] && a[0] == b[0] {
        LessIsTotal(a[1..], b[1..]);
        assert a == [a[0]] + a[1..] && b == [b[0]] + b[1..];
      }
    }
  }

  lemma {:induction false} LessIsTransitive(a: string, b: string, c: string)
    requires Less(a, b) && Less(b, c)
    ensures Less(a, c)
  {
    if a != [] && a[0] == b[0] == c[0] {
      LessIsTransitive(a[1..], b[1..], c[1..]);
    }
  }

  datatype Scored = Scored(recent: nat, group: Group)

  /** More launches in the last day first, then the later last launch, then the path, then the launcher chain. */
  predicate Before(a: Scored, b: Scored) {
    if a.recent != b.recent then a.recent > b.recent
    else if a.group.lastMs != b.group.lastMs then a.group.lastMs > b.group.lastMs
    else if a.group.key.exePath != b.group.key.exePath then Less(a.group.key.exePath, b.group.key.exePath)
    else Less(a.group.key.lineageSig, b.group.key.lineageSig)
  }

  lemma BeforeIsTotal(a: Scored, b: Scored)
    ensures a.group.key != b.group.key ==> Before(a, b) || Before(b, a)
    ensures !(Before(a, b) && Before(b, a)) && !Before(a, a)
  {
    LessIsTotal(a.group.key.exePath, b.group.key.exePath);
    LessIsTotal(a.group.key.lineageSig, b.group.key.lineageSig);
    LessIsTotal(a.group.key.lineageSig, a.group.key.lineageSig);
  }

  lemma BeforeIsTransitive(a: Scored, b: Scored, c: Scored)
    requires Before(a, b) && Before(b, c)
    ensures Before(a, c)
  {
    var (x, y, z) := (a.group.key, b.group.key, c.group.key);
    if Less(x.exePath, y.exePath) && Less(y.exePath, z.exePath) {
      LessIsTransitive(x.exePath, y.exePath, z.exePath);
      LessIsTotal(x.exePath, x.exePath);
    }
    if Less(x.lineageSig, y.lineageSig) && Less(y.lineageSig, z.lineageSig) {
      LessIsTransitive(x.lineageSig, y.lineageSig, z.lineageSig);
    }
  }

  predicate OneGroupPerKey(all: set<Scored>) {
    forall a, b :: a in all && b in all && a.group.key == b.group.key ==> a == b
  }

  /** The best of the scored groups, in order, as many as fit the limit. */
  ghost predicate Ranked(all: set<Scored>, limit: nat, out: seq<Scored>) {
    && |out| == (if limit < |all| then limit else |all|)
    && (forall a :: a in out ==> a in all)
    && (forall i, j :: 0 <= i < j < |out| ==> Before(out[i], out[j]))
    && (forall a, b :: a in out && b in all && b !in out ==> Before(a, b))
  }

  method Best(all: set<Scored>) returns (best: Scored)
    requires all != {} && OneGroupPerKey(all)
    ensures best in all && forall b :: b in all && b != best ==> Before(best, b)
  {
    best :| best in all;
    var waiting := all - {best};
    while waiting != {}
      invariant waiting <= all && best in all && best !in waiting
      invariant forall b :: b in all && b !in waiting && b != best ==> Before(best, b)
    {
      var next :| next in waiting;
      waiting := waiting - {next};
      BeforeIsTotal(best, next);
      if Before(next, best) {
        forall b | b in all && b !in waiting && b != next && b != best
          ensures Before(next, b)
        {
          BeforeIsTransitive(next, best, b);
        }
        best := next;
      }
    }
  }

  method Rank(all: set<Scored>, limit: nat) returns (out: seq<Scored>)
    requires OneGroupPerKey(all)
    ensures Ranked(all, limit, out)
  {
    hide Before;
    out := [];
    var rest := all;
    while rest != {} && |out| < limit
      invariant rest <= all && |out| <= limit && |rest| + |out| == |all|
      invariant forall a :: a in all <==> a in out || a in rest
      invariant forall a :: a in out ==> a !in rest
      invariant forall i, j :: 0 <= i < j < |out| ==> Before(out[i], out[j])
      invariant forall a, b :: a in out && b in rest ==> Before(a, b)
      decreases rest
    {
      var best := Best(rest);
      out := out + [best];
      rest := rest - {best};
    }
  }

  /** Whatever order the groups are visited in, there is only one ranking. */
  lemma {:induction false} RankingIsUnique(all: set<Scored>, limit: nat, a: seq<Scored>, b: seq<Scored>)
    requires OneGroupPerKey(all) && Ranked(all, limit, a) && Ranked(all, limit, b)
    ensures a == b
    decreases |a|
  {
    hide Before;
    if a != [] {
      SameFirst(all, limit, a, b);
      RankedRest(all, limit, a);
      RankedRest(all, limit, b);
      RankingIsUnique(all - {a[0]}, limit - 1, a[1..], b[1..]);
      assert a == [a[0]] + a[1..] && b == [b[0]] + b[1..];
    }
  }

  lemma SameFirst(all: set<Scored>, limit: nat, a: seq<Scored>, b: seq<Scored>)
    requires Ranked(all, limit, a) && Ranked(all, limit, b) && a != []
    ensures b != [] && a[0] == b[0]
  {
    hide Before;
    BeforeIsTotal(a[0], b[0]);
    FirstIsBest(all, limit, a, b[0]);
    FirstIsBest(all, limit, b, a[0]);
  }

  lemma FirstIsBest(all: set<Scored>, limit: nat, out: seq<Scored>, x: Scored)
    requires Ranked(all, limit, out) && out != [] && x in all
    ensures x == out[0] || Before(out[0], x)
  {
    if x in out {
      var i :| 0 <= i < |out| && out[i] == x;
    }
  }

  lemma RankedRest(all: set<Scored>, limit: nat, out: seq<Scored>)
    requires Ranked(all, limit, out) && out != []
    ensures limit > 0 && Ranked(all - {out[0]}, limit - 1, out[1..])
  {
    hide Before;
    var rest := all - {out[0]};
    forall a | a in out[1..]
      ensures a in rest
    {
      var i :| 0 <= i < |out[1..]| && out[1..][i] == a;
      BeforeIsTotal(out[0], out[0]);
      assert Before(out[0], out[i + 1]);
    }
    assert out == [out[0]] + out[1..];
    assert all == rest + {out[0]} && |all| == |rest| + 1;
  }

  // ----------------------------------------------------------------- the query

  function Newest(events: seq<LaunchRow>): int {
    if events == [] then 0 else Highest(Starts(events))
  }

  function RecentCount(bucket: seq<LaunchRow>, newest: int): nat {
    |set i | 0 <= i < |bucket| && newest - TRAILING_24H_MS <= bucket[i].props.createMs <= newest|
  }

  function ScoreOf(lower: string -> string, events: seq<LaunchRow>, key: GroupKey): Scored
    requires key in Keys(lower, events)
  {
    EmptyIffAbsent(lower, events, key);
    var bucket := Bucket(lower, events, key);
    Scored(RecentCount(bucket, Newest(events)), GroupOf(lower, bucket))
  }

  function CandidatesAmong(lower: string -> string, events: seq<LaunchRow>, consoleHostsOnly: bool, keys: set<GroupKey>)
    : set<Scored>
    requires keys <= Keys(lower, events)
  {
    set k | k in keys && (consoleHostsOnly ==> ScoreOf(lower, events, k).group.consoleHost) :: ScoreOf(lower, events, k)
  }

  function Candidates(lower: string -> string, events: seq<LaunchRow>, consoleHostsOnly: bool): set<Scored> {
    CandidatesAmong(lower, events, consoleHostsOnly, Keys(lower, events))
  }

  lemma OneMoreCandidate(lower: string -> string, events: seq<LaunchRow>, consoleHostsOnly: bool, keys: set<GroupKey>,
                         key: GroupKey)
    requires keys <= Keys(lower, events) && key in Keys(lower, events)
    ensures var score := ScoreOf(lower, events, key);
            CandidatesAmong(lower, events, consoleHostsOnly, keys + {key})
            == CandidatesAmong(lower, events, consoleHostsOnly, keys)
               + (if consoleHostsOnly ==> score.group.consoleHost then {score} else {})
  {
    hide Keys, ScoreOf;
  }

  lemma ScoredUnderItsKey(lower: string -> string, events: seq<LaunchRow>, key: GroupKey)
    requires key in Keys(lower, events)
    ensures ScoreOf(lower, events, key).group.key == key
  {
    EmptyIffAbsent(lower, events, key);
    var bucket := Bucket(lower, events, key);
    assert bucket[0] in bucket;
  }

  lemma CandidatesHaveTheirOwnKeys(lower: string -> string, events: seq<LaunchRow>, consoleHostsOnly: bool)
    ensures OneGroupPerKey(Candidates(lower, events, consoleHostsOnly))
  {
    forall k | k in Keys(lower, events)
      ensures ScoreOf(lower, events, k).group.key == k
    {
      ScoredUnderItsKey(lower, events, k);
    }
    hide ScoreOf, Keys;
  }

  function Unscored(ranked: seq<Scored>): seq<Group> {
    seq(|ranked|, i requires 0 <= i < |ranked| => ranked[i].group)
  }

  ghost predicate Answers(lower: string -> string, events: seq<LaunchRow>, consoleHostsOnly: bool, limit: nat,
                          groups: seq<Group>)
  {
    exists ranked :: Ranked(Candidates(lower, events, consoleHostsOnly), limit, ranked) && groups == Unscored(ranked)
  }

  method GroupLaunches(lower: string -> string, events: seq<LaunchRow>, consoleHostsOnly: bool, limit: nat)
    returns (groups: seq<Group>)
    ensures Answers(lower, events, consoleHostsOnly, limit, groups)
  {
    hide Ranked, CandidatesAmong, AreBuckets, Newest;
    var buckets := FillBuckets(lower, events);
    BucketKeys(lower, events, buckets);
    var newest := Newest(events);
    var scored: set<Scored> := {};
    var waiting := buckets.Keys;
    ghost var done: set<GroupKey> := {};
    NoCandidates(lower, events, consoleHostsOnly);
    hide Keys, KeyOf, ScoreOf;
    while waiting != {}
      invariant done + waiting == buckets.Keys && done !! waiting
      invariant scored == CandidatesAmong(lower, events, consoleHostsOnly, done)
    {
      var key :| key in waiting;
      var score := ScoreGroup(lower, events, buckets, newest, key);
      OneMoreCandidate(lower, events, consoleHostsOnly, done, key);
      if !consoleHostsOnly || score.group.consoleHost {
        scored := scored + {score};
      }
      waiting := waiting - {key};
      done := done + {key};
    }
    assert done == Keys(lower, events);
    CandidatesHaveTheirOwnKeys(lower, events, consoleHostsOnly);
    var ranked := Rank(scored, limit);
    groups := Unscored(ranked);
  }

  lemma BucketKeys(lower: string -> string, events: seq<LaunchRow>, buckets: Buckets)
    requires AreBuckets(lower, events, buckets)
    ensures buckets.Keys == Keys(lower, events)
  {
  }

  lemma NoCandidates(lower: string -> string, events: seq<LaunchRow>, consoleHostsOnly: bool)
    ensures CandidatesAmong(lower, events, consoleHostsOnly, {}) == {}
  {
  }

  method ScoreGroup(lower: string -> string, events: seq<LaunchRow>, buckets: Buckets, newest: int, key: GroupKey)
    returns (score: Scored)
    requires AreBuckets(lower, events, buckets) && key in buckets && newest == Newest(events)
    ensures score == ScoreOf(lower, events, key)
  {
    hide Bucket, GroupOf, RecentCount;
    EmptyIffAbsent(lower, events, key);
    var group := BuildGroup(lower, buckets[key]);
    score := Scored(RecentCount(buckets[key], newest), group);
  }

  /** The answer depends on the events, the filter and the limit alone, never on the order of the hash map. */
  lemma AnswerIsDeterministic(lower: string -> string, events: seq<LaunchRow>, consoleHostsOnly: bool, limit: nat,
                              a: seq<Group>, b: seq<Group>)
    requires Answers(lower, events, consoleHostsOnly, limit, a) && Answers(lower, events, consoleHostsOnly, limit, b)
    ensures a == b
  {
    hide Ranked, Candidates;
    var all := Candidates(lower, events, consoleHostsOnly);
    var first :| Ranked(all, limit, first) && a == Unscored(first);
    var second :| Ranked(all, limit, second) && b == Unscored(second);
    CandidatesHaveTheirOwnKeys(lower, events, consoleHostsOnly);
    RankingIsUnique(all, limit, first, second);
  }
}
