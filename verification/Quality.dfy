/** Incident scoring, the notification policy, and the offsets the user's ratings earn. */
module Quality {
  import opened Models
  import opened Streams
  import opened Algebra

  const PERSISTENCE_FLOOR := 0.5
  const CONFIDENCE_FLOOR := 0.5
  const CRITICAL_CONFIDENCE_FLOOR := 0.35
  const LEARNING_CONFIDENCE_FLOOR := 0.6
  const RATING_OFFSET_STEP := 0.05
  const RATING_OFFSET_BOUND := 0.15

  function Clamp(x: real, lo: real, hi: real): real {
    if x < lo then lo else if hi < x then hi else x
  }

  // ---------------------------------------------------------------- scoring

  datatype QualityInputs = QualityInputs(
    occurrenceCount: nat,
    lastSeenMs: int,
    sustainedWindowMs: int,
    breachDurationMs: int,
    baselineMaturity: real,
    attributionStable: Option<bool>,
    corroboratingSignals: nat,
    userImpactSignals: nat,
    lastNotifiedMs: Option<int>)

  /** One half to the power n. */
  function Halved(n: nat): (r: real)
    ensures 0.0 < r <= 1.0
  {
    if n == 0 then 1.0 else Halved(n - 1) / 2.0
  }

  function CappedHalving(n: nat): real {
    Halved(if n < 32 then n else 32)
  }

  function Persistence(breachMs: int, windowMs: int): real {
    var windows := Max(breachMs, 0) as real / Max(windowMs, 1) as real;
    Clamp(windows, 0.0, 3.0) / 3.0
  }

  function Confidence(maturity: real, occurrences: nat, attribution: Option<bool>): real {
    var depth := Clamp(occurrences as real / 10.0, 0.0, 1.0);
    var named := match attribution
                 case None => 0.5
                 case Some(stable) => if stable then 1.0 else 0.0;
    Clamp(Clamp(maturity, 0.0, 1.0) * 0.25 + depth * 0.35 + named * 0.40, 0.0, 1.0)
  }

  /** How much is left to say about an incident, halving per window since the user was last told. */
  function Novelty(q: QualityInputs): real {
    match q.lastNotifiedMs
    case None => 1.0
    case Some(at) =>
      var since: nat := Max(q.lastSeenMs - at, 0) / Max(q.sustainedWindowMs, 1);
      CappedHalving(if since < q.occurrenceCount then since else q.occurrenceCount)
  }

  function Score(q: QualityInputs): AlertQuality {
    AlertQuality(
      Confidence(q.baselineMaturity, q.occurrenceCount, q.attributionStable),
      Persistence(q.breachDurationMs, q.sustainedWindowMs),
      1.0 - CappedHalving(q.corroboratingSignals),
      1.0 - CappedHalving(q.userImpactSignals),
      Novelty(q))
  }

  lemma {:induction false} ScoreIsNormalized(q: QualityInputs)
    ensures var s := Score(q);
            && 0.0 <= s.confidence <= 1.0 && 0.0 <= s.persistence <= 1.0
            && 0.0 <= s.corroboration < 1.0 && 0.0 <= s.userImpact < 1.0
            && 0.0 < s.novelty <= 1.0
  {
    var windows := Max(q.breachDurationMs, 0) as real / Max(q.sustainedWindowMs, 1) as real;
    var clamped := Clamp(windows, 0.0, 3.0);
    assert 0.0 <= clamped <= 3.0;
    assert 0.0 <= clamped / 3.0 <= 1.0;
  }

  lemma Shortfall(many: real, windows: real, window: real)
    requires windows < many && 0.0 < window
    ensures windows * window < many * window
  {
    PositiveProduct(many - windows, window);
  }

  lemma WindowsOf(breach: real, window: real, windows: real, many: real)
    requires window > 0.0 && windows * window == breach
    ensures windows >= many <==> breach >= many * window
  {
    if windows >= many {
      NonNegativeProduct(windows - many, window);
    } else {
      Shortfall(many, windows, window);
    }
  }

  /**
   * Persistence is earned in windows: it is complete exactly from three of them on, and clears the plain floor exactly
   * from one and a half.
   */
  lemma PersistenceIsEarned(breachMs: int, windowMs: int)
    ensures Persistence(breachMs, windowMs) == 1.0 <==> Max(breachMs, 0) >= 3 * Max(windowMs, 1)
    ensures Persistence(breachMs, windowMs) >= PERSISTENCE_FLOOR <==> 2 * Max(breachMs, 0) >= 3 * Max(windowMs, 1)
  {
    var breach, window := Max(breachMs, 0) as real, Max(windowMs, 1) as real;
    Quotient(breach, window);
    WindowsOf(breach, window, breach / window, 3.0);
    WindowsOf(breach, window, breach / window, 1.5);
    WindowsOf(breach, window, breach / window, 0.0);
    assert (3 * Max(windowMs, 1)) as real == 3.0 * window;
    assert 2.0 * breach >= 3.0 * window <==> breach >= 1.5 * window;
    assert (2 * Max(breachMs, 0)) as real == 2.0 * breach;
  }

  /** More maturity, more occurrences or a better attribution never lower the confidence. */
  lemma ConfidenceFollowsTheEvidence(m: real, m': real, n: nat, n': nat, a: Option<bool>)
    requires m <= m' && n <= n'
    ensures Confidence(m, n, a) <= Confidence(m', n', a)
    ensures Confidence(m, n, Some(false)) <= Confidence(m, n, None) <= Confidence(m, n, Some(true))
  {
    assert n as real / 10.0 <= n' as real / 10.0;
  }

  /**
   * Until the machine's maturity counts for something, an unattributed finding needs nine occurrences to be believed.
   */
  lemma UnattributedNeedsNineOccurrences(n: nat)
    ensures Confidence(0.0, n, None) >= CONFIDENCE_FLOOR <==> n >= 9
  {
    if n >= 9 {
      assert n as real >= 9.0;
    } else {
      assert n as real <= 8.0;
    }
  }

  /** Each further signal, corroborating or of user impact, closes half the remaining gap, up to thirty-two of each. */
  lemma SignalsCloseHalfTheGap(q: QualityInputs, n: nat)
    ensures var (more, fewer) := (Score(q.(corroboratingSignals := n + 1)), Score(q.(corroboratingSignals := n)));
            1.0 - more.corroboration == if n < 32 then (1.0 - fewer.corroboration) / 2.0 else 1.0 - fewer.corroboration
    ensures var (more, fewer) := (Score(q.(userImpactSignals := n + 1)), Score(q.(userImpactSignals := n)));
            1.0 - more.userImpact == if n < 32 then (1.0 - fewer.userImpact) / 2.0 else 1.0 - fewer.userImpact
  {
  }

  lemma {:induction false} HalvingFalls(n: nat, m: nat)
    requires n <= m
    ensures Halved(m) <= Halved(n)
  {
    if n < m {
      HalvingFalls(n, m - 1);
    }
  }

  /**
   * An incident the user was never told of is wholly novel; after that novelty only falls as time goes by and
   * occurrences mount.
   */
  lemma NoveltyOnlyFalls(q: QualityInputs, later: int, occurrences: nat)
    requires q.lastSeenMs <= later && q.occurrenceCount <= occurrences
    ensures q.lastNotifiedMs.None? ==> Novelty(q) == 1.0
    ensures Novelty(q.(lastSeenMs := later, occurrenceCount := occurrences)) <= Novelty(q)
  {
    if q.lastNotifiedMs.Some? {
      var window := Max(q.sustainedWindowMs, 1);
      var a, b := Max(q.lastSeenMs - q.lastNotifiedMs.value, 0), Max(later - q.lastNotifiedMs.value, 0);
      QuotientsFollow(a, b, window);
      var since: nat, then': nat := a / window, b / window;
      var n := if since < q.occurrenceCount then since else q.occurrenceCount;
      var m := if then' < occurrences then then' else occurrences;
      HalvingFalls(if n < 32 then n else 32, if m < 32 then m else 32);
    }
  }

  lemma QuotientsFollow(a: nat, b: nat, d: nat)
    requires a <= b && d > 0
    ensures a / d <= b / d
  {
    var x, y := a / d, b / d;
    assert a == x * d + a % d && b == y * d + b % d;
    if x > y {
      MoreThanOneMore(x, y, d);
      assert false;
    }
  }

  lemma MoreThanOneMore(x: nat, y: nat, d: nat)
    requires x > y
    ensures x * d >= y * d + d
  {
    assert (x - y - 1) * d >= 0;
    assert (x - y - 1) * d == x * d - y * d - d;
  }

  // ----------------------------------------------------------------- policy

  /** What the policy reads of an incident's state before this evaluation. */
  datatype Standing = Standing(severity: Severity, notify: bool)

  datatype NotifyDecision = NotifyDecision(notify: bool, bumpGeneration: bool)

  function Decide(severity: Severity, quality: AlertQuality, learning: bool, previous: Option<Standing>,
                  materialChange: bool, offset: real): NotifyDecision
  {
    var severityOk := match severity
                      case Info => false
                      case Warning => !learning
                      case Critical => true;
    var confidenceFloor := if severity == Critical
                           then if learning then LEARNING_CONFIDENCE_FLOOR else CRITICAL_CONFIDENCE_FLOOR
                           else CONFIDENCE_FLOOR;
    var notify := severityOk
                  && quality.persistence >= PERSISTENCE_FLOOR + offset
                  && quality.confidence >= confidenceFloor + offset;
    var alreadyNotifying := previous.Some? && previous.value.notify;
    var escalated := previous.Some? && Rank(severity) > Rank(previous.value.severity);
    NotifyDecision(notify, notify && alreadyNotifying && (escalated || materialChange))
  }

  // ---------------------------------------------------------------- ratings

  datatype RatingVerdict = Good | Acceptable | Sluggish

  datatype OpenIncident = OpenIncident(kind: string, notify: bool, acknowledged: bool)

  datatype Rating = Rating(atMs: int, verdict: RatingVerdict, demand: DemandBucket,
                           openIncidents: seq<OpenIncident>, duringLearning: bool)

  datatype PolicyOffsets = PolicyOffsets(kinds: map<DemandBucket, map<string, real>>,
                                         buckets: map<DemandBucket, real>)

  const NO_OFFSETS := PolicyOffsets(map[], map[])

  /** The say a rating still has at a given age in milliseconds: the thirty-day half-life, left abstract. */
  type Decay = d: nat -> real | forall age :: 0.0 < d(age) <= 1.0 witness (age: nat) => 1.0

  function KindTerm(o: PolicyOffsets, kind: string, bucket: DemandBucket): real {
    if bucket in o.kinds && kind in o.kinds[bucket] then o.kinds[bucket][kind] else 0.0
  }

  function BucketTerm(o: PolicyOffsets, bucket: DemandBucket): real {
    if bucket in o.buckets then o.buckets[bucket] else 0.0
  }

  function Lookup(o: PolicyOffsets, kind: string, bucket: DemandBucket): real {
    Clamp(KindTerm(o, kind, bucket) + BucketTerm(o, bucket), -RATING_OFFSET_BOUND, RATING_OFFSET_BOUND)
  }

  /** The kinds that were popping, unacknowledged, when the rating was given. */
  function Notifying(r: Rating): set<string> {
    set i | 0 <= i < |r.openIncidents| && r.openIncidents[i].notify && !r.openIncidents[i].acknowledged
      :: r.openIncidents[i].kind
  }

  function RatingStep(r: Rating, nowMs: int, decay: Decay): real {
    RATING_OFFSET_STEP * decay(Max(nowMs - r.atMs, 0))
  }

  function Accumulate(term: real, step: real): real {
    Clamp(term + step, -RATING_OFFSET_BOUND, RATING_OFFSET_BOUND)
  }

  /** Raise every one of `kinds` in a bucket by a step; a hash set hands them over in no particular order. */
  method Tighten(before: PolicyOffsets, bucket: DemandBucket, kinds: set<string>, step: real)
      returns (o: PolicyOffsets)
    ensures o.buckets == before.buckets
    ensures forall kind, b :: KindTerm(o, kind, b)
                              == if b == bucket && kind in kinds then Accumulate(KindTerm(before, kind, b), step)
                                 else KindTerm(before, kind, b)
  {
    o := before;
    var pending := kinds;
    while pending != {}
      invariant pending <= kinds && o.buckets == before.buckets
      invariant forall kind, b :: KindTerm(o, kind, b)
                                  == if b == bucket && kind in kinds - pending
                                     then Accumulate(KindTerm(before, kind, b), step)
                                     else KindTerm(before, kind, b)
    {
      var kind :| kind in pending;
      var terms := if bucket in o.kinds then o.kinds[bucket] else map[];
      var term := if kind in terms then terms[kind] else 0.0;
      o := o.(kinds := o.kinds[bucket := terms[kind := Accumulate(term, step)]]);
      pending := pending - {kind};
    }
  }

  /**
   * Fold the rating history into offsets. The kinds of one rating come out of a hash set in no
   * particular order; the contract pins the result regardless, one clamped step a rating.
   */
  method DeriveOffsets(ratings: seq<Rating>, nowMs: int, decay: Decay) returns (o: PolicyOffsets)
    ensures forall kind, bucket :: KindTerm(o, kind, bucket) == Earned(ForKind(bucket, kind), ratings, nowMs, decay)
    ensures forall bucket :: BucketTerm(o, bucket) == -Earned(ForBucket(bucket), ratings, nowMs, decay)
  {
    o := NO_OFFSETS;
    for n := 0 to |ratings|
      invariant forall kind, bucket ::
                  KindTerm(o, kind, bucket) == Earned(ForKind(bucket, kind), ratings[..n], nowMs, decay)
      invariant forall bucket :: BucketTerm(o, bucket) == -Earned(ForBucket(bucket), ratings[..n], nowMs, decay)
    {
      var r := ratings[n];
      ghost var before := o;
      assert ratings[..n + 1][..n] == ratings[..n];
      if !r.duringLearning {
        var step := RatingStep(r, nowMs, decay);
        var notifying := Notifying(r);
        match r.verdict {
          case Good | Acceptable =>
            o := Tighten(o, r.demand, notifying, step);
          case Sluggish =>
            if notifying == {} {
              o := o.(buckets := o.buckets[r.demand := Accumulate(BucketTerm(o, r.demand), -step)]);
            }
        }
      }
    }
    assert ratings[..|ratings|] == ratings;
  }

  /** What a rating can vote on: one kind in one bucket (stricter), or a whole bucket (more permissive). */
  datatype Ballot = ForKind(bucket: DemandBucket, kind: string) | ForBucket(bucket: DemandBucket)

  predicate Votes(r: Rating, b: Ballot) {
    && !r.duringLearning
    && r.demand == b.bucket
    && match b
       case ForKind(_, kind) => r.verdict != Sluggish && kind in Notifying(r)
       case ForBucket(_) => r.verdict == Sluggish && Notifying(r) == {}
  }

  /** The weight of every vote cast on a ballot, however large. */
  function Weight(b: Ballot, ratings: seq<Rating>, nowMs: int, decay: Decay): (w: real)
    ensures 0.0 <= w
  {
    if ratings == [] then 0.0
    else
      var n := |ratings| - 1;
      Weight(b, ratings[..n], nowMs, decay) + Vote(b, ratings[n], nowMs, decay)
  }

  function Vote(b: Ballot, r: Rating, nowMs: int, decay: Decay): (w: real)
    ensures 0.0 <= w
  {
    if Votes(r, b) then RatingStep(r, nowMs, decay) else 0.0
  }

  lemma WeightOfOneMore(b: Ballot, ratings: seq<Rating>, r: Rating, nowMs: int, decay: Decay)
    ensures Weight(b, ratings + [r], nowMs, decay) == Weight(b, ratings, nowMs, decay) + Vote(b, r, nowMs, decay)
  {
    assert (ratings + [r])[..|ratings|] == ratings;
  }

  /** The offset a ballot earns: its weight, up to the bound. */
  function Earned(b: Ballot, ratings: seq<Rating>, nowMs: int, decay: Decay): real {
    RMin(RATING_OFFSET_BOUND, Weight(b, ratings, nowMs, decay))
  }

  lemma LastSurvives<T>(s: seq<T>, j: nat)
    requires j < |s| - 1
    ensures var (n, prefix) := (|s| - 1, s[..|s| - 1]);
            s[..j] + s[j + 1..] == prefix[..j] + prefix[j + 1..] + [s[n]]
  {
  }

  /** Removing one rating removes exactly its own weight, wherever it sat. */
  lemma {:induction false} WeightWithout(b: Ballot, ratings: seq<Rating>, j: nat, nowMs: int, decay: Decay)
    requires j < |ratings|
    ensures Weight(b, ratings, nowMs, decay)
            == Weight(b, ratings[..j] + ratings[j + 1..], nowMs, decay) + Vote(b, ratings[j], nowMs, decay)
  {
    var n := |ratings| - 1;
    var prefix := ratings[..n];
    if j < n {
      WeightWithout(b, prefix, j, nowMs, decay);
      LastSurvives(ratings, j);
      WeightOfOneMore(b, prefix[..j] + prefix[j + 1..], ratings[n], nowMs, decay);
    } else {
      assert ratings[..j] + ratings[j + 1..] == prefix;
    }
  }

  lemma WithoutOne<T>(s: seq<T>, j: nat)
    requires j < |s|
    ensures multiset(s[..j] + s[j + 1..]) == multiset(s) - multiset{s[j]}
  {
    assert s == s[..j] + [s[j]] + s[j + 1..];
  }

  /** The order in which the ratings were given has no say in the outcome. */
  lemma {:induction false} OrderIsImmaterial(b: Ballot, xs: seq<Rating>, ys: seq<Rating>, nowMs: int, decay: Decay)
    requires multiset(xs) == multiset(ys)
    ensures Weight(b, xs, nowMs, decay) == Weight(b, ys, nowMs, decay)
    ensures Earned(b, xs, nowMs, decay) == Earned(b, ys, nowMs, decay)
    decreases |xs|
  {
    if xs == [] {
      assert |multiset(ys)| == |multiset(xs)| == 0;
      assert ys == [];
    } else {
      var n := |xs| - 1;
      assert xs[n] in multiset(ys);
      var j :| 0 <= j < |ys| && ys[j] == xs[n];
      var rest := ys[..j] + ys[j + 1..];
      WithoutOne(ys, j);
      WithoutOne(xs, n);
      assert xs[..n] + xs[n + 1..] == xs[..n];
      OrderIsImmaterial(b, xs[..n], rest, nowMs, decay);
      WeightWithout(b, ys, j, nowMs, decay);
    }
  }

  function OfBucket(bucket: DemandBucket, ratings: seq<Rating>): seq<Rating> {
    if ratings == [] then []
    else
      var n := |ratings| - 1;
      OfBucket(bucket, ratings[..n]) + if ratings[n].demand == bucket then [ratings[n]] else []
  }

  /** A rating is evidence about its own demand bucket only. */
  lemma {:induction false} OnlyOwnBucketCounts(b: Ballot, ratings: seq<Rating>, nowMs: int, decay: Decay)
    ensures Weight(b, ratings, nowMs, decay) == Weight(b, OfBucket(b.bucket, ratings), nowMs, decay)
    decreases |ratings|
  {
    if ratings != [] {
      var n := |ratings| - 1;
      OnlyOwnBucketCounts(b, ratings[..n], nowMs, decay);
      var kept := OfBucket(b.bucket, ratings[..n]);
      WeightOfOneMore(b, kept, ratings[n], nowMs, decay);
      assert kept + [] == kept;
    }
  }

  /** The clamp at lookup never bites, and the offset is the difference of the two bounded weights. */
  lemma LookupClosedForm(o: PolicyOffsets, ratings: seq<Rating>, kind: string, bucket: DemandBucket,
                         nowMs: int, decay: Decay)
    requires KindTerm(o, kind, bucket) == Earned(ForKind(bucket, kind), ratings, nowMs, decay)
    requires BucketTerm(o, bucket) == -Earned(ForBucket(bucket), ratings, nowMs, decay)
    ensures Lookup(o, kind, bucket)
            == Earned(ForKind(bucket, kind), ratings, nowMs, decay) - Earned(ForBucket(bucket), ratings, nowMs, decay)
    ensures -RATING_OFFSET_BOUND <= Lookup(o, kind, bucket) <= RATING_OFFSET_BOUND
  {
    assert 0.0 <= Weight(ForKind(bucket, kind), ratings, nowMs, decay);
    assert 0.0 <= Weight(ForBucket(bucket), ratings, nowMs, decay);
  }

  /** Raising the offset can only silence: whatever notifies at the higher floor notified at the lower one. */
  lemma StricterOffsetNeverPromotes(severity: Severity, quality: AlertQuality, learning: bool,
                                    previous: Option<Standing>, materialChange: bool, lower: real, higher: real)
    requires lower <= higher
    ensures var strict := Decide(severity, quality, learning, previous, materialChange, higher);
            var lenient := Decide(severity, quality, learning, previous, materialChange, lower);
            (strict.notify ==> lenient.notify) && (strict.bumpGeneration ==> lenient.bumpGeneration)
  {
  }

  /**
   * One more rating, read through the policy: a false positive for a kind never makes it notify, an
   * unexplained sluggish rating never silences anything, and every other rating changes no decision.
   */
  lemma {:induction false} OneMoreRating(
      ratings: seq<Rating>, r: Rating, nowMs: int, decay: Decay, before: PolicyOffsets, after: PolicyOffsets,
      kind: string, bucket: DemandBucket, severity: Severity, quality: AlertQuality, learning: bool,
      previous: Option<Standing>, materialChange: bool)
    requires KindTerm(before, kind, bucket) == Earned(ForKind(bucket, kind), ratings, nowMs, decay)
    requires BucketTerm(before, bucket) == -Earned(ForBucket(bucket), ratings, nowMs, decay)
    requires KindTerm(after, kind, bucket) == Earned(ForKind(bucket, kind), ratings + [r], nowMs, decay)
    requires BucketTerm(after, bucket) == -Earned(ForBucket(bucket), ratings + [r], nowMs, decay)
    ensures var was := Decide(severity, quality, learning, previous, materialChange, Lookup(before, kind, bucket));
            var now := Decide(severity, quality, learning, previous, materialChange, Lookup(after, kind, bucket));
            && (r.verdict != Sluggish ==> (now.notify ==> was.notify))
            && (r.verdict == Sluggish ==> (was.notify ==> now.notify))
            && (!Votes(r, ForKind(bucket, kind)) && !Votes(r, ForBucket(bucket)) ==> now == was)
  {
    LookupClosedForm(before, ratings, kind, bucket, nowMs, decay);
    LookupClosedForm(after, ratings + [r], kind, bucket, nowMs, decay);
    WeightOfOneMore(ForKind(bucket, kind), ratings, r, nowMs, decay);
    WeightOfOneMore(ForBucket(bucket), ratings, r, nowMs, decay);
    var lo, hi := Lookup(before, kind, bucket), Lookup(after, kind, bucket);
    assert r.verdict != Sluggish ==> lo <= hi;
    assert r.verdict == Sluggish ==> hi <= lo;
  }
}
