/**
 * What the DPC detector knows of its own evidence: the verdict, the window, and the incidents that speak for the user.
 */
module Impact {
  import opened Models
  import opened Incidents

  datatype VerdictState =
    | NoCapture
    | SingleCapture
    | Repeatable(driverFamily: string)
    | ChangedConfidently(from: string, to: string)

  datatype Interrupts = Interrupts(verdict: VerdictState, corroboratingSignals: nat)

  predicate IsAttributed(v: VerdictState) {
    v.Repeatable? || v.ChangedConfidently?
  }

  function AttributionStable(v: VerdictState): Option<bool> {
    match v
    case NoCapture => None
    case SingleCapture => Some(false)
    case Repeatable(_) => Some(true)
    case ChangedConfidently(_, _) => Some(true)
  }

  /** An incident that speaks for the user, unless it has been filed away. */
  predicate Vouches(a: Alert) {
    (a.kind == "unresponsive" || a.kind == "slowLaunch") && !a.archived
  }

  function Vouching(active: map<Fingerprint, Alert>): set<Fingerprint> {
    set k | k in active && Vouches(active[k])
  }

  function UserImpactSignals(active: map<Fingerprint, Alert>): nat {
    if |Vouching(active)| < U32_MAX then |Vouching(active)| else U32_MAX
  }

  /** Worth telling about with an attribution, or with a quarter of an hour of pressure and something that agrees. */
  function DpcQuality(impacts: nat, interrupts: Interrupts, sustained: bool): CandidateQuality {
    CandidateQuality(
      AttributionStable(interrupts.verdict),
      interrupts.corroboratingSignals,
      impacts,
      IsAttributed(interrupts.verdict) || (sustained && (interrupts.corroboratingSignals >= 1 || impacts >= 1)))
  }

  lemma OneVouches(active: map<Fingerprint, Alert>)
    ensures UserImpactSignals(active) >= 1 <==> exists k :: k in active && Vouches(active[k])
  {
    if k :| k in active && Vouches(active[k]) {
      assert k in Vouching(active);
    }
    if UserImpactSignals(active) >= 1 {
      var k :| k in Vouching(active);
    }
  }
}
