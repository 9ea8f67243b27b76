/** Values shared by the alerting, quality and storage layers. */
module Models {

  datatype Option<+T> = None | Some(value: T) {
    function GetOr(default: T): T {
      if Some? then value else default
    }
  }

  /** The largest value of the 32-bit counters, which saturate rather than wrap. */
  const U32_MAX: nat := 0xFFFF_FFFF

  function SaturatingIncrement(n: nat): nat {
    if n < U32_MAX then n + 1 else n
  }

  function Max(a: int, b: int): int {
    if a < b then b else a
  }

  datatype Severity = Info | Warning | Critical

  function Rank(s: Severity): nat {
    match s
    case Info => 0
    case Warning => 1
    case Critical => 2
  }

  datatype IncidentState = Open | Reopened | Resolved

  datatype DemandBucket = Light | Moderate | Heavy

  /**
   * The identity of an incident, which the service spells as a string: a detector's kind with the
   * process it watches, or a machine-wide detector's name. Absent stands for the empty string that
   * records written before fingerprints existed carry.
   */
  datatype Fingerprint =
    | Absent
    | OfProcess(kind: string, pid: nat, startedAtMs: int)
    | OfMachine(name: string)

  function Get<V>(m: map<Fingerprint, V>, k: Fingerprint): Option<V> {
    if k in m then Some(m[k]) else None
  }

  const DPC_KEY := OfMachine("dpcInterrupt")

  type AlertId = string

  datatype Evidence = Evidence(row: string, text: string)

  /** The parts of an alert that are written once, when it opens, and never read back. */
  datatype Subject = Subject(processId: Option<nat>, processName: Option<string>,
                             title: string, explanation: string, recommendation: string)

  datatype AlertQuality = AlertQuality(confidence: real, persistence: real, corroboration: real,
                                       userImpact: real, novelty: real)

  const UNSCORED := AlertQuality(1.0, 1.0, 1.0, 1.0, 1.0)

  datatype Alert = Alert(
    id: AlertId,
    kind: string,
    severity: Severity,
    firstSeenMs: int,
    lastSeenMs: int,
    subject: Subject,
    evidence: seq<Evidence>,
    acknowledged: bool,
    occurrenceCount: nat,
    resolvedAtMs: Option<int>,
    archived: bool,
    fingerprint: Fingerprint,
    state: IncidentState,
    quality: AlertQuality,
    notify: bool,
    notifyGeneration: nat)

  /** An alert with its user's flags put aside. */
  function Bare(a: Alert): Alert {
    a.(acknowledged := false, archived := false)
  }
}
