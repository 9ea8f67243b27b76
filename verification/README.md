# PC Pulse service core: a verified model

PC Pulse watches a Windows machine and tells its user when something goes wrong. Its service keeps several state
machines and numeric algorithms that touch the operating system hardly at all. This project models them in Dafny and
proves what they promise over whole runs:

- **Incidents** (`Incidents`, `Lifecycle`, `Notifications`, `GrowthLife`, `GrowthNotices`, `AlertEngine`, `Impact`,
  `FlagEffects`). The alert engine keeps a handful of maps keyed by fingerprint. `Incidents.Step` is one evaluation as a
  single fingerprint lives it; the class `Alerting.AlertEngine`, with the source's maps as fields and its passes as
  loops, is proved to move every fingerprint by exactly that step and to deliver exactly the records the steps emit.
  Facts about flapping, reopening and notification are then proved about runs of the one-fingerprint machine. What the
  DPC finding takes from the other incidents is computed from the books, and `FlagEffects` says what a user's flags do.
- **Engine and table** (`AlertTable`, `Worlds`, `Backing`, `Retention`, `StaleDeltas`, with the runs of `OneIncident`,
  `ForgottenIncident` and `LostFlag`). `Worlds` puts engine and alert table together and shows what evaluations, user
  flags, latched verdicts and restarts keep when nothing comes between their halves. `Retention` takes the halves apart:
  the sampling thread evaluates under the engine's lock and stores the delta later, the pipe thread sets a flag in the
  engine and later in the table, rows expire daily, and the service may die and restart at any point. Over arbitrary
  interleavings of these, from any table the service may be started on, it is shown exactly when a row is missing, and
  in `StaleDeltas` exactly when the table's flags are not the engine's.
- **Growth watch** (`GrowthWatch`, `GrowthRuns`). Which processes carry a thirty-minute handle and thread window, and
  what the windows' shapes make the growth detectors report, linked end to end to the incidents they feed.
- **Kernel pressure** (`KernelPressure`). The fifteen-minute window of the machine against its own learned rates.
- **Launch history** (`Launches`, `LaunchHistory`, `Joiner`, `Grouping`). The tracker as a class, refined against a
  declaration over the event trace; the command-line joiner with its two rings; grouping with a total ranking.
- **Statistics** (`Quantiles`, `Trend`, `Baselines`, `BaselineStore`, `Quality`, with `Streams`, `Rings` and `Algebra`
  beside them). P² markers and the sketch of three of them, the trend classifier, the running mean and variance, the
  learning clock, the capped store of per-name norms, scoring and rating offsets. Floating point is taken as exact
  reals, and the one square root is avoided by comparing squares (`Baselines.BeyondIsBeyondTheRoot` shows that nothing
  is lost).
- **Payloads** (`Etw`). The parser of classic process-start payloads, proved to accept exactly the encodings of its
  documented layout.
- **Redaction** (`Redact`, `RedactEdits`, `Retakes`, `CountedTwice`). The passes as the index-driven scans they are, for
  any Unicode tables; what each cuts, and all of them together as one edit of the line that was given.

Where a class models a class of the source, each method is proved against a function or predicate on values, and the
theorems are about that function. A nondeterministic predicate stands wherever the source leaves a choice to a hash
map's iteration order.

## Where the code and its documentation differ

The model follows the code. In these places the comments beside the code promise more than the code does; each has an
exact condition or a concrete counterexample in the project.

- A partial release is described as still sitting above its start, but an excursion that undershoots its start by more
  than the tolerance is classified the same way with a negative remainder (`Trend.ReleaseIsElevatedUnlessUndershot` for
  when exactly, `Trend.UndershootTakesAFall` for what it takes of the points, `Trend.AnUndershootIsAPartialRelease` for
  six points that do it).
- The per-name store is described as keeping the most observed names. Once it is full of names seen twice, no newcomer
  can ever enter (`BaselineStores.NewcomerStaysIffRoom`, `BaselineStores.FullHouseIsClosed`).
- The fifteen-minute gate is described as a test of a fraction of a window. Because old readings leave first, it can
  only open when a reading among the newest 2,048 lies exactly fifteen minutes back
  (`KernelPressure.GateNeedsAnExactReading`, `KernelPressure.SteadyPressureOpensIff`).
- Two launches of one pid are said never to steal each other's command line. They can, exactly when their starts lie
  less than two join windows apart (`Joiner.StealingIsPossibleIff`); in no ring and no pass can they otherwise
  (`Joiner.OnlyNearbyEldersSteal`).
- Eviction by age scans from the front, so it is exact only when no expired entry sits behind a younger one
  (`Rings.FrontScanIsExact`).
- Later redaction passes are said never to look at text an earlier pass has replaced. Only the second keeps to that
  (`Retakes.OpaqueRunIsClean`). The user-information half of the third takes a token again when it stands in an
  authority with an `@` after it before any slash (`Retakes.TakenByUserInfoIff`), its query half when it stands in the
  value of a `?` or `&` key that holds a vocabulary word (`Retakes.TakenByQueryIff`), and the fourth when it comes to a
  key whose value holds the token and more (`Retakes.TakenByConnectionsIff`; `RedactEdits.TokenIsLeftAloneIff` and
  `RedactEdits.TokenIsCountedAgainIff` for a token right behind a key). What is shown is still one edit of the line, but
  its spans number as many as were counted if and only if no token was taken again (`Retakes.CommandLineIsOneEdit`,
  `Retakes.TokenIsTakenAgainIff`). The lines `pwd=a b;`, `?xpwd=a` and `://pwd="a"@h`, with one secret each, are
  reported as two redactions (`RedactEdits.OneValueCountedTwice`, `CountedTwice.QueryIsCountedTwice`,
  `CountedTwice.UserInfoIsCountedTwice`).
- The archived flag is described as presentation only, with the semantics of detectors untouched. For its own incident
  that is so (`Lifecycle.FlagsAreInert`). But an archived impact incident no longer vouches for the DPC finding, so
  archiving changes what that one scores, and may withdraw its notification, exactly when it changes the number of
  unarchived impact incidents (`FlagEffects.ArchivingConcernsOnlyTheDpc`; `FlagEffects.ArchivingSilencesTheDpc` for a
  case). Acknowledging changes nothing for anyone (`FlagEffects.AcknowledgingMattersToNobody`).
- A flag is set in engine and table alike, and the client is told that it was persisted. The records of an evaluation
  are stored only after the engine's lock has been given back, so one that was drawn up before may overwrite the flag:
  engine and table then differ until the next record of the incident, and if the waiting record is the resolved one the
  flag is gone for good (`StaleDeltas.FlagsAreLostIff` for when exactly, `StaleDeltas.RowSinceRecord` for what the row
  then says, `LostFlag.OpenIncidentDisagrees` and `LostFlag.ResolvedIncidentForgetsItsUser` for two such runs).
- A notification is remembered by its own age, not by the incident's, so an incident notified more than a quiet period
  before it last was evaluated reopens without a bump however much worse it is (`Notifications.NotifyMemoryExpires`,
  `Notifications.EscalationIsBumpedIff`; `Notifications.LongIncidentsEscalateUnannounced` is such a run, for every
  length of the incident).
- One leak is said to stay one notification however many times its shape stutters. While the incident stays open that is
  so. A leak that drops back to informational, closes, and climbs again within the quiet period is announced a second
  time, exactly when the user had been told no longer than a quiet period before the last evaluation it was closed in
  (`GrowthNotices.GrowthIsBumpedIff`, `GrowthNotices.OneLeakIsToldTwiceIff`; `GrowthNotices.OneLeakIsToldTwice` is such
  a run).
- A condition that outlives a restart is said to reattach to its incident. The daily expiry deletes rows by when their
  incident was last seen, which for an incident held open by its hysteresis or its shape may be longer ago than the
  retention, so the row of an open incident can go, and a restart then forgets the incident
  (`Retention.RowIsMissingIff`, `Retention.RestartsForgetIff`, and `ForgottenIncident.OpenIncidentIsForgotten` for one
  such run). A service that dies between an evaluation and its upsert comes back as if the evaluation had never been
  (`Retention.CrashesUndoTheEvaluation`).
- When a pid is reused, the older pending launch is said to be closed only by its own stop event. A stop is routed by
  pid to the newer launch, so the older one is never finished (`LaunchHistory.OvertakenNeverFinishes`).

Two limits the comments do not hide are made exact. A steady ramp is invisible to its own running statistics at three
standard deviations and more, at every slope, and `Baselines.BlindSigmas` gives the sigmas for which that is so. A
present security identifier whose first four bytes are zero would read as an absent one, so the layout that the parser
inverts excludes it (`Etw.EncodedParsesBack`, `Etw.AcceptedWasEncoded`).

## Model

| member | source | states |
|---|---|---|
| Alerting.AlertEngine.constructor | src/PcPulse.Service/src/alerting.rs:462-491 | a new engine holds nothing but, per fingerprint, the most recently resolved record of its seed |
| Alerting.AlertEngine.ObserveInterrupts | src/PcPulse.Service/src/alerting.rs:497-506 | only a confident change that differs from the last one latches, and nothing else moves |
| Alerting.AlertEngine.Evaluate | src/PcPulse.Service/src/alerting.rs:570-1617 | every fingerprint moves by exactly the one-fingerprint step, judged with the DPC evidence of the open incidents, the verdict and the pressure window, and the delta holds each step's record once and nothing else |
| Alerting.AlertEngine.RecordBreaches | src/PcPulse.Service/src/alerting.rs:1287-1381 | the candidate pass moves each candidate's fingerprint by one breach, leaves all others, and reports who completed a window |
| Alerting.AlertEngine.ConditionCleared | src/PcPulse.Service/src/alerting.rs:1628-1646 | whether an absent condition has cleared, and the exit clock it leaves behind |
| Alerting.AlertEngine.ResolveAbsent | src/PcPulse.Service/src/alerting.rs:1386-1459 | the resolution pass reconciles exactly the open fingerprints without a candidate and collects each closed record once |
| Alerting.AlertEngine.RetainLive | src/PcPulse.Service/src/alerting.rs:1464-1471 | what is dropped after resolution, fingerprint by fingerprint |
| Alerting.AlertEngine.ScoreAll | src/PcPulse.Service/src/alerting.rs:1488-1591 | every open incident is scored and decided against its state before the evaluation, and each visible change is collected once |
| Alerting.AlertEngine.Acknowledge | src/PcPulse.Service/src/alerting.rs:1698-1706 | acknowledging sets one flag of the open alert with that id and returns it |
| Alerting.AlertEngine.SetArchived | src/PcPulse.Service/src/alerting.rs:1708-1716 | archiving sets one flag of the open alert with that id and returns it |
| Lifecycle.RunStaysTidy | src/PcPulse.Service/src/alerting.rs:388-455 | over every run of a fingerprint: never open and remembered at once, an open record is unresolved, clocks and guards belong to open incidents |
| Lifecycle.StreakCountsTheRun | src/PcPulse.Service/src/alerting.rs:1291-1292 | while closed, the streak is the saturated length of the unbroken run of evaluations carrying the candidate |
| Lifecycle.OpensExactlyWhenSustained | src/PcPulse.Service/src/alerting.rs:1287-1305 | an incident opens exactly at the end of the required number of consecutive evaluations with its candidate |
| Lifecycle.ClockReadsTheStretch | src/PcPulse.Service/src/alerting.rs:1628-1646 | the exit clock of a guarded incident always reads the start of the current quiet stretch |
| Lifecycle.ClosesExactlyAfterTheHold | src/PcPulse.Service/src/alerting.rs:1628-1646 | a guarded incident with a reading and no deciding shape closes exactly when an unbroken stretch without candidate and below the exit threshold has lasted its hold |
| Lifecycle.ClosedIncidentsIgnoreReadings | src/PcPulse.Service/src/alerting.rs:594-602 | with nothing open, readings never change the outcome, so not gathering them is safe |
| Lifecycle.ReopeningContinues | src/PcPulse.Service/src/alerting.rs:1330-1379 | a refire within the quiet period keeps id and start, carries the count on and never lowers the generation |
| Lifecycle.OpeningAfreshMints | src/PcPulse.Service/src/alerting.rs:1346-1379 | a refire with nothing to reopen has the fresh id, starts now and is at generation zero |
| Lifecycle.StayingOpenKeepsIdentity | src/PcPulse.Service/src/alerting.rs:1319-1329 | an incident that stays open keeps id, start, kind and fingerprint |
| Lifecycle.OpenIncidentFollowsItsCandidate | src/PcPulse.Service/src/alerting.rs:1305-1329 | a completed window brings an open record's time, count, severity and evidence up to date and resets its closing terms; in between none of them changes |
| Lifecycle.ClosingRemembers | src/PcPulse.Service/src/alerting.rs:1425-1448 | closing remembers exactly what a reopening needs and emits the record resolved |
| Lifecycle.SilentMeansUnchanged | src/PcPulse.Service/src/alerting.rs:1592-1607 | an open alert about which nothing is emitted has not changed in any field |
| Lifecycle.EmittedIsCurrent | src/PcPulse.Service/src/alerting.rs:1592-1607 | what is emitted about a still open alert is the alert as it now stands |
| Lifecycle.MemoryLasts | src/PcPulse.Service/src/alerting.rs:612-614 | a closed incident is remembered through every run that stays closed and within the quiet period |
| Lifecycle.FlagsAreInert | src/PcPulse.Service/src/alerting.rs:1698-1716 | an open incident's own flags go through its step unchanged and change nothing else of the step or of the record it sends |
| FlagEffects.AcknowledgingMattersToNobody | src/PcPulse.Service/src/alerting.rs:520-536 | books that differ in acknowledgements alone take every fingerprint the same way |
| FlagEffects.ArchivingConcernsOnlyTheDpc | src/PcPulse.Service/src/alerting.rs:520-580 | books that differ in flags alone take a fingerprint the same way, unless it is the DPC one, its finding stands and the unarchived impact incidents differ in number; and then they do not |
| FlagEffects.DpcNotifiesOnEvidence | src/PcPulse.Service/src/alerting.rs:562-580 | the DPC incident notifies only with an attribution, or with sustained pressure that a signal or an unarchived impact incident agrees with |
| FlagEffects.ArchivingSilencesTheDpc | src/PcPulse.Service/src/alerting.rs:3532-3584 | a DPC incident with a quarter hour of pressure notifies beside a hung window, and not once that is archived |
| Lifecycle.LatchOnlyConcernsNotification | src/PcPulse.Service/src/alerting.rs:1488-1591 | a latched verdict change affects nothing but notification |
| Notifications.OneBumpAtMost | src/PcPulse.Service/src/alerting.rs:1545-1575 | one evaluation moves the generation by at most one, and only on a sample that notifies |
| Notifications.NotifyingIsEarned | src/PcPulse.Service/src/quality.rs:412-448 | no informational incident notifies, none but a critical one while learning, and both floors are cleared with the offset |
| Notifications.LatchIsNeverSpentSilently | src/PcPulse.Service/src/alerting.rs:1449-1453 | a latched change is spent only by a delivered bump or by its incident closing |
| Notifications.LatchIsNeverInvented | src/PcPulse.Service/src/alerting.rs:497-506 | an evaluation never latches a change by itself |
| Notifications.GenerationsAreNotices | src/PcPulse.Service/src/alerting.rs:1545-1575 | over any run, closings and reopenings included, a generation moves no further than the evaluations that ended notifying |
| Notifications.LatchEndsInADelivery | src/PcPulse.Service/src/alerting.rs:1449-1453 | over any run a latched change is gone only if some evaluation delivered it or closed its incident |
| Notifications.EscalatedReopenBumpsOnce | src/PcPulse.Service/src/alerting.rs:1346-1352 | a reopening at a higher severity bumps exactly once, on the first sample that notifies, if and only if its notify memory survived |
| Notifications.NotifyMemoryExpires | src/PcPulse.Service/src/alerting.rs:1469-1471 | the memory of a telling survives a closed stretch exactly when its last evaluation is within a quiet period of the telling |
| Notifications.EscalationIsBumpedIff | src/PcPulse.Service/src/alerting.rs:1346-1352 | from one telling through closing and reopening worse: bumped if and only if it notifies again and the last evaluation before the reopening was within a quiet period of the telling |
| Notifications.LongIncidentsEscalateUnannounced | src/PcPulse.Service/src/alerting.rs:1469-1471 | a run, parametric in when the incident ends, whose escalation is announced exactly when it ended soon enough |
| GrowthLife.GrowthNotifiesOnlyAfterALongClimb | src/PcPulse.Service/src/alerting.rs:1838-1860 | a growth incident never notifies unless its shape was monotonic in every evaluation across some thirty minutes |
| GrowthLife.ShapeHoldsTheIncidentOpen | src/PcPulse.Service/src/alerting.rs:1397-1410 | a monotonic or partially released window keeps the incident open and stops its exit clock |
| GrowthLife.ShapeResolvesSilently | src/PcPulse.Service/src/alerting.rs:1418-1435 | a finished excursion closes at once whatever the reading, and silently |
| GrowthLife.NoHoldIsInherited | src/PcPulse.Service/src/alerting.rs:1398-1406 | after such a window falls silent, the hold has to be served afresh |
| GrowthNotices.GrowthIsBumpedIff | src/PcPulse.Service/src/alerting.rs:1845-1853 | from its opening for as long as it stays open, a growth incident's generation moves if and only if it was reopened from an informational closing, the memory of a telling had survived, and it has notified since; and then once |
| GrowthNotices.OneLeakIsToldTwiceIff | src/PcPulse.Service/src/alerting.rs:1845-1853 | the same on times alone, from one open stretch over a closed one to the next |
| GrowthNotices.OneLeakIsToldTwice | src/PcPulse.Service/src/alerting.rs:1845-1853 | a run of nine samples, as the detector would report them, in which one leak is announced twice |
| AlertTable.Storage.UpsertAlerts | src/PcPulse.Service/src/storage.rs:204-234 | upserting a delta writes each record, keeping only the first-seen column of an existing row |
| AlertTable.UpsertAllWritesEach | src/PcPulse.Service/src/storage.rs:204-234 | records with distinct ids are all written and no other row moves, whatever their order |
| AlertTable.Storage.ResolveOpenAlerts | src/PcPulse.Service/src/storage.rs:236-280 | every open row is closed at one instant with a restart note, column and payload alike, and the number closed is returned |
| AlertTable.Storage.RecentResolvedAlerts | src/PcPulse.Service/src/storage.rs:288-303 | the newest resolved rows since an instant, newest first, up to the limit, those without a fingerprint left out |
| AlertTable.Storage.AcknowledgeAlert | src/PcPulse.Service/src/storage.rs:305-328 | one flag of one stored payload, and whether there was such a row |
| AlertTable.Storage.ArchiveAlert | src/PcPulse.Service/src/storage.rs:330-350 | one flag of one row, column and payload alike, and whether there was such a row |
| AlertTable.WithinTheLimitAllAreSeen | src/PcPulse.Service/src/storage.rs:288-303 | within the limit nothing eligible is left behind |
| AlertTable.NewestAreSeen | src/PcPulse.Service/src/storage.rs:288-303 | and beyond it no row is left behind that the limit has room for, with all that are as new |
| Worlds.EvaluationKeepsSound | src/PcPulse.Service/src/alerting.rs:582-1617 | an evaluation and its upsert, with nothing in between, keep engine and table in agreement |
| Worlds.FlagKeepsSound | src/PcPulse.Service/src/storage.rs:305-350 | a user flag whose two halves meet the same state keeps them in agreement |
| Worlds.RestartKeepsSound | src/PcPulse.Service/src/storage.rs:236-303 | a restart through the three operations keeps them in agreement |
| Worlds.OneEligibleRow | src/PcPulse.Service/src/storage.rs:288-303 | of each fingerprint a table has at most one row recent enough for a restart to be handed |
| AlertTable.Storage.Prune | src/PcPulse.Service/src/storage.rs:561-575 | expiry removes exactly the rows last seen before the cutoff, resolved or not |
| Retention.RunStaysBacked | src/PcPulse.Service/src/runtime.rs:1020-1042 | at every point of every interleaving the table is, flags aside, part of one in full agreement with the engine, the waiting delta counted in; and as it stands, with some state of the engine |
| Retention.RowIsMissingIff | src/PcPulse.Service/src/storage.rs:561-575 | at every point of every run, an open or remembered incident has no row, in the table or the waiting delta, if and only if an expiry took it and nothing about the incident has been sent since |
| Backing.ExpiryKeepsOpenRowsIff | src/PcPulse.Service/src/storage.rs:561-575 | all open alerts keep their rows over an expiry if and only if none was last seen before the cutoff |
| Backing.ExpiryKeepsSoundIff | src/PcPulse.Service/src/storage.rs:561-575 | the agreement survives an expiry if and only if it reaches no row of an open or remembered incident |
| StaleDeltas.AlertSinceRecord | src/PcPulse.Service/src/runtime.rs:230-257 | an open alert is the last record sent of it with the flags the engine heard of since |
| StaleDeltas.RowSinceRecord | src/PcPulse.Service/src/runtime.rs:1351 | the row of an incident, open or resolved, is the last record sent of it with the flags that have landed since; those that met it waiting are not among them |
| StaleDeltas.DisagreeIffParted | src/PcPulse.Service/src/runtime.rs:230-257 | engine and table differ about an open incident exactly when the flags heard and the flags landed since its last record make different things of it |
| StaleDeltas.FlagsAreLostIff | src/PcPulse.Service/src/runtime.rs:1020-1042 | with no flag in flight they differ if and only if a flag arrived between an evaluation that sent a record and its upsert, nothing has been sent of the incident since, and no later flag made up for it |
| StaleDeltas.RunStaysSound | src/PcPulse.Service/src/runtime.rs:1020-1042 | at every point of every run, the waiting delta counted in, engine and table agree in full if and only if no incident the engine stands for is missing its row and no open one has its flags parted |
| StaleDeltas.DeltasAreComplete | src/PcPulse.Service/src/storage.rs:204-234 | at every point of every run the unresolved rows are open alerts, each open alert has its row unless an expiry took it and nothing has been sent about it since, and the row is the alert field for field, flags aside, and in its flags unless they have parted |
| LostFlag.OpenIncidentDisagrees | src/PcPulse.Service/src/runtime.rs:1351 | a run in which an acknowledgement of an open incident stands in the engine and not in the table |
| LostFlag.ResolvedIncidentForgetsItsUser | src/PcPulse.Service/src/runtime.rs:1351 | a run in which the row of a resolved incident ends up unacknowledged after the user acknowledged it |
| Retention.IdentitiesStayApart | src/PcPulse.Service/src/alerting.rs:1330-1379 | open and remembered fingerprints are disjoint and no id ever stands for two fingerprints |
| Backing.RestartReattaches | src/PcPulse.Service/src/runtime.rs:641-645 | after a restart a formerly open fingerprint remembers exactly its incident if its row is there, and nothing if not, as long as no more rows are closed at that instant than the query returns |
| Backing.RestartKeepsMemories | src/PcPulse.Service/src/alerting.rs:462-491 | a remembered incident is still remembered after a restart exactly when its row is there and its quiet period lasts, as long as no more rows are as recent than the query returns |
| Retention.RestartsForgetIff | src/PcPulse.Service/src/runtime.rs:641-645 | over whole runs, with no delta waiting, a restart forgets an open incident if and only if an expiry took its row |
| Retention.CrashesUndoTheEvaluation | src/PcPulse.Service/src/runtime.rs:1351 | a restart with a delta waiting recalls, for every fingerprint, exactly what a restart before that evaluation would have |
| ForgottenIncident.OpenIncidentIsForgotten | src/PcPulse.Service/src/runtime.rs:1404-1406 | a run from an empty table in which an open incident is forgotten |
| GrowthWatch.GrowthWatcher.Evaluate | src/PcPulse.Service/src/alerting.rs:616-902 | one evaluation is the processes' visits one after the other, then the retention of what still lives |
| GrowthWatch.GrowthWatcher.Visit | src/PcPulse.Service/src/alerting.rs:621-902 | one process's visit: ring, window, shapes, run clocks, quarantine and findings |
| GrowthWatch.GrowthWatcher.UpdateWindow | src/PcPulse.Service/src/alerting.rs:730-801 | a window is refreshed, surrendered, opened or refused by the watch rules |
| GrowthWatch.GrowthWatcher.EvictWeakest | src/PcPulse.Service/src/alerting.rs:1911-1922 | the weakest unprotected window makes room for a newcomer pushing harder or breaching, and otherwise nothing moves |
| GrowthWatch.GrowthWatcher.NoteShape | src/PcPulse.Service/src/alerting.rs:820-836 | a shape is published, and its run clock kept, started or stopped |
| GrowthWatch.PriorIsTheFirstAMinuteOld | src/PcPulse.Service/src/alerting.rs:638-641 | a delta is measured against the first point at least a minute old, or the oldest if none is |
| Rings.SpansItsPast | src/PcPulse.Service/src/alerting.rs:631-637 | of entries in time order a ring or window keeps exactly those within its span |
| GrowthRuns.NeverOverTheCap | src/PcPulse.Service/src/alerting.rs:758-766 | in every state of every run at most thirty-two windows are kept |
| GrowthRuns.WindowsLeaveByTheRules | src/PcPulse.Service/src/alerting.rs:736-801 | on one visit a window leaves only by cooling or by eviction of an unprotected weakest, and otherwise keeps its norm |
| GrowthRuns.WindowsFollowTheirLooks | src/PcPulse.Service/src/alerting.rs:736-801 | in any history, the window of a living process that is not evicted is what the visits make of it, its norm unchanged, and gone exactly when they cool it |
| GrowthRuns.RoomIsMadeByTheRules | src/PcPulse.Service/src/alerting.rs:1911-1922 | within an evaluation a window is evicted only from a full list, unprotected and weakest, for a newcomer pushing harder or breaching |
| GrowthRuns.NewcomersArePlaced | src/PcPulse.Service/src/alerting.rs:758-766 | a process worth watching gets a window exactly when there is a place, however ties are broken |
| GrowthRuns.BreachesAreTurnedAwayOnlyWhenAllAreProtected | src/PcPulse.Service/src/alerting.rs:1911-1922 | a breaching newcomer is refused exactly when all thirty-two windows are protected |
| GrowthRuns.CoolsExactlyAfterAFullHold | src/PcPulse.Service/src/alerting.rs:731-741 | in any history, such a window is surrendered exactly when its visits end in an unbroken quiet stretch that spans the hold of the last |
| GrowthRuns.WatchMakesGrowthRuns | src/PcPulse.Service/src/alerting.rs:820-846 | the run clock is the published run of monotonic shapes, and findings are banded by it |
| GrowthRuns.LeaksProveThemselvesFirst | src/PcPulse.Service/src/alerting.rs:841-902 | end to end, an incident fed by the watch notifies only after thirty published minutes of climbing |
| KernelPressure.P95Window.Push | src/PcPulse.Service/src/alerting.rs:1177-1188 | a reading is appended, readings older than fifteen minutes and beyond the cap go |
| KernelPressure.P95Window.SustainedAboveP95 | src/PcPulse.Service/src/alerting.rs:546-560 | the gate's three tests over the window |
| KernelPressure.WindowIsTheRecentPast | src/PcPulse.Service/src/alerting.rs:1177-1188 | over any history in time order the window holds the readings of the last fifteen minutes, up to the newest 2,048 |
| KernelPressure.GateNeedsAnExactReading | src/PcPulse.Service/src/alerting.rs:546-560 | over any such history the gate is open if and only if a reading among the newest 2,048 was taken exactly fifteen minutes earlier and both fractions are met |
| KernelPressure.SteadyPressureOpensIff | src/PcPulse.Service/src/alerting.rs:546-560 | under constant pressure at a steady interval it opens if and only if a quarter hour has passed and the interval divides it |
| Launches.LaunchTracker.OnStartEvent | src/PcPulse.Service/src/launches.rs:335-409 | a start opens a row with its lineage and takes over its pid, unless its row is already pending |
| Launches.LaunchTracker.OnStopEvent | src/PcPulse.Service/src/launches.rs:489-520 | a stop closes the row its pid leads to, or is an orphan |
| Launches.LaunchTracker.ObserveWindow | src/PcPulse.Service/src/launches.rs:522-529 | a window sample marks the row its pid leads to |
| Launches.LaunchTracker.DrainFlushable | src/PcPulse.Service/src/launches.rs:536-570 | finished rows leave, stale ones are evicted, old open ones are reported once, each at most once per drain |
| Launches.LaunchTracker.BuildLineage | src/PcPulse.Service/src/launches.rs:418-453 | the walk up the ancestors |
| Launches.LookupIsReuseProof | src/PcPulse.Service/src/launches.rs:461-474 | an ancestor resolves to the launch of its pid alive at the time, if the ring has one |
| Launches.LineageIsAChain | src/PcPulse.Service/src/launches.rs:418-453 | each ancestor is the parent of the one before, and only an unknown one cuts the walk short |
| LaunchHistory.AlwaysIndexed | src/PcPulse.Service/src/launches.rs:254-263 | over every run the pid index leads to pending rows without a stop |
| LaunchHistory.RoutesHold | src/PcPulse.Service/src/launches.rs:522-529 | a row that the trace routes its pid to has exactly the samples and reports the trace implies |
| LaunchHistory.RoutedWasBorn | src/PcPulse.Service/src/launches.rs:405-408 | and only such a row has its pid routed to it |
| LaunchHistory.PendingIff | src/PcPulse.Service/src/launches.rs:536-570 | a row is pending if and only if the trace has it still routed to, overtaken by a newer launch and not stale, or stopped and not drained |
| LaunchHistory.AcceptedUnlessExplained | src/PcPulse.Service/src/launches.rs:335-383 | a start is accepted unless the events before it explain a pending row under its key, so acceptance is a matter of the trace |
| LaunchHistory.FinalRowsAreTraced | src/PcPulse.Service/src/launches.rs:489-555 | a finished row is handed out exactly when the trace holds its start, the first stop with nothing diverting between, and no drain since, and it carries just those |
| LaunchHistory.OvertakenNeverFinishes | src/PcPulse.Service/src/launches.rs:405-408 | a launch that lost its pid to a newer one is never finished |
| LaunchHistory.RunningRowsAreTraced | src/PcPulse.Service/src/launches.rs:548-553 | a launch is reported running exactly when open, of the right age and not reported before |
| LaunchHistory.RunningThenFinal | src/PcPulse.Service/src/launches.rs:536-570 | a row is handed out at most twice, running and then finished |
| LaunchHistory.FinishedAtMostOnce | src/PcPulse.Service/src/launches.rs:536-570 | without redelivery after a drain, a launch is finished at most once in a whole run |
| LaunchHistory.NothingIsLost | src/PcPulse.Service/src/launches.rs:575-584 | accepted starts are pending, persisted or evicted; stops are orphans, persisted or waiting; the seen counters count the trace |
| LaunchHistory.RingIsTheRecentPast | src/PcPulse.Service/src/launches.rs:374-383 | the lineage ring is the most recent accepted launches, as many as fit |
| Joiner.CmdlineJoiner.Offer | src/PcPulse.Service/src/launches.rs:648-660 | only the redaction of a line is kept, the oldest capture giving way at the cap |
| Joiner.CmdlineJoiner.EvictOlderThan | src/PcPulse.Service/src/launches.rs:670-678 | the run of expired captures at the front goes and is counted |
| Joiner.CmdlineJoiner.Attach | src/PcPulse.Service/src/launches.rs:690-705 | a launch takes its closest fitting capture out of the ring, or nothing |
| Joiner.CmdlineJoiner.AttachToRecent | src/PcPulse.Service/src/launches.rs:722-757 | remembered launches claim in order, each the closest capture still there |
| Joiner.CmdlineJoiner.Clear | src/PcPulse.Service/src/launches.rs:765-767 | withdrawing consent drops every pending capture |
| Joiner.ClosestIsClosest | src/PcPulse.Service/src/launches.rs:690-700 | a capture is found exactly when one fits, and then none is nearer |
| Rings.FrontScanIsExact | src/PcPulse.Service/src/launches.rs:670-678 | scanning from the front evicts exactly the expired entries if and only if none is stuck behind a younger one |
| Joiner.ClaimsComeOutOfTheRing | src/PcPulse.Service/src/launches.rs:722-757 | a pass moves captures from the ring to claims, each once, all of the same pid and within the join window |
| Joiner.EachClaimsAtMostOnce | src/PcPulse.Service/src/launches.rs:722-757 | in one pass each remembered launch claims at most once |
| Joiner.PassIsMaximal | src/PcPulse.Service/src/launches.rs:722-757 | a launch that a remaining capture would fit has claimed one at least as near |
| Joiner.StealingIsPossibleIff | src/PcPulse.Service/src/launches.rs:717-720 | the elder of two launches can take a capture nearer to the younger exactly when their starts are less than two join windows apart |
| Joiner.OnlyNearbyEldersSteal | src/PcPulse.Service/src/launches.rs:717-720 | in any pass over any ring a capture goes to a launch farther from it only if the two start less than two join windows apart, and leaves the nearer without one as near only if the other came first |
| Joiner.CapturesAreConserved | src/PcPulse.Service/src/launches.rs:648-767 | over any run every capture offered is in the ring, claimed once, evicted or cleared, and the ring keeps to its cap |
| Joiner.RecentLaunches.Remember | src/PcPulse.Service/src/launches.rs:853-862 | an identity is appended, the oldest giving way at the cap |
| Joiner.RecentLaunches.EvictOlderThan | src/PcPulse.Service/src/launches.rs:873-880 | the run of identities saved too long ago at the front goes |
| Grouping.FillBuckets | src/PcPulse.Service/src/launches.rs:1076-1083 | one bucket per executable and launcher chain, its launches in order |
| Grouping.BucketsPartition | src/PcPulse.Service/src/launches.rs:1076-1083 | every launch is counted in exactly one group |
| Grouping.BuildGroup | src/PcPulse.Service/src/launches.rs:1000-1056 | a group's statistics, its four window counts adding up to its size |
| Grouping.GroupDescribesItsBucket | src/PcPulse.Service/src/launches.rs:1000-1056 | first and last are starts that bound all others, and a mean duration never exceeds the longest |
| Grouping.MedianSplits | src/PcPulse.Service/src/launches.rs:964-995 | a median interval is not negative and splits the gaps in half |
| Grouping.GroupLaunches | src/PcPulse.Service/src/launches.rs:1071-1127 | the best groups in rank order, as many as asked for |
| Grouping.AnswerIsDeterministic | src/PcPulse.Service/src/launches.rs:1107-1120 | there is one answer, whatever order the hash map is walked in |
| Quantiles.P2Marker.Observe | src/PcPulse.Service/src/stats.rs:45-97 | the arrays are updated in place to the specified marker of the longer stream |
| Quantiles.P2Marker.Quantile | src/PcPulse.Service/src/stats.rs:114-116 | a quantile from five observations on: the middle height of the specified marker, within the extremes seen |
| Quantiles.PercentileSketch.Observe | src/PcPulse.Service/src/stats.rs:159-164 | an observation feeds all three markers the same stream |
| Quantiles.PercentileSketch.Quantile | src/PcPulse.Service/src/stats.rs:169-185 | the three quantiles it keeps a marker for, from five observations on, and nothing for any other |
| Quantiles.Settle | src/PcPulse.Service/src/stats.rs:45-112 | one observation keeps positions whole and strictly increasing from one to the count, heights ordered, and ends at the extremes |
| Quantiles.After | src/PcPulse.Service/src/stats.rs:45-97 | after any stream of five or more, the marker invariant holds, with ends at the stream's least and greatest |
| Quantiles.SomeCellHolds | src/PcPulse.Service/src/stats.rs:62-73 | every value between the extremes falls in some cell, so the fallback is unreachable |
| Quantiles.LinearStaysBetween | src/PcPulse.Service/src/stats.rs:107-112 | the linear adjustment stays between the neighbouring heights |
| Quantiles.ParabolicInterpolates | src/PcPulse.Service/src/stats.rs:99-105 | the parabolic adjustment lands on any parabola that passes through the marker and its neighbours |
| Quantiles.AdjustKeepsOrder | src/PcPulse.Service/src/stats.rs:77-96 | an adjustment, parabolic or linear, keeps positions and heights in order |
| Quantiles.IdealIsProportional | src/PcPulse.Service/src/stats.rs:33-43 | desired positions are one plus the count less one times the increment |
| Quantiles.QuantileWithinExtremes | src/PcPulse.Service/src/stats.rs:114-116 | every reported quantile lies between the least and greatest value seen |
| Trend.SegmentMean | src/PcPulse.Service/src/stats.rs:244-256 | the mean of a segment, zero when it is empty |
| Trend.ThirdsPartition | src/PcPulse.Service/src/stats.rs:260-280 | every point is counted in exactly one third |
| Trend.NoReleaseWithoutAFall | src/PcPulse.Service/src/stats.rs:282-305 | values that never fall are never classified as returning or released, and a monotonic growth is at least two steps |
| Trend.ShapeIgnoresLevel | src/PcPulse.Service/src/stats.rs:260-305 | with a populated middle third, a constant added to all values leaves the shape unchanged |
| Trend.ReleaseIsElevatedUnlessUndershot | src/PcPulse.Service/src/stats.rs:282-305 | when exactly, over the three means, a series is a partial release with a positive and when with a negative remainder; never with none |
| Trend.UndershootTakesAFall | src/PcPulse.Service/src/stats.rs:205-230 | a negative remainder takes a value of the last third below one of the first by more than the tolerance |
| Trend.AnUndershootIsAPartialRelease | src/PcPulse.Service/src/stats.rs:260-305 | six points over six minutes that end below their start and are classified as partly released |
| Baselines.RunningStats.Fold | src/PcPulse.Service/src/baselines.rs:80-96 | one sample folded into count, mean and variance |
| Baselines.LearnedStaysInRange | src/PcPulse.Service/src/baselines.rs:80-96 | for every stream the mean stays within the extremes seen and the variance is not negative |
| Baselines.WarmUpIsExact | src/PcPulse.Service/src/baselines.rs:80-96 | for the first twenty-nine samples mean and variance are the arithmetic mean and population variance |
| Baselines.BeyondIsBeyondTheRoot | src/PcPulse.Service/src/baselines.rs:98-104 | comparing squares decides exactly as the comparison with the root, for every sign |
| Baselines.RampGapBounded | src/PcPulse.Service/src/baselines.rs:79-96 | a steady ramp never gets more than twenty slopes ahead of its mean |
| Baselines.RampHidesItself | src/PcPulse.Service/src/baselines.rs:98-104 | from the sixteenth reading on no steady ramp deviates from what it has taught, at any slope, for every sigma with seven sigma squared at least twenty-four |
| Baselines.ThreeSigmaIsBlindToRamps | src/PcPulse.Service/src/baselines.rs:98-104 | so none does at three standard deviations or more |
| Baselines.BlindSigmas | src/PcPulse.Service/src/baselines.rs:98-104 | the sigmas blind to every ramp are exactly those |
| Baselines.FrozenNormCatchesTheRamp | src/PcPulse.Service/src/alerting.rs:146-172 | against a norm frozen beforehand the same ramp is flagged from some reading on, for good |
| BaselineStores.MachineBaseline.Observe | src/PcPulse.Service/src/baselines.rs:185-211 | a sample credits the capped gap since the previous one |
| BaselineStores.MachineBaseline.Restore | src/PcPulse.Service/src/baselines.rs:223-231 | loading forgets the previous sample and estimates an unmeasured row |
| BaselineStores.LearningIsCappedCredit | src/PcPulse.Service/src/baselines.rs:203-211 | within a run learned time is the sum of the capped gaps, itself capped |
| BaselineStores.LearningIsEarnedBySamples | src/PcPulse.Service/src/baselines.rs:203-231 | over any run with restarts and suspends no sample is worth more than a minute, and learned time never goes back |
| BaselineStores.BaselineStore.ObserveProcess | src/PcPulse.Service/src/baselines.rs:337-346 | one sighting feeds one age bucket of one name, a least observed name giving way above the cap |
| BaselineStores.CapHolds | src/PcPulse.Service/src/baselines.rs:337-357 | an observation never takes the store past the larger of the cap and its size |
| BaselineStores.NewcomerStaysIffRoom | src/PcPulse.Service/src/baselines.rs:337-357 | a newcomer can stay exactly when there is room or some name has been seen at most once; otherwise nothing changes |
| BaselineStores.FullHouseIsClosed | src/PcPulse.Service/src/baselines.rs:337-357 | a store full of names seen twice keeps those names for good |
| BaselineStores.NormsAreTheirHistories | src/PcPulse.Service/src/baselines.rs:291-346 | while the names fit, every bucket and channel of every name holds the statistics of exactly what it was shown |
| Quality.ScoreIsNormalized | src/PcPulse.Service/src/quality.rs:339-396 | every part of a score lies between zero and one |
| Quality.PersistenceIsEarned | src/PcPulse.Service/src/quality.rs:339-345 | persistence is complete exactly from three sustained windows on, and clears the plain floor exactly from one and a half |
| Quality.ConfidenceFollowsTheEvidence | src/PcPulse.Service/src/quality.rs:347-356 | more maturity, more occurrences or better attribution never lower the confidence |
| Quality.UnattributedNeedsNineOccurrences | src/PcPulse.Service/src/quality.rs:347-356 | with no maturity and no attribution the plain floor is cleared exactly from nine occurrences on |
| Quality.SignalsCloseHalfTheGap | src/PcPulse.Service/src/quality.rs:363-369 | each further signal closes half the remaining gap, corroborating and user-impact ones alike |
| Quality.NoveltyOnlyFalls | src/PcPulse.Service/src/quality.rs:371-396 | full novelty until the user is told, and then never more as time goes by and occurrences mount |
| Quality.DeriveOffsets | src/PcPulse.Service/src/quality.rs:194-237 | the folded offsets are the closed form, term by term |
| Quality.OrderIsImmaterial | src/PcPulse.Service/src/quality.rs:194-237 | the order of the ratings does not matter |
| Quality.OnlyOwnBucketCounts | src/PcPulse.Service/src/quality.rs:194-237 | only ratings of the same demand bucket matter |
| Quality.LookupClosedForm | src/PcPulse.Service/src/quality.rs:109-123 | a lookup is the difference of the two capped sums, within the bound, so its own clamp changes nothing |
| Quality.OneMoreRating | src/PcPulse.Service/src/quality.rs:194-237 | what one more rating does to an offset |
| Quality.StricterOffsetNeverPromotes | src/PcPulse.Service/src/quality.rs:412-434 | a higher offset never turns a silent decision into a notifying one |
| Etw.ParseMofProcessStart | src/PcPulse.Service/src/etw.rs:957-987 | the parser that advances an offset computes the specified parse |
| Etw.ReadWideString | src/PcPulse.Service/src/etw.rs:1024-1037 | code units up to the first zero one, or nothing |
| Etw.EncodedParsesBack | src/PcPulse.Service/src/etw.rs:1133-1169 | an encoded start, whatever follows it, parses back to its pid and line and ends where it ended |
| Etw.AcceptedWasEncoded | src/PcPulse.Service/src/etw.rs:957-987 | every accepted payload is an encoding, with something after it perhaps |
| Etw.AcceptanceHasOneLength | src/PcPulse.Service/src/etw.rs:989-1037 | a payload cut before its end is refused, and cut or extended after it reads the same |
| Etw.EncodingsAreExact | src/PcPulse.Service/src/etw.rs:1133-1169 | every strict prefix of an encoding is refused, any extension reads the same |
| Redact.ComputeInQuotes | src/PcPulse.Service/src/redact.rs:110-122 | which positions lie inside double quotes, by parity |
| Redact.RedactVocabulary | src/PcPulse.Service/src/redact.rs:151-238 | pass one computes its specified text and count |
| Redact.RedactLongOpaqueRuns | src/PcPulse.Service/src/redact.rs:330-394 | pass two computes its specified text and count |
| Redact.RedactUrlUserInfo | src/PcPulse.Service/src/redact.rs:509-547 | the first half of pass three computes its specified text and count |
| Redact.RedactUrlQuery | src/PcPulse.Service/src/redact.rs:555-602 | the second half computes its specified text and count |
| Redact.RedactConnectionStrings | src/PcPulse.Service/src/redact.rs:644-682 | pass four computes its specified text and count |
| Redact.FindConnectionValueEnd | src/PcPulse.Service/src/redact.rs:686-730 | where a connection-string value ends |
| Redact.RedactCommandLine | src/PcPulse.Service/src/redact.rs:55-70 | the passes in order, with the truncation marker |
| RedactEdits.VocabularyIsAnEdit | src/PcPulse.Service/src/redact.rs:151-238 | pass one replaces as many disjoint non-empty spans as it counts and keeps everything else in order |
| RedactEdits.NamedTokenIsFound | src/PcPulse.Service/src/redact.rs:166-209 | outside quotes a credential's name, a separator and a token are always found, and exactly the token goes |
| RedactEdits.FlaggedTokenIsFound | src/PcPulse.Service/src/redact.rs:210-230 | after a flag that names a credential the token goes without a separator |
| RedactEdits.PartsAreAnEdit | src/PcPulse.Service/src/redact.rs:355-386 | splitting at separators and joining up again loses nothing |
| RedactEdits.RunsGoWhole | src/PcPulse.Service/src/redact.rs:454-481 | a run of opaque characters goes whole, exactly when it is long enough and looks opaque |
| RedactEdits.OpaqueRunsAreAnEdit | src/PcPulse.Service/src/redact.rs:330-481 | pass two replaces only runs of twenty or more opaque characters, through all its splitting |
| RedactEdits.UserInfoIsAnEdit | src/PcPulse.Service/src/redact.rs:509-547 | user information that is cut holds no `@` and no slash |
| RedactEdits.QueryValuesAreAnEdit | src/PcPulse.Service/src/redact.rs:555-602 | a query value that is cut holds no space and no `&` |
| RedactEdits.ConnectionsAreAnEdit | src/PcPulse.Service/src/redact.rs:644-682 | pass four replaces only non-empty values that are not already the token |
| RedactEdits.RedactionIsSpanEdits | src/PcPulse.Service/src/redact.rs:55-70 | the whole redaction is five such edits in turn, and the count is the number of spans replaced by all of them |
| RedactEdits.LengthsBalance | src/PcPulse.Service/src/redact.rs:55-70 | what an edit takes out and puts in accounts for the change in length |
| RedactEdits.NothingCountedNothingChanged | src/PcPulse.Service/src/redact.rs:55-70 | an untruncated line with nothing counted comes back as it was |
| RedactEdits.TokenIsLeftAloneIff | src/PcPulse.Service/src/redact.rs:686-730 | inside quotes and outside, when exactly pass four takes an earlier token for the whole value; else it takes more |
| RedactEdits.TokenIsCountedAgainIff | src/PcPulse.Service/src/redact.rs:644-682 | behind one of its keys, a token is replaced together with what follows and counted once more exactly when it does not stand alone |
| RedactEdits.OneValueCountedTwice | src/PcPulse.Service/src/redact.rs:55-70 | the command line `pwd=a b;`, with one secret, is reported with a count of two |
| Retakes.OpaqueRunIsClean | src/PcPulse.Service/src/redact.rs:454-481 | a run that pass two cuts neither holds nor touches a token |
| Retakes.TakenByUserInfoIff | src/PcPulse.Service/src/redact.rs:509-547 | the first half of pass three takes a token again exactly when it stands in an authority with an `@` after it before any slash |
| Retakes.TakenByQueryIff | src/PcPulse.Service/src/redact.rs:555-602 | the second half exactly when it stands in the value of a `?` or `&` key that holds a vocabulary word |
| Retakes.TakenByConnectionsIff | src/PcPulse.Service/src/redact.rs:644-682 | pass four exactly when its scan comes to a key whose value holds the token and more |
| Retakes.CommandLineIsOneEdit | src/PcPulse.Service/src/redact.rs:55-70 | the final text is one edit of the given line; the count is its spans and the tokens taken again, so it is the number of its spans if and only if no later pass took a token |
| Retakes.TokenIsTakenAgainIff | src/PcPulse.Service/src/redact.rs:509-682 | pass by pass, a token is among those taken again exactly when it stands where the pass looks for values |
| CountedTwice.QueryIsCountedTwice | src/PcPulse.Service/src/redact.rs:555-602 | the command line `?xpwd=a`, with one secret, is reported with a count of two |
| CountedTwice.UserInfoIsCountedTwice | src/PcPulse.Service/src/redact.rs:509-547 | the command line `://pwd="a"@h`, with one secret, is reported with a count of two |

## Left out

- Retention.RunStaysBacked: supposes at each restart within a run that at most 5,000 incidents were resolved within the quiet period, because the seed query stops at that many rows and what it drops is lost to the engine; of a single restart `Backing.RestartReattaches` asks it only of the rows closed at that instant, which were the open ones.
- Retention.RunStaysBacked: supposes distinct candidate keys in one evaluation, times that do not go back, and identifiers that are never drawn twice, because the service derives keys from its process table, reads the system clock and draws random UUIDs.
- Retention.RunStaysBacked: has one flag on its way at a time, as the pipe server handles one request after the other; a storage call that fails is modelled for the upsert, which ends the service, and not for a flag.
- StaleDeltas.FlagsAreLostIff: supposes that no flag is in flight at either end of the stretch it speaks of; `StaleDeltas.DisagreeIffParted` is the exact condition without that.
- StaleDeltas.DeltasAreComplete: speaks of the alert engine's own rows; the crash-dump scanner upserts unresolved rows of its own into the same table, under its own fingerprints, and they are not part of this model.
- StaleDeltas.DeltasAreComplete: speaks of the records as the engine delivers them; before the upsert the runtime adds evidence rows from its forensics and interrupt engines (src/PcPulse.Service/src/runtime.rs:1327-1342), which no later evaluation reads back.
- LaunchHistory.FinishedAtMostOnce: supposes that no start is delivered again after its row was drained, because the tracker would open a new row for it; the other launch theorems need no such hypothesis.
- GrowthRuns.CoolsExactlyAfterAFullHold: supposes that sample times do not go back, as they do not on the system clock.
- GrowthRuns.LeaksProveThemselvesFirst: supposes that a process appears once in an evaluation, as it does in a process table.
- Alerting.AlertEngine.Evaluate: takes the detectors' candidates, readings, shapes and pressure window as input, because their thresholds are one-branch conditions; the growth detectors are modelled in `GrowthWatch`, which the source keeps in the same class.
- Alerting.AlertEngine.Evaluate: leaves out the sorted copy of the open alerts it also returns and the decorations the runtime adds to a delta afterwards.
- Redact.RedactCommandLine: takes the text after truncation at a byte boundary, with a flag that says whether anything was dropped, because UTF-8 lengths are not modelled.
- Retakes.CommandLineIsOneEdit: supposes of the white-space table that neither the equals sign nor a letter of the token is in it, as in Unicode's.
- Redact.RedactVocabulary: lowercases ASCII letters only, as the source does, and takes the alphanumeric and white-space tables of Unicode as parameters.
- Etw.ReadWideString: leaves the code units undecoded, because replacing broken surrogates is a matter of the text library.
- Etw.AcceptedWasEncoded: covers pointers of two bytes and more; the caller only ever passes four or eight.
- Launches.LaunchTracker.OnStartEvent: takes the image path as already mapped to a drive, because the device map and its rebuilding are calls into Windows.
- Grouping.GroupLaunches: sorts by repeated selection where the source calls a library sort, and takes Unicode lowercasing as a parameter.
- BaselineStores.MachineBaseline.Restore: supposes that the persisted row is current; the JSON round trip and rows that fail to parse are left out.
- BaselineStores.BaselineStore.ObserveProcess: keeps the statistics of a bucket as values in the map instead of nested objects updated in place, which aliasing cannot tell apart because no two buckets share one.
- Quality.DeriveOffsets: takes the halving of a rating's weight with age as an arbitrary function into the half-open interval from zero to one.
- Rounding, infinities and not-a-number in floating point, and wrap-around of 64-bit times; counters of 32 bits saturate as in the source.
- Evidence texts, titles and recommendations, which are opaque values here.
- The rating vote, event-log rollups, analysis and background planning: small classifications easier than what is here.
- Trace sessions, encryption, the pipe, the service shell, the collectors, the schema and the user interface.
