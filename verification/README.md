# RTACE: delivery, idempotence and detection state, verified

RTACE is a fraud pipeline over Kafka and Redis. Transactions and logins arrive on Kafka;
the detection engine keeps replay keys, sliding windows and a trusted location per user in
Redis and emits detections; the containment engine turns detections into rules
(quarantine, address block, step-up); a synchronous decision service scores requests over
the same state. This project models those parts in Dafny and proves what they promise over
every input, every run and every interleaving.

`dafny verify dfyconfig.toml` checks everything.

## How it is organised

| part | modules |
|---|---|
| shared values | `Wrappers`, `Events`, `Messages`, `Identity` (the text behind references and ids) |
| windows and the two Lua scripts | `SlidingWindow`, `TxCheck`, `AuthCheck` |
| whole runs of the scripts | `TxRuns`, `TrustedBaseline` |
| the asynchronous engine | `Pipeline` (specification), `DetectionPipeline` (as it runs), `BatchLaws`, `BatchMeaning`, `BatchRerun`, `DetectorMeaning`, `Cooldown` |
| the decision service and the shared store | `Decision`, `SharedState` |
| containment | `Containment` (policy), `ContainmentProtocol`, `ContainmentLaws`, `ContainmentWorker` |
| at-least-once delivery | `KafkaProducer`, `BatchHandling`, `ConsumerLoop` |
| the engines' handlers, in the loop and end to end | `Services`, `DetectionLoop`, `EndToEnd` |

Code that updates state in place is a class or a method with loops, proved equal to a
specification function; the laws are lemmas about those functions. Concurrency is a state
machine whose steps are single Redis commands (`ContainmentProtocol`) or loop actions
(`EndToEnd`).

## Main results

- **End to end** (`EndToEnd.CommittedMeansContained`): a committed detection record has been
  contained, by exactly one EXEC while its receipt lasts, or needs no containment, or is
  dead-lettered.
- **Linearizable containment** (`ContainmentProtocol.Linearizable`), exactly once per
  detection id (`ContainmentLaws.ExactlyOnce`), geo escalation without races
  (`ContainmentLaws.GeoEscalationCannotRace`) and a retry bound
  (`ContainmentLaws.RetryBound`, `ContainmentWorker.ApplyContainment`).
- **Commit safety** over crashes, restarts, failed commits and shutdown
  (`ConsumerLoop.RunLifetimes`) and conservation of records (`BatchHandling.Conservation`).
- **Batching preserves meaning** (`BatchLaws.BatchIsSequential`), and interrupted or
  undelivered batches can be run again (`TxRuns.RetriesLeaveNoTrace`,
  `BatchRerun.UndeliveredBatchRepeats`).
- **Detections mean what they say** record by record (`BatchMeaning`) and in terms of plain
  history (`DetectorMeaning`), with the
  trusted path within the speed bound (`TrustedBaseline.TrustedSpeedBound`).
- **Both scoring paths agree** (`SharedState.PathsAgree`,
  `SharedState.AskingFirstFindsTheSame`); refused events leave no trace
  (`SharedState.RefusedLeaveNoTrace`).

## Where the code and its documentation differ

- The repository's own README.md, line 433, says that a crash between handling a record and
  delivering its detection only means redelivery. A crash after the cooldown was claimed and
  before delivery leaves the claim behind: the record is redelivered, but its detection is
  suppressed until the claim expires and the offset can then be committed without it.
  `BatchRerun.CrashAfterClaimSilences` and `BatchRerun.CrashKeepsEmissionIff` give the exact
  conditions, `BatchRerun.LostReplayExample` a batch. The release on a failed delivery that
  the process survives does restore the store (`Cooldown.ReleaseUndoesClaim`), and as long
  as no process dies in that window nothing is lost (`DetectionLoop.HandleBatchWithRetry`,
  `Cooldown.SuppressedBecause`).
- The repository's own README.md, line 488, says that the findings of a pre-scored event are
  re-emitted as detections. A decision request that dies after the script and before
  decision-service/internal/decision/engine.go:294 has stored the answer owns the replay key
  with nothing stored: deliveries of the event are pre-scored and report nothing until some
  request for it is answered (`SharedState.CrashHidesFindings`,
  `SharedState.CrashLosesFindingsUnlessRetried`).
- The repository's own README.md, lines 478 and 488, presents the two paths as one check. They
  agree when the decision request comes first. When the Kafka record is handled first, the
  request for the same event is scored as a replay of itself and, under the default
  thresholds, denied (`SharedState.DeliveryFirstDeniesRequest`).
- detection_engine/cooldown.py:72-76 deletes by key without comparing the owner. A release
  takes another process's claim exactly when its own claim had lapsed
  (`Cooldown.ReleaseTakesForeignClaimIff`), which takes an expiry (`Cooldown.LapseNeedsExpiry`);
  `Cooldown.LateReleaseAfterExpiry` is such a run.
- decision-service/internal/decision/engine.go:258 calls a retry of a decided event cached.
  That needs the same timestamp (`SharedState.RetryIsCachedIff`), and the verdict is the
  stored one exactly as long as no request reuses the event id for a payload the decision
  service does not own for it (`SharedState.RetryReturnsStoredIff`).
- common/kafka_client.py:126-127 says that every downstream write is idempotent, so that a
  batch may be retried. For replay keys and windows it is; the baseline need not be when
  timestamps of a user are out of order (`TrustedBaseline.UnorderedRerunMovesBaseline`).
  `TxRuns.RunTwiceIff` says exactly when a second run changes nothing, and with timestamps
  in order any number of interrupted runs does not (`TxRuns.RetriesLeaveNoTrace`).

That an anomaly is not excused by later baselines (`TrustedBaseline.FlagIsNotExcused`) is
proved for gaps of at least the minimum time; `TrustedBaseline.ShortHopExcusesFlag` shows
what a shorter one can do, and `TrustedBaseline.FlagOutlastsPath` bounds it.

## Modelling choices

- SHA-256 and UUIDv5 (section 5.5 of RFC 9562) are injective: a replay hash or a detection
  id is the tuple it hashes. Delivery references are values of a datatype; `Identity` proves
  that their text, and that of detection ids, tells the same values apart.
- Time, coordinates and speeds are `real`; the distance is any metric, the maximum speed is
  not negative. Amounts are held at the two decimals the replay hash keeps.
- A key's expiry is a step of its own (`ContainmentProtocol`, `Cooldown`) or a deadline
  (`SlidingWindow`). Theorems that need a key to last say so in their hypotheses; the run
  theorems over script stores are about runs in which nothing expires.
- A validated record is what the two schemas make of it; JSON decoding is one of tombstone,
  undecodable or value.
- The broker acknowledges or fails a pending send at any moment. Handler behaviour, retry
  and shutdown times, foreign Redis writes and the clock are inputs, so every schedule is
  covered.
- A failed Redis pipeline is taken to have had no effect on cooldown keys.

## Model

| member | source | states |
|---|---|---|
| `SlidingWindow.WindowRefinesHistory` | lua/tx_check.lua:66-70 | For every call sequence in any order, an id is in the sorted set with score s iff s is the time of its latest call (or its starting score) and exceeds the cutoff of every later call. |
| `SlidingWindow.CountIsExactAtFrontier` | lua/tx_check.lua:66-71 | The count returned by a call not older than the calls before it is the number of distinct ids in (now − window, now]. |
| `SlidingWindow.CountIgnoresRedelivery` | lua/tx_check.lua:68-70 | Two call histories over the same set of events, however reordered or repeated, give the same count. |
| `SlidingWindow.RerunWindow` | lua/tx_check.lua:68-69 | Any prefix of the calls followed by all of them leaves the window as all of them once. |
| `SlidingWindow.ExpiryDropsOnlyStale` | lua/tx_check.lua:71 | When event time is arrival time and the key TTL is at least the window, the store that drops expired keys holds the same window as one that never does. |
| `SlidingWindow.ExpiryUnobservableIff` | lua/auth_check.lua:12-17 | Key expiry is invisible in every count of every run if and only if the TTL is at least the window. |
| `SlidingWindow.ShortTtlIsSeen` | lua/auth_check.lua:16 | A concrete two-arrival run in which a shorter TTL changes a count. |
| `TxCheck.Redis.Run` | lua/tx_check.lua:42-98 | The command-by-command script leaves the keys and returns the answer of the specification functions `Check` and `CheckResult`, about which the lemmas below speak. |
| `TxCheck.Redis.ClaimReplay` | lua/tx_check.lua:45-58 | No replay key is ever overwritten and at most this payload's is added; the status is first iff the key was free, first or redelivery iff the owner is this delivery, prescored iff the owner is another delivery, namely this event's decision request. |
| `TxCheck.Redis.TouchBurst` | lua/tx_check.lua:66-71 | Afterwards the user's window holds this event at its time and, of the others, exactly those it held above the cutoff; the count is its size; other users are untouched. |
| `TxCheck.Redis.CheckBaseline` | lua/tx_check.lua:73-95 | Anomaly iff distance × 3600 exceeds the maximum × the gap in seconds, at least one, and the event is not older than the stored baseline; out of order iff it is older; in all other cases, and only then, the event becomes the baseline. |
| `TxCheck.CheckFrame` | lua/tx_check.lua:60-95 | The script changes one user, and that user only when the event was not pre-scored. |
| `TxCheck.RepeatCheckAgrees` | lua/tx_check.lua:45-98 | Scoring the same delivery again with no other call for the user in between repeats burst count, anomaly answer and evidence, never becomes a replay, and moves nothing. |
| `TxCheck.RepeatGeo` | lua/tx_check.lua:78-95 | The baseline step is idempotent for every starting session, and an anomaly stays the same anomaly. |
| `TxRuns.RunProjects` | lua/tx_check.lua:42-98 | A run over any mix of users is, for each user, a run over that user's scored transactions alone; replay keys evolve independently. |
| `TxRuns.AdvanceSplits` | lua/tx_check.lua:66-95 | Within one user, window and baseline evolve independently of each other. |
| `TxRuns.BurstCountIsExact` | lua/tx_check.lua:66-71 | Over any run, the burst count of a scored call not older than its user's earlier ones is the number of distinct recent event ids of that user. |
| `TxRuns.OwnerIsFinal` | lua/tx_check.lua:46-50 | Once a delivery has run, the owner of its payload's replay key never changes. |
| `TxRuns.FirstCarrierOwns` | lua/tx_check.lua:46 | From an empty store, the replay key of a payload holds the delivery that carried it first. |
| `TxRuns.StatusRefinesHistory` | lua/tx_check.lua:45-58 | Each of the four statuses, at every position of every run, iff the plain history says so (first carrier, same delivery, own decision request, another delivery). |
| `TxRuns.RerunKeepsStatuses` | lua/tx_check.lua:45-64 | After any interrupted prefix, a full re-run reports exactly the same replay and pre-scored statuses with the same owners. |
| `TxRuns.BaselineSettled` | lua/tx_check.lua:78-95 | With timestamps in order, equal ones at the same place allowed, no transaction already in the run moves the final baseline when it comes again. |
| `TxRuns.RunTwiceIff` | common/kafka_client.py:126-127 | With timestamps in any order, as long as no user is in two places at the same time: a second run of a whole batch changes nothing iff, user by user, no scored transaction but the final baseline itself is at once not older than it and within its reach. |
| `TxRuns.BaselineStaysIff` | lua/tx_check.lua:78-95 | Over any transactions, none in two places at the same time, a baseline is kept iff each of them leaves it alone, and once left it is never returned to. |
| `TxRuns.RerunIsIdempotent` | common/consumer_loop.py:208-253 | With per-user timestamps in order, a replay beside its original included, running any prefix and then the whole batch leaves replay, burst and session stores exactly as one run. |
| `TxRuns.RetriesLeaveNoTrace` | common/consumer_loop.py:208-253 | The same for any number of interrupted attempts, each stopping anywhere. |
| `TxCheck.AnomalyIsTooFar` | lua/tx_check.lua:80-87 | The division-free meaning of the anomaly test, both directions. |
| `TrustedBaseline.FlagEvidence` | lua/tx_check.lua:84-87 | Reported speed times the scored gap is the reported distance; the other evidence fields are the gap and the previous position. |
| `TrustedBaseline.PathOfRun` | lua/tx_check.lua:90-95 | Every run walks a path of baselines, each step forward in time and within reach; its end is the stored session. |
| `TrustedBaseline.HopsAreBounded` | lua/tx_check.lua:73-95 | n baseline moves spanning T seconds have total length at most maxVelocity × (T + n × min_time). |
| `TrustedBaseline.TrustedSpeedBound` | lua/tx_check.lua:73-95 | The bound for whole runs of deliveries of any users: baseline time never decreases, displacement and path length stay within the speed bound. |
| `TrustedBaseline.FlagIsNotExcused` | lua/tx_check.lua:78-95 | An event flagged against one baseline is still flagged against every later baseline a run reaches through clean events, all gaps being at least min_time. |
| `TrustedBaseline.FlagOutlastsPath` | lua/tx_check.lua:78-95 | Without any spacing: an event farther than full speed plus one min_time per baseline on the way can cover is flagged against the last of them. |
| `TxCheck.FlaggedIffBeyond` | lua/tx_check.lua:78-89 | Flagged iff there is a baseline, the event is not older, and it lies beyond the allowed distance. |
| `TxCheck.SpeedIsKmPerHour` | lua/tx_check.lua:80-87 | In numbers: with the gap one hour the event is flagged iff the distance exceeds the maximum, and that distance is the speed reported; from one second on iff distance × 3600 exceeds maximum × gap; below it is scored as one second. |
| `TrustedBaseline.ShortHopExcusesFlag` | lua/tx_check.lua:85 | A concrete clean hop shorter than min_time that brings a flagged event into reach: without spacing the slack of the previous law is needed. |
| `TrustedBaseline.UnorderedRerunMovesBaseline` | lua/tx_check.lua:81-95 | A concrete unordered batch whose second run moves the baseline: the ordering hypothesis of the re-run law is needed. |
| `AuthCheck.Redis.Run` | lua/auth_check.lua:10-18 | The user's and the sanitised address's window each hold this attempt at its time and, of the others, exactly those above the cutoff; the counts are their sizes; no other window changes. |
| `AuthCheck.RunProjects` | lua/auth_check.lua:12-17 | Each window evolves as if only the failed logins naming its user or address had happened. |
| `AuthCheck.CountsAreExact` | lua/auth_check.lua:10-18 | Both counts are the number of distinct attempts of that user, and from that address, in (now − window, now]. |
| `AuthCheck.RerunIsIdempotent` | lua/auth_check.lua:12-17 | A prefix of the logins followed by all of them leaves every window as one run, without any ordering hypothesis. |
| `Cooldown.Redis.FilterCooledDown` | detection_engine/cooldown.py:36-69 | Allowed detections, claimed keys and new store are those of the in-order SET NX claims; a cooldown of zero or less claims nothing and lets everything through; detections no two of which agree in type and subject all get through a store holding none of their keys. |
| `Cooldown.SharesCooldownIff` | detection_engine/cooldown.py:25-33 | Two detections share a key iff they have the same type and are about the same sanitised non-empty address, both ip-scope, or neither is about an address and the users are equal. |
| `Cooldown.WinsIff` | detection_engine/cooldown.py:56-67 | With a cooldown a detection gets through iff its key was free and none before it in the call has its type and subject. |
| `Cooldown.Redis.Pipeline` | detection_engine/cooldown.py:57-60 | Each reply says whether that claim found its key free after the claims before it in the same batch. |
| `Cooldown.Redis.ReleaseCooldown` | detection_engine/cooldown.py:72-76 | A key survives iff it was there and is not listed, and keeps its value. |
| `Cooldown.ClaimsMatchWinners` | detection_engine/cooldown.py:56-69 | Claimed keys are distinct, were all free, match the allowed detections one to one with their ids, and are all that the call adds. |
| `Cooldown.ReleaseUndoesClaim` | detection_engine/cooldown.py:36-76 | Claim followed by release restores the store exactly. |
| `Cooldown.NothingEmittedIff` | detection_engine/cooldown.py:56-69 | With a cooldown, a list of candidates emits nothing iff every key was taken before. |
| `Cooldown.EmittedIffFree` | detection_engine/cooldown.py:56-69 | With a cooldown, something of a type and subject is emitted iff some candidate has that key and it was free. |
| `Cooldown.UnreleasedClaimSuppresses` | detection_engine/cooldown.py:43-49 | Claims neither released nor expired silence a second run of the same candidates; it repeats the first emission iff there is no cooldown or every key was taken before the first run. |
| `Cooldown.FilterConcat` | detection_engine/cooldown.py:56-69 | Filtering two lists in turn is filtering their concatenation: store, allowed and claimed. |
| `Cooldown.OwnershipHolds` | detection_engine/cooldown.py:56-76 | Invariant over every interleaving, expiry included: what a process holds is live and its own, except exactly the keys whose claim has lapsed. |
| `Cooldown.AtMostOneOwner` | detection_engine/cooldown.py:56-69 | Two processes hold the same key only if one of the two claims has lapsed. |
| `Cooldown.ReleaseTakesForeignClaimIff` | detection_engine/cooldown.py:72-76 | For every run: a release takes away another owner's claim iff the releasing process's own claim on that key has lapsed unnoticed; which keys go and which keep their values. |
| `Cooldown.LapseNeedsExpiry` | detection_engine/cooldown.py:72-76 | Every lapse goes back to an expiry of that key. |
| `Cooldown.ReleaseTakesOwnClaimsOnly` | detection_engine/cooldown.py:72-76 | Without expiry a release removes a live key iff the releasing process holds it; another process's claim keeps its value. |
| `Cooldown.LateReleaseAfterExpiry` | detection_engine/cooldown.py:72-76 | A lapse with a victim: a concrete run in which the first claimant's late release deletes the second's claim. |
| `Cooldown.FateHolds` | detection_engine/cooldown.py:56-76 | In every run a key is taken iff its latest claim is held by a running process, delivered, or orphaned by a process that died; held means held by its owner. |
| `Cooldown.SuppressedBecause` | detection_engine/cooldown.py:36-49 | In every run a candidate is suppressed iff a detection of its type and subject was delivered, is in the hands of a running process, or was in the hands of one that died. |
| `DetectionPipeline.Engine.Handle` | detection_engine/pipeline.py:140-154 | The phased batch leaves all stores, emissions (in order), claims, failures and refusals of the specification `HandleBatch`. |
| `DetectionPipeline.Engine.Run` | detection_engine/pipeline.py:158-237 | The phases in sequence: stores, emitted list, claimed keys and refusals. |
| `DetectionPipeline.Engine.ValidateAll` | detection_engine/pipeline.py:142-151 | Items are the records that validate under the topic's schema, failures the indices of the others. |
| `DetectionPipeline.Engine.Enforce` | detection_engine/pipeline.py:163-172 | Each flag says whether a rule refuses that item; exactly the flagged items are reported. |
| `DetectionPipeline.Engine.RunChecks` | detection_engine/pipeline.py:174-186 | Only unblocked transactions and unblocked failed logins reach a script, in item order. |
| `DetectionPipeline.Engine.Interpret` | detection_engine/pipeline.py:188-207 | Findings of every item that is not pre-scored; exactly the pre-scored ones are set aside. |
| `DetectionPipeline.Engine.FetchDecisions` | detection_engine/pipeline.py:209-217 | Afterwards every item has its findings, pre-scored ones from the stored decision of their own event. |
| `DetectionPipeline.Engine.AssignIds` | detection_engine/pipeline.py:220-227 | All candidates in item order, each with the id of its delivery, detector and scope; BatchMeaning says whom they name. |
| `BatchLaws.BatchSplits` | detection_engine/pipeline.py:140-237 | handle_batch(xs + ys) is handle_batch(xs) then handle_batch(ys): stores, emissions in order, claims, failures (shifted), refusals. |
| `BatchLaws.BatchIsSequential` | detection_engine/pipeline.py:140-237 | Hence a batch equals its records handled one at a time. |
| `BatchLaws.ChecksIgnoreCooldown` | detection_engine/pipeline.py:174-230 | The scripts neither read nor write cooldown keys, whatever those are. |
| `BatchMeaning.EmittedNameTheirRecords` | detection_engine/pipeline.py:140-237 | Every detection emitted by any batch comes from a record of it, with that record's topic, partition and offset in its id and that event's own user, event id and, for logins, address. |
| `BatchMeaning.RefusedAndRejected` | detection_engine/pipeline.py:142-172 | In any batch a record fails iff its topic's schema does not accept it, and is refused iff it is accepted and its user is quarantined, or its address blocked if it is a login. |
| `BatchMeaning.RejectedRecord` | detection_engine/pipeline.py:144-151 | A record that is not accepted changes nothing but the failures. |
| `BatchMeaning.RefusedRecord` | detection_engine/pipeline.py:163-172 | A record under a rule is audited once and leaves no trace. |
| `BatchMeaning.SuccessfulLogin` | detection_engine/pipeline.py:175 | A successful login that is not refused changes nothing. |
| `BatchMeaning.FailedLogin` | detection_engine/pipeline.py:182-207 | A failed login: both windows, and one detection for each count over its threshold, with that count, scope and address, of that user, as far as the cooldown lets them through. |
| `BatchMeaning.BothScopesAreEmitted` | detection_engine/cooldown.py:25-69 | A failed login over both thresholds, with neither its user nor its address cooling down, emits both detections. |
| `BatchMeaning.ScoredTransaction` | detection_engine/pipeline.py:176-204 | A transaction the script scores: the stores of the script, and a replay, a geo and a burst detection iff each fired, with their evidence, as far as the cooldown lets them through. |
| `BatchMeaning.PrescoredTransaction` | detection_engine/pipeline.py:209-217 | A pre-scored transaction moves nothing and restates the stored reasons of the three detector types, in order, with the stored verdict. |
| `BatchRerun.ChecksSplit` | detection_engine/pipeline.py:174-186 | Phase B of any batch is a transaction run and a login run side by side. |
| `BatchRerun.InterruptedChecksRepeat` | common/consumer_loop.py:208-224 | An attempt cut short after any number of script calls is invisible once the batch has run. |
| `BatchRerun.UndeliveredBatchRepeats` | common/consumer_loop.py:246-253 | A batch whose delivery failed and that is handled again ends in the same login windows always, in the same transaction stores if timestamps are in order, and in any order iff every final baseline is left alone. |
| `BatchRerun.UndeliveredStatusesRepeat` | common/consumer_loop.py:246-253 | Whatever the timestamps, it reports every replay and pre-scored event again, and no others. |
| `BatchRerun.CrashAfterClaimSilences` | detection_engine/consumer.py:57-66 | A process dies between claim and delivery. If the type and subject of a detection it had emitted come up again in any later batch, under any rules, they are emitted again iff no cooldown is configured; had the claims been released, always. |
| `BatchRerun.CrashKeepsEmissionIff` | detection_engine/consumer.py:57-66 | The same batch handled again after such a crash repeats its emission iff every key that either run comes up with was taken before the first. |
| `BatchRerun.ReplayLostInCrash` | detection_engine/consumer.py:57-66 | For every record whose payload belongs to another delivery, with the user not cooling down: the replay is emitted, comes up again on redelivery, and is not emitted again. |
| `BatchRerun.LostReplayExample` | detection_engine/consumer.py:57-66 | Such a record spelled out, with the batch, the stores and the lost detection. |
| `DetectorMeaning.ReplayMeansSeenElsewhere` | detection_engine/pipeline.py:197-198 | After any history, a replay is raised iff the payload first came through another delivery that was not this event's decision request. |
| `DetectorMeaning.OwnerIsFirstCarrier` | lua/tx_check.lua:48-58 | The owner the script reports is the first delivery of the payload, this one if there was none before. |
| `DetectorMeaning.BurstMeansTooManyRecent` | detection_engine/pipeline.py:200 | A burst is raised iff more than the threshold of distinct event ids of the user lie in the window. |
| `DetectorMeaning.GeoMeansOutOfReach` | detection_engine/pipeline.py:199 | A geo anomaly is raised iff the event is out of reach of the last trusted position of the history. |
| `DetectorMeaning.StuffingMeansTooManyFailures` | detection_engine/pipeline.py:206-207 | Per scope, credential stuffing is raised iff too many distinct recent failures of that user, or from that address. |
| `DetectorMeaning.IdsIdentify` | common/models.py:21-30 | The texts hashed into two detection ids agree iff same delivery, detector and scope; within one delivery ids are distinct. |
| `DetectorMeaning.CandidateIdsDiffer` | detection_engine/pipeline.py:220-224 | The detections a detector run makes of one delivery have distinct ids. |
| `Identity.IdTextIdentifies` | common/models.py:29-30 | The colon-separated identity of a detection loses nothing. |
| `Identity.RefTextIdentifies` | detection_engine/pipeline.py:61-63 | Two delivery references read the same iff they are the same, or a Kafka record poses as a decision request. |
| `Identity.OnlyTopicDecisionPoses` | lua/tx_check.lua:53 | With no colon in topic names, that happens iff the topic is called decision and the event id spells the partition and offset. |
| `Identity.DecimalDenotes` | detection_engine/pipeline.py:63 | The numerals in a reference denote the partition and offset. |
| `DetectionLoop.RecordIsSeenAs` | detection_engine/pipeline.py:61-63 | The pipeline sees a polled record under topic:partition:offset and with its own values. |
| `Events.SameHashIff` | common/models.py:54-57 | Two transactions have the same replay hash iff user, amount, merchant, timestamp and location agree. |
| `Decision.Engine.Decide` | decision-service/internal/decision/engine.go:186-299 | Result and store of the specification for every request, including rejection, rules, cached retries and clock-filled timestamps. |
| `Decision.Engine.Interpret` | decision-service/internal/decision/engine.go:271-289 | A reason is listed iff its signal fired, with its own score and evidence; kinds are distinct and scores do not increase. |
| `Decision.Engine.Combine` | decision-service/internal/decision/engine.go:301-321 | The max loop yields the score and verdict that ScoreIs and ScoredTable spell out. |
| `Decision.ScoreIs` | decision-service/internal/decision/engine.go:306-312 | For any reasons, the score is that of a strongest one plus ten for each further one, up to 100. |
| `Decision.ScoredTable` | decision-service/internal/decision/engine.go:271-298 | A scored request gets 0, 70 for a geo anomaly, 80 for a burst, 90 for both, 100 with a replay, and the verdict of that score at any thresholds. |
| `Decision.RefusalTable` | decision-service/internal/decision/engine.go:187-224 | Rejected iff an id is missing; a quarantine, then a blocked address, then a pending step-up answers, each with its reason, score and verdict. |
| `Decision.StampKeeps` | decision-service/internal/decision/engine.go:190-192 | The transaction scored has every field of the request, with the clock's time only if it has none. |
| `Decision.MaxScoreBounds` | decision-service/internal/decision/engine.go:306-311 | The loop's maximum bounds every score and is attained when positive. |
| `Decision.PolicyIffCalibrated` | decision-service/internal/decision/engine.go:301-321 | Replay or burst denies, a lone geo anomaly challenges, nothing allows, on every script result, iff 70 < deny threshold ≤ 80 and challenge threshold ≤ 70. |
| `Decision.HardSignalsDeny` | decision-service/internal/decision/engine.go:271-290 | The verdict is that policy for every script result under calibrated thresholds (the defaults 80 and 40 are). |
| `Decision.MoreSignalsNeverSoften` | decision-service/internal/decision/engine.go:312-320 | Another signal never lowers the score, never exceeds 100 and never softens the verdict. |
| `SharedState.FirstAskDecides` | decision-service/internal/decision/engine.go:226-298 | A completed request that saw its payload first owns the replay key and has its answer stored. |
| `SharedState.StepKeepsDecidedIff` | decision-service/internal/decision/engine.go:258-298 | One operation keeps the stored answer of a decided event unless it is a request reusing the event id that no rule answers and whose payload the decision service does not own for that event; then the answer is another decision's. |
| `SharedState.RunKeepsDecided` | decision-service/internal/decision/engine.go:258-298 | Over any interleaving of deliveries, requests, crashes and rule changes with fresh decision ids: the event stays decided iff no operation of that kind occurs. |
| `SharedState.RunKeepsOwner` | lua/tx_check.lua:46-55 | Over any run, whoever owns a replay key keeps it. |
| `SharedState.DecidedIsCached` | decision-service/internal/decision/engine.go:258-266 | Once decided, a retry no rule answers returns the stored verdict, marked cached. |
| `SharedState.DecidedIsPrescored` | lua/tx_check.lua:53-64 | Once decided, a Kafka delivery is pre-scored, advances nothing and yields exactly the stored reasons. |
| `SharedState.PathsAgree` | detection_engine/pipeline.py:209-217 | The two together, over any interleaving in which the answer is not replaced; the Kafka half also for requests without a timestamp. |
| `SharedState.AskingFirstFindsTheSame` | detection_engine/pipeline.py:269-295 | Whether or not the decision service was asked first, the delivery yields the same detections: ids, types, user and evidence. |
| `SharedState.SameFacts` | decision-service/internal/decision/engine.go:271-289 | Both paths read the same script result the same way, for every result. |
| `SharedState.ReplayReportedIff` | decision-service/internal/decision/engine.go:271-275 | A scored answer reports a replay iff the payload belongs to a delivery other than this event's own requests. |
| `SharedState.DeliveryFirstDeniesRequest` | decision-service/internal/decision/engine.go:226-290 | When the Kafka record is handled first, the request for the same event is never cached, reports a replay of itself, and under calibrated thresholds is denied, whatever happens in between. |
| `SharedState.RetryIsCachedIff` | decision-service/internal/decision/engine.go:190-192 | A request without timestamp is a new payload on every clock reading: its retry is cached iff it carried a timestamp or the clock repeats. |
| `SharedState.RetryReturnsStoredIff` | decision-service/internal/decision/engine.go:258-298 | After any operations, the retry of a decided request returns the stored verdict iff none of them replaced it, and another decision's otherwise. |
| `SharedState.ReusedEventIdReplacesVerdict` | decision-service/internal/decision/engine.go:293-297 | One such replacement: the same event id with another amount, stamped or not. |
| `SharedState.CrashIsHarmless` | decision-service/internal/decision/engine.go:258-299 | A request cut short after scoring and asked again gets the answer it would have had, whatever other users did in between. |
| `SharedState.PrescoredReportsStored` | detection_engine/pipeline.py:269-295 | A pre-scored delivery advances nothing and reports what is stored for its event, nothing if there is nothing. |
| `SharedState.StoredIffAnswered` | decision-service/internal/decision/engine.go:292-297 | Over any run an answer is stored for an event iff there was one or some request for it was scored to the end. |
| `SharedState.CrashHidesFindings` | decision-service/internal/decision/engine.go:226-297 | After a request died between scoring and storing, and until some request for the event is scored to the end, every delivery of it reports nothing. |
| `SharedState.CrashLosesFindingsUnlessRetried` | decision-service/internal/decision/engine.go:258-297 | The delivery after such a crash reports what it would have reported without it iff the script had found nothing; once the request is asked again, always. |
| `SharedState.RunFrame` | lua/tx_check.lua:42-98 | Operations of other users leave the user's window, baseline, replay owner and stored answer alone, over any run. |
| `SharedState.RefusedChangesNothing` | decision-service/internal/decision/engine.go:196-224 | A refused delivery or request changes nothing at all; a refused request is denied or challenged, never allowed. |
| `SharedState.RefusedLeaveNoTrace` | detection_engine/pipeline.py:163-186 | Erasing every refused operation from any run changes neither the final state nor any remaining output. |
| `Containment.PolicyTable` | containment_engine/containment_actions.py:46-84 | Which actions a first application reports and which rules it leaves, both directions: quarantine, step-up, address block; no other key of anyone changes. |
| `Containment.ReportedActions` | containment_engine/containment_actions.py:46-120 | A first application reports its actions once each, step-up before quarantine before address block, one for every enforcement key it writes and one key for every action; the receipt holds the same list; nothing else changes. |
| `Containment.ActionsByType` | containment_engine/containment_actions.py:56-84 | The list for each type: quarantine; quarantine and, ip-scope with an address, block; step-up and, if one is pending, quarantine; nothing for an unknown type. |
| `Containment.UnknownDoesNothing` | containment_engine/containment_actions.py:81-84 | An unknown type is answered with the empty list and leaves no trace. |
| `Containment.ExecuteFrame` | containment_engine/containment_actions.py:116-120 | A commit writes its receipt and planned rules, and no other key. |
| `Containment.ApplyTwice` | containment_engine/containment_actions.py:107-126 | Applying again changes nothing and returns the original actions, for every detection and database. |
| `ContainmentProtocol.NextKeepsInv` | containment_engine/containment_actions.py:103-128 | Every step of any worker, override, expiry or connection loss keeps the protocol invariant. |
| `ContainmentProtocol.InvHolds` | containment_engine/containment_actions.py:103-128 | The invariant holds in every reachable state. |
| `ContainmentProtocol.Linearizable` | containment_engine/containment_actions.py:103-128 | In any interleaving the database is that of a sequential run in commit order, each EXEC wrote what the policy chooses at its instant, and each finished call returned the atomic answer of an instant since it began. |
| `ContainmentProtocol.RealTimeOrder` | containment_engine/containment_actions.py:103-128 | A call that finished before another began took effect before it. |
| `ContainmentProtocol.UndisturbedPassFinishes` | containment_engine/containment_actions.py:104-126 | A pass that nobody interrupts finishes the call with the effect and the answer of one atomic application. |
| `ContainmentLaws.ReceiptTellsCommit` | containment_engine/containment_actions.py:107-117 | While a receipt is not dropped, the number of successful EXECs of its id is one if the receipt exists and zero otherwise, and it records their actions. |
| `ContainmentLaws.ExactlyOnce` | containment_engine/containment_actions.py:99-128 | With its receipt lasting, no id is applied twice; a finished call for a known type was applied exactly once and returns those actions; also with lost EXEC replies and retries. |
| `ContainmentLaws.FinishedWasApplied` | containment_engine/containment_actions.py:107-126 | A finished call for a known type has been applied at least once, even if receipts expire. |
| `ContainmentLaws.ReceiptNeedsCommit` | containment_engine/containment_actions.py:107-117 | A receipt that was not there at the start was written by a commit. |
| `ContainmentLaws.RedeliveriesAgree` | containment_engine/containment_actions.py:107-109 | All finished calls for one id report the same actions. |
| `ContainmentLaws.RedeliveryChangesNothing` | containment_engine/containment_actions.py:107-109 | A redelivery that finds the receipt changes no key and no version. |
| `ContainmentLaws.EscalationIsSequential` | containment_engine/containment_actions.py:70-79 | In every sequential log in which the receipts of the user's geo detections last, only the first of them steps up without escalating. |
| `ContainmentLaws.GeoEscalationCannotRace` | containment_engine/containment_actions.py:70-79 | The same for every interleaving in which the step-up is neither cleared nor expired; every finished geo call whose receipt lasts returns its own detection's one answer. |
| `ContainmentLaws.EscalationCount` | containment_engine/containment_actions.py:70-79 | In every such interleaving, of n distinct geo detections applied for a user exactly one only steps up and n − 1 escalate. |
| `ContainmentLaws.CompletedWorkersEscalate` | containment_engine/containment_actions.py:70-79 | Each finished geo call of the user is among those counted, and returns a lone step-up iff its detection was the first applied. |
| `ContainmentLaws.RetriesPaidByOthers` | containment_engine/containment_actions.py:103-128 | In every reachable state the retries of a call are covered by changes other actors made to its receipt or guard. |
| `ContainmentLaws.RetryBound` | containment_engine/containment_actions.py:103-128 | A call has retried at most as often as others changed its two watched keys since it began. |
| `ContainmentWorker.ApplyContainment` | containment_engine/containment_actions.py:87-128 | The loop as it runs, with arbitrary foreign writes between any two commands: it terminates, acts as one atomic application at its last instant, and retries at most once per foreign change to a watched key. |
| `ContainmentWorker.Pass` | containment_engine/containment_actions.py:104-128 | One pass of the loop either acts atomically at its last instant or has met a foreign change to a watched key. |
| `ContainmentWorker.Redis.ExecuteQueued` | containment_engine/containment_actions.py:116-120 | The queued SET and SETEX commands produce the specified database. |
| `KafkaProducer.Producer.Send` | common/kafka_client.py:86-112 | The message is recorded, settled sends stay settled, no failure goes unlatched, and no error is latched without a failure. |
| `KafkaProducer.Producer.ResetSendErrors` | common/kafka_client.py:115-117 | Clears the latch and keeps watching from here on. |
| `KafkaProducer.Producer.FlushAndVerify` | common/kafka_client.py:120-134 | Success means that every message since any watched mark is acknowledged; a refusal means a timeout, an error latched before, or a send that failed meanwhile, and clears the latch. |
| `BatchHandling.DecodeAll` | common/consumer_loop.py:187-202 | Decoded and undecodable records in order; tombstones in neither. |
| `BatchHandling.Handler.Call` | common/consumer_loop.py:217-220 | A handler's sends and own flush: the call is recorded, it reports what it found or a transient error, and the latter only with a cause. |
| `BatchHandling.Classify` | common/consumer_loop.py:229-235 | Decoded records split by failure index, both lists in order. |
| `BatchHandling.PerRecord` | common/consumer_loop.py:80-94 | Permanent failures are charged to their own index; the first transient one stops the batch. |
| `BatchHandling.HandleBatchWithRetry` | common/consumer_loop.py:176-262 | On return, processed and dead-lettered lists are those of the successful attempt and everything that attempt produced is acknowledged, for every handler and sequence of failures; the first attempt is the successful one unless its handler failed transiently, a flush timed out or a message failed; shutdown stops the retries at once; the handler is called once per attempt, always with the decoded records. |
| `BatchHandling.TryOnce` | common/consumer_loop.py:208-254 | One attempt: done only if its handler did not fail transiently and all of its messages are acknowledged; not done only for a transient error, a timeout or a failed message. |
| `BatchHandling.Gate` | common/consumer_loop.py:225-254 | After the handler: the lists of its report, a dead letter for each record it must have, and done only if everything is acknowledged. |
| `BatchHandling.IndexNamesOriginal` | common/consumer_loop.py:201-202 | A failure index names the same record before and after tombstones and garbage are filtered out. |
| `BatchHandling.ListsMatchClasses` | common/consumer_loop.py:214-235 | The lists built in the loop hold exactly the records of each class. |
| `BatchHandling.Conservation` | common/consumer_loop.py:187-262 | Skipped, processed and dead-lettered records together are the batch, as multisets. |
| `BatchHandling.ClassHasRecord` | common/consumer_loop.py:187-235 | Every record of every batch is in the list of its class. |
| `BatchHandling.ExactlyOneClass` | common/consumer_loop.py:187-262 | In a batch of distinct records each is in one class and only that. |
| `BatchHandling.WhereRecordsGo` | common/consumer_loop.py:187-235 | In a batch of distinct records: tombstones nowhere; undecodable records, and all readable ones if the handler raised, among the dead letters; otherwise the readable ones reported by their number, and no others. |
| `ConsumerLoop.NextOffsets` | common/consumer_loop.py:164-167 | The loop computes the last-wins offsets. |
| `ConsumerLoop.LastIsMaximum` | common/consumer_loop.py:164-167 | Those are, per partition, the offset of one of its records plus one; in ascending batches above every record. |
| `ConsumerLoop.Consumer.Poll` | common/consumer_loop.py:137-145 | The batch is exactly what lies between old and new positions, ascending per partition, and depends on log, position and fetches only; every partition advances by what was asked for, or to its end. |
| `ConsumerLoop.ReadIsContiguous` | common/consumer_loop.py:137-145 | Whatever is fetched, in whatever order of partitions, a poll reads every record between the two positions once. |
| `ConsumerLoop.ReadAdvances` | common/consumer_loop.py:137-145 | A poll advances every partition by as many records as were asked for, or to its end. |
| `ConsumerLoop.Consumer.Commit` | common/consumer_loop.py:164-173 | Committed offsets move only to batch offsets plus one; a failed commit changes nothing. |
| `ConsumerLoop.AttemptHandles` | common/consumer_loop.py:214-254 | A finished attempt leaves every record of its batch a tombstone, dead-lettered with acknowledgement, or processed by its report, the handler having been called with that batch and its messages acknowledged. |
| `ConsumerLoop.TurnIsSafe` | common/consumer_loop.py:134-151 | A turn carried through accounts for every record up to the new position. |
| `ConsumerLoop.CoversLasts` | common/kafka_client.py:120-134 | What a turn has achieved stays achieved, whatever producer, handler and later processes do. |
| `ConsumerLoop.RunTurn` | common/consumer_loop.py:135-151 | One turn, with crash, shutdown or failed commit at any point: committed offsets never decrease and never pass a record whose turn was not carried through; an accepted commit covers everything read; stopping has a cause. |
| `ConsumerLoop.RunConsumerLoop` | common/consumer_loop.py:121-161 | The same over one process lifetime, started from the committed offsets; it runs every turn unless the last one it ran had cause to stop it. |
| `ConsumerLoop.RunLifetimes` | common/consumer_loop.py:121-173 | Over any number of restarts: every record below a committed offset is a tombstone, has its acknowledged dead letter, or was processed by the report of a scheduled attempt of the very turn that read it, the handler having been called with that batch and its messages acknowledged. |
| `Services.HandleDetectionBatch` | detection_engine/consumer.py:54-67 | Kept cooldown claims mean acknowledged detections; a failed delivery, or Redis failing at any point, leaves the cooldown store exactly as it was and re-raises; what has been sent and which scripts have run in each case; failure has a cause. |
| `Services.WhatIsSent` | detection_engine/pipeline.py:163-172 | Every refusal is audited once, in order, and then every detection is sent once, in order. |
| `Services.HandleDetection` | containment_engine/pipeline.py:30-54 | Applies atomically under interference and audits the actions in force, also on redelivery. |
| `DetectionLoop.HandleBatchWithRetry` | common/consumer_loop.py:176-262 | The detection handler in the retry loop, with deliveries that fail and Redis failing at any point: the loop's contract for the attempts the pipeline amounts to; every claim stays backed by a detection delivered by this or another process or held by a running one, and so is every candidate of the successful attempt; with timestamps in order the script stores end as after one run. |
| `DetectionLoop.TryOnce` | common/consumer_loop.py:208-254 | The same for one attempt. |
| `DetectionLoop.InvalidIsDeadLettered` | common/consumer_loop.py:192-235 | A record is dead-lettered iff it does not decode or does not validate. |
| `DetectionLoop.NewClaimsBacked` | detection_engine/cooldown.py:43-49 | Once the emitted detections are acknowledged, a detection backs every claim and every candidate. |
| `EndToEnd.NextKeepsLoop` | common/consumer_loop.py:134-173 | Every step of loop or protocol keeps the end-to-end invariant. |
| `EndToEnd.LoopInvHolds` | common/consumer_loop.py:134-173 | The invariant holds in every reachable state, from any database and with any expiry. |
| `EndToEnd.CommittedMeansContained` | containment_engine/containment_actions.py:99-128 | For any mix of crashes, lost EXEC replies, failed commits, redeliveries, expiries and concurrent actors: every record below a committed offset is a tombstone, dead-lettered, of a type without containment, or applied; by exactly one successful EXEC if its own receipt was not there before and does not expire. |
| `EndToEnd.RecordGoesThrough` | common/consumer_loop.py:217-224 | A detection record that nothing interferes with is handled: its call begins, passes and returns, applied. |
| `EndToEnd.BatchIsCommitted` | common/consumer_loop.py:237-254 | A batch that has been gone through and delivered is committed, and its dead letters are out. |
| `EndToEnd.CommitsAgree` | common/consumer_loop.py:164-167 | The end-to-end model commits what the consumer loop's last-wins offsets say. |
| `EndToEnd.DeadAgree` | common/consumer_loop.py:214-239 | It dead-letters exactly the records that the consumer loop does. |

## Left out

- FastAPI routes, bearer tokens, gRPC and HTTP servers, the simulator, metrics, dashboards and deployment: plumbing. Manual overrides appear as set and delete steps of the containment protocol.
- The haversine formula, the three-decimal formatting of script evidence, ISO timestamps and floating-point rounding.
- The text of the replay payload and of Redis keys: names containing the separator could make two payloads or two keys equal as strings.
- Severity, human-readable details and window or threshold values echoed in detection details; evidence keeps the reference, the count or the travel data.
- Running the loop without a producer or without a dead-letter topic beyond the `dlq` flag of `BatchHandling.HandleBatchWithRetry`; commit safety is stated with both configured.
- Backoff durations, consumer rebalancing and the best-effort flush at shutdown.
- A retry loop that never ends: attempts are a list of any length, and a list that runs out stands for a batch still being retried.
- Overlapping decision requests for one event, and script-store expiry between a request and its Kafka delivery.
- `handle_transaction` and `handle_auth`, the direct entry points with references of their own.
- An unreadable stored decision is treated like an absent one, which is what the code returns for it on the asynchronous path.
- Regeneration of every candidate by a re-run is not claimed because it is false: a later record of the same user can advance the baseline or trim the window (lua/tx_check.lua:68 and 81-82).
- DetectionLoop.HandleBatchWithRetry: what other processes hold and have delivered is fixed while one batch is retried; `Cooldown.SuppressedBecause` covers the interleavings of their claims.
- The mutable `_Item` objects of the pipeline are parallel sequences in `DetectionPipeline`; aliasing between an item and its candidates is not captured.
