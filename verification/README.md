# Forecast loop: a verified model

This project models the deterministic core of the forecast loop in Dafny and proves what the rest of the
system relies on. Everything that is not decided by this repository's own code (model drafts, the
network, clocks, hashing, SQL ordering) enters as an arbitrary input.

* **Run protocol.** `RunProtocol` gives every committed database session of a forecast run as one step:
  the executor's claim, finalisation and failure sessions, the API's insert and failure, the startup
  sweep, the file-handoff service and the task queue's attempt record. `RunStore` is the same as
  statements against a mutable table, each proved to take exactly that step. `RunSafety` and
  `RunFencing` prove safety over every interleaving of any number of executors, `RunCompletion` when an
  executor can complete its run and what every completion had to meet, and `RunLateWrites` when a write by
  primary key may follow its read late. `RunContract` and `RunActions` spell out what each session writes.
* **Committee graph.** `Ranking` is the tolerance ranking (an insertion sort and the grouping loop),
  `Scoring` the probability arithmetic, `Committee` the graph, `CommitteeNodes` its nested loops,
  `CommitteeProofs` grid coverage, `CommitteeRanks` the ranks a completed graph carries,
  `CommitteeConfluence` independence of the join order and the persistence boundary, `CommitteeContract`
  what the opinions and forecasts of a completed graph say, `CommitteeCompletion` exactly when it completes,
  and `WikiVersion` the one output that can see the join order. `CommitteeExample` is a run that completes.
* **Premarket pipeline.** `Coverage` and `CoverageGate` are the evidence coverage gates, `Premarket`,
  `PremarketBuilder` and `PremarketFinal` go from the snapshot validator to the evaluated forecast.
  `CoverageContract`, `SnapshotContract`, `HandoffContract` and `ForecastContract` say exactly what each of
  them accepts and makes. `PremarketGraph` and `PremarketGap` settle what the handoff validator leaves open,
  `PremarketAnswer` has drafts that finalise, `Shrinkage` is the discount arithmetic. `Examples` has inputs
  the snapshot validators accept.
* **Scoring and readiness.** `Baseline`; `Thresholds` and `Readiness`, with `ResearchContract`;
  `SignalContract`, with `SignalAcceptance`.
* **Smaller pieces.** `TraceCursor` and `TracePages` (keyset pagination), `TraceGuards` and
  `ResearchGuards` (trigger guards and table constraints) with `TraceKeys` and `ResearchKeys`, `GzipHeader`
  and `ArchivePath` (release audit) with `AuditContract`.

The modules named contracts, keys and acceptance state their results in terms of the records, numbers and
times themselves, without the functions of the model, so they say what the model's definitions amount to.

## What turned out to be conditional

* COMPLETED is never left. FAILED is, exactly in two ways: the file-handoff service, whose own checks pass,
  re-arms a failed run that no other run replaced (`backend/app/services/handoff.py:2572-2692`), and the task queue's attempt
  record queues a run again when the attempt may be retried, unless the unique index refuses
  (`backend/app/services/task_queue.py:672-701`). `RunSafety.FailedIsLeftIff` is the equivalence,
  `RunSafety.LateAttemptRevives` the run that comes back.
* The startup sweep writes by primary key, without repeating the status in the UPDATE. Apart from its
  SELECT it keeps the invariant exactly when no selected run was completed in between
  (`RunLateWrites.LateSweepIsSoundIff`). The same holds of the two failure paths of preparation, which also
  read first and write by key (`RunLateWrites.LateFailIsSoundIff`).
* An executor at work can complete its run exactly when the run is RUNNING and its execution token, if it was
  given one, is the stored one (`RunCompletion.CanCompleteIff`, `RunCompletion.ReachableCanCompleteIff`). With a
  replaced token it cannot change anything (`RunFencing.ReplacedExecutorIsErased`). Without a token the status
  alone decides, so it could complete somebody else's attempt
  (`RunFencing.UnfencedExecutorCompletesAnotherAttempt`); the repository's only caller on runs that can be
  re-armed always passes a token (`backend/app/services/handoff.py:807-816, 924`).
* A handoff with media coverage cannot be built: `build_premarket_handoff` takes it for version 3
  of the contract, whose coverage field is the strict model (`backend/app/premarket.py:544-555, 662-664`).
  The built handoff passes its validator exactly when it does not precede the snapshot and its coverage, if
  any, is valid and not media coverage (`PremarketBuilder.BuilderMeetsValidator`,
  `PremarketBuilder.MediaCoverageNeverBuilds`).
* The handoff validator does not look for cycles (`PremarketGraph.ValidatorAdmitsCycle`). On a valid handoff
  the dependencies are acyclic exactly when repeatedly settling the tasks whose dependencies are settled
  reaches all of them (`PremarketGraph.AcyclicIffSettled`), as it does for every built handoff.
* The handoff validator does not compare allowed evidence with the snapshot. For any valid handoff, with or
  without coverage, that some bundle can finalise with room for one more cited id, no forecast cites
  outside the frozen window exactly when every task's allowed ids are ids of the snapshot
  (`PremarketGap.CitesOnlyWindowIff`), which holds for every built handoff. Such a bundle exists exactly when
  the roles fit, the coverage gate accepts at preparation and evidence within the citation limit can be picked
  that hits every event not waived (`PremarketAnswer.HasRoomIff`).
* The span UPDATE trigger looks at the old row's trace only, so a sealed trace keeps its spans exactly
  when no update moves a foreign span into it (`TraceGuards.SealedStepIff`).
* Scores within the tolerance of each other may still rank apart, because a group is measured from its
  first member (`Ranking.CloseScoresMayRankApart`). They never do exactly when being within the tolerance
  is transitive on the scores (`Ranking.CloseScoresShareRankIff`).
* The haircut and the premarket discount never change a direction but can raise a tie; exactly when is
  part of `Scoring.CommitteeHaircutDirection` and `Shrinkage.DiscountKeepsWinner`.
* The sealed `wiki_version` hashes citations in list order. It does not depend on the join order exactly
  when the three research agents were given one page in one version for the instrument
  (`WikiVersion.WikiVersionIsStableIff`); `CommitteeExample.WikiVersionSeesTheOrder` has a run where it does.
* A trace cursor round-trips exactly for ids that are not empty, have at most 32 characters and contain
  no `|` (`TraceCursor.CursorRoundTripIff`).

## Model

| member | source | states |
|---|---|---|
| RunStore.Deployment.GuardedUpdate | backend/app/workflow.py:515-539 | The compare-and-swap UPDATE changes the row exactly when id, status and token still match, and reports it in its row count |
| RunStore.Deployment.CreateRun | backend/app/api.py:1138-1300 | Inserting a run takes the Insert step; it succeeds exactly when the id is free and the unique index admits the row |
| RunStore.Deployment.Store | backend/app/models.py:30-46 | A write succeeds exactly when the partial unique index on live runs admits it, and otherwise changes nothing |
| RunStore.Deployment.FailUnqueuedPreparedRun | backend/app/api.py:1429-1448 | Fails a run that is still queued and no other |
| RunStore.Deployment.FailInterruptedRuns | backend/app/main.py:102-132 | The sweep loop fails every queued or running run without a task, leaves every other row alone, and returns how many there were |
| RunStore.Deployment.BeginClaimSession | backend/app/workflow.py:454-490 | The reads and checks of the first session take the BeginClaim step and write nothing |
| RunStore.Deployment.EndClaimSession | backend/app/workflow.py:491-539 | The first session's writes: the recorded check failure or the claim, each only under the guarded update |
| RunStore.Deployment.FinaliseVerdict | backend/app/workflow.py:553-602 | The chain of checks after the graph decides exactly between completing and each way of not completing |
| RunStore.Deployment.FinaliseSession | backend/app/workflow.py:549-602 | Results, status and merged data quality are written together or not at all |
| RunStore.Deployment.FailureSession | backend/app/workflow.py:605-638 | An execution failure is recorded only on a running row under the token |
| RunStore.Deployment.ExecutePrepared | backend/app/workflow.py:437-638 | One undisturbed call takes exactly its four sessions in order, and with its lease leaves the stored run completed if and only if every check passes |
| RunStore.UndisturbedCallCompletesIff | backend/app/workflow.py:437-638 | Undisturbed, a call completes the run if and only if it is startable, holds its leases, finds the row in its expected status under its own universe hash, configuration, input hash, snapshot and token, and returns results that fit; completed, the row is exactly the published one, and any other run it touched ends as the failure policy says, none stranded in RUNNING |
| RunStore.AloneCompletesIff | backend/app/workflow.py:437-638 | The same of the whole database: the four sessions change nothing but the call's own row and executor, and complete the row if and only if all of that matches |
| RunContract.BeginContract | backend/app/workflow.py:454-490 | The first session's reads write nothing; they pass exactly a row in the expected status whose universe hash, configuration, input hash, snapshot and token are the call's |
| RunContract.EndContract | backend/app/workflow.py:491-539 | Its writes: the recorded error or the claim, field by field, and only while status and token are unchanged; a recovering executor goes on without a write |
| RunContract.FinaliseContract | backend/app/workflow.py:549-602 | After the graph a row is published, field by field, exactly on a held lease, a RUNNING row under the token, unchanged seals and fitting results; every other case leaves it as it is |
| RunContract.FailureContract | backend/app/workflow.py:605-638 | The failure is recorded, field by field, exactly on a held lease and a RUNNING row under the token |
| RunContract.LostLeaseWritesNothing | backend/app/workflow.py:549-573 | A session that finds its task's lease lost leaves every row as it is |
| RunStore.Deployment.MarkPrepareFailed | backend/app/services/handoff.py:3394-3405 | Fails a run that still awaits its draft and no other |
| RunStore.Deployment.RecoverInterruptedAttempt | backend/app/services/handoff.py:1860-1922 | Fails a running run exactly when it has no outputs and no replacement and the service's other checks pass |
| RunStore.Deployment.RearmFailedRun | backend/app/services/handoff.py:2572-2692 | Returns a failed run to awaiting its draft, with the old token removed, exactly when it has no outputs and no replacement and the service's other checks pass |
| RunStore.Deployment.EnqueuePrepared | backend/app/services/task_queue.py:144-179 | Attaches a task to a stored run exactly while its status and input hash are the prepared ones |
| RunStore.Deployment.UpdateRunAfterAttempt | backend/app/services/task_queue.py:672-701 | Records an ended attempt on any run that is not completed |
| RunActions.RowActionContract | backend/app/services/handoff.py:2572-2692 | What each session outside the executor does to its row, field by field: the failures, the re-arming, the queueing, the attempt record and the audit rewrite, each under exactly its own guard |
| RunActions.InsertContract | backend/app/api.py:1138-1300 | A new run is stored as given exactly when its id is free and no live run of its universe and as-of stands that has not failed |
| RunActions.SweepContract | backend/app/main.py:102-132 | The sweep fails exactly the queued and running runs without a task, with its message and time, and leaves every other row alone |
| RunSafety.StepKeepsInv | backend/app/workflow.py:437-710 | Every session of every actor keeps the row invariant, the unique index and the executors' claims |
| RunSafety.ReachableRowsAreSound | backend/app/workflow.py:473-602 | Over every interleaving, results exist exactly when the run is completed, were persisted once and passed the persistence checks; input hash and believability snapshot are the admitted ones, the runtime seal binds both, and completion time, duration and error agree with the status |
| RunSafety.PersistedAtMostOnce | backend/app/workflow.py:553-602 | Over every interleaving at most one session persists results for a run, and one did exactly when the run is completed |
| RunSafety.AtMostOneLiveRun | backend/app/models.py:30-46 | Over every interleaving, two live runs of one universe and as-of that have both not failed are the same run |
| RunSafety.AtMostOneLiveCompletion | backend/app/models.py:30-46 | At most one live run per universe hash and as-of is ever completed |
| RunSafety.CompletedIsFinal | backend/app/workflow.py:553-602 | From completion on nothing the completion sealed ever changes, whoever acts later |
| RunSafety.FailedIsLeftIff | backend/app/services/handoff.py:2572-2692 | A step takes a run out of FAILED if and only if it re-arms a run that was not replaced with all of the service's checks passed, or records a retryable attempt that the unique index admits |
| RunSafety.LateAttemptRevives | backend/app/services/task_queue.py:672-701 | Any failed run that was not replaced is queued again by a retryable attempt that ends later |
| RunSafety.CompletionMatchesFrozenState | backend/app/workflow.py:1453-1507 | On every path to COMPLETED the executor's frozen input hash and snapshot are the row's, the token is the stored one, the results do not replace the snapshot and no runtime seal existed before |
| RunFencing.FencedWritesHoldTheToken | backend/app/workflow.py:640-649 | A fenced executor changes only its own row and only while its token is the stored one |
| RunFencing.ReplacedCannotWrite | backend/app/workflow.py:497-539 | Once its token is replaced, no session of a fenced executor writes anything |
| RunFencing.ReplacedExecutorIsErased | backend/app/workflow.py:497-573 | Deleting all remaining sessions of a replaced executor from any interleaving changes no row |
| RunCompletion.CompletesIff | backend/app/workflow.py:549-602 | An executor at work completes its run with a result if and only if the run is RUNNING, the stored token is its own where it was given one, and the result replaces no snapshot, finds no runtime seal and passes the persistence checks; its other seals always match by then |
| RunCompletion.CanCompleteIff | backend/app/workflow.py:553-573 | Some result lets an executor at work complete its run if and only if the run is RUNNING and the token matches; without a token, if and only if the run is RUNNING |
| RunCompletion.ReachableCanCompleteIff | backend/app/workflow.py:437-602 | The same over every interleaving from the empty database: past its first session an executor's frozen seals always are the row's |
| RunCompletion.CompletionIsEarned | backend/app/workflow.py:473-602 | Over every interleaving, a step to COMPLETED is the finalising session of an executor on its lease whose universe hash is the row's, whose configuration matched, whose input hash, snapshot and token are the row's, with fitting results; and the new row holds exactly those results |
| RunFencing.UnfencedExecutorCompletesAnotherAttempt | backend/app/workflow.py:640-649 | A schedule of two executors without tokens in which one publishes stale results into a re-armed run; a witness of the condition, not a run of a caller of this repository |
| RunLateWrites.LateSweepIsSoundIff | backend/app/main.py:102-132 | A sweep separated from its SELECT keeps the invariant if and only if no selected run was completed meanwhile |
| RunLateWrites.LateSweepOverwritesCompletion | backend/app/main.py:102-132 | Any completion between the sweep's SELECT and UPDATE leaves a failed run that holds results |
| RunLateWrites.LateFailIsSoundIff | backend/app/api.py:1429-1448 | A run read in its initial status and failed by primary key after any other steps keeps the whole invariant if and only if it was not completed in between; with nothing in between it is the atomic step |
| Scoring.ValidatorsAgree | backend/app/domain.py:254-265 | The absolute and the relative sum check accept the same vectors |
| Scoring.DirectionIff | backend/app/domain.py:268-284 | The direction is up or down exactly when its lead exceeds the tie tolerance, and then a confidence exists |
| Scoring.HaircutSucceedsIff | backend/app/workflow.py:1724-1729 | A haircut succeeds exactly when the remaining directional mass fits in one, and then sums to exactly one |
| Scoring.ZeroHaircutCanReject | backend/app/workflow.py:1724-1729 | A schema-valid vector that a zero haircut rejects |
| Scoring.CommitteeHaircutIsTotal | backend/app/workflow.py:1724-1729 | The 15 percent haircut never fails on a schema-valid vector, sums to exactly one and leaves the directional confidence unchanged |
| Scoring.CommitteeHaircutDirection | backend/app/workflow.py:1724-1733 | The haircut keeps the direction or raises a tie, and raises exactly when the shrunken margin is within the tie tolerance |
| Scoring.HaircutCanRaiseATie | backend/app/workflow.py:1233-1238 | A vector with an accepted direction that the haircut ties |
| Ranking.AssignRanks | backend/app/workflow.py:1663-1678 | The grouping loop computes the leader-based ranks |
| Ranking.RankInstruments | backend/app/workflow.py:1632-1722 | Sort, grouping loop and tie flags yield competition ranks with exact tie flags |
| Ranking.LoopRanksAreCompetitionRanks | backend/app/workflow.py:1663-1678 | A rank is one plus the number of better ranked instruments; a lead over the tolerance ranks strictly better; equal ranks are within the tolerance; rank order follows score order; and whoever ranks below a group misses its best score by more than the tolerance |
| Ranking.CompetitionRanksIff | backend/app/workflow.py:1663-1678 | There is exactly one ranking in which ranks count the better ones, a lead over the tolerance separates, equal ranks are within it, ranks follow scores and whoever ranks below a group misses its best score by more than the tolerance; and the loop's is it |
| Ranking.RanksDoNotDependOnOrder | backend/app/workflow.py:1663-1678 | Any two sorted orders of the same scores give the same ranks |
| Ranking.PlacesDoNotDependOnArrival | backend/app/workflow.py:1663-1715 | Ranks and tie flags do not depend on the order opinions arrived in |
| Ranking.CloseScoresMayRankApart | backend/app/workflow.py:1668-1672 | Scores within the tolerance that get different ranks |
| Ranking.CloseScoresShareRankIff | backend/app/workflow.py:1663-1678 | Any two scores within the tolerance share a rank if and only if being within the tolerance is transitive on the scores |
| CommitteeNodes.BindEvidenceCitations | backend/app/workflow.py:1573-1612 | The binding loop yields one citation per declared id, the bare wiki citation, or the first error |
| CommitteeNodes.RunResearch | backend/app/workflow.py:788-865 | A research node visits the whole grid instrument by instrument and stops at the first error |
| CommitteeNodes.RunStrategy | backend/app/workflow.py:867-1040 | The strategy node's loop is the checked combination of the three research opinions per cell |
| CommitteeNodes.RunCritic | backend/app/workflow.py:1042-1131 | The critic node's loop is its per-cell specification |
| CommitteeNodes.RunCio | backend/app/workflow.py:1194-1344 | The CIO loop grows forecasts and their decision opinions side by side, cell by cell |
| CommitteeNodes.DeduplicateCitations | backend/app/workflow.py:1750-1760 | Deduplication keeps exactly the keys |
| CommitteeNodes.DeduplicateOnePerKey | backend/app/workflow.py:1750-1760 | No key is listed twice after deduplication |
| CommitteeNodes.DeduplicateLastWins | backend/app/workflow.py:1750-1760 | The citation kept for a key is the last one listed |
| CommitteeNodes.RunGraph | backend/app/workflow.py:712-738 | A completed graph run is the specification's result and covers the grid |
| CommitteeNodes.PersistResult | backend/app/workflow.py:1346-1390 | All rows are added if every one passes its re-check, otherwise none |
| CommitteeProofs.CompletedGraphCoversGrid | backend/app/workflow.py:867-935 | For any instruments and horizons, a completed graph holds exactly one opinion per agent, instrument and horizon, exactly one forecast per instrument and horizon, and nothing else |
| CommitteeConfluence.JoinOrderIsInvisible | backend/app/workflow.py:722-735 | However the parallel research outputs are concatenated, the run completes or fails alike and every forecast keeps its direction, probabilities, confidence, threshold, rank and sets of cited keys and texts |
| WikiVersion.WikiVersionIsStableIff | backend/app/workflow.py:1283-1300 | On a run that completes, every join order that completes seals the same wiki version for a cell if and only if the three research agents were given one page in one version for its instrument |
| CommitteeExample.ExampleCompletes | backend/app/workflow.py:712-738 | Inputs on which the graph completes |
| CommitteeExample.WikiVersionSeesTheOrder | backend/app/workflow.py:1283-1300 | Two joins of one run's research, both of which complete, seal different wiki versions |
| CommitteeRanks.StrategyPlacesAreRanked | backend/app/workflow.py:1632-1722 | The strategy opinions of every run that passes the strategy node carry competition ranks and exact tie flags of their own leads, over exactly the instruments |
| CommitteeConfluence.ForecastIsAccepted | backend/app/workflow.py:1200-1304 | A forecast built from accepted opinions passes the persistence checks and keeps the strategy's direction |
| CommitteeConfluence.CompletedGraphIsPersistable | backend/app/workflow.py:1346-1390 | For all schema-valid drafts, everything a completed graph emits passes the persistence checks |
| CommitteeContract.CompletedGraphSays | backend/app/workflow.py:788-1344 | Every opinion of a completed graph is the draft of its slot with citations bound to its agent's page and to frozen, timely evidence; Strategy cites within its research and the critic nothing; and every forecast has 0.85 of the Strategy vector's up and down, the rest as neutral, its direction, confidence, rank and threshold, exactly the citations and texts of the opinions on its cell, and the wiki versions of those citations in order |
| CommitteeCompletion.CompletesIff | backend/app/workflow.py:712-1344 | For schema-valid drafts and any instruments and horizons, some join of the research completes, and then every join does, if and only if there is nothing to forecast or codes and horizons are non-empty and distinct and on every cell the five drafts exist on their agents' pages, the four citing ones cite frozen items about the instrument from before the cutoff (at least one in a live run), Strategy stays within the research, the critic cites nothing, the volatility is non-negative and the lead survives the haircut |
| CommitteeContract.PersistAcceptsIff | backend/app/workflow.py:1346-1390 | The re-checks accept exactly vectors in bounds that sum to one within a millionth, directions of a lead above a billionth, and forecasts that neither abstain nor misstate the confidence |
| Coverage.CoverageGaps | backend/app/evidence_coverage.py:116-129 | The gap loop returns the unmet groups and then the unresolved events, in order |
| Coverage.GapsAreExact | backend/app/evidence_coverage.py:116-129 | A group is a gap exactly when no complete and fresh receipt over the whole window exists for it; an event exactly when it is unresolved |
| Coverage.StrictIsPartialWithoutGaps | backend/app/evidence_coverage.py:132-200 | The strict gate accepts if and only if the partial gate accepts the same data and there are no gaps |
| Coverage.MediaIsStrictWithoutReports | backend/app/evidence_coverage_v2.py:13-36 | Without media-reported events the media policy is the strict one |
| Coverage.DraftGateImpliesBuildGate | backend/app/evidence_coverage.py:132-222 | Acceptance with drafts implies acceptance at preparation |
| Coverage.MoreCitationsKeepAccepts | backend/app/evidence_coverage.py:176-200 | Under the strict and the partial policy, citing more never turns acceptance into rejection |
| Coverage.DraftGateIff | backend/app/evidence_coverage.py:132-222 | Under the strict and the partial policy, the gate accepts drafts if and only if it accepted at preparation and every assignment of a required agent cites an item, of every event not waived, that it may use |
| Coverage.AcceptedEventIsCited | backend/app/evidence_coverage.py:176-200 | Accepted drafts cite, for every event not waived and every assignment of a required agent, an item the event owns, the assignment may use and the snapshot holds unchanged and in time |
| CoverageGate.CheckEvent | backend/app/evidence_coverage.py:165-208 | The loops over one event accept exactly what the predicate accepts and report a real problem |
| CoverageGate.ValidateCoverage | backend/app/evidence_coverage.py:132-222 | The nested loops accept exactly what the predicate accepts, and what they raise names a problem that is really there |
| CoverageContract.AcceptsIff | backend/app/evidence_coverage.py:132-222 | On unique ids the gate accepts exactly: matching hash and cutoff, every receipt captured by the cutoff, for strict and media coverage a complete receipt per required group from the window's start to at most 900 s before the cutoff, every evidence item of every event present under its bound hash and published, ingested and observed by the cutoff, and the assignments and drafts of every required agent using and citing it, with the media warning where reports are cited |
| CoverageContract.GapsAre | backend/app/evidence_coverage.py:116-129 | The gaps are exactly the required groups that were not collected and then the unresolved events, in the order of the contract |
| HandoffContract.CoverageIff | backend/app/evidence_coverage.py:20-112 | What the coverage contracts accept: ordered receipts, unique ids, and per status of an event the evidence, hashes, reasons and warnings it must carry |
| Shrinkage.WinnerIff | backend/app/premarket.py:124-131 | A direction is raised exactly when a second class is within the relative tolerance of the maximum |
| Shrinkage.MixIsValid | backend/app/premarket.py:830-842 | The mixture is always valid, bounded on both sides per class, and under a gap no class exceeds 0.65 + 0.35 / 3 |
| Shrinkage.DiscountKeepsWinner | backend/app/premarket.py:830-842 | The discount never changes the winning class; it raises exactly when some other class's shrunken lead vanishes |
| Shrinkage.DiscountCanRaiseATie | backend/app/premarket.py:124-131 | A vector with a winner that the discount ties |
| Shrinkage.DiscountBoundsBrier | backend/app/premarket.py:978-984 | For every outcome the shrunken Brier score is at most the mixture of the original one and two ninths |
| Premarket.LeastIsLeast | backend/app/premarket.py:564-571 | The page given to an agent is one no other page of that agent sorts before |
| Premarket.BuildTasks | backend/app/premarket.py:498-540 | The builder's loop and its two later tasks yield the six tasks, or fail exactly when a page is missing |
| Premarket.BuildPremarketHandoff | backend/app/premarket.py:490-561 | The builder succeeds exactly when all pages exist, the contract it selects accepts (which refuses media coverage) and the coverage gate accepts; the result is sealed over its body |
| PremarketBuilder.BuilderMeetsValidator | backend/app/premarket.py:319-477 | On every valid snapshot the built handoff passes its validator if and only if it does not precede the snapshot and its coverage, if any, is valid and not media coverage; its dependencies are acyclic |
| PremarketBuilder.MediaCoverageNeverBuilds | backend/app/premarket.py:544-555 | With media coverage the builder raises on every valid snapshot |
| PremarketBuilder.StrictCopyBuildsIff | backend/app/evidence_coverage.py:45-51 | The same content under the strict contract builds if and only if no event of it is media-reported |
| PremarketBuilder.BuiltEvidenceIsInSnapshot | backend/app/premarket.py:503-536 | Built tasks allow only evidence of their snapshot |
| PremarketBuilder.BuiltTaskIsAnswerable | backend/app/premarket.py:394-396 | Every built task may cite something |
| SnapshotContract.SnapshotIff | backend/app/premarket.py:287-408 | Exactly which premarket snapshots pass: three ordered sessions, the window from 15:00 to 09:10, decision at 09:15 and deadline at 09:24, twenty-one increasing opens whose twenty returns have the stated deviation, and unique, timely items and pages for every category and agent |
| SnapshotContract.BuiltTasksAre | backend/app/premarket.py:490-571 | On every valid snapshot the six tasks are: each analyst on exactly its own items, Strategy on all after the four, the critic on all after Strategy, each on its agent's least page |
| HandoffContract.HandoffIff | backend/app/premarket.py:445-477 | Exactly which handoffs pass: one program, preparation not before the snapshot, six distinct tasks for the six agents that depend on each other only, and the coverage its version demands |
| HandoffContract.BuildIff | backend/app/premarket.py:490-561 | On a valid snapshot the builder succeeds exactly when the preparation does not precede it and the coverage, if any, is well-formed, not media coverage, and conforms to the snapshot and the tasks |
| HandoffContract.BuiltIs | backend/app/premarket.py:490-561 | The sealed body repeats run, program, snapshot, time and coverage, holds those six tasks, and its version follows from the coverage and the API-first mode |
| PremarketGraph.ValidatorAdmitsCycle | backend/app/premarket.py:460-477 | From any valid handoff, two tasks that depend on each other still pass the validator |
| PremarketGraph.AcyclicIffSettled | backend/app/premarket.py:460-477 | Where ids are unique and dependencies exist, as the validator demands, the dependencies have no cycle if and only if as many rounds of settling as there are tasks settle every task |
| PremarketFinal.ForecastIsShrunkenStrategy | backend/app/premarket.py:816-843 | The forecast is the strategy vector shrunk by the critic's discount, in the strategy's direction, capped under a gap |
| PremarketFinal.ForecastIsInTime | backend/app/premarket.py:798-809 | A forecast is accepted on the forecast session between 09:15 and 09:24, from drafts generated after the cutoff |
| PremarketFinal.AllowedEvidenceIsInWindow | backend/app/premarket.py:806-825 | If tasks allow only evidence of the snapshot, forecasts cite only evidence inside the window |
| PremarketFinal.BuiltForecastCitesWindow | backend/app/premarket.py:777-845 | Forecasts of built handoffs cite only items published in the window and captured before the cutoff |
| PremarketFinal.EventIsCitedEndToEnd | backend/app/premarket.py:783-845 | Finalising a handoff with coverage implies that every verified event has an item of its own in the macro draft, in the strategy draft and in the forecast |
| ForecastContract.BundleIff | backend/app/premarket.py:574-700 | Exactly which draft bundles pass: six distinct drafts for the six agents, each with one to a hundred distinct items, severity for the risk role and otherwise a fitting vector that leads in the stated direction by a billionth |
| ForecastContract.FinalizeIff | backend/app/premarket.py:777-867 | A valid bundle finalises a valid handoff exactly when version, run, request and times bind, every draft answers its task in agent, role, evidence and frozen page, the coverage gate passes on what it is shown, Strategy has a vector and the critic a severity, the shrunken vector has a leader and at most a hundred items are cited |
| ForecastContract.ForecastSays | backend/app/premarket.py:826-867 | A forecast has (1 - d) p + d / 3 of the Strategy vector per class, with d 0, 0.05, 0.12 or 0.20 by the critic's own severity and 0.35 under a gap, the Strategy's direction, a quarter of the volatility as threshold, the handoff's sessions, times, ids and pages, all gaps, and exactly the cited items |
| ForecastContract.BuiltForecastCitesFrozen | backend/app/premarket.py:777-845 | What a forecast from a built handoff cites is published from 15:00 of the previous session to 09:10, observed and ingested by then, and not of the lowest tier |
| ForecastContract.EventReachesForecast | backend/app/premarket.py:783-845 | Every event except an unresolved one under partial coverage has, in the macro and in the Strategy draft and so in the forecast, one of its own items under the hash it bound and from before the cutoff |
| PremarketFinal.EvaluationIsBounded | backend/app/premarket.py:941-996 | A forecast is evaluated only after its acceptance; its score is the Brier score of the shrunken vector, bounded by the strategy's own |
| ForecastContract.EvaluationSays | backend/app/premarket.py:941-996 | An evaluation exists exactly for an observation of this forecast and its sessions from 09:30 of the target session on and not after the evaluation; its label is up above (1 + threshold) and down below (1 - threshold) times the start open, its return is that of the two opens, and its score the mean squared distance to the label |
| PremarketGap.AnythingAllowedCanBeCited | backend/app/premarket.py:806-825 | Any id that a valid handoff with room allows, with or without coverage, can end up in a finalised forecast |
| PremarketGap.CitesOnlyWindowIff | backend/app/premarket.py:460-477 | For a valid handoff, with or without coverage, that some bundle finalises with room for one more cited id: no forecast cites outside the window if and only if every task allows only ids of the snapshot |
| PremarketGap.ValidatorAdmitsForeignEvidence | backend/app/premarket.py:460-477 | Allowing one foreign id to one task of any valid handoff passes the validator, and breaks the window guarantee as soon as the result can be answered with room |
| PremarketAnswer.UncoveredHasRoom | backend/app/premarket.py:777-867 | Every valid handoff without coverage whose tasks have evidence and fitting roles is finalised with room by drafts that are written down |
| PremarketAnswer.HasRoomIff | backend/app/premarket.py:777-867 | A valid handoff, with or without coverage, is finalised by some bundle with room for one more cited id if and only if Strategy and critic have their roles, the coverage gate accepts at preparation, and evidence within the citation limit can be picked that hits every event not waived in every task of an agent it requires |
| PremarketAnswer.BuiltHandoffIsAnswerableIff | backend/app/premarket.py:490-561 | What the builder returns on a valid snapshot can be answered with room if and only if its events can be hit within the citation limit: always without coverage, and always with fewer than a hundred items |
| PremarketAnswer.EveryValidSnapshotCanBeForecast | backend/app/premarket.py:777-867 | Every valid snapshot yields a valid handoff for which some bundle of drafts finalises |
| Examples.ExampleSnapshotIsValid | backend/app/premarket.py:319-408 | A snapshot the premarket validator accepts |
| Examples.ResearchSnapshotIsValid | backend/app/research_v2.py:337-380 | A snapshot the research validator accepts |
| Baseline.SmoothedBaseline | backend/app/research_v2.py:1042-1049 | The counting loop fails exactly on an unknown label and otherwise gives every class its share with one label granted to each |
| Baseline.BaselineIsDistribution | backend/app/research_v2.py:1042-1049 | The baseline sums to exactly one and is valid |
| Baseline.BaselineIff | backend/app/research_v2.py:1042-1049 | The baseline by the numbers: each share is one more than the count of its label over three more than the number of labels |
| Baseline.BaselineIgnoresOrder | backend/app/research_v2.py:1042-1049 | The baseline depends only on how often each label occurred |
| Baseline.TimesIsProduct | backend/app/research_v2.py:1033-1039 | The repeated addition used to state the excess is multiplication |
| Baseline.BaselineExcess | backend/app/research_v2.py:1033-1049 | Any constant forecast loses to the baseline a third of its squared distance for each label and pseudo-label |
| Baseline.BaselineIsUniquelyOptimal | backend/app/research_v2.py:1033-1049 | The baseline is the unique constant forecast with the least total score |
| Thresholds.SharedDatesAreTheLastTwenty | backend/app/research_v2.py:987-994 | On a valid snapshot the sorted intersection ends in exactly the last twenty history dates |
| Thresholds.DifferencesAreRowByRow | backend/app/research_v2.py:987-994 | The dictionary look-ups pair the two histories row by row |
| Thresholds.ThresholdsAreTotal | backend/app/research_v2.py:981-1010 | On a valid snapshot every program target has a non-negative threshold and only an unknown target raises |
| Thresholds.TargetDatesAdvance | backend/app/research_v2.py:977-978 | Target dates exist, lie after the base session and grow strictly with the horizon |
| Readiness.AssessEvidenceReadiness | backend/app/research_readiness.py:86-154 | The nested loops fail exactly on an admission that does not hold and otherwise compute the report |
| Readiness.IssuesAreExact | backend/app/research_readiness.py:116-149 | The issues are exactly the pairs of assignment and category with an uncovered instrument, naming what is missing |
| Readiness.ReadyIff | backend/app/research_readiness.py:150-154 | A live task is ready if and only if every required instrument is spoken for by a usable binding |
| Readiness.MoreBindingsKeepReady | backend/app/research_readiness.py:132-140 | Adding bindings that hold never turns ready into not ready |
| Readiness.AcceptedRequestIff | backend/app/responses_v2.py:148-166 | On a valid snapshot some report and some neutral thresholds get a request accepted if and only if the admission is valid and holds, covers every requirement of every live task, and every target is known |
| Readiness.AcceptedRequestIsFixed | backend/app/responses_v2.py:154-166 | An accepted request carries the clean report, and exactly the thresholds of its assignments' targets computed from the sealed history |
| Thresholds.ThresholdsForIff | backend/app/responses_v2.py:161-164 | The thresholds of a list of targets exist exactly when every target is known, and are then each target's own |
| ResearchContract.SnapshotIff | backend/app/research_v2.py:337-380 | Exactly which research snapshots pass: the two indices over the same increasing sessions up to the base session, known at the cutoff, with the deviation of their last twenty changes, and twenty increasing future sessions under the calendar seal |
| ResearchContract.ThresholdIff | backend/app/research_v2.py:981-1010 | The threshold is a quarter of the volatility for the next session, times a root of twenty for the month, and for the week a quarter of the deviation of the twenty paired differences times a root of five |
| ResearchContract.ReportedIff | backend/app/research_readiness.py:86-149 | The issues are exactly, per live and non-deterministic assignment, the instruments lacking in each category its agent and view need |
| ResearchContract.RequestIff | backend/app/responses_v2.py:148-166 | A request is accepted exactly when snapshot and admission fit, bindings are in force for the next session or the base session by category, nothing is lacking in a live one, its report is the clean one and its thresholds are those of its targets |
| SignalContract.AcceptedSignalIsScorable | backend/app/agent_contracts.py:599-685 | An accepted signal carries every field each declared metric reads, cites nothing from after the cutoff, and was submitted and accepted in time before the target date |
| SignalContract.SpecValidIffScorable | backend/app/agent_contracts.py:185-214 | The spec's conditions on metrics are exactly what evaluation needs: an otherwise valid spec passes them if and only if every valid signal that agrees with it can be scored on every metric it declares |
| SignalContract.EverySpecAdmitsASignal | backend/app/agent_contracts.py:599-685 | Every active spec has a valid signal that agrees with it and can be scored exactly on what the capabilities support |
| SignalContract.AcceptedSignalNamesItsSpec | backend/app/agent_contracts.py:599-667 | A signal is accepted against at most one spec and contains nothing outside its capabilities |
| SignalAcceptance.AcceptanceIff | backend/app/agent_contracts.py:159-685 | A signal passes all validators exactly when spec and signal fit, the signal binds the spec, submits what each capability declares and nothing else, and names model and prompt for an AI source, code and artifacts for a quantitative one, code for a deterministic one |
| TraceCursor.Base64RoundTrip | backend/app/api.py:1743-1751 | Stripping the padding and restoring it from the length loses nothing (section 5 of RFC 4648) |
| TraceCursor.CursorRoundTripIff | backend/app/api.py:1743-1758 | A cursor decodes to its row exactly when the id is not empty, at most 32 characters and free of the separator |
| TraceCursor.LetterIsUrlSafe | backend/app/api.py:1743-1751 | The letters of a cursor are those of the URL-safe alphabet, in its order (section 5 of RFC 4648) |
| TraceCursor.LettersAreDigits | backend/app/api.py:1743-1751 | Each group of letters is the base-64 digits of the number its one to three bytes form |
| TraceCursor.CursorDecodesIff | backend/app/api.py:1743-1758 | Any encoded text decodes to a time and an id exactly when what follows its last separator is that id, of 1 to 32 characters, and what precedes it is that time |
| TracePages.ListAgentTraces | backend/app/api.py:392-447 | The endpoint fails exactly on an invalid cursor and otherwise returns the page of the matching rows after the cursor |
| TracePages.ResumeLeavesRest | backend/app/api.py:432-441 | Resuming after a row of the listing leaves exactly the rest of the listing |
| TracePages.PageAdvances | backend/app/api.py:442-447 | A page is the head of what remains, has a next cursor exactly when more remains, and that cursor resumes at the rest |
| TracePages.PageHolds | backend/app/api.py:392-447 | One page: the first of the matching traces after the cursor by descending start and id, as many as the limit allows, and a next cursor exactly when that is not all of them |
| TracePages.CursorPlaceIff | backend/app/api.py:432-441 | A cursor, whatever text was encoded in it, resumes at exactly the time and the id that text names |
| Common.TextBeforeIff | backend/app/api.py:413-441 | The order on ids: a proper prefix comes first, otherwise the smaller character at the first difference |
| TracePages.PagesAreTheListing | backend/app/api.py:392-447 | Following the cursor terminates; the pages together hold exactly the traces that match every given filter, latest start first and equal starts by descending id, each once; all but the last are full |
| TraceGuards.Database.AddTrace | backend/app/models.py:1415-1436 | A trace is inserted exactly when its key and its attempt are free |
| TraceGuards.Database.WriteTrace | backend/app/db.py:129-131 | A trace row is updated exactly when the guard, its attempt and the keys admit it |
| TraceGuards.Database.AddSpan | backend/app/db.py:135-138 | A span is inserted exactly when its trace exists and is not sealed, its keys are free and its parent exists |
| TraceGuards.Database.WriteSpan | backend/app/db.py:139-142 | A span is updated exactly when its old trace is not sealed and the keys admit the new row |
| TraceGuards.Database.AddLink | backend/app/db.py:146-149 | A link is inserted exactly when its trace exists and is not sealed, its span exists and no equal link is there |
| TraceGuards.AdmittedIff | backend/app/models.py:1415-1545 | On a database that meets every unique constraint of traces, spans and links and every foreign key from or to them, a statement takes effect if and only if the triggers let it through and what it leaves behind meets them all |
| TraceGuards.ExecuteKeepsConsistent | backend/app/models.py:1415-1545 | Every statement keeps attempts, span identities and links unique and every reference resolved |
| TraceGuards.SealedStepIff | backend/app/db.py:128-158 | A sealed trace keeps its row and links under every statement, and its spans if and only if the statement moves no foreign span into it |
| TraceGuards.SealedHistory | backend/app/db.py:128-158 | Over all sequences whose span updates keep their trace, a sealed trace keeps its row, spans and links |
| TraceGuards.SealedTraceCanGain | backend/app/db.py:139-142 | A span of a running trace without parent, children and links can be moved into a sealed trace that would refuse its insertion |
| TraceKeys.StatementIs | backend/app/db.py:128-158 | Where all keys hold, a statement takes effect exactly when its guard lets it through and all keys still hold in what it leaves behind, row by row; otherwise it changes nothing |
| TraceKeys.ClosedTraceStays | backend/app/db.py:128-158 | Between any two points of any run whose span updates keep their trace, a trace that left RUNNING has the same row, spans and links |
| TraceKeys.KeysHoldForever | backend/app/models.py:1415-1545 | All keys of traces, spans, links and references hold throughout every run that starts with them |
| ResearchGuards.Database.AddRecord | backend/app/models.py:444-803 | A row of an append-only table is added exactly when its key is free, everything it refers to is stored and no unique constraint of its table is broken |
| ResearchGuards.Database.AddRun | backend/app/models.py:403-414 | A research run is inserted exactly when its key and its input hash are free |
| ResearchGuards.Database.WriteRun | backend/app/db.py:193-200 | A research run is updated exactly while it awaits its draft, its input hash stays unique and no record loses the run it refers to |
| ResearchGuards.AdmittedIff | backend/app/models.py:403-803 | On a database that meets every foreign key and unique constraint of the research tables, a statement takes effect if and only if the triggers let it through and what it leaves behind meets them all |
| ResearchGuards.RecordsOnlyGrow | backend/app/db.py:164-187 | The append-only tables keep every record forever |
| ResearchGuards.FinishedRunIsFinal | backend/app/db.py:188-200 | A research run past awaiting its draft never changes and is never deleted |
| ResearchGuards.RecordKeepsItsRun | backend/app/db.py:164-200 | A record's run stays stored under its key after any further statements |
| ResearchKeys.StatementIs | backend/app/db.py:164-200 | Where all keys hold, a statement takes effect exactly when its guard lets it through and all keys still hold in what it leaves behind, row by row; otherwise it changes nothing |
| ResearchKeys.RunKeeps | backend/app/db.py:164-200 | Between any two points of any run of statements, records are only added and runs past awaiting their draft do not change |
| ResearchKeys.RunOfRecordStays | backend/app/db.py:164-200 | At every later point of every run, the run a record refers to is stored |
| GzipHeader.Stream.ReadTerminated | scripts/audit_release_artifacts.py:76-83 | The byte loop terminates and takes exactly a zero-terminated field of at most 64 KiB |
| GzipHeader.Stream.GzipMetadata | scripts/audit_release_artifacts.py:69-102 | The reader's result is a function of the remaining bytes, and the stream is rewound on every path |
| GzipHeader.HeaderRoundTrip | scripts/audit_release_artifacts.py:85-100 | A header laid out per section 2.3 of RFC 1952, with anything after it, reads back as its non-empty fields in order or is refused for their joint size |
| GzipHeader.AcceptedIff | scripts/audit_release_artifacts.py:85-100 | Data is accepted exactly when it begins with a valid header whose fields fit the limit |
| GzipHeader.StrictPrefixIsRejected | scripts/audit_release_artifacts.py:70-83 | No strict prefix of a header is accepted |
| AuditContract.ReadsIff | scripts/audit_release_artifacts.py:51-102 | Byte by byte (section 2.3 of RFC 1952): the reader returns exactly the non-empty fields, on lines of their own and at most 64 KiB together, of data that begin with the magic number, method 8, flags without a reserved bit, and each announced field in its order, within its own limit |
| ArchivePath.AcceptedMemberStaysInside | scripts/audit_release_artifacts.py:105-132 | An accepted member path is returned unchanged and resolves strictly below any directory it is unpacked in, at most 32 levels deep |
| ArchivePath.AcceptedMemberIff | scripts/audit_release_artifacts.py:105-132 | Exactly which names are accepted; the path object's own checks never fire |
| AuditContract.MemberIff | scripts/audit_release_artifacts.py:105-132 | Component by component: the check returns exactly the name, without the slash that ends a directory's, when it has no null byte and no backslash, at most 4096 bytes, and between 1 and 32 components that are neither empty, '.' nor '..' and start with no drive letter |

## Left out

- File, subprocess, Git, Docker and SQLite plumbing, HTTP routing and serialisation: no property of their own.
- Model providers and the graph library: drafts are arbitrary values that passed their schema, and a join of the parallel nodes is any permutation of their outputs.
- The task queue's lease: a flag per session says whether it still held; a lost lease aborts the session.
- The internals of the handoff, believability and wiki services: only the sessions that write `workflow_runs` rows, with their status, token, output and replacement guards.
- Attempt numbers: a token is sealed for a run at most once, because it hashes the attempt number.
- SHA-256, canonical JSON, and the text hashed for the wiki version with the truncation of its digest: a hash is an injective constructor or an identifier compared for equality.
- Float rounding: probabilities, scores and volatilities are reals; a square root is a value or function characterised by its square.
- Rationale texts, Chinese labels and workflow step logs, except that a media warning's presence is a coverage condition.
- Text length limits of the schemas, except where a limit decides (evidence ids of a forecast, cursor ids, path and header limits).
- Deletion cascades, which the retention triggers reject anyway, and check constraints on text columns, which are types or opaque here.
- UTF-8 and ISO timestamp formatting in cursors: library round trips, taken as parameters.
- Blank-string query parameters of the trace listing: an absent parameter stands for both.
- The handoff service's own audit bookkeeping on `data_quality`: one rewrite of its namespace that keeps the token stands for all of them.
- RunStore.Deployment.CreateRun: only the insertion of the row; the idempotent replay and the look-up of an existing run around it are not part of it.
- RunStore.Deployment.RecoverInterruptedAttempt: the checks of protocol, attempt state, quant records and time enter as verdicts; the compare-and-swap on the audit it read in the same locked session cannot fail.
- RunStore.Deployment.RearmFailedRun: the same, with the attempt history and the order of the retry transitions.
- RunSafety.FailedIsLeftIff: whether the handoff service's checks pass is one of its conditions, not derived from the job's files and records.
- CommitteeNodes.RunStrategy: market regime and style bias, descriptive fields next to the ranks.
- CommitteeNodes.RunCio: the rationale text and the list of input summaries, which nothing reads back.
- CommitteeNodes.RunGraph: the freeze node, whose products are the inputs here, and its part of `data_quality`.
- Registry construction, operator authentication, the secret and personal-data scanners, release building, the frontend and the command line.
