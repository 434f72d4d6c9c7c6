# Verified models of Milimo's orchestrator

Milimo runs a squad of agents ("claws") that exchange messages through a directory tree, keep
vector clocks and fail over between regions, check the provenance of blueprints, merge policies
and account for budgets, restarts and metrics. This project models those algorithms in Dafny and
proves what they promise over every input and every run.

| files | subject |
|---|---|
| `VersionVectors`, `Causality` | version vectors, and the theorem that their order is Lamport's causal order |
| `Failover`, `FailoverRuns` | the failover manager's four-phase tick and its runs |
| `Mesh`, `MeshSafety`, `MeshPayloads`, `MeshOrder`, `MeshDelivery`, `Listings` | the squad mesh, war-room decisions and inbox poller as one transition system |
| `Versions`, `VersionTexts`, `ChainValidator`, `ChainProofs` | version order and provenance chains |
| `PolicyMerge`, `PolicyKeys`, `Ascii` | the restrictive policy merge as a meet |
| `SlidingWindows` | the POST rate limiter, the restart supervisor and the launcher's backoff |
| `Metrics`, `MetricsCounts`, `Sorting` | in-memory counters against replay of the log |
| `ConflictResolution`, `Latency`, `LatencyFigures`, `RoleAssigner`, `SoloWarRoom`, `WarRoomModes`, `PrivacyRouter` | last-write-wins, latency percentiles, role matching, the approval queue, budgeted routing |

Every stateful component has the same three layers: a class whose methods are the source's
statements over its own fields; functions on values that specify each operation, to which the
methods' `ensures` tie the new state; and lemmas about runs of those functions. `dafny verify
dfyconfig.toml` verifies everything.

## Where the code and what is said about it differ

The model follows the code. Each difference is proved, with its exact condition where there is one.

- The chain validator's description promises "no gaps" (`chain_validator.py:140-149`), but an
  attestation whose parent is missing is silently ignored: `GapUnreported`; nothing is ignored
  if and only if every parent resolves without a cycle: `CompleteIffGrounded`.
- The policy merge is described as keeping the most restrictive setting, but the key's name decides:
  a list under "disallowed_tools" counts as an allow list (`ListMergeKeepsBothIff`), and settings of
  different kinds keep the base value, so the merge is a lower bound if and only if the inputs are
  compatible (`MergeIsLowerBound`) and commutes if and only if they agree (`MergeCommutesIff`).
- A custom metric recorded under one of the types that replay counts makes the log disagree with
  memory: `ReplayAgreesIff`.
- Folding `resolve_conflict` is independent of arrival order if and only if no two different updates
  share the greatest (timestamp, node id): `ConvergesIff`.
- A PARTITION can end without a heal event: `LeavingPartition` says exactly when.
- The drain drops an accepted message whose recipient has left the mesh: the notice it files under
  "rejected" repeats the envelope without payload and squad id (`mesh.py:682-697`, `mesh.py:762-771`).
  `UnregisteringDropsPayload` gives such a run; `TurnKeepsPayloadIff` and `PayloadLostIff` say exactly
  when a payload is lost.
- The restart threshold stops a claw only when reports pile up faster than restarts come due, since
  every restart that starts the claw clears the count: `ThresholdNeedsPileUp`,
  `StaleAfterStartIsScheduled`.
- A send under a file name already waiting in the outbox overwrites the waiting message:
  `SendKeepsOthers` says exactly when; `NoLoss` therefore asks for unique names.
- A cloud fallback makes the token budget toothless: `CloudBeyondBudgetIff`.
- A member whose score falls below 0 leaves a role open: `NegativeScoreLeavesRoleOpen`, `RoleFilledIff`.

## Model

| member | source | states |
|---|---|---|
| Causality.HappensBeforeIsCausality | milimo-blueprint/orchestrator/mesh_failover.py:147-179 | main result: in every run, one event's vector happens before another's exactly when the event causally precedes it |
| Causality.ConcurrentIsUnordered | milimo-blueprint/orchestrator/mesh_failover.py:177-179 | two different events have concurrent vectors exactly when neither causally precedes the other |
| Causality.StampCounts | milimo-blueprint/orchestrator/mesh_failover.py:147-163 | an event's counter for a node is the number of that node's events in its causal past, itself included |
| Causality.KnowsPast | milimo-blueprint/orchestrator/mesh_failover.py:152-175 | whoever knows as many of a node's events as an event of that node did is that event or causally after it |
| VersionVectors.VersionVector.Increment | milimo-blueprint/orchestrator/mesh_failover.py:147-150 | only the own counter grows, by one |
| VersionVectors.VersionVector.Merge | milimo-blueprint/orchestrator/mesh_failover.py:152-163 | the result holds the join of both counters; neither argument changes |
| VersionVectors.VersionVector.HappensBefore | milimo-blueprint/orchestrator/mesh_failover.py:165-175 | the loop decides: at most everywhere (absent means 0) and less somewhere |
| VersionVectors.VersionVector.ConcurrentWith | milimo-blueprint/orchestrator/mesh_failover.py:177-179 | neither vector happens before the other |
| VersionVectors.ConcurrentMeaning | milimo-blueprint/orchestrator/mesh_failover.py:177-179 | concurrent means equal everywhere, or greater at one node and less at another |
| VersionVectors.BeforeIsStrictPartialOrder | milimo-blueprint/orchestrator/mesh_failover.py:165-175 | irreflexive, asymmetric and transitive |
| VersionVectors.JoinIsLeastUpperBound | milimo-blueprint/orchestrator/mesh_failover.py:152-163 | merge is the least upper bound |
| MeshSafety.ApprovalGate | milimo-blueprint/orchestrator/mesh.py:748-780 | main result: over every interleaving, a message that needs approval is in a claw inbox, archived, sent through the gateway or handled only if an earlier step approved that very message |
| MeshSafety.StepGated | milimo-blueprint/orchestrator/bridge_cli.py:2039-2077 | every single step keeps the gate |
| MeshSafety.ApprovedEarlier | milimo-blueprint/orchestrator/bridge_cli.py:2039-2057 | a message counts as approved exactly when an earlier approve step found it in the war room |
| MeshSafety.NoLoss | milimo-blueprint/orchestrator/mesh.py:731-793 | main result: with unique file names, an accepted message always has a file with its envelope in some directory, crashes between write and unlink included |
| MeshPayloads.PayloadLostIff | milimo-blueprint/orchestrator/mesh.py:748-793 | main result: without crashes, an accepted payload is gone exactly when a finished turn of the drain wrote a notice for it because its recipient was not registered |
| MeshPayloads.PayloadKeptOrRefused | milimo-blueprint/orchestrator/mesh.py:731-793 | main result: crashes included, an accepted payload is in some directory unless the drain refused the message |
| MeshPayloads.TurnKeepsPayloadIff | milimo-blueprint/orchestrator/mesh.py:748-793 | a turn of the drain keeps a payload exactly when the message is held, is for the war room, or has a registered recipient |
| MeshPayloads.RefusedMeaning | milimo-blueprint/orchestrator/mesh.py:760-771 | a message counts as refused exactly when an earlier turn wrote its notice and finished |
| MeshPayloads.UnregisteringDropsPayload | milimo-blueprint/orchestrator/mesh.py:760-771 | register, send, unregister, drain: accepted, and only the notice is left |
| MeshSafety.ExactlyOnePlace | milimo-blueprint/orchestrator/mesh.py:719-805 | main result: without crashes its envelope is in exactly one, and in the outbox too only between the two halves of a drain step |
| MeshSafety.StepKept | milimo-blueprint/orchestrator/mesh.py:554-581 | every step keeps all accepted envelopes somewhere and every file under its own name |
| MeshSafety.StepEffect | milimo-blueprint/orchestrator/mesh.py:654-697 | a step writes, removes or renames at most one file: whole files, or a notice for a refused message |
| MeshSafety.SendKeepsOthers | milimo-blueprint/orchestrator/mesh.py:654-680 | a send leaves a waiting message in place unless it is an accepted different message under the same file name |
| MeshSafety.HandledAtMostOnce | milimo-blueprint/orchestrator/claw_launcher.py:587-628 | main result: over every run, one poller lifetime hands one file name to the handler at most once |
| MeshOrder.OutboxOrder | milimo-blueprint/orchestrator/mesh.py:723-793 | main result: with names increasing in send order, no file leaves the outbox while an earlier one is there |
| MeshOrder.PassLeavesBlocked | milimo-blueprint/orchestrator/mesh.py:723-793 | a drain pass leaves exactly the files from the first blocked one on |
| MeshOrder.PassEmptiesOutbox | milimo-blueprint/orchestrator/mesh.py:723-793 | a pass over the file transport empties the outbox if and only if no waiting recipient is registered but unavailable |
| MeshOrder.DrainTerminates | milimo-blueprint/orchestrator/mesh.py:719-805 | main result: after any run, with sends stopped and recipients ready, a bounded number of drain turns empties the outbox however other actors interleave |
| MeshOrder.StepRank | milimo-blueprint/orchestrator/mesh.py:731-793 | no step raises the measure and each drain turn lowers it |
| MeshDelivery.WaitingArrives | milimo-blueprint/orchestrator/mesh.py:731-793 | main result: in every run without crashes, a turn of the drain takes a waiting accepted message to exactly one place: the war room if it needs approval, a notice if its recipient is unknown, its recipient's inbox or the gateway if ready, else it stays |
| MeshDelivery.TurnArrives | milimo-blueprint/orchestrator/mesh.py:748-793 | the same for one turn from any state, by the recipient, its status and the gateway |
| MeshDelivery.HeldArrives | milimo-blueprint/orchestrator/bridge_cli.py:2039-2077 | in every run without crashes, an approve step takes an accepted message from the war room to its recipient's inbox, and a veto to rejected, unchanged |
| MeshDelivery.PassArrives | milimo-blueprint/orchestrator/mesh.py:723-793 | a pass over the file transport takes every message that no earlier one holds up to where it belongs |
| MeshDelivery.OutboxWaits | milimo-blueprint/orchestrator/mesh.py:452-466 | between turns of such a run every file in the outbox waits there and nowhere else |
| MeshDelivery.AlwaysPlaced | milimo-blueprint/orchestrator/mesh.py:654-697 | in every run, crashes included, a claw's inbox and archive hold only whole messages for that claw, and every other directory only what belongs there |
| MeshDelivery.SendOutcome | milimo-blueprint/orchestrator/mesh.py:388-480 | a valid message for the war room or a ready claw is queued whole; any other leaves a notice with the reason |
| MeshDelivery.DeliveredWasAcked | milimo-blueprint/orchestrator/mesh.py:554-581 | in every run, what is in delivered was acknowledged by a claw that had it in its inbox |
| MeshDelivery.AlwaysHandledFirst | milimo-blueprint/orchestrator/claw_launcher.py:587-628 | in every run, every archived file was handed to that claw's handler |
| MeshDelivery.PollChecks | milimo-blueprint/orchestrator/claw_launcher.py:587-628 | a check of an inbox hands over exactly the unmarked files, in order, marks and archives them, and leaves the rest |
| MeshDelivery.TopologyOutcome | milimo-blueprint/orchestrator/mesh.py:585-612 | what registering, unregistering, heartbeats and status changes make of a role, and that other roles stay |
| MeshOrder.PassIsRun | milimo-blueprint/orchestrator/mesh.py:719-805 | the coordinator's uninterrupted pass is a run of the drain thread's own steps |
| MeshOrder.PollIsRun | milimo-blueprint/orchestrator/claw_launcher.py:587-628 | the poller's uninterrupted check is a run of that poller's own steps |
| Mesh.MeshCoordinator.SendMessage | milimo-blueprint/orchestrator/mesh.py:388-480 | the whole message to the outbox if valid and the recipient is the war room or available, else a notice with the first objection to rejected; the answer says which |
| Mesh.MeshCoordinator.ProcessOutbox | milimo-blueprint/orchestrator/mesh.py:719-805 | the loop over the sorted listing is the specified pass |
| Mesh.MeshCoordinator.Transmit | milimo-blueprint/orchestrator/mesh.py:748-793 | which file the drain writes next and where, or that the message has to wait |
| Mesh.MeshCoordinator.WriteFile | milimo-blueprint/orchestrator/mesh.py:654-680 | a write files the content under its name and touches nothing else |
| Mesh.MeshCoordinator.WriteRejected | milimo-blueprint/orchestrator/mesh.py:682-697 | a notice repeats the envelope and gives the reason, without payload and squad id |
| Mesh.MeshCoordinator.AckMessage | milimo-blueprint/orchestrator/mesh.py:554-581 | moves some file the pattern matches from the inbox to delivered; nothing moves exactly when none matches |
| Mesh.MeshCoordinator.RegisterClaw | milimo-blueprint/orchestrator/mesh.py:361-372 | the role is online with no heartbeat and no failures |
| Mesh.MeshCoordinator.UnregisterClaw | milimo-blueprint/orchestrator/mesh.py:374-380 | removes the role, and says whether it was known |
| Mesh.MeshCoordinator.RecordHeartbeat | milimo-blueprint/orchestrator/mesh.py:585-595 | refreshes a known role, and brings it back online only from unhealthy |
| Mesh.MeshCoordinator.MarkClawUnhealthy | milimo-blueprint/orchestrator/mesh.py:597-603 | marks a known role unhealthy and counts the failure |
| Mesh.MeshCoordinator.SetClawStatus | milimo-blueprint/orchestrator/mesh.py:605-612 | sets a known role's status, and says whether it was known |
| Mesh.HandleApproveAction | milimo-blueprint/orchestrator/bridge_cli.py:2012-2057 | moves some matching held file to its recipient's inbox; nothing moves exactly when none matches |
| Mesh.HandleVetoAction | milimo-blueprint/orchestrator/bridge_cli.py:2060-2077 | moves some matching held file, payload and all, to rejected |
| Mesh.InboxPoller.CheckInbox | milimo-blueprint/orchestrator/claw_launcher.py:587-628 | the loop over the sorted inbox handles and archives each unmarked file |
| FailoverRuns.MessagesConserved | milimo-blueprint/orchestrator/mesh_failover.py:413-439 | main result: over every run, what was queued for a recipient is what was replayed to it followed by what still waits, in order |
| FailoverRuns.ReplayPerRecipient | milimo-blueprint/orchestrator/mesh_failover.py:429-439 | replay keeps each recipient's own order |
| FailoverRuns.StateReflectsRegions | milimo-blueprint/orchestrator/mesh_failover.py:320-411 | main result: after every pass region status is exact, isolation beside health is PARTITION and full health is NORMAL |
| FailoverRuns.PassOutcome | milimo-blueprint/orchestrator/mesh_failover.py:251-452 | the exact state after a pass, from the regions and the node phase's verdict |
| FailoverRuns.StatusIsTrailingTimeouts | milimo-blueprint/orchestrator/mesh_failover.py:261-318 | main result: a node's status and failure count are those of its trailing run of passes in which its heartbeat was older than the timeout |
| FailoverRuns.SilentNodeGoesOffline | milimo-blueprint/orchestrator/mesh_failover.py:275-318 | after any run, a node whose heartbeats stay older than the timeout for three passes is offline, and the state is not normal |
| FailoverRuns.FreshNodeIsOnline | milimo-blueprint/orchestrator/mesh_failover.py:261-291 | one heartbeat in time brings a node back online with no failures, in the region it was first seen in |
| FailoverRuns.NormalMeansNoneOffline | milimo-blueprint/orchestrator/mesh_failover.py:441-452 | in every run, a normal state means no known node is offline |
| FailoverRuns.OverallMeaning | milimo-blueprint/orchestrator/mesh_failover.py:441-452 | normal, degraded or failover active as none, some or all nodes are offline |
| FailoverRuns.RegionFigures | milimo-blueprint/orchestrator/mesh_failover.py:320-365 | after a pass every region is on record with its counts of nodes and online nodes, and the status they imply |
| FailoverRuns.NormalOnlyByRecovery | milimo-blueprint/orchestrator/mesh_failover.py:403-427 | the only way back to NORMAL is the recovery phase with every region healthy, and it empties the queue |
| FailoverRuns.LeavingPartition | milimo-blueprint/orchestrator/mesh_failover.py:374-452 | PARTITION ends with a heal event iff all regions are healthy, and silently iff a node went offline and isolation no longer stands beside health |
| FailoverRuns.OnlyOfflineChangesState | milimo-blueprint/orchestrator/mesh_failover.py:297-318 | the node phase changes the state only when a node newly goes offline |
| FailoverRuns.NeverRecovering | milimo-blueprint/orchestrator/mesh_failover.py:413-427 | RECOVERING is never seen between inputs |
| FailoverRuns.HealthyIsNotIsolated | milimo-blueprint/orchestrator/mesh_failover.py:320-365 | what region statuses say about the nodes: all healthy iff all nodes online, isolated iff a region has none online |
| Failover.FailoverManager.MonitorOnce | milimo-blueprint/orchestrator/mesh_failover.py:251-259 | one pass is the four phases in order |
| Failover.FailoverManager.CheckNodeHealth | milimo-blueprint/orchestrator/mesh_failover.py:261-291 | the loop over the topology is the specified node phase |
| Failover.FailoverManager.HandleNodeTimeout | milimo-blueprint/orchestrator/mesh_failover.py:297-318 | online to unhealthy, unhealthy to offline at the third failure, with the state recounted then |
| Failover.FailoverManager.CheckRegionHealth | milimo-blueprint/orchestrator/mesh_failover.py:320-372 | every region is rated once, whatever the order; an isolated one degrades the state |
| Failover.FailoverManager.Detect | milimo-blueprint/orchestrator/mesh_failover.py:374-401 | isolation beside health is a partition, recorded once with the isolated regions |
| Failover.FailoverManager.AttemptRecovery | milimo-blueprint/orchestrator/mesh_failover.py:403-427 | replay and NORMAL when every region is healthy, with a heal or recovery event |
| Failover.FailoverManager.ReplayPendingMessages | milimo-blueprint/orchestrator/mesh_failover.py:429-439 | sends every queued message once, recipient by recipient, and empties the queue |
| Failover.FailoverManager.QueueMessage | milimo-blueprint/orchestrator/mesh_failover.py:481-486 | appends to the recipient's own queue |
| Failover.FailoverManager.UpdateFailoverState | milimo-blueprint/orchestrator/mesh_failover.py:441-452 | no node offline, some, or all |
| ChainProofs.TraversalIsExact | milimo-blueprint/orchestrator/chain_validator.py:271-323 | main result: on every parent graph the traversal visits exactly what is reachable from a genesis attestation, once each, each after a parent |
| ChainProofs.TraversalReport | milimo-blueprint/orchestrator/chain_validator.py:289-319 | the report is that of the visiting order; forks are exactly the reachable nodes with several children |
| ChainProofs.CompleteIffGrounded | milimo-blueprint/orchestrator/chain_validator.py:140-149 | main result: no attestation is missed if and only if every parent resolves and no cycle exists |
| ChainProofs.GapUnreported | milimo-blueprint/orchestrator/chain_validator.py:140-149 | a verified genesis beside a verified orphan gets a valid verdict without errors or warnings, in every mode |
| ChainProofs.DescendantsAreNewer | milimo-blueprint/orchestrator/chain_validator.py:215-227 | main result: in a chain found valid every descendant has a greater version than each of its ancestors |
| ChainProofs.LinearAgreement | milimo-blueprint/orchestrator/chain_validator.py:325-384 | main result: on a linear chain the traversal reports the path validator's versions, genesis and latest, with no forks |
| ChainProofs.CompareValidators | milimo-blueprint/orchestrator/chain_validator.py:167-236 | run on one linear path, the two validators agree, and the chain is valid exactly when versions strictly increase |
| ChainProofs.VisitExplores | milimo-blueprint/orchestrator/chain_validator.py:289-319 | what one visit adds: distinct, closed under children, each supported by an earlier one |
| ChainValidator.Traversal.Visit | milimo-blueprint/orchestrator/chain_validator.py:289-319 | the recursive visit terminates, cycles included, and is the specified walk |
| ChainValidator.Traversal.VisitGenesis | milimo-blueprint/orchestrator/chain_validator.py:321-323 | the loop over genesis attestations is one walk over all of them |
| ChainValidator.Validator.ValidateChain | milimo-blueprint/orchestrator/chain_validator.py:167-236 | the whole result in every case: empty, no genesis, unverified, and otherwise fork policy, first version drop and strict mode |
| ChainValidator.VerdictMeaning | milimo-blueprint/orchestrator/chain_validator.py:167-236 | the result read off case by case: valid exactly when all are verified, forks are allowed or absent, versions strictly increase and strict mode has nothing to object to |
| ChainValidator.Validator.BuildChainTree | milimo-blueprint/orchestrator/chain_validator.py:238-269 | the tree lists every digest's children in list order |
| ChainValidator.Validator.ValidateSinglePath | milimo-blueprint/orchestrator/chain_validator.py:325-384 | valid iff all are verified and each names the one before; errors, warnings, versions and authors in order |
| ChainValidator.BreaksReported | milimo-blueprint/orchestrator/chain_validator.py:354-369 | a break is reported at a position exactly when the attestation there names another parent |
| ChainValidator.RefusalsReported | milimo-blueprint/orchestrator/chain_validator.py:205-210 | both validators report exactly what the verifier said about the attestations it refused |
| ChainValidator.AuthorsMeaning | milimo-blueprint/orchestrator/chain_validator.py:297-301 | the authors reported are the squads of the attestations, each once |
| ChainValidator.NeverEmpty | milimo-blueprint/orchestrator/chain_validator.py:220-227 | the version check never meets an empty sequence, so its verdict is always defined |
| Versions.CompareMeaning | milimo-blueprint/orchestrator/chain_validator.py:81-109 | the comparison is lexicographic on numbers with missing ones read as 0 |
| Versions.CompareIsTotalPreorder | milimo-blueprint/orchestrator/chain_validator.py:81-109 | antisymmetric and transitive with a transitive strict part, although each pair is padded on its own |
| VersionTexts.ParsePrint | milimo-blueprint/orchestrator/chain_validator.py:93-95 | parsing inverts printing numbers in decimal with dots, after any number of leading letters v |
| VersionTexts.ParseConcat | milimo-blueprint/orchestrator/chain_validator.py:93-95 | parts are read one by one and kept in order |
| VersionTexts.OtherPartSkipped | milimo-blueprint/orchestrator/chain_validator.py:93-95 | a part that is not all digits is skipped |
| VersionTexts.PrintedCompare | milimo-blueprint/orchestrator/chain_validator.py:81-109 | printed versions compare number by number from the left, a missing number counting as 0 |
| VersionTexts.LeftmostDecides | milimo-blueprint/orchestrator/chain_validator.py:81-109 | the leftmost difference decides, however large the later numbers |
| VersionTexts.PrintedIncrease | milimo-blueprint/orchestrator/chain_validator.py:112-132 | a chain of printed versions passes the version check exactly when they increase number by number |
| Versions.AdjacentIsPairwise | milimo-blueprint/orchestrator/chain_validator.py:112-132 | increase over adjacent pairs implies increase over all pairs |
| Versions.IsVersionSequenceValid | milimo-blueprint/orchestrator/chain_validator.py:112-132 | the loop decides pairwise strict increase and reports the first pair that fails |
| Versions.NoDropIsIncreasing | milimo-blueprint/orchestrator/chain_validator.py:112-132 | no adjacent pair fails exactly when every later version is greater than every earlier one |
| PolicyMerge.MergePolicies | milimo-blueprint/orchestrator/blueprint_merger.py:77-116 | the recursive loop computes the specified merge |
| PolicyMerge.MergeIsMeet | milimo-blueprint/orchestrator/blueprint_merger.py:77-116 | main result: on compatible inputs, at least as strict as the merge is the same as at least as strict as both |
| PolicyKeys.NumbersByName | milimo-blueprint/orchestrator/blueprint_merger.py:94-101 | two numbers merge to the smaller if the key spells "limit" anywhere in any case, else to the greater |
| PolicyKeys.ListsByName | milimo-blueprint/orchestrator/blueprint_merger.py:102-111 | two lists merge to what both have if the key spells "allow" in any case, else to what either has |
| PolicyKeys.OthersByKind | milimo-blueprint/orchestrator/blueprint_merger.py:91-115 | switches stay on only if both are on; of settings of different kinds the base's stays |
| PolicyKeys.ObjectsByKey | milimo-blueprint/orchestrator/blueprint_merger.py:83-86 | objects merge key by key, and what one side alone has is kept |
| PolicyKeys.StricterByName | milimo-blueprint/orchestrator/blueprint_merger.py:90-111 | the order of the meet laws by the letters of the key: under a limit less is stricter, else more |
| PolicyKeys.RateLimitKeepsTheSmaller | milimo-blueprint/orchestrator/blueprint_merger.py:96-99 | a rate limit of 100 merged with one of 50 is 50, in whatever case the key is written |
| PolicyMerge.MergeIsLowerBound | milimo-blueprint/orchestrator/blueprint_merger.py:77-116 | the merge is at least as strict as both inputs if and only if they are compatible |
| PolicyMerge.MergeIsGreatest | milimo-blueprint/orchestrator/blueprint_merger.py:77-116 | whatever is as strict as both is as strict as the merge |
| PolicyMerge.StricterIsPartialOrder | milimo-blueprint/orchestrator/blueprint_merger.py:77-116 | the restrictiveness order is reflexive, antisymmetric and transitive |
| PolicyMerge.MergeIdempotent | milimo-blueprint/orchestrator/blueprint_merger.py:77-116 | merging a setting with itself changes nothing |
| PolicyMerge.MergeCommutesIff | milimo-blueprint/orchestrator/blueprint_merger.py:77-116 | the order of the inputs does not matter exactly when they agree on kinds, or on values where the base would win |
| PolicyMerge.MergeAssociative | milimo-blueprint/orchestrator/blueprint_merger.py:77-116 | three compatible policies merge to the same in either grouping |
| PolicyMerge.ListMergeKeepsBothIff | milimo-blueprint/orchestrator/blueprint_merger.py:101-110 | two different lists keep both sides' entries exactly under names without "allow", so not under "disallowed_tools" |
| SlidingWindows.AcceptanceIsExact | milimo-hermes-plugin/warroom/server.py:94-110 | main result: a POST is accepted exactly when fewer than 30 of its client's accepted POSTs are younger than 60 seconds |
| SlidingWindows.WindowsHoldAtMost | milimo-hermes-plugin/warroom/server.py:100-110 | main result: no 60-second interval holds more than 30 accepted POSTs of a client |
| SlidingWindows.BucketIsHistory | milimo-hermes-plugin/warroom/server.py:103-109 | the pruned bucket is as good as the full history of accepted POSTs |
| SlidingWindows.RateLimiter.CheckRateLimit | milimo-hermes-plugin/warroom/server.py:100-110 | the verdict and the new buckets; a refused POST changes nothing |
| SlidingWindows.RestartsPerWindow | milimo-blueprint/orchestrator/claw_launcher.py:460-466 | between clears, no window holds more allowed restarts than the limit |
| SlidingWindows.AllowedIffWindowFits | milimo-blueprint/orchestrator/claw_launcher.py:460-466 | an attempt is allowed exactly when the window, itself included, holds at most the limit of attempts |
| SlidingWindows.AttemptsInWindow | milimo-blueprint/orchestrator/claw_launcher.py:460-466 | the pruned list is the part of the full history inside the window |
| SlidingWindows.ProcessSupervisor.RecordRestart | milimo-blueprint/orchestrator/claw_launcher.py:460-466 | records the attempt, denied ones too, and says whether it is allowed |
| SlidingWindows.CountIsHistory | milimo-blueprint/orchestrator/claw_launcher.py:468-471 | the count a caller reads is the number of attempts of the whole history since the last clear that fall in the window |
| SlidingWindows.ProcessSupervisor.IsFlapping | milimo-blueprint/orchestrator/claw_launcher.py:473-474 | more attempts in the window than the limit |
| SlidingWindows.ProcessSupervisor.Clear | milimo-blueprint/orchestrator/claw_launcher.py:476-477 | forgets one role's attempts |
| SlidingWindows.RestartScheduledIff | milimo-blueprint/orchestrator/claw_launcher.py:914-949 | main result: in every run of starts, stops and stale reports, a stale claw is restarted exactly when fewer than the limit of attempts since it began fall in the window |
| SlidingWindows.ThresholdNeedsPileUp | milimo-blueprint/orchestrator/claw_launcher.py:914-949 | a running claw is refused only after as many reports as the limit with no start or stop of it in between |
| SlidingWindows.StaleAfterStartIsScheduled | milimo-blueprint/orchestrator/claw_launcher.py:879-885 | right after a start, a stale report is always scheduled, whatever happened before |
| SlidingWindows.ListBounded | milimo-blueprint/orchestrator/claw_launcher.py:914-949 | in every run each role's list stays within the limit plus one |
| SlidingWindows.BackoffDoubles | milimo-blueprint/orchestrator/claw_launcher.py:914-949 | in every run, after n restarts scheduled since the role began the backoff is 2 to the n, capped at 60 seconds |
| SlidingWindows.ClawLauncher.StartRole | milimo-blueprint/orchestrator/claw_launcher.py:864-891 | a start that comes up forgets the role's restarts and resets its backoff; one that fails or finds the role alive changes nothing |
| SlidingWindows.ClawLauncher.StopRole | milimo-blueprint/orchestrator/claw_launcher.py:893-901 | only the components of the role go |
| SlidingWindows.ClawLauncher.RestartRole | milimo-blueprint/orchestrator/claw_launcher.py:903-908 | a restart is a stop and then a start |
| SlidingWindows.ClawLauncher.RestartStaleClaw | milimo-blueprint/orchestrator/claw_launcher.py:914-949 | when a restart is scheduled, after which delay, and what each outcome changes |
| Metrics.ReplayAgreesIff | milimo-blueprint/orchestrator/metrics_collector.py:79-173 | main result: replaying a run's log gives the counters in memory if and only if no custom metric used a counted type |
| Metrics.ReplayIsMemory | milimo-blueprint/orchestrator/metrics_collector.py:183-261 | without such metrics replay restores counters and timings |
| Metrics.ReplayOvercounts | milimo-blueprint/orchestrator/metrics_collector.py:156-173 | otherwise the headline counters exceed memory by the number of such metrics |
| MetricsCounts.CountersCount | milimo-blueprint/orchestrator/metrics_collector.py:79-154 | after any calls the overall counters are the numbers of calls of each kind and the tokens of all inferences |
| MetricsCounts.KindCounts | milimo-blueprint/orchestrator/metrics_collector.py:79-96 | per kind of message the counter is the number of its messages, and the timing their times in order |
| MetricsCounts.StatsMeaning | milimo-blueprint/orchestrator/metrics_collector.py:266-281 | minimum, maximum and p95 are samples at the stated ranks, in any way of sorting them |
| MetricsCounts.AverageMeaning | milimo-blueprint/orchestrator/metrics_collector.py:266-281 | the average times the count is the total |
| Metrics.ReaderAndRecorderAgree | milimo-blueprint/orchestrator/metrics_collector.py:175-288 | main result: a fresh reader and the recorder report the same average, minimum, maximum and p95 of every timing, and the recorder's count is double |
| Metrics.DoubledStats | milimo-blueprint/orchestrator/metrics_collector.py:266-281 | doubling every sample doubles the count and changes no other figure |
| Metrics.SameP95 | milimo-blueprint/orchestrator/metrics_collector.py:266-281 | the p95 index on the doubled sorted list finds the same sample |
| Metrics.MetricsCollector.RecordMessageProcessed | milimo-blueprint/orchestrator/metrics_collector.py:79-96 | counters, timing and log line of a processed message |
| Metrics.MetricsCollector.RecordError | milimo-blueprint/orchestrator/metrics_collector.py:98-111 | counters and log line of an error |
| Metrics.MetricsCollector.RecordInferenceCall | milimo-blueprint/orchestrator/metrics_collector.py:113-131 | counters, tokens, timing and log line of an inference call |
| Metrics.MetricsCollector.RecordSlaCompliance | milimo-blueprint/orchestrator/metrics_collector.py:133-154 | the compliant or the violation counter, and the log line |
| Metrics.MetricsCollector.RecordCustom | milimo-blueprint/orchestrator/metrics_collector.py:156-173 | a log line only |
| Metrics.MetricsCollector.GetSummary | milimo-blueprint/orchestrator/metrics_collector.py:175-288 | replay merged with memory, and the statistics of both together |
| ConflictResolution.ConvergesIff | milimo-blueprint/orchestrator/mesh_failover.py:523-543 | main result: every arrival order gives the same update if and only if no two different updates share the top key |
| ConflictResolution.ResolvedIsMaximum | milimo-blueprint/orchestrator/mesh_failover.py:523-543 | the winner arrived, and nothing that arrived has a greater key |
| ConflictResolution.DistinctKeysConverge | milimo-blueprint/orchestrator/mesh_failover.py:523-543 | pairwise distinct keys converge |
| Latency.PercentileMonotone | milimo-blueprint/orchestrator/latency_monitor.py:321-334 | the interpolated percentile grows with the percentage and stays between the ends |
| Latency.MedianIsFiftieth | milimo-blueprint/orchestrator/latency_monitor.py:321-334 | the 50th percentile is the median, odd and even lengths |
| Latency.StatsCoherent | milimo-blueprint/orchestrator/latency_monitor.py:289-319 | min <= median <= p95 <= p99 <= max and min <= mean <= max |
| LatencyFigures.PercentilesMeaning | milimo-blueprint/orchestrator/latency_monitor.py:289-334 | p95 and p99 lie where 95 and 99 percent of the way through the sorted successes fall, dividing the step between neighbours in proportion |
| LatencyFigures.MedianMeaning | milimo-blueprint/orchestrator/latency_monitor.py:289-319 | the median is the middle success or halfway between the two in the middle |
| LatencyFigures.ExtremesMeaning | milimo-blueprint/orchestrator/latency_monitor.py:289-319 | minimum and maximum are the ends of the sorted successes |
| LatencyFigures.AveragesMeaning | milimo-blueprint/orchestrator/latency_monitor.py:289-319 | the mean is over the successes, the loss rate over all samples |
| LatencyFigures.SuccessfulMembers | milimo-blueprint/orchestrator/latency_monitor.py:295-299 | only the latencies of successful samples count |
| Latency.WindowIsSuffix | milimo-blueprint/orchestrator/latency_monitor.py:276-287 | what is kept is exactly the last samples ever added |
| Latency.LatencyMonitor.AddSample | milimo-blueprint/orchestrator/latency_monitor.py:276-287 | one target's samples and figures change; all stored figures stay coherent |
| Latency.LatencyMonitor.UpdateStats | milimo-blueprint/orchestrator/latency_monitor.py:289-319 | the figures are those of the successful samples, or stay as they were if there are no samples or none succeeded |
| RoleAssigner.NoBlockingPair | milimo-blueprint/orchestrator/role_assigner.py:182-201 | main result: nobody placed later or left over scores higher for a role than its assignee |
| RoleAssigner.PicksInjective | milimo-blueprint/orchestrator/role_assigner.py:178-206 | no member is given two roles |
| RoleAssigner.PicksUnique | milimo-blueprint/orchestrator/role_assigner.py:178-206 | any choice of a free, best, first member role by role gives the same picks |
| RoleAssigner.RoleFilledIff | milimo-blueprint/orchestrator/role_assigner.py:182-195 | a role is filled exactly when somebody still free scores at least 0 for it |
| RoleAssigner.EveryRoleFilled | milimo-blueprint/orchestrator/role_assigner.py:231-252 | with scores of at least 0 every role to fill is filled |
| RoleAssigner.NegativeScoreLeavesRoleOpen | milimo-blueprint/orchestrator/role_assigner.py:254-281 | a member with very negative experience leaves the role open |
| RoleAssigner.AssignedExact | milimo-blueprint/orchestrator/role_assigner.py:195-206 | the assignments are exactly the picks that found someone |
| RoleAssigner.MissingExact | milimo-blueprint/orchestrator/role_assigner.py:217-219 | a role is missing exactly when it is required and unassigned |
| RoleAssigner.LeftoverExact | milimo-blueprint/orchestrator/role_assigner.py:221-221 | members are split into assigned and excess, with multiplicity |
| RoleAssigner.LeftoverInOrder | milimo-blueprint/orchestrator/role_assigner.py:221-221 | the excess keep the order in which they are listed |
| RoleAssigner.AdminIsLead | milimo-blueprint/orchestrator/role_assigner.py:208-215 | exactly one admin: the first ops or content assignment, else the first |
| RoleAssigner.RolesDistinct | milimo-blueprint/orchestrator/role_assigner.py:30-56 | no template fills a role twice |
| RoleAssigner.RolesFilledFromFront | milimo-blueprint/orchestrator/role_assigner.py:30-56 | with every template as many roles are filled as there are members, from the front of its team |
| RoleAssigner.ScoreMeaning | milimo-blueprint/orchestrator/role_assigner.py:254-281 | five points, two for each skill that helps, three for a preference and up to five for experience |
| RoleAssigner.PrerequisitesMeaning | milimo-blueprint/orchestrator/role_assigner.py:69-76 | which skill helps in which role |
| RoleAssigner.AssignRoles | milimo-blueprint/orchestrator/role_assigner.py:138-229 | the nested loops compute the specified assignment |
| RoleAssigner.DetermineRolesToFill | milimo-blueprint/orchestrator/role_assigner.py:231-252 | the loop computes the roles to fill |
| RoleAssigner.ScoreMemberForRole | milimo-blueprint/orchestrator/role_assigner.py:254-281 | the loop computes the score |
| SoloWarRoom.QueueIsArranged | milimo-blueprint/orchestrator/solo_warroom.py:169-327 | main result: the queue is always the undecided actions of hold priority, then those of review priority, each in arrival order, and no others |
| WarRoomModes.WaitsByMode | milimo-blueprint/orchestrator/solo_warroom.py:147-212 | main result: in every run an action not configured AUTO waits unprocessed until an operation names it, before all non-HOLD actions if configured HOLD, behind all HOLD actions otherwise |
| WarRoomModes.SubmitExecutesIff | milimo-blueprint/orchestrator/solo_warroom.py:158-208 | a submit executes its action exactly when its configured mode is AUTO, and decides nothing else |
| WarRoomModes.QueuedByMode | milimo-blueprint/orchestrator/solo_warroom.py:147-167 | everything queued was submitted and is still waiting, under the priority its configured mode gives |
| WarRoomModes.DecisionRecorded | milimo-blueprint/orchestrator/solo_warroom.py:233-320 | a decision takes the first action with the id out and records status and text with it |
| WarRoomModes.UnknownIdIgnored | milimo-blueprint/orchestrator/solo_warroom.py:322-327 | a decision on an id that is not queued changes nothing |
| SoloWarRoom.ActionsConserved | milimo-blueprint/orchestrator/solo_warroom.py:233-327 | main result: queue and processed together hold every submitted action as often as submitted and unchanged but for status and decision; decided stays decided; the auto list is the auto part of processed |
| SoloWarRoom.EachIdOnce | milimo-blueprint/orchestrator/solo_warroom.py:233-327 | with fresh ids, each submitted id is in the two lists together exactly once |
| SoloWarRoom.StepArranged | milimo-blueprint/orchestrator/solo_warroom.py:169-212 | every operation keeps the arrangement |
| SoloWarRoom.SortOf | milimo-blueprint/orchestrator/solo_warroom.py:210-212 | sorting keeps the order within each priority |
| SoloWarRoom.WarRoom.QueueAction | milimo-blueprint/orchestrator/solo_warroom.py:169-208 | the new action is queued in place, an AUTO one executed at once; the action returned is the new one as it now is |
| SoloWarRoom.WarRoom.Approve | milimo-blueprint/orchestrator/solo_warroom.py:233-260 | moves one queued action to processed as approved and returns it, if it is there |
| SoloWarRoom.WarRoom.Block | milimo-blueprint/orchestrator/solo_warroom.py:262-290 | moves and returns it as blocked, with the reason |
| SoloWarRoom.WarRoom.AutoExecute | milimo-blueprint/orchestrator/solo_warroom.py:292-320 | moves and returns it as auto-executed, to both lists |
| PrivacyRouter.LockedStaysLocal | milimo-blueprint/orchestrator/solo_privacy.py:242-268 | for every configuration and run, locked data types are only ever routed locally and cost nothing |
| PrivacyRouter.LockedOutcome | milimo-blueprint/orchestrator/solo_privacy.py:242-268 | financial data and source code stay local, and configuring them to leave is an error that changes nothing |
| PrivacyRouter.RoutedOutcome | milimo-blueprint/orchestrator/solo_privacy.py:270-323 | any other type goes where its override or its default asks, the cloud while the day's tokens last and then the fallback |
| PrivacyRouter.UsedIsChargedSince | milimo-blueprint/orchestrator/solo_privacy.py:110-131 | main result: the counter is the sum of logged costs since the last reset, whatever the clock does |
| PrivacyRouter.UsedIsSpentToday | milimo-blueprint/orchestrator/solo_privacy.py:110-131 | under an advancing clock it is what the whole log charges to the day |
| PrivacyRouter.AdmissionIsExact | milimo-blueprint/orchestrator/solo_privacy.py:93-108 | a cloud request is turned away exactly when the day's charges have reached the budget |
| PrivacyRouter.OverrunIsBelowOneRequest | milimo-blueprint/orchestrator/solo_privacy.py:93-113 | the counter exceeds the budget by less than one request |
| PrivacyRouter.EveryDayWithinBudget | milimo-blueprint/orchestrator/solo_privacy.py:93-131 | so does every day of the whole history |
| PrivacyRouter.CloudBeyondBudgetIff | milimo-blueprint/orchestrator/solo_privacy.py:333-351 | requests can go to the cloud beyond the budget if and only if the fallback is the cloud and some type is routed there |
| PrivacyRouter.ExceededTakesFallback | milimo-blueprint/orchestrator/solo_privacy.py:285-300 | a request over the budget takes the fallback route at no cost, and was an unlocked cloud request |
| PrivacyRouter.CostGuard.CheckBudget | milimo-blueprint/orchestrator/solo_privacy.py:93-108 | allowed below the budget, alert above the threshold, after a reset on a new day |
| PrivacyRouter.CostGuard.RecordUsage | milimo-blueprint/orchestrator/solo_privacy.py:110-113 | adds the tokens to the day's count |
| PrivacyRouter.CostGuard.MaybeReset | milimo-blueprint/orchestrator/solo_privacy.py:125-131 | forgets the count on another day |
| PrivacyRouter.SoloPrivacyRouter.Route | milimo-blueprint/orchestrator/solo_privacy.py:228-323 | decision, violation, log entry and charge of one call |

## Left out

- Mesh: message encryption, the memory-only mode, I/O errors and the branch that drops a message on an exception. The gateway is a choice of accept or refuse, and what it accepts counts as kept whole.
- Mesh: a file name is its rank in the sorted order; the text match of an id against names is an arbitrary predicate on names, and files that cannot be parsed are not modelled.
- Mesh: the contract validator and `requires_approval` are uninterpreted, and there is no privacy router to annotate payloads.
- Mesh.InboxPoller.CheckInbox: the handler's result is not kept, nor the copy of it that goes to a per-role subdirectory of the outbox, which the drain does not list. Pollers exist for claw roles only, as `ALL_ROLES` has no war room (`claw_launcher.py:52`).
- Mesh: a handler invocation and its mark in the processed set are one step, as are the read and the rename of a war-room decision.
- MeshPayloads.PayloadLostIff: stated for runs without crashes, because a crash between write and unlink can leave a second whole copy that outlives a later refusal; `PayloadKeptOrRefused` covers crashes in one direction.
- Failover.FailoverManager.HandleNodeTimeout: the node-offline event and the failure reason text are not kept; records are values in maps rather than shared mutable objects.
- Failover.FailoverManager.CheckRegionHealth: the region-isolated event is not kept, since its place in the history depends on the order of a dictionary.
- Failover.FailoverManager.QueueMessage: does not increment the manager's own version vector, which nothing in the manager reads.
- Failover: event handlers, and a send that fails during replay. One pass reads the clock once, and the topology's roles are distinct where a lemma says so.
- Chains: hashing and signature checks are uninterpreted and digests are assumed to identify attestations; error texts, timestamps, the recursion limit, `find_ancestor` and the summary are not modelled. Versions are ASCII.
- Policies: a list is the set of its items, so order, duplicates and unhashable items are not captured, nor that 1, 1.0 and True are equal inside a list; lower-casing is ASCII. The merges of tools (by name, the incoming one wins) and of learned priors are separate from that of policies.
- PolicyMerge.MergeAssociative: stated for pairwise compatible settings, because on a clash of kinds the base wins and the grouping then matters.
- Windows, latency and metrics: times and figures are exact reals and the clock is a parameter.
- SlidingWindows.ClawLauncher.RestartStaleClaw: returns the delay; that the restart happens after it is a later `RestartRole` of the same run, in whatever order the run has it.
- SlidingWindows.ClawLauncher.StartRole: whether components come up or are alive is a parameter.
- Metrics.MetricsCollector.GetSummary: figures are not rounded to two digits.
- Metrics: timestamps and the lookback period, which the code accepts and never applies; write failures; the text of numbers, of which only the round trip of integers is assumed.
- Latency.WindowIsSuffix: asks for a window of at least one; with a window of zero the code never trims.
- Latency.LatencyMonitor.UpdateStats: the standard deviation is not kept.
- RoleAssigner.AssignRoles: confidence and the reason text of an assignment are not kept. `balance_roles` returns its input and is left out.
- RoleAssigner.EveryRoleFilled: asks for scores of at least 0, because it is false otherwise; `RoleFilledIff` gives the exact condition.
- War room: timestamps, log lines, events and digests; ids are given by the caller.
- Privacy: log texts, prompt trimming, `never_block`, and a date that changes within one call; the day of a decision is the local date the guard reads.
