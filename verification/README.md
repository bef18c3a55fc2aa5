# Verified model of the EvoFence kernel

EvoFence is a TypeScript kernel that lets agents change a repository under control: a task graph
decides what may run, a session journal records what was intended, sent and answered, and a workspace
protocol moves an integration branch exactly when the journal says so. This project models those
three components, and six smaller algorithms around them, in Dafny, and proves what they are for.

Loops, classes and in-place updates of the program are loops, classes and in-place updates here; what
the program computes by expressions is functions. The workspace protocol and the host binding are
concurrent, so they are state machines over single steps, with a crash possible between any two.

| part | files |
|---|---|
| task graph | `GraphTypes` `Walks` `TarjanState` `Tarjan` `GraphCycles` `GraphChecks` `GraphGate` `GraphMeaning` `GraphDecide` `GraphRules` `GraphProgress` `GraphPatches` `GraphCandidates` `GraphRevisions` |
| session journal | `JournalTypes` `Replay` `ReplayMeaning` `OutboxMeaning` `Commit` `CommitMeaning` `SessionRecord` `Sessions` `Journals` `Recovery` `RecoveryMeaning` `Delivery` `DeliveryAnswers` `DeliveryRecovery` `EventStore` `Snapshots` |
| workspace protocol | `Observations` `Workspace` `WorkspaceSteps` `WorkspaceLocks` `WorkspaceData` `WorkspaceRuns` `WorkspaceAlways` `WorkspaceSuccessors` `WorkspaceParted` `WorkspaceRaces` `WorkspaceAnswers` `WorkspaceReconciles` `WorkspaceFailures` |
| smaller algorithms | `Canonical` `CanonicalProofs` `CanonicalTexts` `McNemar` `Sampling` `Bootstrap` `PiBinding` `PiRuns` `PiAnswers` `Closure` `ToolStrategy` |
| shared | `Options` |

`dafny verify dfyconfig.toml` checks everything.

## Where the program and its promises differ

Each of these is proved here: where the promise fails, and the exact condition under which it holds.

- **Accepted graphs can wait for ever.** Progress is promised along dependency and data edges, and holds
  (`GraphDecide.Progress`). But readiness looks at a join's required branches and at none of its edges, and no
  check looks for cycles among those: two joins that require each other are accepted and never start
  (`GraphMeaning.AcceptedButStuck`). And the facts hold one artifact for each producer: a node that takes two
  artifacts of different schemas from one producer is accepted and never ready
  (`GraphProgress.AcceptedButNeverReady`). Whatever has succeeded, some unfinished node can be ready exactly when
  nothing waits for itself (joins for their branches, other nodes for their producers), the data inputs a plain
  node takes from one producer fit together, and every resource it declares may be held
  (`GraphProgress.RunsOnIff`).
- **A mid-flight node can gain a bound input.** A patch compares a data edge's schema and digest but not
  where it comes from or, for an edge that was elsewhere before, where it goes
  (`GraphRevisions.RetargetedInputAccepted`); the inputs are frozen exactly when no patch edge into the
  node reuses an edge id with other ends (`GraphRevisions.FrozenIffEndsKept`).
- **A committed session can be impossible to restore.** The store derives the request ids `dispatch:…` and
  `receipt:…` and never checks them against the Id grammar, but a revival does. A valid receipt id longer
  than 120 characters, or a claim id longer than 119, is committed and strands the session for good
  (`DeliveryRecovery.ReceiptRestorable`, `DispatchRestorable`, `StrandedForGood`, `StrandingReachable`).
- **A `reconcile` that is live together with a `run` of its effect can make a receipt lie.** `reconcile` looks at
  `active` when it is called, not when it takes the lock over: called just before `run` in the same process, it
  takes the lock from under the running call and reports `not-executed` for an effect that then moves HEAD
  (`WorkspaceRaces.StaleActive`). A take-over reads the owner, probes the process and removes the lock in three
  steps: if the owner finishes and dies in between, the lock that is removed is another call's
  (`WorkspaceRaces.RemovedAnother`). As the program is written, receipts are honest in every run exactly when no
  `reconcile` of an effect is live together with a `run` of it, whoever else overlaps
  (`WorkspaceRaces.AsWrittenHonestIff`); `WorkspaceRaces.HonestIff` adds which repairs would make that unnecessary.
  Two things hold however calls overlap: an effect moves HEAD at most once, and a `completed` receipt means that it
  did (`WorkspaceAlways.MovedOnce`, `WorkspaceAlways.CompletedMoved`).
- **Two host bindings attached at once prompt twice**: at most one prompt per key holds in every run exactly
  when the host never has two attached (`PiRuns.AtMostOnceIff`).
- **A failed call's first repeat is not always blocked.** The tool controller remembers 64 failing calls: a repeat is
  blocked once, and only once, in every history with at most `n` failing calls since the last success exactly when
  `n` is at most 64 (`ToolStrategy.BlockedIff`).

## Model

| member | source | states |
|---|---|---|
| `Tarjan.StronglyConnected` | src/kernel/graph/cycle.ts:16-74 | the iterative search ends on every graph and its components are exactly the mutual-reachability classes of the vertices, each vertex once, in reverse topological order |
| `Tarjan.PopComponent` | src/kernel/graph/cycle.ts:61-68 | popping to a root splits the stack at the root: what is above and including it, and what stays |
| `Tarjan.Classes` | src/kernel/graph/cycle.ts:16-74 | settled components are closed under mutual reachability, so they are the classes |
| `TarjanState.MemberReachesRoot` | src/kernel/graph/cycle.ts:40-60 | every vertex above a root on the stack reaches the root, by its low link |
| `TarjanState.RootInv` | src/kernel/graph/cycle.ts:60-70 | cutting a component off the stack keeps every clause of the search's invariant |
| `GraphCycles.CyclicComponents` | src/kernel/graph/cycle.ts:77-82 | the kept components are those with two members or a self edge |
| `GraphCycles.CyclicIff` | src/kernel/graph/cycle.ts:77-82 | a vertex is in a kept component exactly when it lies on a nonempty closed walk |
| `GraphCycles.CheckDependencyAcyclic` | src/kernel/graph/cycle.ts:89-97 | with declared endpoints, no issue exactly when dependency and data edges have no nonempty closed walk |
| `GraphCycles.AcyclicIff` | src/kernel/graph/cycle.ts:89-97 | no cyclic component means no closed walk, and the other way round |
| `GraphCycles.LoopParticipants` | src/kernel/graph/cycle.ts:100-108 | the set is the loop nodes and the nodes their loops name |
| `GraphCycles.CheckTermination` | src/kernel/graph/cycle.ts:111-132 | with declared endpoints, no issue exactly when every control cycle through a route edge stays inside loops |
| `GraphCycles.TerminatesIff` | src/kernel/graph/cycle.ts:111-132 | the component-wise test decides that property of all mutually reachable control nodes |
| `GraphChecks.CheckReferences` | src/kernel/graph/structural.ts:30-72 | reports a reference issue exactly when some id is repeated or undeclared, and a shape issue exactly when some edge is misshapen |
| `GraphChecks.EdgeShapeIssues` | src/kernel/graph/structural.ts:74-107 | no issue exactly when the edge has its own kind's slots and a valid predicate |
| `GraphRules.ValidIff` | src/kernel/graph/predicate.ts:96-118 | a routing predicate is valid exactly when every part of it, however deep, has its operator's shape |
| `GraphChecks.CheckFanIn` | src/kernel/graph/structural.ts:110-127 | no issue exactly when every join is listed and requires some branch but not itself, no other node requires any, and the contract's branches are declared |
| `GraphChecks.CheckResources` | src/kernel/graph/structural.ts:130-155 | no issue exactly when policies are unique and every node's exclusive and shared resources have the policy mode they need |
| `GraphChecks.DataEdgeIssues` | src/kernel/graph/artifacts.ts:30-69 | no issue exactly when a future artifact matches one declared output, or a bound one is its producer's with the expected schema |
| `GraphRules.CountedOnce` | src/kernel/graph/artifacts.ts:37-48 | a future artifact fits exactly when one declared output, and no other, is of its schema |
| `GraphChecks.CheckDataConsumable` | src/kernel/graph/validate.ts:28-39 | no issue exactly when every data edge with a declared producer is consumable |
| `GraphChecks.CheckBounds` | src/kernel/graph/bounds.ts:18-44 | no issue exactly when node count, attempts, depths and every repair or fallback edge are bounded by the graph's limits |
| `GraphChecks.CheckTerminalRequired` | src/kernel/graph/bounds.ts:50-69 | no issue exactly when every node is terminal or has a routing edge or a blocking consumer |
| `GraphChecks.ConsumedIff` | src/kernel/graph/edges.ts:18-40 | the grouped outgoing edges answer whether an outcome has anywhere to go |
| `GraphGate.CheckAbandonment` | src/kernel/graph/abandonment.ts:29-62 | evidence issues exactly when a branch is abandoned twice, an abandonment is dropped or an evidence or abandoned node would leave; authority issues exactly when an abandonment lacks a contract authority |
| `GraphGate.SortByCheckOk` | src/kernel/graph/validate.ts:54 | the issue sort is stable: by check, and within a check in the order found |
| `GraphGate.ValidateGraph` | src/kernel/graph/validate.ts:42-61 | no issue exactly when all nine rules hold; the first issue names the first rule broken, with one of that rule's codes |
| `GraphMeaning.RouteOnce` | src/kernel/graph/cycle.ts:111-132 | outside loops no control walk takes a route edge twice |
| `GraphMeaning.ControlWalkBounded` | src/kernel/graph/cycle.ts:111-132 | in an accepted graph a control walk outside loops that respects the attempt bounds is at most as long as the route edges plus the summed bounds |
| `GraphMeaning.ClosedControlWalk` | src/kernel/graph/bounds.ts:26-33 | a closed control walk outside loops consists of bounded repair and fallback edges only |
| `GraphMeaning.SomeNodeCanStart` | src/kernel/graph/cycle.ts:89-97 | whatever has succeeded, short of everything, some other node has all its producers done |
| `GraphMeaning.NeverStuckIff` | src/kernel/graph/readiness.ts:62-79 | with valid references, some node always waits for nothing unfinished exactly when waiting - a join for its required branches, any other node for its blocking producers - has no closed walk |
| `GraphMeaning.AcceptedButStuck` | src/kernel/graph/structural.ts:110-127 | two joins that require each other are accepted and can never start |
| `GraphDecide.BuildGraph` | src/kernel/graph/compile.ts:20-58 | the compiled indexes answer every lookup as a search of the specification would |
| `GraphDecide.CompileGraph` | src/kernel/graph/compile.ts:61-72 | a plan comes out exactly for a value that decodes to a supported and accepted graph; an undecodable one keeps the decoder's code, any other refusal's code belongs to the first rule broken |
| `GraphDecide.AlarmIff` | src/kernel/graph/decide.ts:75-121 | an outcome reaches the alarm `INV` exactly for a node that is neither terminal nor consumed |
| `GraphDecide.NoAlarmOnAccepted` | src/kernel/graph/decide.ts:75-121 | so on an accepted graph no node's outcome ever does |
| `GraphDecide.EvaluateJoin` | src/kernel/graph/decide.ts:163-203 | failed exactly when a required branch is abandoned without cover, waiting exactly when none is lost but some is not done; rules and report list the branches in declaration order as they stand |
| `GraphDecide.EvaluateReadiness` | src/kernel/graph/readiness.ts:62-90 | a plain node answers for its first unmet input in declaration order, or, with none, for its first unavailable resource, and says which of lost, not yet succeeded, stale or unavailable it is; a join answers as its branches stand |
| `GraphDecide.ReadyIff` | src/kernel/graph/readiness.ts:62-90 | a plain node is ready exactly when each input is met and each resource is free |
| `GraphDecide.ReadinessNeverAlarms` | src/kernel/graph/readiness.ts:62-90 | on a node of an accepted graph readiness never answers `INV` |
| `GraphDecide.Progress` | src/kernel/graph/readiness.ts:62-90 | with something left to do in an accepted graph, some node has every producer succeeded and, unless it is a join, reports no upstream gap |
| `GraphRules.RuleIff` | src/kernel/graph/decide.ts:75-119 | for each rule A1 to A6 and `INV`, by the edges of the specification, exactly when an outcome falls under it: terminal; else a matching route; else a matching repair; else a matching fallback; else some routing edge; else some consumer; else the alarm |
| `GraphRules.MatchAnswer` | src/kernel/graph/decide.ts:75-104 | the first matching edge in declaration order decides: a route enables its target and the outcome decides the state, a repair fails the node and starts a new attempt at its target, a fallback fails it and enables its target |
| `GraphRules.PlainAnswer` | src/kernel/graph/decide.ts:44-73 | under A1 and A6 nothing is enabled and the node is succeeded exactly when the outcome is ok and completed, failed exactly when it is not ok or asks for repair or failed; A5 fails with its own reason, the alarm changes nothing |
| `GraphRules.MatchingIs` | src/kernel/graph/edges.ts:53-60 | what is found among the edges leaving a node is the first match of the whole specification, and nothing exactly when none matches |
| `GraphRules.UpstreamIff` | src/kernel/graph/decide.ts:122-131 | a lost upstream is waited for when a repair or fallback leads to it (B1), given up when it was abandoned without one (B2), and waited for otherwise (B3) |
| `GraphRules.JoinRules` | src/kernel/graph/decide.ts:182-188 | a join lists one of these rules for each required branch that has not succeeded, in their order |
| `GraphRules.ReportSays` | src/kernel/graph/decide.ts:178-200 | what a join reports of each branch, and which reason it gives for one that has not succeeded |
| `GraphRules.JoinAnswer` | src/kernel/graph/readiness.ts:62-90 | a join is refused once a branch is lost, ready exactly when all have succeeded, and waits otherwise |
| `GraphProgress.JoinReadyIff` | src/kernel/graph/readiness.ts:50-59 | a join is ready exactly when its required branches are done, whatever edges point at it |
| `GraphProgress.PlainPossibleIff` | src/kernel/graph/readiness.ts:67-88 | any other node can be ready exactly when its producers are done, its data inputs from one producer fit one artifact, and its resources may be held |
| `GraphProgress.ReadyIffStarts` | src/kernel/graph/readiness.ts:62-90 | so readiness lets a node start exactly when it waits for nothing unfinished and can be ready at all |
| `GraphProgress.RunsOnIff` | src/kernel/graph/readiness.ts:62-90 | whatever has succeeded short of everything, some other node can be ready: exactly when nothing waits for itself and every plain node can be ready at all |
| `GraphProgress.AcceptedButNeverReady` | src/kernel/graph/readiness.ts:75 | a consumer of two artifacts of one producer is accepted and is not ready whatever the facts |
| `GraphPatches.RespectsLocked` | src/kernel/graph/patch.ts:146-170 | true exactly when no mid-flight node is changed or removed, its data inputs survive with their bindings, and none is newly bound |
| `GraphPatches.BuildCandidate` | src/kernel/graph/patch.ts:82-115 | removals, changes and additions in turn, refused at the first missing or repeated node, or when nothing is left |
| `GraphPatches.CheckAuthority` | src/kernel/graph/abandonment.ts:73-96 | no issue exactly when the reference is granted and nodes and capabilities stay within the grant |
| `GraphPatches.ApplyGraphPatch` | src/kernel/graph/patch.ts:135-196 | applied exactly when every condition holds, then one revision up; otherwise the code of the first condition that fails, in order |
| `GraphPatches.FirstRefusal` | src/kernel/graph/patch.ts:175-187 | merged with the authority issues, the first issue still names the first rule broken |
| `GraphCandidates.BuildableIff` | src/kernel/graph/patch.ts:82-96 | a candidate comes out exactly when each removal names a node once, each change a node that stays, and each addition a new id once |
| `GraphCandidates.CandidateArranged` | src/kernel/graph/patch.ts:82-96 | and then it is the nodes that stay, each in its place and as its last change says, with the additions behind them in order |
| `GraphCandidates.CandidateMembers` | src/kernel/graph/patch.ts:82-96 | a node is in it exactly when it was added, is the last change of its node, or is named by no removal and no change |
| `GraphCandidates.NextRevision` | src/kernel/graph/patch.ts:103-115 | an applied patch gives the next revision of the same graph with these nodes and the patch's own protocol, edges and abandoned branches |
| `GraphCandidates.JoinsListed` | src/kernel/graph/structural.ts:157-160 | its required joins are the ids of its joins in order |
| `GraphRevisions.LockedNodeKept` | src/kernel/graph/patch.ts:146-155 | a mid-flight node keeps its specification |
| `GraphCandidates.MidFlightStays` | src/kernel/graph/patch.ts:146-155 | a patch that changes or removes a leased, running, verifying, unknown or cancelling node is never applied |
| `GraphCandidates.OnlyMidFlight` | src/kernel/graph/types.ts:111-117 | no node in another state is in a patch's way |
| `GraphRevisions.LockedInputKept` | src/kernel/graph/patch.ts:156-163 | each data edge into a mid-flight node keeps id, target, expected schema and bound digest |
| `GraphRevisions.BindingIntoLocked` | src/kernel/graph/patch.ts:164-170 | a data edge into a mid-flight node after the patch is new and unbound, or an old one with the same binding |
| `GraphRevisions.FrozenIffEndsKept` | src/kernel/graph/patch.ts:66-73 | the inputs of a mid-flight node are frozen exactly when no patch edge into it reuses an id with other ends |
| `GraphRevisions.RetargetedInputAccepted` | src/kernel/graph/patch.ts:66-73 | a concrete accepted patch that moves a bound edge onto a running node |
| `GraphRevisions.EvidenceStays` | src/kernel/graph/abandonment.ts:55-60 | no accepted patch deletes an evidence or abandoned node |
| `GraphRevisions.AbandonmentStays` | src/kernel/graph/abandonment.ts:51-53 | what is abandoned stays abandoned |
| `GraphRevisions.RunSound` | src/kernel/graph/patch.ts:135-196 | over any run of accepted patches every revision passes the context-free rules and rises by exactly one |
| `GraphRevisions.RunKeepsAbandoned` | src/kernel/graph/patch.ts:135-196 | over any such run the abandoned set never shrinks and its nodes never leave |
| `GraphRevisions.RunKeepsEvidence` | src/kernel/graph/patch.ts:135-196 | a node that stays evidence never leaves |
| `GraphRevisions.RunKeepsMidFlight` | src/kernel/graph/patch.ts:135-196 | a node that stays mid-flight keeps its specification and each of its data inputs |
| `Replay.ReplayEvents` | src/kernel/store/projection.ts:55-125 | the refusing loop computes the fold of the journal |
| `Replay.FoldContiguous` | src/kernel/store/projection.ts:66-76 | a journal that replays is one session's, numbered without a gap |
| `Replay.ReplayResumes` | src/kernel/store/projection.ts:55-125 | replaying a journal is replaying any prefix and continuing from the result |
| `Replay.ProjectOutbox` | src/kernel/store/outbox.ts:21-95 | the loop computes the delivery state of every effect, or the first refusal |
| `Replay.IntentionHistory` | src/kernel/store/outbox.ts:32-46 | in a consistent journal an effect is listed exactly when it was intended, once, with committed content |
| `Replay.DispatchHistory` | src/kernel/store/outbox.ts:47-61 | a dispatched effect was intended before, is dispatched once, and never reads `intended` again |
| `ReplayMeaning.ReplayMeans` | src/kernel/store/projection.ts:55-125 | a replay, seeded or not, succeeds exactly when every event is of the session, next in sequence, at the same or the next revision, in its epoch or raising it, and goes on from its node's state; revision and epoch are then the last event's, the mode that of the last event about it, each node's state that of its last transition |
| `ReplayMeaning.Misfit` | src/kernel/store/projection.ts:73-106 | the first event that does not fit decides the code |
| `OutboxMeaning.OutboxMeans` | src/kernel/store/outbox.ts:21-95 | a journal projects exactly when each effect is intended once, with content, dispatched right after, and reported on only then by a stored receipt; each effect then reads as the last event about it says, effects and archived receipts in their order |
| `OutboxMeaning.Misfit` | src/kernel/store/outbox.ts:32-92 | the first event out of place decides the code |
| `SessionRecords.UniqueIdentities` | src/storage/store-identities.ts:7-21 | the growing-set loop gives the first invalid or repeated id |
| `SessionRecords.PlanEffects` | src/storage/store-session.ts:56-96 | gives the first reason an effect list is refused, none exactly when each effect is new, uniquely keyed and intended once in the batch, and every intention is covered |
| `SessionRecords.PlanReceipts` | src/storage/store-session.ts:99-135 | gives the first reason a receipt list is refused, else exactly the receipts not committed before |
| `SessionRecords.NumberDrafts` | src/storage/store-session.ts:199-226 | gives the first bad draft's code, else the drafts numbered on from the journal |
| `SessionRecords.SessionRecord.Plan` | src/storage/store-session.ts:178-239 | all checks in their order, before the first write |
| `SessionRecords.SessionRecord.Write` | src/storage/store-session.ts:241-264 | the writes give exactly the next session and its outcome |
| `SessionRecords.SessionRecord.CommitBatch` | src/storage/store-session.ts:141-265 | commits all of the batch or changes nothing; a repeated request answers with the stored outcome and changes nothing |
| `CommitMeaning.CommitOrder` | src/storage/store-session.ts:141-239 | for every sound session a request that is not stored is refused by the first condition that fails, in this order, and accepted when none does; each condition is said of the request's own elements |
| `CommitMeaning.DraftsFirst` | src/storage/store-session.ts:199-213 | the first draft of another session, with a place of its own, or with a used id decides, and with which code |
| `CommitMeaning.EffectsFirst` | src/storage/store-session.ts:75-89 | the first effect that is committed already, not intended exactly once in the batch, or keyed as another decides |
| `CommitMeaning.EffectsOrder` | src/storage/store-session.ts:56-96 | the checks on effects in their order |
| `CommitMeaning.ReceiptsFirst` | src/storage/store-session.ts:116-128 | the first receipt that contradicts a stored one, or is new and named by no event of the batch, decides |
| `CommitMeaning.ReceiptsOrder` | src/storage/store-session.ts:99-135 | the checks on receipts in their order |
| `CommitMeaning.IdsFirst` | src/storage/store-identities.ts:7-21 | the first id that breaks the grammar or repeats decides |
| `CommitMeaning.StoredRequest` | src/storage/store-session.ts:169-177 | a stored request is answered as a duplicate when its content is the same and refused when it is not |
| `CommitMeaning.EpochMovesFirst` | src/storage/store-session.ts:182-191 | only the first event of an accepted request changes the epoch, and only upwards |
| `Sessions.KeepsNumbered` | src/storage/store-session.ts:199-246 | a commit keeps sequences contiguous from 0, revision equal to the request count and event ids distinct |
| `Sessions.KeepsReplays` | src/storage/store-session.ts:192-233 | a commit keeps the journal replayable to the record's own revision, epoch and sequence |
| `Sessions.KeepsIdentified` | src/storage/store-session.ts:75-89 | a commit keeps effect ids and delivery keys unique and the key index exactly theirs |
| `Sessions.KeepsEvidenced` | src/storage/store-session.ts:115-134 | a commit keeps receipts unique, each named by a receipt event, each receipt event naming a stored receipt |
| `Sessions.KeepsRebuilds` | src/storage/store-session.ts:261-263 | a commit keeps the stored requests sufficient to rebuild the whole record from an empty one |
| `Sessions.CommitKeepsSound` | src/storage/store-session.ts:141-265 | whatever is answered, every clause of the invariant is kept |
| `Sessions.RunInv` | src/storage/store-session.ts:141-265 | every session reached from an empty one by any requests satisfies the whole invariant |
| `Sessions.RunExtends` | src/storage/store-session.ts:241-258 | a run only appends to events, effects, receipts and requests |
| `Sessions.Idempotent` | src/storage/store-session.ts:170-177 | a committed request sent again, however much later, gets its outcome as `duplicate` and changes nothing |
| `Sessions.IntentionsPair` | src/storage/store-session.ts:56-96 | effects and `effect.intended` events pair off one to one |
| `Sessions.EffectsApart` | src/storage/store-session.ts:82-85 | no two effects share an id or a delivery key |
| `Journals.JournalIsDrafts` | src/storage/store-session.ts:214-225 | for every reachable session the journal is the stored requests' drafts one after another: each event has all eight fields of its draft, its turn as sequence, and the number of its request plus one as revision |
| `Journals.TurnOf` | src/storage/store-session.ts:241-252 | and every event is one draft's |
| `Journals.RunContents` | src/storage/store-session.ts:241-264 | it holds exactly the effects of those requests in order, exactly the receipts they carry, and for each an outcome listing its own events and effects |
| `Journals.NewReceiptsPick` | src/storage/store-session.ts:116-128 | a batch adds its receipts with new ids, in order |
| `Recovery.ReviveSession` | src/storage/store-recovery.ts:22-71 | the procedure, with its second mutable record, computes the revived session or the first refusal |
| `Recovery.ResendAll` | src/storage/store-recovery.ts:55-63 | sending the exported requests to an empty record ends as the strict run of them does |
| `Recovery.RoundTrip` | src/storage/store-recovery.ts:22-71 | a reachable session revives from its export to itself exactly when its ids, epochs and revision are in the grammar; otherwise the revival is refused |
| `Recovery.Faithful` | src/storage/store-recovery.ts:44-70 | an accepted export is the state its own requests lead to, up to the order of content lists, and exporting the revived session gives the same export back |
| `Recovery.ReviveSound` | src/storage/memory-event-store.ts:269-277 | a revived session satisfies the same invariant as any other |
| `RecoveryMeaning.ReviveIff` | src/storage/store-recovery.ts:22-71 | an export is revived exactly when it is well formed and its own requests, sent again to an empty session, lead to what it says; replaying the journal and projecting the outbox refuse nothing beyond that |
| `Delivery.DispatchIff` | src/storage/memory-event-store.ts:125-148 | a dispatch is accepted exactly when the effect is intended at the current epoch, the claim is new and revision and epoch match; it then commits one event |
| `Delivery.DispatchedReads` | src/storage/memory-event-store.ts:137-147 | after its dispatch the effect reads `dispatched` and every other one as before |
| `Delivery.IntendedIff` | src/kernel/store/outbox.ts:30-92 | a listed effect is `intended` exactly when no event dispatches it or applies a receipt to it |
| `Delivery.DispatchedOnce` | src/storage/memory-event-store.ts:125-148 | once dispatched, no claim for the effect is accepted again after any later requests |
| `Delivery.NextAre` | src/storage/memory-event-store.ts:237-249 | the effects handed out are exactly those of the current epoch that no event dispatched or settled |
| `Delivery.ReceiptIff` | src/storage/memory-event-store.ts:80-123 | a new receipt is accepted exactly when its effect awaits one, evidence is given unless it says unknown, and revision and epoch match; it settles the effect only under the effect's own binding and epoch |
| `DeliveryAnswers.DispatchLeaves` | src/storage/memory-event-store.ts:125-148 | an accepted dispatch adds its one event, all fields of it, and nothing else |
| `DeliveryAnswers.DispatchRefusal` | src/storage/memory-event-store.ts:125-136 | why a dispatch is refused, the first reason first |
| `DeliveryAnswers.ReceiptLeaves` | src/storage/memory-event-store.ts:99-123 | an accepted receipt adds itself and one event and settles the effect, leaves it uncertain, or is archived, as binding, epoch and status say |
| `DeliveryAnswers.ReceiptRefusal` | src/storage/memory-event-store.ts:80-98 | why a receipt is refused, the first reason first |
| `DeliveryAnswers.ReconcileIff` | src/storage/memory-event-store.ts:150-166 | a reconciliation takes a new receipt exactly when a receipt would be taken, it does not say `unknown`, and it brings evidence; it then leaves what the receipt leaves |
| `DeliveryAnswers.ReconcileRefusal` | src/storage/memory-event-store.ts:155-164 | an `unknown` or unobserved new receipt is refused before anything else; the other refusals in order |
| `DeliveryAnswers.ReconcileStored` | src/storage/memory-event-store.ts:152-154 | a stored receipt is answered as redelivered, the session as it was, when it is the same, and as a collision when it is not |
| `DeliveryRecovery.DispatchRestorable` | src/storage/memory-event-store.ts:147 | an accepted dispatch leaves the session restorable exactly when the claim id is valid and at most 119 characters long |
| `DeliveryRecovery.ReceiptRestorable` | src/storage/memory-event-store.ts:115 | an accepted receipt leaves the session restorable exactly when its id is at most 120 characters long |
| `DeliveryRecovery.StrandedForGood` | src/storage/store-recovery.ts:36 | a session holding a request id outside the grammar is never restorable again |
| `DeliveryRecovery.StrandingReachable` | src/storage/memory-event-store.ts:115 | two ordinary requests lead to a restorable session that accepts such a receipt |
| `EventStores.EventStore.CreateSession` | src/storage/memory-event-store.ts:169-185 | a new session is empty and sound; an existing one is only handed out again under the same epoch and protocol |
| `EventStores.EventStore.Append` | src/storage/memory-event-store.ts:187-191 | the named session takes the transaction's next state, every other stays, all remain sound |
| `EventStores.EventStore.DispatchEffect` | src/storage/memory-event-store.ts:251-255 | the same for a dispatch |
| `EventStores.EventStore.ApplyReceipt` | src/storage/memory-event-store.ts:257-261 | the same for a receipt |
| `EventStores.EventStore.ReconcileEffect` | src/storage/memory-event-store.ts:150-166 | the same for a reconciliation, which never commits without evidence |
| `EventStores.EventStore.NextEffects` | src/storage/memory-event-store.ts:237-249 | the loop lists the sendable effects in the order they were intended |
| `EventStores.EventStore.ExportSession` | src/storage/memory-event-store.ts:193-207 | the export holds the session's metadata, lists and stored requests |
| `EventStores.EventStore.RestoreSession` | src/storage/memory-event-store.ts:269-277 | an unopened session is revived and sound, or the store is unchanged |
| `Snapshots.SnapshotStore.Save` | src/storage/memory-snapshot-store.ts:80-90 | saves exactly a supported snapshot of its own session, and what is saved loads |
| `Snapshots.SnapshotStore.Seed` | src/storage/memory-snapshot-store.ts:100-102 | installs any snapshot under its own session |
| `Snapshots.SnapshotStore.Load` | src/storage/memory-snapshot-store.ts:39-49 | nothing exactly when nothing is stored; the stored snapshot exactly when its schema is supported and its digest fits; otherwise the code says which failed, schema first |
| `Snapshots.LoadsWhatWasSaved` | src/storage/memory-snapshot-store.ts:39-49 | under the digest that saving computed nothing loads but what was saved |
| `Snapshots.SnapshotStore.Recover` | src/storage/memory-snapshot-store.ts:51-77 | refuses or gives exactly the replay of the whole journal |
| `Snapshots.RecoverIff` | src/storage/memory-snapshot-store.ts:51-77 | a snapshot can be used exactly when it holds what the journal says at its sequence |
| `Snapshots.RecoverAgrees` | src/storage/memory-snapshot-store.ts:39-77 | whatever was saved or seeded, recovery returns nothing but the full replay |
| `Snapshots.SavedPrefixIsUsed` | src/storage/memory-snapshot-store.ts:70-76 | a snapshot of any prefix is used and only what follows it is replayed |
| `Snapshots.RecoverRefusal` | src/storage/memory-snapshot-store.ts:51-77 | why recovery refuses, the first reason first |
| `WorkspaceLocks.OneHolder` | src/workspace/lock.ts:9-20 | two live calls never hold the writer lock together |
| `WorkspaceLocks.ProbeIsRight` | src/workspace/lock.ts:30-38 | with live calls for different effects, or the repairs, a take-over is decided on only when the call that left the lock is gone |
| `WorkspaceLocks.RemoveIsRight` | src/workspace/lock.ts:39 | likewise, the lock a take-over removes is the one it read, and no live call's |
| `WorkspaceLocks.ReadApart` | src/workspace/lock.ts:30-38 | with live calls for different effects, whoever left a lock of this effect is gone when its owner file is read |
| `WorkspaceLocks.TurnKeeps` | src/workspace/lock.ts:9-42 | likewise, every step that takes, checks, hands over or drops a lock keeps the writer lock exclusive, take-over window included |
| `WorkspaceData.DispatchKeeps` | src/workspace/transactions.ts:63-68 | dispatching makes the call the only one that may ever move HEAD for its effect |
| `WorkspaceData.PublishKeeps` | src/workspace/transactions.ts:84-88 | publishing moves HEAD once, as the record says, in fencing order |
| `WorkspaceData.FinishKeeps` | src/workspace/receipts.ts:19-36 | the completed record a run writes says `applied` exactly when HEAD was moved |
| `WorkspaceData.CatchKeeps` | src/workspace/transactions.ts:93-99 | the catch block reports `failed` only for an effect that did not move HEAD |
| `WorkspaceData.DecideRight` | src/workspace/transactions.ts:128-134 | HEAD on the recorded target means the effect moved it, HEAD on the recorded base that it did not |
| `WorkspaceData.SaveKeeps` | src/workspace/receipts.ts:22-37 | the completed record a reconciliation writes tells the truth |
| `WorkspaceData.OutsideKeeps` | src/workspace/transactions.ts:89-90 | moves of HEAD from outside break none of it |
| `WorkspaceRuns.NextKeeps` | src/workspace/transactions.ts:38-137 | with live calls for different effects, or the repairs, every step of every call, every crash and every outside move keeps the invariant |
| `WorkspaceRuns.OneWriter` | src/workspace/lock.ts:9-42 | in every such run at most one live call holds the writer lock |
| `WorkspaceRuns.LockKeptUntilSettled` | src/workspace/transactions.ts:68-104 | in every such run a call about to give the lock back has its receipt stored, or (reconciling) an applied record explained by a successor, or is a run that dispatched nothing or left no record |
| `WorkspaceRuns.HonestUnderLock` | src/workspace/receipts.ts:19-50 | where the writer lock is exclusive, a `completed` receipt's record tells the move and any other receipt means there was none |
| `WorkspaceRuns.FencedInOrder` | src/workspace/transactions.ts:26-37 | in every such run moves of HEAD carry non-decreasing fencing tokens, equal ones only under one claim |
| `WorkspaceAlways.MovedOnce` | src/workspace/transactions.ts:45-92 | in every run, however calls overlap, each effect moves HEAD at most once, and only the call whose dispatch the journal holds does |
| `WorkspaceAlways.CompletedMoved` | src/workspace/receipts.ts:19-50 | in every run, however calls overlap, a `completed` receipt means the effect moved HEAD, to the base prepared for it |
| `WorkspaceAlways.NextAlways` | src/workspace/transactions.ts:38-137 | the knowledge behind both needs no lock: a call on its way to publish owns the dispatch, and what stands on a prepared base was moved there |
| `WorkspaceSteps.RunEffects` | src/workspace/transactions.ts:54-99 | all that one step of `run` can do to HEAD, fence, journal and records |
| `WorkspaceSteps.RunsOnward` | src/workspace/transactions.ts:54-99 | what one step of `run` hands on: its base, its dispatch, and why it may report a failure |
| `WorkspaceParted.UntouchedDormant` | src/workspace/transactions.ts:128-134 | HEAD seen on the recorded base with no run of the effect live: it has not moved and nobody is about to move it |
| `WorkspaceParted.NewGround` | src/workspace/transactions.ts:74-84 | a base prepared for an effect that has not moved is one HEAD never stood on |
| `WorkspaceParted.NextSound` | src/workspace/transactions.ts:38-137 | while no `reconcile` of an effect is live together with a `run` of it, every step keeps what receipts rest on, whoever holds or takes a lock |
| `WorkspaceParted.ReceiptsHonest` | src/workspace/receipts.ts:19-50 | in every such run a `completed` receipt means HEAD moved from the recorded base to the recorded target, any other that it did not |
| `WorkspaceParted.NeverWill` | src/workspace/transactions.ts:38-137 | in every such run an effect reported `failed` or `not-executed` never moves HEAD later either |
| `WorkspaceRaces.StaleActive` | src/workspace/transactions.ts:107 | a run with a `reconcile` and a `run` of one effect in one process in which the early look at `active` makes a receipt lie |
| `WorkspaceRaces.RemovedAnother` | src/workspace/lock.ts:32-40 | a run with a `reconcile` and a `run` of one effect in which a take-over removes another call's lock and a receipt lies |
| `WorkspaceRaces.HonestIff` | src/workspace/lock.ts:24-42 | receipts are honest in every run exactly when no `reconcile` of an effect is live together with a `run` of it, or a take-over removes only the lock it read and `active` is read at the take-over (or no process overlaps calls for one effect) |
| `WorkspaceRaces.AsWrittenHonestIff` | src/workspace/transactions.ts:38-137 | as the program is written, exactly when no `reconcile` of an effect is live together with a `run` of it |
| `WorkspaceAnswers.RunAnswers` | src/workspace/transactions.ts:38-104 | from every reachable state in which the lock is free, the effect not dispatched and the fence lets it by, an undisturbed `run` moves HEAD to the base it prepared, writes the completed record and the `completed` receipt, and gives the lock back; nothing else changes |
| `WorkspaceAnswers.RunFails` | src/workspace/transactions.ts:79-104 | if HEAD is moved meanwhile, wherever, or the lease is gone, publication refused or a step throws, it reports `failed`, moves nothing and gives the lock back |
| `WorkspaceAnswers.RunFoundedAlways` | src/workspace/transactions.ts:66-71 | in every run only dispatched effects have records or receipts |
| `WorkspaceReconciles.ReconcileAnswers` | src/workspace/transactions.ts:105-137 | an undisturbed `reconcile` of an effect without a receipt reports `applied` on the recorded target and `not-executed` on the recorded base, and gives the lock back, whether it found it free or took it over |
| `WorkspaceReconciles.ReconcileSends` | src/workspace/receipts.ts:38-50 | a completed record whose receipt never reached the journal is sent as it was written down |
| `WorkspaceReconciles.ReconcileCrossed` | src/workspace/receipts.ts:43-50 | a receipt the journal has is never replaced; the lock is given back only when the two agree |
| `WorkspaceReconciles.ReconcileLeaves` | src/workspace/transactions.ts:119-133 | in every other case nothing is written, and the lock is given back exactly when journal and record agree or later applications led HEAD on |
| `WorkspaceReconciles.Exhaustive` | src/workspace/transactions.ts:111-134 | there is no other case |
| `WorkspaceReconciles.LetIn` | src/workspace/lock.ts:25-42 | a lock that is free, or left by a dead process or by this one with no run under way, is taken with nothing else changed |
| `WorkspaceReconciles.TurnedAway` | src/workspace/lock.ts:28-38 | any other lock is left as it was, arbiter included |
| `WorkspaceFailures.EffectOrNone` | src/workspace/transactions.ts:64-76 | an exception after a write leaves the disk a success would leave, one before it and a refusal leave it as it was |
| `WorkspaceFailures.RunReleases` | src/workspace/transactions.ts:68-104 | a step of `run` marks the lock to be given back exactly when the call has not dispatched or the journal holds its receipt |
| `WorkspaceFailures.Catches` | src/workspace/transactions.ts:93-100 | the catch block reports a failure exactly with a record and HEAD on its base |
| `WorkspaceFailures.RunFencedOff` | src/workspace/transactions.ts:26-37 | a call the fence does not let by changes nothing and gives the lock back |
| `WorkspaceFailures.AdmitsIff` | src/workspace/transactions.ts:30-33 | the fence lets by newer tokens, and equal ones of the same claim |
| `WorkspaceFailures.TakeOverFails` | src/workspace/lock.ts:30-42 | a take-over that fails on the way leaves the writer lock as it was and drops the arbiter |
| `Observations.KnownSuccessor` | src/workspace/observations.ts:10-28 | the loop follows the confirmed applications of other effects in commit order, or stops at the first unreadable one |
| `Observations.FollowSound` | src/workspace/observations.ts:13-26 | where it arrives is where it began or the end of a chain of confirmed applications |
| `Observations.SuccessorIff` | src/workspace/observations.ts:13-27 | while no base is left twice and HEAD by none, the pass says yes exactly when a chain of confirmed applications leads to HEAD |
| `Observations.OutOfOrderMissed` | src/workspace/observations.ts:15-26 | the pass depends on the commit order: in the other order two applications would be missed |
| `Observations.LinksAre` | src/workspace/observations.ts:15-24 | the search can be made exactly when every applied, completed receipt of another effect is readable and its own; its links are those, in commit order |
| `WorkspaceSuccessors.AppliedInOrder` | src/workspace/transactions.ts:68-104 | in every run with live calls for different effects (or the repairs) applied receipts are committed in the order of the moves they report |
| `WorkspaceSuccessors.SuccessorExact` | src/workspace/observations.ts:10-28 | so in every such run a successor is known exactly when moves of the session's other effects alone, each with its receipt applied, led HEAD on from the effect's target to where it is seen |
| `CanonicalProofs.TextIff` | src/protocol/codec.ts:45-50 | two parsed values have one canonical text exactly when they are the same JSON value, key order aside, once each number beyond the range of a double is taken for `null` |
| `CanonicalProofs.TextIffInRange` | src/protocol/codec.ts:45-50 | for values whose numbers a double can hold: exactly when they are the same JSON value |
| `CanonicalProofs.BodyUnique` | src/protocol/codec.ts:46 | quoted strings, surrogates included, are never prefixes of each other |
| `CanonicalProofs.SortOrders` | src/protocol/codec.ts:48 | sorting an object's entries puts its keys in strictly increasing order |
| `CanonicalProofs.OverflowCollides` | src/protocol/codec.ts:46 | of the bare helper: a number beyond the range of a double is written as `null` is; no validated value holds one |
| `CanonicalProofs.FirstRepeat` | src/protocol/codec.ts:117-124 | the loop finds the first repeated text; for any parsed items it passes exactly the lists no two of whose items are one value as written |
| `CanonicalProofs.ValidatedUnique` | src/protocol/codec.ts:110-124 | on the lists validation lets through, where every number is a safe integer, that is: no two items are equal JSON values |
| `CanonicalTexts.ScalarTexts` | src/protocol/codec.ts:45-46 | literals, numbers and strings are written as JSON has them |
| `CanonicalTexts.BodySpells` | src/protocol/codec.ts:46 | a quoted string spells its units one by one by the escapes of RFC 8259, section 7, escaping nothing else but lone surrogates |
| `CanonicalTexts.ArrayText` | src/protocol/codec.ts:47 | an array is its elements in order between brackets, with commas |
| `CanonicalTexts.ObjectText` | src/protocol/codec.ts:48-49 | an object is its own members by rising key between braces: quoted key, colon, value, with commas |
| `McNemar.ExactP` | src/evaluation/evolution/statistics.ts:96-102 | the loop computes twice the binomial tail over 2^D, capped at 1 |
| `McNemar.PValueProperties` | src/evaluation/evolution/statistics.ts:96-102 | the p-value is above 0 and at most 1, symmetric, and 1 exactly when the counts differ by at most one |
| `McNemar.Absorb` | src/evaluation/evolution/statistics.ts:99 | each binomial coefficient follows from the one before as the loop multiplies |
| `McNemar.Complement` | src/evaluation/evolution/statistics.ts:97-102 | the two tails of a row add up to 2^D |
| `Sampling.StepInjective` | src/evaluation/evolution/statistics.ts:6-9 | no two generator states lead to one |
| `Sampling.Generator.Pick` | src/evaluation/evolution/statistics.ts:6-9 | a draw advances the state below 2^32 and picks a position inside the list |
| `Sampling.Shuffled` | src/evaluation/evolution/statistics.ts:10-14 | for every seed the in-place swaps give a permutation, the one the draws determine |
| `Sampling.ShuffleTellsDraws` | src/evaluation/evolution/statistics.ts:10-14 | seeds that shuffle different items alike drew the same position at every place |
| `Sampling.PositionReached` | src/evaluation/evolution/statistics.ts:12 | every position is picked by some state |
| `Sampling.PositionIs` | src/evaluation/evolution/statistics.ts:12 | and exactly by the states of its own stretch of the range |
| `Bootstrap.KeysOk` | src/evaluation/evolution/statistics.ts:48-50 | the sorted keys are exactly those that occur, each once |
| `Bootstrap.Partition` | src/evaluation/evolution/statistics.ts:48-52 | sorted keys that cover the rows cut them into parts that add up |
| `Bootstrap.WeightsAndMeans` | src/evaluation/evolution/statistics.ts:47-52 | stratum weights sum to one and the weighted stratum means to `delta` |
| `Bootstrap.Resample` | src/evaluation/evolution/statistics.ts:57-61 | a stratum's resample is what the draws determine, never empty, its sum within its count |
| `Bootstrap.Replicate` | src/evaluation/evolution/statistics.ts:54-65 | every replicate is the weighted mean of what is drawn and lies in [-1, 1] |
| `Bootstrap.LeaveOut` | src/evaluation/evolution/statistics.ts:71-79 | leaving a repository out is defined exactly when no stratum consists of it alone, and stays in [-1, 1] |
| `Bootstrap.WithoutKeeps` | src/evaluation/evolution/statistics.ts:74 | what stays are the rows of the other repositories, all of them, in order |
| `Bootstrap.DrawsPool` | src/evaluation/evolution/statistics.ts:57-61 | a resample's sum and count are those of the pooled rows of the repositories drawn |
| `PiBinding.RestoreAll` | src/hosts/pi/binding.ts:74-87 | the restoring loop takes entries up to the first conflict |
| `PiRuns.RestoreKnows` | src/hosts/pi/binding.ts:72-88 | after a restore every effect and key of the session file is known |
| `PiRuns.AttachKeeps` | src/hosts/pi/binding.ts:67-90 | re-attaching brings nothing new under an effect or key that was unknown |
| `PiRuns.PromptKeeps` | src/hosts/pi/binding.ts:158-163 | a prompt goes out only for a key no prompt went out for, right after its own entry |
| `PiRuns.SettleKeeps` | src/hosts/pi/binding.ts:163-181 | ending a run, attached or not, keeps what the binding knows |
| `PiRuns.NextKeeps` | src/hosts/pi/binding.ts:67-210 | every step keeps the invariant while the host has at most one binding attached |
| `PiRuns.PromptedOnce` | src/hosts/pi/binding.ts:143-210 | over any run each key is prompted at most once, each prompt preceded by its own persisted entry |
| `PiRuns.OneInFlight` | src/hosts/pi/binding.ts:143-163 | in every run, whatever is loaded, the host never runs two of the kernel's prompts at once |
| `PiRuns.TwoBindings` | src/hosts/pi/binding.ts:17-25 | two bindings attached at once prompt one key twice |
| `PiRuns.AtMostOnceIff` | src/hosts/pi/binding.ts:143-210 | at most once holds in every run exactly when the host never has two bindings attached |
| `PiAnswers.UnpromptedReceipts` | src/hosts/pi/binding.ts:143-187 | in every run a receipt written for an effect that was never prompted says `not-executed`, and one only remembered says that or `unknown` |
| `PiAnswers.ExecutionAnswers` | src/hosts/pi/binding.ts:158-182 | an undisturbed execution writes its dispatch, prompts, and writes and remembers its own receipt |
| `PiAnswers.CancelledAnswers` | src/hosts/pi/binding.ts:154-157 | a run cancelled before its prompt prompts nothing and says `not-executed` |
| `PiAnswers.LostAnswers` | src/hosts/pi/binding.ts:183-187 | a write that throws leaves the binding at fault and the outcome unknown |
| `PiAnswers.DetachedAnswers` | src/hosts/pi/binding.ts:178-181 | a run that ends detached leaves its receipt in memory alone |
| `PiAnswers.RestoreMeans` | src/hosts/pi/binding.ts:74-87 | a session file is read back exactly when no effect comes under two contents, no key with two effects, and no receipt after an unlike one; the last entry of each effect is then known |
| `PiAnswers.AttachAnswers` | src/hosts/pi/binding.ts:67-91 | a file that reads back attaches the binding, which announces itself the first time only; any other puts it at fault |
| `Closure.DependentClosure` | src/evaluation/revocation/conditions.ts:37-44 | the loop computes the forward pass |
| `Closure.PassSound` | src/evaluation/revocation/conditions.ts:37-44 | for any registry whatever the pass lists is affected, and nothing is listed twice |
| `Closure.PassExact` | src/evaluation/revocation/conditions.ts:36-44 | with dependencies first, the pass lists exactly the root and its transitive dependents |
| `Closure.StagePins` | src/learning/assets/registry.ts:35-55 | staging appends a revision only after everything it depends on, and never a second one under its id and number |
| `Closure.PinnedInOrder` | src/learning/assets/history.ts:18-22 | what staging and the history check both demand puts dependencies first |
| `Closure.ClosureExact` | src/evaluation/revocation/conditions.ts:36-44 | for every registry that staging can build, the pass lists exactly the root and its transitive dependents, each once |
| `Closure.OrderMatters` | src/evaluation/revocation/conditions.ts:36-44 | registered before its dependency, a dependent would be missed; no staging leads there |
| `Closure.StageIff` | src/learning/assets/registry.ts:19-55 | on whatever was staged, the same revision again changes nothing, another is appended exactly when it is the next of its asset, its dependencies are registered and the checks pass |
| `Closure.StagedNumbered` | src/learning/assets/registry.ts:35-45 | the revisions of an asset are numbered from 1 without a gap |
| `ToolStrategy.BoundedSetAdd` | src/lib/pi-tool-strategy.ts:105-113 | adds a new member and drops the oldest beyond 64 |
| `ToolStrategy.Tracked` | src/lib/pi-tool-strategy.ts:105-113 | after any events both sets hold at most 64 signatures, each once, all of which failed since the last success |
| `ToolStrategy.BlockedOnce` | src/lib/pi-tool-strategy.ts:177-195 | with at most 64 failing signatures since the last success, a call is blocked exactly at its first repeat since it failed |
| `ToolStrategy.FirstRepeatIff` | src/lib/pi-tool-strategy.ts:105-113 | before anything was tried again, every failed call's repeat would be blocked exactly while at most 64 failed |
| `ToolStrategy.BlockedIff` | src/lib/pi-tool-strategy.ts:177-195 | a failed call is blocked at its first repeat and not again, in every history with at most n failing calls since the last success, exactly when n is at most 64 |
| `ToolStrategy.OneOrder` | src/lib/pi-tool-strategy.ts:148-176 | tools seen before come back in one order whatever order they arrive in, as long as the same ones count as failed |
| `ToolStrategy.OrderMeans` | src/lib/pi-tool-strategy.ts:160-176 | no failed tool comes before one that has not failed; otherwise preferred tools come first, in their order, then by first appearance |
| `ToolStrategy.FailedToolsIff` | src/lib/pi-tool-strategy.ts:177-220 | a tool counts as failed exactly when it failed or was blocked since the last success |
| `ToolStrategy.RetryBlocked` | src/lib/pi-tool-strategy.ts:177-195 | however much failed before, what has just failed is blocked at its retry unless it was blocked before, and then let through |
| `ToolStrategy.Controller.OrderActiveTools` | src/lib/pi-tool-strategy.ts:148-176 | refuses invalid, repeated or wholly forbidden lists; else gives exactly the allowed tools, failed ones last, then by preference, then by first appearance |
| `ToolStrategy.Controller.OnToolCall` | src/lib/pi-tool-strategy.ts:177-195 | blocks exactly a tracked failure not blocked yet, and remembers it |
| `ToolStrategy.Controller.OnToolResult` | src/lib/pi-tool-strategy.ts:196-220 | a failure is tracked, a success forgets them all |

## Assumptions

- Content identity stands for digests and canonical texts of stored content; a digest is taken as injective.
- The protocol decoder with the runtime version gate, predicate evaluation on `when` edges, schema
  support and the snapshot digest are parameters: the theorems hold for any of them.
- In the workspace protocol publishing is an atomic compare-and-swap; preparing makes a fresh base; HEAD
  never returns to a base it left; a process has one instance and its id is not reused; a process never
  overlaps two `reconcile` calls for one effect. The owner file and the in-memory mark `active` are written
  in one step, and the mark and the lock are cleared in one step; the results of `WorkspaceAlways` and
  `WorkspaceParted` do not rest on that, what `WorkspaceRaces.HonestIff` says of the repairs does. Every other
  effect is a step of its own, and a write may take effect and still throw. A receipt may be archived instead
  of applied at any time, as happens when the session's epoch has moved on.
- Refusals that come from clocks, leases, scopes, capabilities and plans are choices of the environment:
  a step may be refused at any time.
- The host reports itself busy while a prompt is in flight, and the check before a prompt, the write of the
  entry and the prompt happen without another step in between, as no `await` separates them.
- Statistics are over exact reals; the program's generator products are exact for lists of fewer than two
  million entries.
- Every number of a validated value is a safe integer, and validated objects are closed: this is what the
  protocol's schemas and `src/protocol/codec.ts:110-135` demand.

## Left out

- `diffGraphs` and the texts of messages: nothing depends on them.
- Git, file system, process and database calls behind the workspace driver: only the contract above is used.
- Liveness of the workspace protocol: several paths keep the lock on purpose.
- Lock ownership by process id and id reuse; the removal of a lock directory that is there does not fail, except as a step that leaves it.
- The owner file of the arbiter lock: no step reads it.
- `outcome` and the artifact and evidence content of workspace receipts: status and bases are what the properties speak of.
- BCa intervals, `normalCdf`, `inverseNormal` and `quantile`: approximations without an exact property here.
- Context packets, usage rows and tool gates of the host binding; a failing write of its first, empty entry.
- The DSH binding, Pi delegation and the super-plumber bridge: the same at-most-once shape or small tables.
- Authority: scopes are intersected and compared once per request; nothing in it runs over time. The tool controller's counters, telemetry and guidance texts.
- Schema tables, regular expressions other than the Id grammar, error envelopes, the command line and reports.
- Members with an `undefined` value in stored requests: the stored JSON drops them, the model has no such values.
- Session handles beyond the session id, and the values `run` and `reconcile` return: what they leave on the disk and of the locks is stated instead.
