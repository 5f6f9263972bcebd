# SessionWeft verification model

A Dafny model of the concurrent and crash-prone core of SessionWeft, with proofs of what it promises over
whole runs. `dafny verify dfyconfig.toml` checks everything.

What changes state in place is modelled twice and the two are proved to agree. The state machine is a function on
values; the code is a class whose methods, loops included, end in exactly the state the function gives; where the code
awaits something in between, others act at every such point and each of its paths is a run of the machine. The
properties are lemmas about arbitrary runs of the functions: sequences of operations, interleavings of atomic steps,
crashes at any point.

The modules named after a history tell what a run has come to from the requests, operations or ticks alone: what the
state, the answers and the outbox are, given which of them were accepted, and exactly which are. They restate no
transition, so they are an account of their own that every transition is held to.

- `WorkflowDefinition`, `WorkflowExecution`, `WorkflowSafety`, `WorkflowStall`, `WorkflowHistory`, `WorkflowStore`,
  `WorkflowSolo` - the workflow engine. Kahn's worklist validation accepts exactly the acyclic definitions.
  Acyclicity, the ready-set fixpoint and the completion checks together rule out a stall without a failure, and the
  requests that do stall a workflow are characterised exactly. A potential over statuses and attempts bounds every
  run. The version compare-and-set makes clients that read, mutate locally and save linearizable; each workflow is
  then stored and reported as if it were alone.
- `LockResource`, `LockPath`, `LockTable`, `LockHistory` - hierarchical lease locks with fencing tokens. A resource
  is a segment list and overlap means a shared subtree. Exclusion holds between all rows over whole runs, a
  superseded token is refused for ever, and the outbox accounts for every row.
- `MergeQueue`, `MergeQueueSafety`, `MergeHistory`, `MergeFence`, `MergeClaim`, `MergeScenario` - the gated merge
  queue: one active entry, gates that were passed for the very head that is merged, fences that hold as long as
  their locks do, and claims among other clients.
- `MergeExecution`, `MergeRecovery`, `MergeOutcomes`, `MergeReconciliation`, `MergeCoordinator`, `MergeEndToEnd`,
  `MergeLifetime` - the merge coordinator as a machine of atomic steps over a commit graph with a target ref, a
  source ref and a rebase that may be under way; interference by third parties between any two steps; reconciliation
  after a crash at any step; queue, refs and coordinator put together; and the whole life of a queue, with any
  number of merges, crashes and recoveries.
- `PtyOutput`, `PtyDecoding`, `PtySession`, `PtyHistory` - the byte-bounded ring of terminal output with cursors and
  truncation marks, and the join of reader and waiter threads, one atomic step per critical section.
- `ContextBuilder`, `ContextRanking`, `ContextOrder` - the greedy context packer, and when the order of its input
  shows.
- `EventJournal`, `JournalHistory` - the deduplicating client event journal.
- `Prelude` - shared vocabulary.

Integers of the source are unbounded here except where a width matters: the version (64 bits, saturating), the
attempt counter (32 bits, saturating), cursors and retained bytes (64 bits, saturating), and columns that hold
signed 64-bit values. Clocks, fresh identifiers, command outcomes and third parties are parameters, oracle replies
or nondeterministic choices.

Places where the code does less than one might expect, each with an input and the exact condition:

- A workflow can stay in progress with nothing active (`WorkflowStall.ToleratedFailureStalls`). Which requests do
  that can be read off the execution before the call (`WorkflowStall.StallsIff`); `WorkflowSafety.StallExplained`
  describes the states they lead to, and `WorkflowSafety.NoStall` says that some node has failed in all of them.
- Recovery reports a merge by comparing the target with the entry's head. If the target was at the head before the
  merge began, a crash before any write is recovered as merged (`MergeReconciliation.EqualRefsLookMerged`), and so is
  any crash after somebody else has moved the target there (`MergeReconciliation.MovedTargetLooksMerged`). While nobody
  does that, and third parties move the refs in any other way, the report agrees with Git after every crash if and only
  if the target was not at the head before (`MergeReconciliation.RecoveryAgreesIff`); for a single crash the exact
  condition is `MergeReconciliation.ReportIsRightIff`. That the base differs from the head is not enough for it.
- A rebase that finished without producing a new head is recovered as failed, not queued again
  (`MergeReconciliation.IdleRebaseFails`). If nobody else moves the target during the merge, and others move the source
  only on to new commits, it can happen exactly when the moved target is in the head's history already
  (`MergeReconciliation.FinishedRebaseRequeuesIff`). A source that somebody puts back to the old head fails too
  (`MergeReconciliation.RewoundSourceFails`); what the refs must say at the crash is
  `MergeReconciliation.FinishedRebaseAtIff`.
- A source that has drifted past the target is recovered as if it had been rebased, whether it had drifted before the
  merge (`MergeReconciliation.DriftLooksRebased`) or somebody moves it during the merge
  (`MergeReconciliation.MovedSourceLooksRebased`). While nobody else moves the target, or the source past it, this
  happens exactly when the source started away from the head and descended from the target
  (`MergeReconciliation.RequeuedMeansRebasedIff`); for a single crash, whatever was moved, the refs decide it
  (`MergeReconciliation.RequeuedMeansRebasedAtIff`).
- A missing worktree or a failing Git command makes recovery mark an entry failed even when its forward write is in
  effect (`MergeReconciliation.BlindRecoveryFails`); the last conjunct of the equivalence in
  `MergeReconciliation.RecoveryAgreesWithGit` is that exception.
- A claim looks at the hundred best candidates only (`MergeScenario.HundredDeadHideOne`). Undisturbed and with nothing
  active, it returns nothing exactly when all of those have dead fences (`MergeQueueSafety.ClaimSelects`); among other
  clients, exactly when something was active as it counted or every one of those was lost in its own transaction
  (`MergeClaim.NoneAmongOthers`), and `MergeClaim.NoneLeavesBehind` says which entries it then leaves behind.
- A claim does not notice an entry that becomes claimable after its listing
  (`MergeScenario.OpenedBehindTheListing`). The winner is the best that is left exactly if no decision of another client
  opened a better one in between for good (`MergeClaim.BestLeftIff`); which transactions open an entry, and which close
  it again, is `MergeClaim.OpensAndCloses`.
- The PTY buffer limit bounds the bytes read, not the bytes stored (`PtyOutput.LimitCanBeExceeded`). A read keeps the
  limit exactly if decoding does not lengthen it (`PtyOutput.LimitKeptIff`); three times the limit is never exceeded
  (`PtyOutput.AppendAccounted`).
- The context package depends on the input order (`ContextBuilder.RivalsDependOnOrder`), under some budget exactly when
  two different candidates tie on everything they are ranked by (`ContextBuilder.OrderIndependentIff`), and under a
  given budget exactly when such candidates compete for the same room or are reported differently when left out
  (`ContextOrder.OrderHiddenIff`).

## Model

| member | source | states |
|---|---|---|
| `WorkflowDefinition.Validate` | `crates/sessionweft-orchestration/src/lib.rs:24-115` | A definition is accepted exactly when it is well formed and its dependency multigraph has no cycle; every reported error is true of the definition; the cycle error comes exactly for well-formed cyclic ones. |
| `WorkflowDefinition.CountVisited` | `crates/sessionweft-orchestration/src/lib.rs:72-113` | The worklist visits each node at most once, dependencies first, and visits as many nodes as there are exactly when no cycle exists. |
| `WorkflowDefinition.DrainWorklist` | `crates/sessionweft-orchestration/src/lib.rs:92-107` | The worklist loop ends, and when the queue is dry every node whose dependencies were all visited has been visited. |
| `WorkflowDefinition.ChildIsOpen` | `crates/sessionweft-orchestration/src/lib.rs:94-105` | Each decrement finds a positive count and a node that is neither queued nor visited, so the saturating subtraction never saturates and no node is queued twice, even with repeated dependencies. |
| `WorkflowDefinition.DryQueueDecides` | `crates/sessionweft-orchestration/src/lib.rs:87-113` | A dry queue has listed all nodes exactly when the dependency relation is acyclic. |
| `WorkflowDefinition.MinimalElement` | `crates/sessionweft-orchestration/src/lib.rs:72-113` | In an acyclic relation every nonempty set of nodes has one that depends on nothing in the set: why Kahn's check cannot miss. |
| `WorkflowExecution.NewExecution` | `crates/sessionweft-orchestration/src/lib.rs:233-257` | A new execution exists exactly for a valid definition, and is then the initial state: all nodes fresh, then refreshed; otherwise a true error is reported. |
| `WorkflowExecution.WorkflowExecution.RefreshReadyNodes` | `crates/sessionweft-orchestration/src/lib.rs:482-509` | The single pass in definition order reaches the simultaneous refresh: a promotion never enables another node in the same pass. |
| `WorkflowExecution.WorkflowExecution.StartNode` | `crates/sessionweft-orchestration/src/lib.rs:269-299` | Starting a node: refused without any change, or the node runs its next attempt and the version rises by one. That it counts exactly one attempt is `WorkflowHistory.HistoryTells`. |
| `WorkflowExecution.WorkflowExecution.CompleteNode` | `crates/sessionweft-orchestration/src/lib.rs:301-339` | Completing a running node, refreshing the ready set and completing the workflow when every node is done. |
| `WorkflowExecution.WorkflowExecution.FailNode` | `crates/sessionweft-orchestration/src/lib.rs:341-417` | Failing an attempt: a retry while attempts are left, otherwise the node is used up, its fallback activated and the workflow possibly failed. |
| `WorkflowExecution.WorkflowExecution.DecideApproval` | `crates/sessionweft-orchestration/src/lib.rs:419-480` | Granting or rejecting an approval that is waited for. |
| `WorkflowExecution.WorkflowExecution.IsSuccessfullyComplete` | `crates/sessionweft-orchestration/src/lib.rs:511-519` | The completion test, as a loop over the definition, equals its meaning on the node table. |
| `WorkflowSafety.InvAlways` | `crates/sessionweft-orchestration/src/lib.rs:269-480` | The execution invariant (attempt bounds, justified and never stale statuses, completion) holds after every run of requests on a validated definition. |
| `WorkflowSafety.RefreshIsFixpoint` | `crates/sessionweft-orchestration/src/lib.rs:482-509` | After one pass no pending node has all dependencies satisfied and a second pass changes nothing. |
| `WorkflowSafety.DependencySafety` | `crates/sessionweft-orchestration/src/lib.rs:386-400` | In every reachable state a node that is not pending has all dependencies satisfied or is the named fallback of a node that used all its attempts, and no pending node has all dependencies satisfied. |
| `WorkflowSafety.SettledForever` | `crates/sessionweft-orchestration/src/lib.rs:301-480` | Succeeded and failed nodes never change again, whatever requests follow. |
| `WorkflowSafety.StallExplained` | `crates/sessionweft-orchestration/src/lib.rs:511-530` | A workflow in progress with nothing active has a failed node, and every node is settled or waits, through a chain of dependencies, for one that failed for good. |
| `WorkflowSafety.NoStall` | `crates/sessionweft-orchestration/src/lib.rs:233-257` | A reachable workflow in progress without a failed node has a node that is ready, running or waiting for approval. |
| `WorkflowStall.StallsIff` | `crates/sessionweft-orchestration/src/lib.rs:301-417` | An accepted request leaves the workflow in progress with nothing active if and only if, before it, its node was the only active one, every pending node waited for some other undone node, and it was a completion or approval with another node undone, or a last failure that is tolerated and has no fallback waiting. |
| `WorkflowStall.RunStallsIff` | `crates/sessionweft-orchestration/src/lib.rs:301-530` | The same over runs: a run of a valid definition ends stalled exactly if its last request had to stall it, or was refused in a stalled state. |
| `WorkflowStall.NeverStalledAtFirst` | `crates/sessionweft-orchestration/src/lib.rs:233-257` | No valid workflow starts out stalled. |
| `WorkflowStall.ToleratedFailureStalls` | `crates/sessionweft-orchestration/src/lib.rs:386-415` | An input: a single tolerated final failure leaves the workflow in progress with nothing active. |
| `WorkflowSafety.StepLightens` | `crates/sessionweft-orchestration/src/lib.rs:269-480` | Every accepted request strictly lowers the weight (status and attempts left) of its node and raises no other. |
| `WorkflowSafety.RunsAreBounded` | `crates/sessionweft-orchestration/src/lib.rs:573-576` | A run accepts at most twice the total of allowed attempts; the version counts the accepted requests and does not saturate while that bound fits 64 bits. |
| `WorkflowHistory.HistoryTells` | `crates/sessionweft-orchestration/src/lib.rs:269-480` | Over every run, the accepted requests alone tell of each node: its attempt count is the number of its accepted starts; it runs for the owner of the last one; a failure left it ready while fewer starts than its attempts had been accepted and failed it for good otherwise; completed and granted nodes succeeded, rejected ones failed. And of the workflow: what it has come to, which only its last request can have brought about. |
| `WorkflowHistory.FailureIsFinalIff` | `crates/sessionweft-orchestration/src/lib.rs:362-367` | The failure of a running node is final exactly when as many starts of it have been accepted as it has attempts. |
| `WorkflowHistory.PendingIff` | `crates/sessionweft-orchestration/src/lib.rs:482-509` | In every reachable state a node is pending exactly as long as a dependency is unsatisfied and it is not the fallback of a node that used all its attempts. |
| `WorkflowHistory.FallbacksAreWoken` | `crates/sessionweft-orchestration/src/lib.rs:386-399` | In every reachable state no fallback of a used-up node is still pending. |
| `WorkflowHistory.ApprovalsAreAwaited` | `crates/sessionweft-orchestration/src/lib.rs:482-509` | In every reachable state an approval node can be started only as the fallback of a node that used all its attempts, and a node waits for its approval only if it is an approval node with all dependencies satisfied. |
| `WorkflowHistory.AcceptedIff` | `crates/sessionweft-orchestration/src/lib.rs:269-299` | A request is accepted exactly if it comes with the current version, the workflow is in progress and its node is where the request can take it; the version is checked before the status. |
| `WorkflowHistory.RejectionIsLast` | `crates/sessionweft-orchestration/src/lib.rs:419-480` | Once an approval is rejected its node has failed, the workflow has failed with it, and no request is ever accepted again. |
| `WorkflowHistory.RejectionReleasesNobody` | `crates/sessionweft-orchestration/src/lib.rs:419-480` | A node that depends on a rejected one which tolerates no failure is pending for good, unless it is the fallback of a node that used all its attempts. |
| `WorkflowHistory.EventsTell` | `crates/sessionweft-orchestration/src/lib.rs:269-480` | The events of an accepted request are exactly: what became of its node, the fallback a final failure names, and the end of the workflow if this was it, all under the new version. |
| `WorkflowHistory.EveryWorkflowCanComplete` | `crates/sessionweft-orchestration/src/lib.rs:233-530` | For every valid definition there are requests that complete the workflow. |
| `WorkflowStore.WorkflowRepository.CreateWorkflow` | `crates/sessionweft-orchestration-sqlite/src/lib.rs:200-227` | Row and events are inserted together or not at all. |
| `WorkflowStore.WorkflowRepository.SaveWorkflow` | `crates/sessionweft-orchestration-sqlite/src/lib.rs:242-288` | Compare-and-set on the version column: row and events are written together at the expected version, otherwise a conflict or a missing workflow is reported and nothing changes. |
| `WorkflowStore.VersionIdentifiesState` | `crates/sessionweft-orchestration-sqlite/src/lib.rs:242-288` | A workflow whose version is unchanged since an earlier commit is unchanged altogether. |
| `WorkflowStore.SaveIsLegal` | `crates/sessionweft-orchestration/src/lib.rs:899-983` | When the version test passes, a client's snapshot, however stale its read, is the stored state, so its commit is a legal transition on exactly that state. |
| `WorkflowStore.Linearizable` | `crates/sessionweft-orchestration/src/lib.rs:899-983` | Under every interleaving of stale reads, local transitions and saves, rows and outbox are what the accepted commits produce one after the other. |
| `WorkflowStore.CommitsAreKept` | `crates/sessionweft-orchestration-sqlite/src/lib.rs:242-288` | No update is lost: the committed history only grows. |
| `WorkflowStore.VersionsCountCommits` | `crates/sessionweft-orchestration-sqlite/src/lib.rs:242-288` | A workflow's version is the number of requests committed to it, and its stored state satisfies the workflow invariant. |
| `WorkflowStore.SecondSaveConflicts` | `crates/sessionweft-orchestration-sqlite/src/lib.rs:267-283` | Of two clients of a reachable state that moved on from the same version, the second to save is told the version that beat it, and changes nothing. |
| `WorkflowStore.WorkflowRepository.GetWorkflow` | `crates/sessionweft-orchestration-sqlite/src/lib.rs:229-240` | Reading gives the stored execution, or nothing. |
| `WorkflowStore.OrchestrationService.Advance` | `crates/sessionweft-orchestration/src/lib.rs:899-983` | The service reads, mutates a local copy and saves to whatever other clients have left by then. |
| `WorkflowStore.ServiceIsLinearizable` | `crates/sessionweft-orchestration/src/lib.rs:899-983` | A service call that succeeds took effect, as a legal transition, on exactly the execution stored when it saved, however long before it had read. |
| `WorkflowSolo.EachWorkflowIsAlone` | `crates/sessionweft-orchestration-sqlite/src/lib.rs:200-288` | Under every interleaving of clients each workflow is stored and reported as if nobody else were there: its row is where its own committed requests lead from the initial execution, none of them refused, its version is their number, and the outbox rows that carry its identifier are its creation event followed by the events of exactly these requests, in order. |
| `WorkflowSolo.CreationCommitsIff` | `crates/sessionweft-orchestration-sqlite/src/lib.rs:200-227` | A creation is committed exactly if the definition is valid and the key is new, and changes nothing otherwise. |
| `WorkflowSolo.SaveCommitsIff` | `crates/sessionweft-orchestration-sqlite/src/lib.rs:242-288` | A save of a reachable state is committed exactly if the stored version is the expected one and can be counted further; otherwise it leaves the tables alone. |
| `WorkflowSolo.SavedIffUndisturbed` | `crates/sessionweft-orchestration/src/lib.rs:899-983` | A service call whose request would be accepted by what it read saves exactly if no request of anybody else was committed to its workflow in between (and the version fits its column); otherwise it changes nothing, and the conflict it reports says how many were. |
| `LockResource.OverlapIsSharedSubtree` | `crates/sessionweft-orchestration/src/lib.rs:658-714` | Two resources overlap exactly when some segment list lies in both subtrees. |
| `LockPath.PathRoundTrip` | `crates/sessionweft-orchestration/src/lib.rs:705-710` | Reading a written path gives back its pieces. |
| `LockPath.PathsCompose` | `crates/sessionweft-orchestration/src/lib.rs:705-710` | A path is read piece by piece, with a slash or a backslash between the pieces. |
| `LockPath.WorkspaceOverlaps` | `crates/sessionweft-orchestration/src/lib.rs:658-685` | A workspace overlaps everything in it, and nothing overlaps across workspaces. |
| `LockPath.DirectoryOverlapsContents` | `crates/sessionweft-orchestration/src/lib.rs:658-714` | A directory overlaps every directory, file and symbol whose path continues its own after a separator, however the paths are written. |
| `LockPath.DirectoriesOverlapIff` | `crates/sessionweft-orchestration/src/lib.rs:658-714` | Directories overlap exactly if one lies in the other or they are the same. |
| `LockPath.DirectoryOverlapsFileIff` | `crates/sessionweft-orchestration/src/lib.rs:658-714` | A directory overlaps a file, or a symbol in one, exactly if the file lies in it. |
| `LockPath.FilesOverlapIff` | `crates/sessionweft-orchestration/src/lib.rs:658-714` | Files overlap exactly if they are the same; a symbol overlaps its own file and itself, and nothing beside them. |
| `LockTable.LockRepository.AcquireLock` | `crates/sessionweft-orchestration-sqlite/src/lib.rs:290-375` | Expired rows are purged, the first conflicting live row of the workspace refuses the request, otherwise a lease is inserted under the next token; a refusal changes nothing. That a grant leaves every other lease standing is `LockHistory.AcquireSparesOthers`. |
| `LockTable.LockRepository.HeartbeatLock` | `crates/sessionweft-orchestration-sqlite/src/lib.rs:411-454` | Only the owner with the current token of a live lease extends it; everything else is refused unchanged. |
| `LockTable.LockRepository.ReleaseLock` | `crates/sessionweft-orchestration-sqlite/src/lib.rs:456-491` | Only the owner with the current token removes a lease. |
| `LockTable.LockRepository.ValidateFence` | `crates/sessionweft-orchestration-sqlite/src/lib.rs:493-522` | A fence holds exactly when some live row of the workspace has that owner and token and overlaps the resource. |
| `LockTable.BlockersAreLocal` | `crates/sessionweft-orchestration-sqlite/src/lib.rs:161-182` | Searching only the request's workspace finds the same first conflict as searching every live row. |
| `LockTable.RefusedIffBlocked` | `crates/sessionweft-orchestration/src/lib.rs:769-773` | A request is refused for a conflict exactly when a live row clashes with it, and the refusal names the owner and resource of such a row. |
| `LockTable.Exclusion` | `crates/sessionweft-orchestration-sqlite/src/lib.rs:290-375` | After any sequence of acquire, heartbeat and release with any clock readings, two distinct rows, expired or not, do not overlap or are both shared. |
| `LockTable.TokensIncrease` | `crates/sessionweft-orchestration-sqlite/src/lib.rs:317-356` | Fencing tokens strictly increase in grant order, so none is reused. |
| `LockTable.RowsAreInTheOutbox` | `crates/sessionweft-orchestration-sqlite/src/lib.rs:358-373` | Over every run each row of the table is as the outbox says: granted, renewed and not released. |
| `LockTable.SupersededTokenIsRefused` | `crates/sessionweft-orchestration-sqlite/src/lib.rs:411-522` | Once a conflicting lease was granted, the earlier token is refused for ever by fence validation, heartbeat and release, for every resource, owner and lock identifier. |
| `LockTable.GrantIsHonoured` | `crates/sessionweft-orchestration-sqlite/src/lib.rs:342-375` | A new lease is a valid fence for its holder exactly until it expires. |
| `LockTable.RenewalIsHonoured` | `crates/sessionweft-orchestration-sqlite/src/lib.rs:411-454` | An accepted heartbeat came from the holder of a live fence and makes it hold until exactly the new expiry. |
| `LockTable.RenewalSparesOthers` | `crates/sessionweft-orchestration-sqlite/src/lib.rs:411-454` | A heartbeat affects no fence under another token. |
| `LockTable.ReleaseEndsFence` | `crates/sessionweft-orchestration-sqlite/src/lib.rs:456-491` | An accepted release came from the holder, ends its fence at once for every resource and owner, and affects no other. |
| `LockHistory.HistoryTells` | `crates/sessionweft-orchestration-sqlite/src/lib.rs:290-491` | Over every run the rows are exactly the leases that still stand, as told by the operations alone: each as it was requested, until its grant or last renewal says; an accepted acquisition drops those that had expired by its clock, and nothing else ends one but its own release. |
| `LockHistory.FenceHoldsIff` | `crates/sessionweft-orchestration-sqlite/src/lib.rs:493-522` | Over every run a fence holds exactly if the lease under its token was granted to that owner for an overlapping resource and still stands, whatever else was granted, renewed or released. |
| `LockHistory.AcquireSparesOthers` | `crates/sessionweft-orchestration-sqlite/src/lib.rs:299-375` | An accepted acquisition leaves the fence under every other token as it was, from then on. |
| `LockHistory.LeaseStands` | `crates/sessionweft-orchestration-sqlite/src/lib.rs:299-303` | A lease that is neither renewed nor released is a fence for its owner until exactly its expiry, whatever operations follow, provided nothing is acquired by a clock that says it has expired. |
| `LockHistory.AcquireAcceptedIff` | `crates/sessionweft-orchestration-sqlite/src/lib.rs:290-375` | A request is granted exactly if no lease that stands has its identifier or an overlapping resource with one of the two exclusive. |
| `LockHistory.RenewalAcceptedIff` | `crates/sessionweft-orchestration-sqlite/src/lib.rs:411-491` | A heartbeat is accepted exactly from the owner of a lease that still stands, under its identifier and token; a release also from that of an expired one that is still on the books. |
| `LockHistory.StandingLeasesAreApart` | `crates/sessionweft-orchestration-sqlite/src/lib.rs:290-375` | Two leases that stand were requested for resources that do not overlap, or both shared. |
| `MergeQueue.MergeQueueEntry.Apply` | `crates/sessionweft-git/src/merge_queue.rs:193-384` | Each transition of an entry: its guard, the fields it assigns, and no change on an error. |
| `MergeQueue.MergeQueueRepository.EnqueueWorktree` | `crates/sessionweft-git-sqlite/src/merge_queue.rs:256-327` | Enqueue: same parameters return the entry that is there, others conflict; a new entry needs a live fence, a ready worktree with a head and a different target, and takes the next sequence number. |
| `MergeQueue.MergeQueueRepository.MutateMerge` | `crates/sessionweft-git-sqlite/src/merge_queue.rs:225-251` | Load, apply, save under the single-active index and append the event, or change nothing. |
| `MergeQueue.MergeQueueRepository.ValidateMergeFence` | `crates/sessionweft-git-sqlite/src/merge_queue.rs:192-223` | The lease must match session, agent, workspace and token and be live; the worktree must be ready, at the entry's head and under the same token. |
| `MergeQueue.MergeQueueRepository.FencedMutate` | `crates/sessionweft-git-sqlite/src/merge_queue.rs:496-512` | Beginning a merge and recording it as merged check the fence in one transaction and change the entry in a later one, with other clients in between. |
| `MergeQueue.MergeQueueRepository.RequeueRebased` | `crates/sessionweft-git-sqlite/src/merge_execution.rs:205-242` | Entry and worktree take the rebased head in one transaction. |
| `MergeQueue.MergeQueueRepository.OpenConflictTask` | `crates/sessionweft-git-sqlite/src/merge_execution.rs:275-334` | At most one conflict task per entry; the entry moves to conflict with it. |
| `MergeQueue.MergeQueueRepository.ClaimNextMerge` | `crates/sessionweft-git-sqlite/src/merge_queue.rs:401-483` | Count, listing and one transaction per candidate, with other clients in between, are a run of the call that the lemmas on claims are about. |
| `MergeQueue.MergeQueueRepository.StaleMergingEntries` | `crates/sessionweft-git-sqlite/src/merge_execution.rs:350-377` | The merging rows untouched since a time, the longest untouched first, at most `limit` of them. |
| `MergeQueueSafety.QueueInvAlways` | `crates/sessionweft-git-sqlite/src/merge_queue.rs:225-512` | Over every run of transactions, with leases and worktrees changing arbitrarily in between, rows stay unique and ordered, at most one is active, and gates are what the outbox says. |
| `MergeQueueSafety.OnlyTheGatedHead` | `crates/sessionweft-git/src/merge_queue.rs:187-351` | An entry that is claimed, merging or merged had both gates passed by the latest decisions since it was queued, each recorded in the outbox for the head the entry has now. |
| `MergeQueueSafety.AtMostOneActive` | `crates/sessionweft-git-sqlite/src/merge_queue.rs:69-75` | In every reachable queue at most one entry is claimed or merging, so a reconciliation never finds more than one. |
| `MergeQueueSafety.OnlyClaimsContend` | `crates/sessionweft-git-sqlite/src/merge_queue.rs:440-470` | The single-active index refuses nothing but a claim, and a claim exactly when the candidate could have won but an entry is active. |
| `MergeQueueSafety.MergingIsUntouched` | `crates/sessionweft-git/src/merge_queue.rs:376-397` | Reviews, tests, cancellations, claims, enqueues and calls about other entries leave a merging entry as it is. |
| `MergeQueueSafety.SettledForever` | `crates/sessionweft-git/src/merge_queue.rs:193-397` | An entry that is merged, in conflict, cancelled or failed stays exactly as it is, whatever transactions follow. |
| `MergeQueueSafety.EnqueuedIsLive` | `crates/sessionweft-git-sqlite/src/merge_queue.rs:285-327` | A worktree enqueued for the first time gets the last place, open gates, and a fence and snapshot that are live at that moment. |
| `MergeQueueSafety.ConflictIsRecorded` | `crates/sessionweft-git-sqlite/src/merge_execution.rs:275-334` | A conflict task is returned only together with an entry in conflict, whether the task is new or known. |
| `MergeQueueSafety.RebaseKeepsSnapshot` | `crates/sessionweft-git-sqlite/src/merge_execution.rs:205-242` | Recording a rebase opens both gates, changes nothing else than that row and the head of its worktree, and keeps the entry's durable snapshot valid for its fence. |
| `MergeQueueSafety.FencesDieWithTheirLeases` | `crates/sessionweft-git-sqlite/src/merge_queue.rs:192-223` | Over any run of transactions in which other services leave worktrees and leases alone, an entry that can still be merged keeps its durable snapshot: its fence is dead exactly if its lease no longer stands. |
| `MergeHistory.HistoryTells` | `crates/sessionweft-git/src/merge_queue.rs:193-384` | Over every run an entry is as its accepted transactions alone tell: status by the last of them, gates by the last verdicts since it was queued, base and head by its worktree or its last rebase, merge commit, conflict paths, error and cancellation by what ended it; target, priority and branch stay those it was enqueued with; and the outbox has reported exactly these transactions, in order. |
| `MergeHistory.TouchedWhenTold` | `crates/sessionweft-git/src/merge_queue.rs:193-384` | Over every run an entry was last touched by the last accepted transaction about it; no other transaction changes anything about it. |
| `MergeHistory.ChangeAcceptedIff` | `crates/sessionweft-git/src/merge_queue.rs:193-384` | In every reachable queue a change is accepted exactly if its entry is where the change can take it and, for a claim, no entry is active. |
| `MergeHistory.RebaseAcceptedIff` | `crates/sessionweft-git-sqlite/src/merge_execution.rs:205-242` | In every reachable queue a rebase is recorded exactly if the entry is merging and its worktree is there and ready. |
| `MergeHistory.TaskAcceptedIff` | `crates/sessionweft-git-sqlite/src/merge_execution.rs:275-334` | In every reachable queue a conflict task is answered exactly if the entry has one, or it is merging and some path is named. |
| `MergeHistory.EnqueueAcceptedIff` | `crates/sessionweft-git-sqlite/src/merge_queue.rs:256-327` | A worktree is enqueued for the first time exactly if the request is well formed, the worktree is there, ready, at a commit, under a live lease and not on the target branch, and the identifier is new. |
| `MergeHistory.EnqueueAgain` | `crates/sessionweft-git-sqlite/src/merge_queue.rs:266-283` | Enqueueing the same again, at any later time, gives the entry as it is by then and changes nothing; with another target or priority it is refused. |
| `MergeFence.LeaseMatchesIff` | `crates/sessionweft-git-sqlite/src/merge_queue.rs:192-212` | Over every run of the lock table a fence matches its lease exactly if the lock operations tell of a grant under its identifier and token, for that session, agent and workspace, that still stands. |
| `MergeFence.FenceCheckIff` | `crates/sessionweft-git-sqlite/src/merge_queue.rs:192-223` | An entry passes its fence check exactly if that grant stands and its worktree is there, ready, at the entry's head and under the same token. |
| `MergeHistory.OneTaskPerEntry` | `crates/sessionweft-git-sqlite/src/merge_execution.rs:275-334` | An opened conflict task is what the next request for one is answered with, whatever it asks for, with the entry unchanged. |
| `MergeHistory.StaleMergingIs` | `crates/sessionweft-git-sqlite/src/merge_execution.rs:350-377` | Over every run: the merging rows untouched since a time, the longest untouched first; what the limit leaves out was touched later; a limit out of range is refused. |
| `MergeQueueSafety.RankedSpec` | `crates/sessionweft-git-sqlite/src/merge_queue.rs:418-428` | The candidates are exactly the queued entries with passed gates, sorted by priority descending, then sequence ascending. |
| `MergeQueueSafety.ClaimSelects` | `crates/sessionweft-git-sqlite/src/merge_queue.rs:401-483` | A call that nobody disturbs, with nothing active, never fails; it returns nothing exactly when each of the hundred best candidates has a dead fence; otherwise the winner was claimable with live fence and snapshot, better-ranked candidates are failed with dead fences, everything still claimable ranks after it, and no other row changes. |
| `MergeFence.HighestPriorityFirst` | `crates/sessionweft-git-sqlite/src/merge_queue.rs:418-482` | Over every run: whoever can still be claimed after an undisturbed claim has no higher priority than the winner, and was enqueued after it if it has the same. |
| `MergeQueueSafety.ClaimIsARun` | `crates/sessionweft-git-sqlite/src/merge_queue.rs:429-482` | The candidate transactions of a whole claim are a run, so the invariants above hold of it. |
| `MergeClaim.WinnerAmongOthers` | `crates/sessionweft-git-sqlite/src/merge_queue.rs:401-483` | With other clients between the transactions of a call: the winner was claimable with live fence and snapshot and nothing active in its own transaction, and every listed candidate that ranks before it was, in its own, not claimable or failed for a dead fence. |
| `MergeClaim.TriedInItsTurn` | `crates/sessionweft-git-sqlite/src/merge_queue.rs:429-436` | Each candidate met the queue exactly as it was when its own transaction ran. |
| `MergeClaim.BestLeftIff` | `crates/sessionweft-git-sqlite/src/merge_queue.rs:418-482` | Nothing claimable that is left ranks before the winner, if and only if no decision of another client since the listing completed the gates of an entry that ranks before it, unless a later refusal, cancellation or claim closed that entry again. |
| `MergeClaim.OpensAndCloses` | `crates/sessionweft-git/src/merge_queue.rs:193-275` | A transaction makes an entry claimable exactly if it is a passing decision that completes the gates of a queued entry, and ends that exactly if it is a refusing decision, a cancellation or a claim that takes it or finds its fence dead. |
| `MergeClaim.NoneAmongOthers` | `crates/sessionweft-git-sqlite/src/merge_queue.rs:408-482` | With other clients in between, a call answers with nothing exactly if something was active when it counted, or its shortlist is used up; and then every candidate on it was, in its own transaction, not claimable or failed for a dead fence. |
| `MergeClaim.NoneLeavesBehind` | `crates/sessionweft-git-sqlite/src/merge_queue.rs:418-482` | After such a call an entry is claimable exactly if it was listed beyond the hundredth place and has stayed so, or another client opened it since the listing for good. |
| `MergeClaim.ErrorAmongOthers` | `crates/sessionweft-git-sqlite/src/merge_queue.rs:429-482` | A call fails exactly if its next candidate could win but another client has made an entry active since the count. |
| `MergeClaim.UndisturbedCall` | `crates/sessionweft-git-sqlite/src/merge_queue.rs:401-483` | A call that nobody disturbs is the atomic selection. |
| `MergeScenario.OpenedBehindTheListing` | `crates/sessionweft-git-sqlite/src/merge_queue.rs:418-482` | An input, reachable: tests pass for a better entry between listing and candidate, the listed one wins, and something better is left. |
| `MergeScenario.HundredDeadHideOne` | `crates/sessionweft-git-sqlite/src/merge_queue.rs:418-425` | An input, reachable: a live candidate behind a hundred dead ones is not found and stays claimable. |
| `MergeExecution.AncestorTransitive` | `crates/sessionweft-git-local/src/merge_execution.rs:118-139` | Ancestry in the commit graph is transitive. |
| `MergeRecovery.MachineInvAlways` | `crates/sessionweft-git/src/merge_execution.rs:250-439` | Under any interference: which writes of its own the coordinator can have behind it at each step, that the stored row is its copy until the end, and that a rebase under way and a forward write exclude each other. |
| `MergeRecovery.EveryMergeEnds` | `crates/sessionweft-git/src/merge_execution.rs:250-439` | A merge ends: whatever the surroundings answer and third parties do, after eleven steps it has an outcome or has stopped. |
| `MergeRecovery.UndisturbedMergeSucceeds` | `crates/sessionweft-git/src/merge_execution.rs:313-331` | A merge that nobody disturbs, of a head that descends from an unmoved target, is merged. |
| `MergeOutcomes.UnrecordedMergeIsTakenBack` | `crates/sessionweft-git/src/merge_execution.rs:319-361` | A merge whose forward write could not be recorded, while everything else goes well, puts the target back to the base and fails the entry: its two writes are forward and backward. |
| `MergeOutcomes.RollbackFailsOnlyInTrouble` | `crates/sessionweft-git-local/src/merge_execution.rs:283-318` | Under any interference a rollback fails only if during it a command failed or had no effect, or somebody moved the target. |
| `MergeOutcomes.RollbackNoteTells` | `crates/sessionweft-git-local/src/merge_execution.rs:283-318` | Under any interference a rollback ends as rejected exactly if the target was seen away from the merged head, as done exactly if it was put back, and otherwise as failed. |
| `MergeOutcomes.SmoothMergeHasAnOutcome` | `crates/sessionweft-git/src/merge_execution.rs:250-439` | If everything works and nobody else moves the target, a merge of a head that contains its base never stops halfway: it has an outcome after eleven steps, and has written the target, once and for good, exactly if that outcome is merged. |
| `MergeOutcomes.MovedTargetRequeues` | `crates/sessionweft-git/src/merge_execution.rs:365-377` | A target that moves after the inspection is left alone, and the entry goes back into the queue with open gates. |
| `MergeOutcomes.RefusedSwapRequeues` | `crates/sessionweft-git-local/src/merge_execution.rs:257-281` | So is one that moves after all checks: the write is refused, the second look sees why, and the entry goes back into the queue. |
| `MergeOutcomes.NobodyMovedNobodyRetries` | `crates/sessionweft-git-local/src/merge_execution.rs:237-281` | Only a target that somebody really moved sends an entry back for having moved. |
| `MergeOutcomes.RebaseRequeues` | `crates/sessionweft-git/src/merge_execution.rs:380-417` | When the target has moved before the merge and the rebase finishes, the entry is queued again on that target with the new head and open gates, and the target is not touched. |
| `MergeOutcomes.RebaseConflicts` | `crates/sessionweft-git/src/merge_execution.rs:418-438` | When the rebase stops at conflicts it is aborted, the entry is in conflict over exactly those paths, and neither ref is touched. |
| `MergeOutcomes.BadSourceFails` | `crates/sessionweft-git/src/merge_execution.rs:280-307` | A worktree with uncommitted changes, or one that has left the queued head, fails the merge before anything is touched. |
| `MergeOutcomes.FailedInspectionFails` | `crates/sessionweft-git/src/merge_execution.rs:262-279` | An inspection that cannot be made fails it too. |
| `MergeOutcomes.UnrelatedHeadStops` | `crates/sessionweft-git-local/src/merge_execution.rs:249-256` | A head that does not contain its base is not merged; the coordinator stops with nothing changed. |
| `MergeRecovery.NeverOverwrites` | `crates/sessionweft-git-local/src/merge_execution.rs:237-318` | With third parties moving the refs between any two steps, each write of the coordinator replaces the inspected base by its descendant, the entry's head, or that head by the base; any other commit stays. |
| `MergeRecovery.ForwardKeepsHistory` | `crates/sessionweft-git-local/src/merge_execution.rs:237-281` | Everything reachable from the target before a forward write is reachable after it. |
| `MergeRecovery.CoordinatorWritesAtMostTwice` | `crates/sessionweft-git/src/merge_execution.rs:313-377` | The writes of the ref form an unbroken chain; the coordinator's are none, one forward, or a forward and its rollback; nothing recorded as merged was rolled back. |
| `MergeRecovery.RollbackRestores` | `crates/sessionweft-git-local/src/merge_execution.rs:283-318` | A rollback that succeeds leaves the inspected target in place; a rejected one has changed nothing. |
| `MergeRecovery.MergedIsTheQueuedHead` | `crates/sessionweft-git/src/merge_execution.rs:292-331` | A reported merge recorded the entry's own head as the merge commit, wrote it to the target, and left the gates as they were. |
| `MergeEndToEnd.JointInvAlways` | `crates/sessionweft-git/src/merge_execution.rs:250-439` | One merge, with queue, refs and coordinator together and clients and third parties interfering: the stored row is the coordinator's copy as long as it depends on it, and both sides keep their invariants. |
| `MergeEndToEnd.OnlyGatedHeadsAreWritten` | `crates/sessionweft-git/src/merge_execution.rs:292-318` | Whenever the coordinator moves the target forward, it moves it to the head of the stored row, which is merging and for whose head the outbox holds passing decisions. |
| `MergeEndToEnd.OnlyGatedHeadsAreMerged` | `crates/sessionweft-git/src/merge_execution.rs:319-331` | Once a merge is reported, and for ever after, the stored row is merged with its own head as merge commit, that head was written over the row's base, and the outbox holds passing decisions for it. |
| `MergeLifetime.LifeInvAlways` | `crates/sessionweft-git/src/merge_execution.rs:250-559` | Over the whole life of a queue - any number of merges, crashes, recoveries, clients and third parties - queue and coordinator keep their invariants, a merging row is the one at hand, and a merged one is merged with its own head. |
| `MergeLifetime.EveryMergeWasGated` | `crates/sessionweft-git/src/merge_execution.rs:319-480` | In every such life a row is merged, by its coordinator or by a recovery, only with its own head, with passing decisions for that head in the outbox, and after its target branch has had that head while the row was being merged. |
| `MergeLifetime.StaleIsTheCrash` | `crates/sessionweft-git/src/merge_execution.rs:447-457` | A reconciliation that runs when no coordinator does finds exactly the crashed merge, if it is old enough, and otherwise nothing. |
| `MergeLifetime.RecoveryRefines` | `crates/sessionweft-git/src/merge_execution.rs:458-559` | A recovery within such a life settles its row as the recovery does that the crash theorems are about, or leaves the same behind. |
| `MergeReconciliation.ReconcileMerging` | `crates/sessionweft-git-local/src/merge_execution.rs:320-362` | A reconciliation has an outcome exactly when the repository accepts it, moves no ref, and says merged exactly when it can look, no rebase is under way and the target is at the head. |
| `MergeReconciliation.ReconcileSays` | `crates/sessionweft-git-local/src/merge_execution.rs:320-362` | A merging entry is queued again exactly if recovery could look everywhere and found a source away from the head and on top of a target that is; a rebase under way is gone exactly if it could be aborted; and a failure says what was wrong. |
| `MergeReconciliation.RecoveryAgreesWithGit` | `crates/sessionweft-git/src/merge_execution.rs:441-559` | Crash at any step, with a target that did not start at the head and that nobody else moves there, while third parties move it and the source anywhere else: the outcome is merged exactly when the coordinator's forward write is in effect, neither taken back nor overwritten, and the recovery commands could look. |
| `MergeReconciliation.EqualRefsLookMerged` | `crates/sessionweft-git-local/src/merge_execution.rs:342-346` | The condition on the first target is needed: if it already is the head, a crash before any write is recovered as merged. |
| `MergeReconciliation.MovedTargetLooksMerged` | `crates/sessionweft-git-local/src/merge_execution.rs:342-346` | So is the condition on third parties: one that moves the target to the entry's head makes any merge look done. |
| `MergeReconciliation.RecoveryAgreesIff` | `crates/sessionweft-git-local/src/merge_execution.rs:320-362` | While nobody else moves the target to the entry's head: after every crash a recovery that can look reports a merge just when the forward write is in effect, if and only if the target was not at that head when the merge began. |
| `MergeReconciliation.ReportIsRightIff` | `crates/sessionweft-git-local/src/merge_execution.rs:320-362` | For one crash, whatever third parties did: the report is right exactly if target and head differ, a rebase is under way, or this merge has put the head there. |
| `MergeReconciliation.FinishedRebaseRequeuesIff` | `crates/sessionweft-git-local/src/merge_execution.rs:348-357` | When the target has moved before the merge, nobody moves it meanwhile, and others move the source only on to new commits on top of it: a finished rebase is always queued again by recovery if and only if the new target was not in the head's history. |
| `MergeReconciliation.FinishedRebaseAtIff` | `crates/sessionweft-git-local/src/merge_execution.rs:348-357` | For one crash after a finished rebase, whatever others did to the source: it is queued again exactly if the source is not at the old head and descends from the target. |
| `MergeReconciliation.RewoundSourceFails` | `crates/sessionweft-git-local/src/merge_execution.rs:348-357` | An input: a source that somebody puts back to the old head after the rebase is recovered as a failure. |
| `MergeReconciliation.RecoveryOutcome` | `crates/sessionweft-git/src/merge_execution.rs:463-556` | The outcome for a crash at any step, whatever happened to the source, and to the target so long as nobody else moved it to the head: merged if the write is in effect; failed, and aborted, if a rebase was under way; queued again with open gates if the source differs from the head and descends from the target; failed otherwise. |
| `MergeReconciliation.LoneRecoveryOutcome` | `crates/sessionweft-git/src/merge_execution.rs:463-556` | For a lone coordinator whose source was at the head: merged, queued again after a finished rebase with a new head, or failed. |
| `MergeReconciliation.RequeuedMeansRebasedIff` | `crates/sessionweft-git-local/src/merge_execution.rs:348-357` | While nobody else moves the target, or the source past it: what recovery queues again had been rebased, if and only if the source was at the head when the merge began or did not descend from the target. |
| `MergeReconciliation.RequeuedMeansRebasedAtIff` | `crates/sessionweft-git-local/src/merge_execution.rs:348-357` | For one crash, whatever others did to the source: that holds exactly if there was a rebase, the source is at the head or lacks the target, a rebase is under way, or the target is at the head. |
| `MergeReconciliation.MovedSourceLooksRebased` | `crates/sessionweft-git-local/src/merge_execution.rs:348-357` | An input: somebody moves the source past the target during the merge, and recovery takes it for a rebase. |
| `MergeReconciliation.BlindRecoveryFails` | `crates/sessionweft-git-local/src/merge_execution.rs:324-341` | An input: a recovery that cannot look fails an entry whose forward write is in effect. |
| `MergeReconciliation.RetriedRecoveryAgrees` | `crates/sessionweft-git/src/merge_execution.rs:458-559` | Recovery agrees with Git after any number of reconciliations that came to nothing. |
| `MergeReconciliation.RetriesChangeNothing` | `crates/sessionweft-git/src/merge_execution.rs:458-559` | For a lone coordinator whose source was at the head they do not change the outcome either. |
| `MergeReconciliation.RebaseChangesHead` | `crates/sessionweft-git-local/src/merge_execution.rs:198-235` | A finished rebase has a new head whenever the target was not in the history of the old one and nobody else has moved it since. |
| `MergeCoordinator.GitMergeCoordinator.ExecuteClaimed` | `crates/sessionweft-git/src/merge_execution.rs:250-378` | Every path through the code, with third parties and failures at every await, is a run of the machine ending in the returned outcome or halted; merged means the queued head was written and recorded. |
| `MergeCoordinator.GitMergeCoordinator.ExecuteRebase` | `crates/sessionweft-git/src/merge_execution.rs:380-439` | The rebase branch: fence, rebase, then requeue or conflict task. |
| `MergeCoordinator.GitMergeCoordinator.Inspect` | `crates/sessionweft-git-local/src/merge_execution.rs:178-196` | Inspection reads target, source and status in that order and determines the branch taken. |
| `MergeCoordinator.GitMergeCoordinator.FastForward` | `crates/sessionweft-git-local/src/merge_execution.rs:237-281` | Check, ancestry test, compare-and-set, and the second look when it was refused; applied means the target is at the head, a descendant of what was expected. |
| `MergeCoordinator.GitMergeCoordinator.Rollback` | `crates/sessionweft-git-local/src/merge_execution.rs:283-318` | Compensation by compare-and-set back to the inspected target; done means that target is in place. When it has to be done is `MergeOutcomes.UnrecordedMergeIsTakenBack` and `MergeOutcomes.RollbackFailsOnlyInTrouble`. |
| `MergeCoordinator.GitMergeCoordinator.Rebase` | `crates/sessionweft-git-local/src/merge_execution.rs:198-235` | A rebase yields a new head, or stops on conflicts and is aborted, or fails. |
| `MergeCoordinator.GitMergeCoordinator.ReconcileEntry` | `crates/sessionweft-git-local/src/merge_execution.rs:320-362` | The imperative recovery is the function that the crash theorems are about. |
| `MergeCoordinator.ReconcileStale` | `crates/sessionweft-git/src/merge_execution.rs:441-559` | Entries are settled one after the other; the first that cannot be settled ends the call, earlier ones are settled, later ones untouched. |
| `PtyOutput.LossyAtMostTriples` | `crates/sessionweft-client-protocol/src/pty.rs:340-347` | Lossy decoding at most triples the length. |
| `PtyOutput.OutputBuffer.Push` | `crates/sessionweft-client-protocol/src/pty.rs:328-351` | Bounding, eviction and append in place; the loop never meets an empty deque and no saturating operation saturates. |
| `PtyOutput.EvictedIsLeast` | `crates/sessionweft-client-protocol/src/pty.rs:333-341` | Eviction removes the fewest chunks from the front that make room for the new one. |
| `PtyOutput.AppendAccounted` | `crates/sessionweft-client-protocol/src/pty.rs:328-351` | The retained count is the total of the stored chunks, at most three times the limit, and within the limit when decoding does not lengthen the data. |
| `PtyOutput.LimitKeptIff` | `crates/sessionweft-client-protocol/src/pty.rs:328-351` | A read keeps every buffer within its limit if and only if decoding does not lengthen what is kept of it. |
| `PtyOutput.LimitCanBeExceeded` | `crates/sessionweft-client-protocol/src/pty.rs:340-347` | An input: one ill-formed byte is stored as three. |
| `PtyOutput.UnmarkedBatchIsComplete` | `crates/sessionweft-client-protocol/src/pty.rs:197-217` | A batch without a truncation mark holds every chunk after the cursor, in order and uncut. |
| `PtyDecoding.LossyIsRepair` | `crates/sessionweft-client-protocol/src/pty.rs:340-347` | Decoding makes any bytes well-formed UTF-8 (section 3 of RFC 3629), and changes exactly those that were not. |
| `PtyDecoding.ReplacedUnit` | `crates/sessionweft-client-protocol/src/pty.rs:343-343` | An ill-formed front is replaced as far as it could have opened a well-formed sequence, and no further; a byte that opens none is replaced alone. |
| `PtyDecoding.TailIsTheEnd` | `crates/sessionweft-client-protocol/src/pty.rs:328-332` | Of a read beyond the limit exactly the last bytes are kept, of any other all of them. |
| `PtyDecoding.TextIsStored` | `crates/sessionweft-client-protocol/src/pty.rs:328-351` | A read of well-formed text within the limit is stored as it is, under its cursor. |
| `PtyDecoding.MarkedIff` | `crates/sessionweft-client-protocol/src/pty.rs:328-351` | A chunk is marked exactly if its read was cut or an older chunk was dropped for it, and what is left of the older ones is their end. |
| `PtyDecoding.NothingIsLostBelowTheLimit` | `crates/sessionweft-client-protocol/src/pty.rs:328-351` | So long as all reads fit, nothing is dropped, cut or marked. |
| `PtySession.CompletionJoin` | `crates/sessionweft-client-protocol/src/pty.rs:279-310` | Under every interleaving an exit is reported only after the reader drained and the child was waited for, and once both threads are gone the session is not reported running. |
| `PtySession.TerminalForever` | `crates/sessionweft-client-protocol/src/pty.rs:303-310` | A terminal status never changes. |
| `PtySession.ExitedBatchIsFinal` | `crates/sessionweft-client-protocol/src/pty.rs:197-217` | A batch that reports an exit reads a buffer that never changes again. |
| `PtySession.NoUnnoticedGap` | `crates/sessionweft-client-protocol/src/pty.rs:268-277` | In every run below 2^64 chunks the retained chunks are the contiguous tail of all output, and a poller that never met a mark received everything up to its cursor. |
| `PtyHistory.HistoryTells` | `crates/sessionweft-client-protocol/src/pty.rs:279-310` | Over every run, told by the ticks alone: the child's outcome is that of the first wait for it, each read until the end of the output was issued in turn, and a session is cancelled only by a kill that worked, after which it runs no more. |
| `PtyHistory.StatusMeans` | `crates/sessionweft-client-protocol/src/pty.rs:382-386` | A session is reported exited only after a successful wait for the child and the end of the output, failed only after an unsuccessful one and the end of the output, cancelled only after a kill that worked. |
| `PtyHistory.StatusInTheEnd` | `crates/sessionweft-client-protocol/src/pty.rs:279-310` | Once the output has ended, the child was waited for and both threads have finished, the status is the outcome of the first wait, unless the session was cancelled. |
| `PtyHistory.CancelCancels` | `crates/sessionweft-client-protocol/src/pty.rs:179-195` | In every reachable state a kill that works ends a running session as cancelled, and changes no other status. |
| `PtyHistory.PollCatchesUp` | `crates/sessionweft-client-protocol/src/pty.rs:197-217` | A whole poll reports the status of its first section and brings the client up to the last read before its second, whatever happens in between; without a mark the client then has the text of every read. |
| `PtySession.AlwaysAccounted` | `crates/sessionweft-client-protocol/src/pty.rs:319-351` | The accounting is exact and bounded in every run. |
| `PtySession.PtySession.DrainReader` | `crates/sessionweft-client-protocol/src/pty.rs:279-286` | The reader's first closing section: note that the output is drained, and take the status the waiter may have left. |
| `PtySession.PtySession.FinishReader` | `crates/sessionweft-client-protocol/src/pty.rs:286-289` | Its second, in whatever state other threads have left by then. |
| `PtySession.PtySession.ReaderDrained` | `crates/sessionweft-client-protocol/src/pty.rs:279-289` | Both, with any steps of the other threads in between, are a run of the session. |
| `PtySession.PtySession.LeaveStatus` | `crates/sessionweft-client-protocol/src/pty.rs:291-297` | The waiter's first closing section: leave the status, and see whether the reader is done. What the status says of the wait is `PtyHistory.StatusMeans`. |
| `PtySession.PtySession.FinishWaiter` | `crates/sessionweft-client-protocol/src/pty.rs:298-301` | Its second, in whatever state other threads have left by then. |
| `PtySession.PtySession.ChildFinished` | `crates/sessionweft-client-protocol/src/pty.rs:291-301` | Both, with any steps of the other threads in between, are a run of the session. |
| `PtySession.PtySession.Cancel` | `crates/sessionweft-client-protocol/src/pty.rs:179-195` | Cancelling replaces only a running status; a kill that fails is reported and changes nothing. |
| `PtySession.PtySession.ReadStatus` | `crates/sessionweft-client-protocol/src/pty.rs:197-199` | A poll's first section reads the status. |
| `PtySession.PtySession.ReadOutput` | `crates/sessionweft-client-protocol/src/pty.rs:200-217` | Its second, in whatever state other threads have left by then, reads the chunks after the cursor and the cursor to continue from. |
| `ContextBuilder.EstimateTokens` | `crates/sessionweft-knowledge/src/lib.rs:531-533` | A quarter of the length rounded up, at least one. |
| `ContextBuilder.BuildPackage` | `crates/sessionweft-knowledge/src/lib.rs:464-528` | The imperative builder equals the specification. |
| `ContextBuilder.SortSorts` | `crates/sessionweft-knowledge/src/lib.rs:474-487` | The sort is ordered by importance and a permutation. |
| `ContextBuilder.PackageIsSound` | `crates/sessionweft-knowledge/src/lib.rs:489-526` | Kept and omitted candidates together are the input, every required one is kept, the total is the sum and within the usable budget, and no omitted one fits in what remains. |
| `ContextRanking.LeqIffNotOutranked` | `crates/sessionweft-knowledge/src/lib.rs:474-487` | The sort order on the bare fields: required, then higher priority, higher relevance, earlier kind, and identifier in dictionary order; it puts nothing after what it outranks and asks for nothing else. |
| `ContextRanking.ItemsAreRanked` | `crates/sessionweft-knowledge/src/lib.rs:474-526` | The items of a package stand in order of importance. |
| `ContextRanking.OmissionsAreFair` | `crates/sessionweft-knowledge/src/lib.rs:489-526` | Each omission of a package reports a candidate that outranks no optional one of at least its size that was kept. |
| `ContextRanking.BuiltIff` | `crates/sessionweft-knowledge/src/lib.rs:469-499` | A package is built exactly if the reserve leaves something of the budget, every candidate has an identifier, a source, content and a relevance from zero to one, and the required ones fit. |
| `ContextRanking.ErrorsAreTrue` | `crates/sessionweft-knowledge/src/lib.rs:469-499` | Every error is true of the candidates and the budget, and an overflow names both sums. |
| `ContextBuilder.BuildSucceedsIff` | `crates/sessionweft-knowledge/src/lib.rs:469-499` | Building succeeds exactly when the budget is usable, all candidates are valid and the required ones fit. |
| `ContextBuilder.OrderIndependent` | `crates/sessionweft-knowledge/src/lib.rs:474-487` | With distinct (kind, id) the package is the same for every arrangement of the candidates. |
| `ContextBuilder.OrderIndependentIff` | `crates/sessionweft-knowledge/src/lib.rs:474-487` | For valid candidates the package is the same for every arrangement and every budget if and only if no two different ones tie on required, priority, relevance, kind and identifier. |
| `ContextBuilder.RivalsDependOnOrder` | `crates/sessionweft-knowledge/src/lib.rs:474-487` | An input: of two such rivals the earlier one gets the last token. |
| `ContextOrder.OrderHiddenIff` | `crates/sessionweft-knowledge/src/lib.rs:474-526` | Under one given budget the package of valid candidates is the same for every arrangement if and only if none is built, or in every block of ties those that fit when its turn comes are all the same and those left out are all reported alike. |
| `EventJournal.ClientEventJournal.Append` | `crates/sessionweft-client-protocol-sqlite/src/lib.rs:71-102` | A new event gets the next cursor; a known one keeps its row and its cursor. That every event is then in the log is `JournalHistory.LogIsFirstDeliveries`. |
| `EventJournal.ClientEventJournal.ListAfter` | `crates/sessionweft-client-protocol-sqlite/src/lib.rs:104-149` | The page, read by fetching one row more than the limit, and the latest cursor, read after other writers may have appended. |
| `EventJournal.RedeliveryIsIdempotent` | `crates/sessionweft-client-protocol-sqlite/src/lib.rs:71-102` | Delivering a logged event again changes no row and reports its cursor. |
| `JournalHistory.LogIsFirstDeliveries` | `crates/sessionweft-client-protocol-sqlite/src/lib.rs:71-102` | Over every run the log holds exactly the first delivery of each event identifier, in order, with the payload of that delivery. |
| `JournalHistory.AppendReportsTheRow` | `crates/sessionweft-client-protocol-sqlite/src/lib.rs:77-102` | The record an append returns carries its envelope and the cursor of the row stored for its event; for a new event it is that row itself. |
| `EventJournal.PageIsExact` | `crates/sessionweft-client-protocol-sqlite/src/lib.rs:104-149` | A page is the first `limit` rows after the cursor, `next` is where it ends, and `has_more` is exact. |
| `EventJournal.LatestIsNotBehind` | `crates/sessionweft-client-protocol-sqlite/src/lib.rs:140-159` | However many events arrive between the two queries, the latest cursor is not behind the page, and is ahead of it when there is more. |
| `EventJournal.PagingRefinesLog` | `apps/sessionweft-cli/src/protocol_cli.rs:194-217` | For any interleaving of appends, re-deliveries and page reads that pass `next` back, what the client collected is the log between its start and its cursor, each event once, in order, none skipped. |
| `EventJournal.CaughtUp` | `apps/sessionweft-cli/src/protocol_cli.rs:194-217` | A page without more leaves the client with everything after its start. |
| `JournalHistory.CaughtUpClientHasEverything` | `apps/sessionweft-cli/src/protocol_cli.rs:194-217` | A client that pages from the beginning until there is no more has collected the first delivery of every event, in order, and nothing else. |
| `JournalHistory.PollsAdvance` | `crates/sessionweft-client-protocol-sqlite/src/lib.rs:104-149` | A poll with a legal limit gives the next `limit` events, or all that are left. |
| `JournalHistory.PageAcceptedIff` | `crates/sessionweft-client-protocol-sqlite/src/lib.rs:104-120` | A page is given exactly for a limit from one to a thousand and a cursor that fits the column. |
| `JournalHistory.LatestIsExact` | `crates/sessionweft-client-protocol-sqlite/src/lib.rs:140-159` | The latest cursor that comes with a page is the largest stored by then, or zero. |

## Left out

- Event payloads, correlation identifiers, actors and timestamps inside events: an event is its kind, the entity, and
  the fields some property needs; recovery events are given the gate values although the stored ones only say that
  the gates were reset.
- `started_at`, `completed_at`, `updated_at` and other clock fields that no transition reads; in the merge queue
  `updatedAt` is kept because stale entries are found by it.
- JSON encoding, SQL text, pools and migrations: a table is a sequence or a map of rows and a transaction is one atomic
  step that either commits and says so or changes nothing and says so; a commit that reports an error is not modelled.
- Timestamps are integers; the source stores and compares them as text.
- Length checks of names other than node identifiers and branches.
- The initial worklist is in definition order where the source takes map order; no property depends on it.
- Overflow of token sums, exhaustion of automatic row numbers and of the merge sequence.
- `WorkflowNodeDefinition` limits other than the identifier and the attempt range, and workflow cancellation, which no
  modelled operation performs.
- Lock request validation (time to live, paths), lease listing by session, and what a valid fence covers: the source
  asks for overlap, not containment, and so does the model.
- Format checks of commit identifiers; commits are numbers in the order in which they were made, and the commit graph is
  fixed because a commit's history never changes.
- `record_rebased_head`, which changes a head without opening the gates and is not called by the coordinator.
- Conflict paths are a set where the source sorts and removes duplicates; texts of errors and reasons are shortened.
- Worktree provisioning: in `MergeQueueSafety` worktrees and leases change arbitrarily between transactions.
- MergeQueue.MergeQueueEntry.Apply: does not model the format check of commit identifiers, nor the name of the actual
  target in the text of a retry.
- MergeCoordinator.ReconcileStale: the stale entries are a parameter, each with a world of its own; which entries a
  reconciliation finds, and that there is never more than one, is `MergeLifetime.StaleIsTheCrash`.
- MergeQueueSafety.ClaimSelects: is about a call that nobody disturbs; `MergeClaim` has the others.
- MergeRecovery.MachineInvAlways: other clients of the queue do not act on the machine's row; `MergeEndToEnd` has them.
- Git commands that take effect after their coordinator crashed, and reconciliation while a merge is still under way.
- The working tree during a rebase, detached heads and branch checks: a rebase is a flag that a finished or aborted
  rebase clears, and a finished rebase yields a descendant of the target.
- Lock poisoning, waiting for output with a timeout, terminal input and resizing, program discovery, and failures of the
  PTY reader thread other than the end of its input (a read error counts as that, as in the source).
- The `is_active_at` test of memories, scoring, vector search, workspace scanning, policies, release gates, scheduler,
  tenancy, HTTP, terminal interfaces, messaging and sandboxing: they would only add easy members.
