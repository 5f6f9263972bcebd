/** The gated merge queue: entries with review and test gates, single-active claim selection, the
    requeue transitions, and what holds of the rows and the outbox over every run. */
module MergeQueue {
  import opened Prelude
  import LockTable

  type Id = nat
  type Commit = nat

  const MAX_PRIORITY := 1000
  const CLAIM_LIMIT: nat := 100

  datatype Gate = Pending | Passed | Refused

  datatype EntryStatus = Queued | Claimed | Merging | Conflict | Merged | Cancelled | Failed {
    predicate Active() {
      Claimed? || Merging?
    }
  }

  datatype Fence = Fence(lockId: LockTable.LockId, token: nat)

  datatype WorktreeStatus = Provisioning | Ready | Broken | Abandoned | Cleaned

  datatype Worktree = Worktree(
    session: nat,
    agent: string,
    workspaceId: string,
    branch: string,
    base: Commit,
    head: Option<Commit>,
    fence: Fence,
    status: WorktreeStatus
  )

  datatype Entry = Entry(
    id: Id,
    sequence: nat,
    priority: int,
    worktreeId: Id,
    session: nat,
    agent: string,
    workspaceId: string,
    sourceBranch: string,
    targetBranch: string,
    base: Commit,
    head: Commit,
    mergeCommit: Option<Commit>,
    fence: Fence,
    review: Gate,
    tests: Gate,
    status: EntryStatus,
    conflict: set<string>,
    cancellation: Option<string>,
    lastError: Option<string>,
    updatedAt: int
  ) {
    predicate GatesPassed() {
      review == Passed && tests == Passed
    }

    predicate Claimable() {
      status == Queued && GatesPassed()
    }
  }

  datatype MergeError = InvalidRequest | InvalidTransition | NotFound | StaleFence | SnapshotMismatch | Backend

  /** The transitions of one entry. */
  datatype Change =
    | RecordReview(reviewer: string, approved: bool)
    | RecordTests(suite: string, passed: bool)
    | Cancel(reason: string)
    | Claim
    | Begin
    | MarkConflict(paths: set<string>)
    | MarkMerged(commit: Commit)
    | MarkFailed(error: string)
    | RequeueAfterRebase(target: Commit, head: Commit, reason: string)
    | RequeueAfterTargetMove(actual: Commit)

  datatype EventKind =
    | Enqueued | FenceRejected | ConflictTaskCreated
    | Changed(change: Change)

  datatype MergeEvent = MergeEvent(kind: EventKind, queueId: Id, head: Commit, review: Gate, tests: Gate)

  datatype ConflictTask = ConflictTask(queueId: Id, target: Commit, source: Commit, paths: set<string>)

  datatype Queue = Queue(
    entries: seq<Entry>,
    sequence: nat,
    worktrees: map<Id, Worktree>,
    leases: seq<LockTable.Lease>,
    tasks: seq<ConflictTask>,
    outbox: seq<MergeEvent>
  )

  // ----- One entry --------------------------------------------------------------------------------

  function NonBlank(paths: set<string>): set<string> {
    set p | p in paths && !Blank(p)
  }

  const MOVED := "target branch moved; rebase and gates are required"

  function Transition(e: Entry, c: Change, now: int): Result<Entry, MergeError> {
    match c
    case RecordReview(reviewer, approved) =>
      if e.status != Queued then Err(InvalidTransition)
      else if Blank(reviewer) then Err(InvalidRequest)
      else Ok(e.(review := if approved then Passed else Refused, updatedAt := now))
    case RecordTests(suite, passed) =>
      if e.status != Queued then Err(InvalidTransition)
      else if Blank(suite) then Err(InvalidRequest)
      else Ok(e.(tests := if passed then Passed else Refused, updatedAt := now))
    case Cancel(reason) =>
      if e.status != Queued && e.status != Claimed then Err(InvalidTransition)
      else if Blank(reason) then Err(InvalidRequest)
      else Ok(e.(status := Cancelled, cancellation := Some(reason), updatedAt := now))
    case Claim =>
      if !e.Claimable() then Err(InvalidTransition)
      else Ok(e.(status := Claimed, updatedAt := now))
    case Begin =>
      if e.status != Claimed then Err(InvalidTransition)
      else Ok(e.(status := Merging, updatedAt := now))
    case MarkConflict(paths) =>
      if e.status != Merging then Err(InvalidTransition)
      else if NonBlank(paths) == {} then Err(InvalidRequest)
      else Ok(e.(status := Conflict, conflict := NonBlank(paths), updatedAt := now))
    case MarkMerged(commit) =>
      if e.status != Merging then Err(InvalidTransition)
      else Ok(e.(status := Merged, mergeCommit := Some(commit), updatedAt := now))
    case MarkFailed(error) =>
      if !e.status.Active() then Err(InvalidTransition)
      else if Blank(error) then Err(InvalidRequest)
      else Ok(e.(status := Failed, lastError := Some(error), updatedAt := now))
    case RequeueAfterRebase(target, head, reason) =>
      if e.status != Merging then Err(InvalidTransition)
      else Ok(e.(base := target, head := head, status := Queued, review := Pending, tests := Pending,
                 mergeCommit := None, conflict := {}, lastError := Some(reason), updatedAt := now))
    case RequeueAfterTargetMove(actual) =>
      if e.status != Merging then Err(InvalidTransition)
      else Ok(e.(status := Queued, review := Pending, tests := Pending, lastError := Some(MOVED),
                 updatedAt := now))
  }

  /** A queue entry in memory: the fields that its transitions assign, and the row it was loaded from. */
  class MergeQueueEntry {
    const row: Entry
    var base: Commit
    var head: Commit
    var mergeCommit: Option<Commit>
    var review: Gate
    var tests: Gate
    var status: EntryStatus
    var conflict: set<string>
    var cancellation: Option<string>
    var lastError: Option<string>
    var updatedAt: int

    function Value(): Entry
      reads this
    {
      row.(base := base, head := head, mergeCommit := mergeCommit, review := review, tests := tests,
           status := status, conflict := conflict, cancellation := cancellation, lastError := lastError,
           updatedAt := updatedAt)
    }

    constructor (e: Entry)
      ensures Value() == e
    {
      row := e;
      base, head, mergeCommit, review, tests := e.base, e.head, e.mergeCommit, e.review, e.tests;
      status, conflict, cancellation := e.status, e.conflict, e.cancellation;
      lastError, updatedAt := e.lastError, e.updatedAt;
    }

    method Requeue(now: int)
      modifies this
      ensures Value() == old(Value()).(status := Queued, review := Pending, tests := Pending, updatedAt := now)
    {
      status := Queued;
      review, tests := Pending, Pending;
      updatedAt := now;
    }

    method Apply(c: Change, now: int) returns (r: Result<(), MergeError>)
      modifies this
      ensures match Transition(old(Value()), c, now)
              case Ok(e) => Value() == e && r == Ok(())
              case Err(error) => Value() == old(Value()) && r == Err(error)
    {
      if c.RecordReview? || c.RecordTests? || c.Cancel? || c.Claim? || c.Begin? {
        r := ApplyWaiting(c, now);
      } else {
        r := ApplyMerging(c, now);
      }
    }

    /** The transitions before the merge. */
    method ApplyWaiting(c: Change, now: int) returns (r: Result<(), MergeError>)
      requires c.RecordReview? || c.RecordTests? || c.Cancel? || c.Claim? || c.Begin?
      modifies this
      ensures match Transition(old(Value()), c, now)
              case Ok(e) => Value() == e && r == Ok(())
              case Err(error) => Value() == old(Value()) && r == Err(error)
    {
      match c {
        case RecordReview(reviewer, approved) =>
          if status != Queued { return Err(InvalidTransition); }
          if Blank(reviewer) { return Err(InvalidRequest); }
          review := if approved then Passed else Refused;
        case RecordTests(suite, passed) =>
          if status != Queued { return Err(InvalidTransition); }
          if Blank(suite) { return Err(InvalidRequest); }
          tests := if passed then Passed else Refused;
        case Cancel(reason) =>
          if status != Queued && status != Claimed { return Err(InvalidTransition); }
          if Blank(reason) { return Err(InvalidRequest); }
          status, cancellation := Cancelled, Some(reason);
        case Claim =>
          if status != Queued || review != Passed || tests != Passed { return Err(InvalidTransition); }
          status := Claimed;
        case Begin =>
          if status != Claimed { return Err(InvalidTransition); }
          status := Merging;
      }
      updatedAt := now;
      return Ok(());
    }

    /** The ways a merge can end. */
    method ApplyMerging(c: Change, now: int) returns (r: Result<(), MergeError>)
      requires !(c.RecordReview? || c.RecordTests? || c.Cancel? || c.Claim? || c.Begin?)
      modifies this
      ensures match Transition(old(Value()), c, now)
              case Ok(e) => Value() == e && r == Ok(())
              case Err(error) => Value() == old(Value()) && r == Err(error)
    {
      match c {
        case MarkConflict(paths) =>
          if status != Merging { return Err(InvalidTransition); }
          if NonBlank(paths) == {} { return Err(InvalidRequest); }
          status, conflict := Conflict, NonBlank(paths);
        case MarkMerged(commit) =>
          if status != Merging { return Err(InvalidTransition); }
          status, mergeCommit := Merged, Some(commit);
        case MarkFailed(error) =>
          if !status.Active() { return Err(InvalidTransition); }
          if Blank(error) { return Err(InvalidRequest); }
          status, lastError := Failed, Some(error);
        case RequeueAfterRebase(target, head', reason) =>
          if status != Merging { return Err(InvalidTransition); }
          base, head := target, head';
          mergeCommit, conflict, lastError := None, {}, Some(reason);
          Requeue(now);
        case RequeueAfterTargetMove(actual) =>
          if status != Merging { return Err(InvalidTransition); }
          lastError := Some(MOVED);
          Requeue(now);
      }
      updatedAt := now;
      return Ok(());
    }
  }

  // ----- Fences -------------------------------------------------------------------------------------

  predicate LeaseMatches(leases: seq<LockTable.Lease>, fence: Fence, session: nat, agent: string,
                         workspaceId: string, now: int)
  {
    var lease := LockTable.Lookup(leases, fence.lockId);
    && lease.Some?
    && lease.value.session == session
    && lease.value.owner == agent
    && lease.value.resource.workspaceId == workspaceId
    && lease.value.token == fence.token
    && lease.value.expiresAt > now
  }

  /** What may be wrong with an entry's fence and durable snapshot; `None` when both are live. */
  function FenceError(q: Queue, e: Entry, now: int): Option<MergeError> {
    if !LeaseMatches(q.leases, e.fence, e.session, e.agent, e.workspaceId, now) then Some(StaleFence)
    else if e.worktreeId !in q.worktrees then Some(NotFound)
    else
      var w := q.worktrees[e.worktreeId];
      if w.status != Ready || w.head != Some(e.head) || w.fence.token != e.fence.token
      then Some(SnapshotMismatch)
      else None
  }

  function ErrorText(error: MergeError): string {
    match error
    case StaleFence => "fence is stale"
    case NotFound => "not found"
    case SnapshotMismatch => "merge queue worktree no longer matches its durable snapshot"
    case _ => "error"
  }

  // ----- Rows ---------------------------------------------------------------------------------------

  function IndexOf(entries: seq<Entry>, id: Id): (r: Option<nat>)
    ensures r.Some? ==> r.value < |entries| && entries[r.value].id == id
    ensures r.None? ==> forall e <- entries :: e.id != id
  {
    if entries == [] then None
    else if entries[|entries| - 1].id == id then Some(|entries| - 1)
    else IndexOf(entries[..|entries| - 1], id)
  }

  /** The partial unique index: no two rows claimed or merging. */
  predicate SingleActive(entries: seq<Entry>) {
    forall i, j :: 0 <= i < j < |entries| ==> !(entries[i].status.Active() && entries[j].status.Active())
  }

  predicate HasActive(entries: seq<Entry>) {
    exists e <- entries :: e.status.Active()
  }

  function EventFor(kind: EventKind, e: Entry): MergeEvent {
    MergeEvent(kind, e.id, e.head, e.review, e.tests)
  }

  /** Update a row and append its event, unless the index refuses the row. */
  function Save(q: Queue, i: nat, e: Entry, kind: EventKind): Result<Queue, MergeError>
    requires i < |q.entries|
  {
    var entries := q.entries[i := e];
    if !SingleActive(entries) then Err(Backend)
    else Ok(q.(entries := entries, outbox := q.outbox + [EventFor(kind, e)]))
  }

  // ----- Transactions -------------------------------------------------------------------------------

  const BRANCH_LIMIT: nat := 512

  predicate SafeBranch(branch: string) {
    var b := Trim(branch);
    && b != "" && ByteLength(b) <= BRANCH_LIMIT
    && b[0] != '-' && b[0] != '/' && b[|b| - 1] != '/' && b[|b| - 1] != '.'
    && (forall i :: 0 <= i < |b| ==> !White(b[i]) && b[i] !in {'~', '^', ':', '?', '*', '[', '\\'})
    && (forall i :: 0 <= i < |b| - 1 ==> !(b[i] == '.' && b[i + 1] == '.') && !(b[i] == '@' && b[i + 1] == '{'))
  }

  datatype Request = Request(worktreeId: Id, targetBranch: string, priority: int) {
    predicate Valid() {
      SafeBranch(targetBranch) && -MAX_PRIORITY <= priority <= MAX_PRIORITY
    }
  }

  function ByWorktree(entries: seq<Entry>, worktreeId: Id): (r: Option<Entry>)
    ensures r.Some? ==> r.value in entries && r.value.worktreeId == worktreeId
    ensures r.None? ==> forall e <- entries :: e.worktreeId != worktreeId
  {
    if entries == [] then None
    else if entries[|entries| - 1].worktreeId == worktreeId then Some(entries[|entries| - 1])
    else ByWorktree(entries[..|entries| - 1], worktreeId)
  }

  function NewEntry(id: Id, sequence: nat, r: Request, w: Worktree, head: Commit, now: int): Entry {
    Entry(id, sequence, r.priority, r.worktreeId, w.session, w.agent, w.workspaceId, w.branch, r.targetBranch,
          w.base, head, None, w.fence, Pending, Pending, Queued, {}, None, None, now)
  }

  function Enqueue(q: Queue, r: Request, now: int, freshId: Id): Result<(Queue, Entry), MergeError> {
    if !r.Valid() then Err(InvalidRequest)
    else
      var existing := ByWorktree(q.entries, r.worktreeId);
      if existing.Some? then
        if existing.value.targetBranch == r.targetBranch && existing.value.priority == r.priority
        then Ok((q, existing.value))
        else Err(InvalidRequest)
      else if r.worktreeId !in q.worktrees then Err(NotFound)
      else
        var w := q.worktrees[r.worktreeId];
        if !LeaseMatches(q.leases, w.fence, w.session, w.agent, w.workspaceId, now) then Err(StaleFence)
        else if w.status != Ready then Err(InvalidTransition)
        else if r.targetBranch == w.branch || w.head.None? then Err(InvalidRequest)
        else if IndexOf(q.entries, freshId).Some? then Err(Backend)
        else
          var e := NewEntry(freshId, q.sequence + 1, r, w, w.head.value, now);
          Ok((q.(entries := q.entries + [e], sequence := q.sequence + 1,
                 outbox := q.outbox + [EventFor(Enqueued, e)]), e))
  }

  function Mutate(q: Queue, id: Id, c: Change, now: int): Result<(Queue, Entry), MergeError> {
    match IndexOf(q.entries, id)
    case None => Err(NotFound)
    case Some(i) =>
      match Transition(q.entries[i], c, now)
      case Err(error) => Err(error)
      case Ok(e) =>
        match Save(q, i, e, Changed(c))
        case Err(error) => Err(error)
        case Ok(q') => Ok((q', e))
  }

  /** The entry and its worktree take the rebased head together. */
  function FinishRebase(q: Queue, id: Id, target: Commit, head: Commit, reason: string, now: int)
    : Result<(Queue, Entry), MergeError>
  {
    match IndexOf(q.entries, id)
    case None => Err(NotFound)
    case Some(i) =>
      var worktreeId := q.entries[i].worktreeId;
      if worktreeId !in q.worktrees then Err(NotFound)
      else if q.entries[i].status == Merging && q.worktrees[worktreeId].status != Ready
      then Err(SnapshotMismatch)
      else
        match Mutate(q, id, RequeueAfterRebase(target, head, reason), now)
        case Err(error) => Err(error)
        case Ok((q', e)) =>
          Ok((q'.(worktrees := q.worktrees[worktreeId := q.worktrees[worktreeId].(head := Some(head))]), e))
  }

  function TaskFor(tasks: seq<ConflictTask>, id: Id): (r: Option<ConflictTask>)
    ensures r.Some? ==> r.value in tasks && r.value.queueId == id
    ensures r.None? ==> forall t <- tasks :: t.queueId != id
  {
    if tasks == [] then None
    else if tasks[|tasks| - 1].queueId == id then Some(tasks[|tasks| - 1])
    else TaskFor(tasks[..|tasks| - 1], id)
  }

  /** At most one task per entry: an existing one is returned and nothing changes. */
  function CreateConflictTask(q: Queue, id: Id, target: Commit, source: Commit, paths: set<string>, now: int)
    : Result<(Queue, Entry, ConflictTask), MergeError>
  {
    match IndexOf(q.entries, id)
    case None => Err(NotFound)
    case Some(i) =>
      var known := TaskFor(q.tasks, id);
      if known.Some? then Ok((q, q.entries[i], known.value))
      else if NonBlank(paths) == {} then Err(InvalidRequest)
      else
        match Transition(q.entries[i], MarkConflict(paths), now)
        case Err(error) => Err(error)
        case Ok(e) =>
          match Save(q, i, e, ConflictTaskCreated)
          case Err(error) => Err(error)
          case Ok(q') =>
            var task := ConflictTask(id, target, source, NonBlank(paths));
            Ok((q'.(tasks := q.tasks + [task]), e, task))
  }

  function FenceCheck(q: Queue, id: Id, now: int): Result<(), MergeError> {
    match IndexOf(q.entries, id)
    case None => Err(NotFound)
    case Some(i) =>
      if FenceError(q, q.entries[i], now).Some? then Err(FenceError(q, q.entries[i], now).value) else Ok(())
  }

  /** The fence is checked in one transaction, the change made in a later one. */
  function Fenced(q: Queue, later: Queue, id: Id, c: Change, now: int): Result<(Queue, Entry), MergeError> {
    match FenceCheck(q, id, now)
    case Err(error) => Err(error)
    case Ok(_) => Mutate(later, id, c, now)
  }

  // ----- Claiming -----------------------------------------------------------------------------------

  /** Higher priority first, then first come first served. */
  predicate RanksBefore(a: Entry, b: Entry) {
    a.priority > b.priority || (a.priority == b.priority && a.sequence < b.sequence)
  }

  function RankIn(e: Entry, ranked: seq<Entry>): seq<Entry> {
    if ranked == [] || RanksBefore(e, ranked[0]) then [e] + ranked
    else [ranked[0]] + RankIn(e, ranked[1..])
  }

  function Ranked(entries: seq<Entry>): seq<Entry> {
    if entries == [] then []
    else
      var rest := Ranked(entries[..|entries| - 1]);
      if entries[|entries| - 1].Claimable() then RankIn(entries[|entries| - 1], rest) else rest
  }

  function Shortlist(ranked: seq<Entry>): (r: seq<Entry>)
    ensures |r| <= CLAIM_LIMIT && r <= ranked
  {
    if |ranked| <= CLAIM_LIMIT then ranked else ranked[..CLAIM_LIMIT]
  }

  function Candidates(entries: seq<Entry>): seq<Entry> {
    Shortlist(Ranked(entries))
  }

  function FenceFailed(e: Entry, error: MergeError, now: int): Entry {
    e.(status := Failed, lastError := Some(ErrorText(error)), updatedAt := now)
  }

  datatype Attempt = Skipped | FenceRefused | Won(entry: Entry)

  /** One candidate, in its own transaction: skip it if it has changed, fail it if its fence is not
      live, otherwise claim it. */
  function TryClaim(q: Queue, id: Id, now: int): Result<(Queue, Attempt), MergeError> {
    match IndexOf(q.entries, id)
    case None => Err(NotFound)
    case Some(i) =>
      var e := q.entries[i];
      if !e.Claimable() then Ok((q, Skipped))
      else if FenceError(q, e, now).Some? then
        match Save(q, i, FenceFailed(e, FenceError(q, e, now).value, now), FenceRejected)
        case Err(error) => Err(error)
        case Ok(q') => Ok((q', FenceRefused))
      else
        var won := e.(status := Claimed, updatedAt := now);
        match Save(q, i, won, Changed(Claim))
        case Err(error) => Err(error)
        case Ok(q') => Ok((q', Won(won)))
  }

  function ClaimFrom(q: Queue, candidates: seq<Entry>, now: int): (Queue, Result<Option<Entry>, MergeError>)
    decreases |candidates|
  {
    if candidates == [] then (q, Ok(None))
    else
      match TryClaim(q, candidates[0].id, now)
      case Err(error) => (q, Err(error))
      case Ok((q', attempt)) =>
        if attempt.Won? then (q', Ok(Some(attempt.entry)))
        else ClaimFrom(q', candidates[1..], now)
  }

  function ClaimNext(q: Queue, now: int): (Queue, Result<Option<Entry>, MergeError>) {
    if HasActive(q.entries) then (q, Ok(None))
    else ClaimFrom(q, Candidates(q.entries), now)
  }

  const MAX_STALE: nat := 1000

  predicate TouchedBefore(a: Entry, b: Entry) {
    a.updatedAt < b.updatedAt || (a.updatedAt == b.updatedAt && a.sequence < b.sequence)
  }

  function StaleIn(e: Entry, stale: seq<Entry>): (r: seq<Entry>)
    ensures |r| == |stale| + 1
  {
    if stale == [] || TouchedBefore(e, stale[0]) then [e] + stale else [stale[0]] + StaleIn(e, stale[1..])
  }

  /** Merging rows that nobody has touched since `before`, the longest untouched first. */
  function Stale(entries: seq<Entry>, before: int): seq<Entry> {
    if entries == [] then []
    else
      var rest := Stale(entries[..|entries| - 1], before);
      var e := entries[|entries| - 1];
      if e.status == Merging && e.updatedAt < before then StaleIn(e, rest) else rest
  }

  function StaleMerging(q: Queue, before: int, limit: nat): Result<seq<Entry>, MergeError> {
    if limit == 0 || limit > MAX_STALE then Err(InvalidRequest)
    else
      var stale := Stale(q.entries, before);
      Ok(if |stale| <= limit then stale else stale[..limit])
  }

  // ----- Steps of the database ------------------------------------------------------------------------------

  /** One transaction each. A fenced call is two of them, so its fence check is not repeated here; leases
      and worktrees change in any way, at any time. */
  datatype Op =
    | EnqueueOp(request: Request, now: int, freshId: Id)
    | MutateOp(id: Id, change: Change, now: int)
    | FinishRebaseOp(id: Id, target: Commit, head: Commit, reason: string, now: int)
    | ConflictTaskOp(id: Id, target: Commit, source: Commit, paths: set<string>, now: int)
    | TryClaimOp(id: Id, now: int)
    | OtherServices(worktrees: map<Id, Worktree>, leases: seq<LockTable.Lease>)

  function QueueStep(q: Queue, op: Op): Queue {
    match op
    case EnqueueOp(request, now, freshId) =>
      (match Enqueue(q, request, now, freshId) case Ok((q', _)) => q' case Err(_) => q)
    case MutateOp(id, change, now) =>
      (match Mutate(q, id, change, now) case Ok((q', _)) => q' case Err(_) => q)
    case FinishRebaseOp(id, target, head, reason, now) =>
      (match FinishRebase(q, id, target, head, reason, now) case Ok((q', _)) => q' case Err(_) => q)
    case ConflictTaskOp(id, target, source, paths, now) =>
      (match CreateConflictTask(q, id, target, source, paths, now) case Ok((q', _, _)) => q' case Err(_) => q)
    case TryClaimOp(id, now) =>
      (match TryClaim(q, id, now) case Ok((q', _)) => q' case Err(_) => q)
    case OtherServices(worktrees, leases) => q.(worktrees := worktrees, leases := leases)
  }

  function QueueSteps(q: Queue, ops: seq<Op>): Queue {
    if ops == [] then q else QueueStep(QueueSteps(q, ops[..|ops| - 1]), ops[|ops| - 1])
  }

  // ----- A claim among other clients ------------------------------------------------------------------------

  predicate ClaimableId(q: Queue, id: Id) {
    var i := IndexOf(q.entries, id);
    i.Some? && q.entries[i.value].Claimable()
  }

  datatype ClaimPc =
    | Counting
    | Listing
    | Trying(rest: seq<Entry>)
    | Answered(r: Result<Option<Entry>, MergeError>)

  /** One call: the count of active entries, the listing and each candidate are transactions of their own, and
      other clients act in between. The rest is history: the full ranking that was listed, the queue as each
      candidate met it, and which entries have been claimable ever since the listing. */
  datatype ClaimCall = ClaimCall(queue: Queue, pc: ClaimPc, ranked: seq<Entry>, tried: seq<Queue>, lit: set<Id>)

  datatype CallTick = OwnStep | OtherStep(op: Op)

  function Ids(entries: seq<Entry>): set<Id> {
    set e <- entries :: e.id
  }

  function Relit(c: ClaimCall): ClaimCall {
    c.(lit := set id | id in c.lit && ClaimableId(c.queue, id))
  }

  function TryFirst(c: ClaimCall, rest: seq<Entry>, now: int): ClaimCall {
    if rest == [] then c.(pc := Answered(Ok(None)))
    else
      match TryClaim(c.queue, rest[0].id, now)
      case Err(error) => c.(pc := Answered(Err(error)))
      case Ok((q, attempt)) =>
        Relit(c.(queue := q, tried := c.tried + [c.queue],
                 pc := if attempt.Won? then Answered(Ok(Some(attempt.entry))) else Trying(rest[1..])))
  }

  function CallStep(c: ClaimCall, now: int, tick: CallTick): ClaimCall {
    match tick
    case OtherStep(op) => Relit(c.(queue := QueueStep(c.queue, op)))
    case OwnStep =>
      match c.pc
      case Counting => c.(pc := if HasActive(c.queue.entries) then Answered(Ok(None)) else Listing)
      case Listing =>
        var ranked := Ranked(c.queue.entries);
        c.(pc := Trying(Shortlist(ranked)), ranked := ranked, tried := [], lit := Ids(ranked))
      case Trying(rest) => TryFirst(c, rest, now)
      case Answered(_) => c
  }

  function CallStart(q: Queue): ClaimCall {
    ClaimCall(q, Counting, [], [], {})
  }

  function CallRun(q: Queue, now: int, ticks: seq<CallTick>): ClaimCall {
    if ticks == [] then CallStart(q)
    else CallStep(CallRun(q, now, ticks[..|ticks| - 1]), now, ticks[|ticks| - 1])
  }

  lemma CallSnoc(q: Queue, now: int, ticks: seq<CallTick>, tick: CallTick)
    ensures CallRun(q, now, ticks + [tick]) == CallStep(CallRun(q, now, ticks), now, tick)
  {
    assert (ticks + [tick])[..|ticks|] == ticks;
  }

  // ----- The repository object ------------------------------------------------------------------------

  class MergeQueueRepository {
    var entries: seq<Entry>
    var sequence: nat
    var worktrees: map<Id, Worktree>
    var leases: seq<LockTable.Lease>
    var tasks: seq<ConflictTask>
    var outbox: seq<MergeEvent>

    ghost function Value(): Queue
      reads this
    {
      Queue(entries, sequence, worktrees, leases, tasks, outbox)
    }

    constructor (worktrees: map<Id, Worktree>, leases: seq<LockTable.Lease>)
      ensures Value() == Queue([], 0, worktrees, leases, [], [])
    {
      entries, sequence, tasks, outbox := [], 0, [], [];
      this.worktrees, this.leases := worktrees, leases;
    }

    method SaveEntry(i: nat, e: Entry, kind: EventKind) returns (r: Result<(), MergeError>)
      requires i < |entries|
      modifies this`entries, this`outbox
      ensures match Save(old(Value()), i, e, kind)
              case Ok(q) => Value() == q && r == Ok(())
              case Err(error) => Value() == old(Value()) && r == Err(error)
    {
      if !SingleActive(entries[i := e]) { return Err(Backend); }
      entries := entries[i := e];
      outbox := outbox + [EventFor(kind, e)];
      return Ok(());
    }

    method EnqueueWorktree(request: Request, now: int, freshId: Id) returns (r: Result<Entry, MergeError>)
      modifies this
      ensures match Enqueue(old(Value()), request, now, freshId)
              case Ok((q, e)) => Value() == q && r == Ok(e)
              case Err(error) => Value() == old(Value()) && r == Err(error)
    {
      if !request.Valid() { return Err(InvalidRequest); }
      var existing := ByWorktree(entries, request.worktreeId);
      if existing.Some? {
        if && existing.value.targetBranch == request.targetBranch
           && existing.value.priority == request.priority
        {
          return Ok(existing.value);
        }
        return Err(InvalidRequest);
      }
      if request.worktreeId !in worktrees { return Err(NotFound); }
      var w := worktrees[request.worktreeId];
      if !LeaseMatches(leases, w.fence, w.session, w.agent, w.workspaceId, now) { return Err(StaleFence); }
      if w.status != Ready { return Err(InvalidTransition); }
      if request.targetBranch == w.branch || w.head.None? { return Err(InvalidRequest); }
      if IndexOf(entries, freshId).Some? { return Err(Backend); }
      sequence := sequence + 1;
      var e := NewEntry(freshId, sequence, request, w, w.head.value, now);
      entries := entries + [e];
      outbox := outbox + [EventFor(Enqueued, e)];
      return Ok(e);
    }

    method MutateMerge(id: Id, c: Change, now: int) returns (r: Result<Entry, MergeError>)
      modifies this`entries, this`outbox
      ensures match Mutate(old(Value()), id, c, now)
              case Ok((q, e)) => Value() == q && r == Ok(e)
              case Err(error) => Value() == old(Value()) && r == Err(error)
    {
      var index := IndexOf(entries, id);
      if index.None? { return Err(NotFound); }
      var entry := new MergeQueueEntry(entries[index.value]);
      var applied := entry.Apply(c, now);
      if applied.Err? { return Err(applied.error); }
      var e := entry.Value();
      var saved := SaveEntry(index.value, e, Changed(c));
      if saved.Err? { return Err(saved.error); }
      return Ok(e);
    }

    method ValidateMergeFence(id: Id, now: int) returns (r: Result<(), MergeError>)
      ensures r == FenceCheck(Value(), id, now)
    {
      var index := IndexOf(entries, id);
      if index.None? { return Err(NotFound); }
      var e := entries[index.value];
      if !LeaseMatches(leases, e.fence, e.session, e.agent, e.workspaceId, now) { return Err(StaleFence); }
      if e.worktreeId !in worktrees { return Err(NotFound); }
      var w := worktrees[e.worktreeId];
      if w.status != Ready || w.head != Some(e.head) || w.fence.token != e.fence.token {
        return Err(SnapshotMismatch);
      }
      return Ok(());
    }

    method RequeueRebased(id: Id, target: Commit, head: Commit, reason: string, now: int)
      returns (r: Result<Entry, MergeError>)
      modifies this
      ensures match FinishRebase(old(Value()), id, target, head, reason, now)
              case Ok((q, e)) => Value() == q && r == Ok(e)
              case Err(error) => Value() == old(Value()) && r == Err(error)
    {
      var index := IndexOf(entries, id);
      if index.None? { return Err(NotFound); }
      var worktreeId := entries[index.value].worktreeId;
      if worktreeId !in worktrees { return Err(NotFound); }
      if entries[index.value].status == Merging && worktrees[worktreeId].status != Ready {
        return Err(SnapshotMismatch);
      }
      r := MutateMerge(id, RequeueAfterRebase(target, head, reason), now);
      if r.Ok? {
        worktrees := worktrees[worktreeId := worktrees[worktreeId].(head := Some(head))];
      }
    }

    method OpenConflictTask(id: Id, target: Commit, source: Commit, paths: set<string>, now: int)
      returns (r: Result<(Entry, ConflictTask), MergeError>)
      modifies this
      ensures match CreateConflictTask(old(Value()), id, target, source, paths, now)
              case Ok((q, e, task)) => Value() == q && r == Ok((e, task))
              case Err(error) => Value() == old(Value()) && r == Err(error)
    {
      var index := IndexOf(entries, id);
      if index.None? { return Err(NotFound); }
      var known := TaskFor(tasks, id);
      if known.Some? { return Ok((entries[index.value], known.value)); }
      if NonBlank(paths) == {} { return Err(InvalidRequest); }
      var entry := new MergeQueueEntry(entries[index.value]);
      var applied := entry.Apply(MarkConflict(paths), now);
      if applied.Err? { return Err(applied.error); }
      var e := entry.Value();
      var saved := SaveEntry(index.value, e, ConflictTaskCreated);
      if saved.Err? { return Err(saved.error); }
      var task := ConflictTask(id, target, source, NonBlank(paths));
      tasks := tasks + [task];
      return Ok((e, task));
    }

    method TryCandidate(id: Id, now: int) returns (r: Result<Attempt, MergeError>)
      modifies this`entries, this`outbox
      ensures match TryClaim(old(Value()), id, now)
              case Ok((q, attempt)) => Value() == q && r == Ok(attempt)
              case Err(error) => Value() == old(Value()) && r == Err(error)
    {
      var index := IndexOf(entries, id);
      if index.None? { return Err(NotFound); }
      var e := entries[index.value];
      if !e.Claimable() { return Ok(Skipped); }
      var fence := ValidateMergeFence(id, now);
      if fence.Err? {
        var rejected := SaveEntry(index.value, FenceFailed(e, fence.error, now), FenceRejected);
        if rejected.Err? { return Err(rejected.error); }
        return Ok(FenceRefused);
      }
      var won := e.(status := Claimed, updatedAt := now);
      var saved := SaveEntry(index.value, won, Changed(Claim));
      if saved.Err? { return Err(saved.error); }
      return Ok(Won(won));
    }

    /** One transaction of any client. */
    method Transact(op: Op)
      modifies this
      ensures Value() == QueueStep(old(Value()), op)
    {
      match op {
        case EnqueueOp(request, now, freshId) => var _ := EnqueueWorktree(request, now, freshId);
        case MutateOp(id, change, now) => var _ := MutateMerge(id, change, now);
        case FinishRebaseOp(id, target, head, reason, now) => var _ := RequeueRebased(id, target, head, reason, now);
        case ConflictTaskOp(id, target, source, paths, now) =>
          var _ := OpenConflictTask(id, target, source, paths, now);
        case TryClaimOp(id, now) => var _ := TryCandidate(id, now);
        case OtherServices(worktrees, leases) => this.worktrees, this.leases := worktrees, leases;
      }
    }

    /** Between two transactions of one call other clients run any number of theirs. */
    method OtherTransactions() returns (ghost ops: seq<Op>)
      modifies this
      ensures Value() == QueueSteps(old(Value()), ops)
    {
      ops := [];
      var transactions: int := *;
      while transactions > 0
        invariant Value() == QueueSteps(old(Value()), ops)
      {
        var op: Op := *;
        Transact(op);
        assert (ops + [op])[..|ops|] == ops;
        ops := ops + [op];
        transactions := transactions - 1;
      }
    }

    /** `begin_merge` and `mark_merged`: the fence is checked first, in a transaction of its own. */
    method FencedMutate(id: Id, c: Change, now: int) returns (r: Result<Entry, MergeError>, ghost ops: seq<Op>)
      modifies this
      ensures match Fenced(old(Value()), QueueSteps(old(Value()), ops), id, c, now)
              case Ok((q, e)) => Value() == q && r == Ok(e)
              case Err(error) => Value() == QueueSteps(old(Value()), ops) && r == Err(error)
    {
      ops := [];
      var fence := ValidateMergeFence(id, now);
      if fence.Err? { return Err(fence.error), ops; }
      ops := OtherTransactions();
      r := MutateMerge(id, c, now);
    }

    /** Between two transactions of a claim other clients run any number of theirs. */
    method OtherClients(ghost q: Queue, now: int, ghost before: seq<CallTick>) returns (ghost ticks: seq<CallTick>)
      requires CallRun(q, now, before).queue == Value()
      modifies this
      ensures CallRun(q, now, ticks).queue == Value()
      ensures CallRun(q, now, ticks).pc == CallRun(q, now, before).pc
    {
      ticks := before;
      var transactions: int := *;
      while transactions > 0
        invariant CallRun(q, now, ticks).queue == Value()
        invariant CallRun(q, now, ticks).pc == CallRun(q, now, before).pc
      {
        var op: Op := *;
        Transact(op);
        CallSnoc(q, now, ticks, OtherStep(op));
        ticks := ticks + [OtherStep(op)];
        transactions := transactions - 1;
      }
    }

    /** The claim, in as many transactions as the source uses, is a run of the call among other clients. */
    method ClaimNextMerge(now: int) returns (r: Result<Option<Entry>, MergeError>, ghost ticks: seq<CallTick>)
      modifies this
      ensures CallRun(old(Value()), now, ticks).queue == Value()
      ensures CallRun(old(Value()), now, ticks).pc == Answered(r)
    {
      ghost var q := Value();
      ticks := [];
      ticks := OtherClients(q, now, ticks);
      CallSnoc(q, now, ticks, OwnStep);
      ticks := ticks + [OwnStep];
      if HasActive(entries) { return Ok(None), ticks; }
      ticks := OtherClients(q, now, ticks);
      var candidates := Candidates(entries);
      CallSnoc(q, now, ticks, OwnStep);
      ticks := ticks + [OwnStep];
      for i := 0 to |candidates|
        invariant CallRun(q, now, ticks).queue == Value()
        invariant CallRun(q, now, ticks).pc == Trying(candidates[i..])
      {
        ticks := OtherClients(q, now, ticks);
        assert candidates[i..][1..] == candidates[i + 1..];
        CallSnoc(q, now, ticks, OwnStep);
        ticks := ticks + [OwnStep];
        var attempt := TryCandidate(candidates[i].id, now);
        if attempt.Err? { return Err(attempt.error), ticks; }
        if attempt.value.Won? { return Ok(Some(attempt.value.entry)), ticks; }
      }
      CallSnoc(q, now, ticks, OwnStep);
      return Ok(None), ticks + [OwnStep];
    }

    method StaleMergingEntries(before: int, limit: nat) returns (r: Result<seq<Entry>, MergeError>)
      ensures r == StaleMerging(Value(), before, limit)
    {
      if limit == 0 || limit > MAX_STALE { return Err(InvalidRequest); }
      var stale := [];
      for i := 0 to |entries|
        invariant stale == Stale(entries[..i], before)
      {
        assert entries[..i + 1][..i] == entries[..i];
        if entries[i].status == Merging && entries[i].updatedAt < before {
          stale := StaleIn(entries[i], stale);
        }
      }
      assert entries[..|entries|] == entries;
      return Ok(if |stale| <= limit then stale else stale[..limit]);
    }
  }
}
