/** The merge queue as told by its accepted transactions alone: what became of each entry, of its gates and of its
    snapshot, what the outbox reports, and which transactions are accepted. */
module MergeHistory {
  import opened Prelude
  import opened MergeQueue
  import opened MergeQueueSafety
  import MergeClaim

  // ----- The story of an entry -------------------------------------------------------------------------------------

  datatype Chapter =
    | Joined(request: Request, worktree: Worktree)
    | Did(change: Change)
    | OpenedTask(paths: set<string>)
    | LostFence(error: MergeError)

  /** What is wrong with the fence of `id`, if anything. */
  function LossOf(q: Queue, id: Id, now: int): MergeError {
    match IndexOf(q.entries, id)
    case None => NotFound
    case Some(i) => (match FenceError(q, q.entries[i], now) case Some(error) => error case None => StaleFence)
  }

  /** What a transaction means for entry `id`, if it is accepted and about it. */
  function ChapterOf(q: Queue, op: Op, id: Id): Option<Chapter> {
    match op
    case EnqueueOp(r, now, freshId) =>
      if freshId == id && ByWorktree(q.entries, r.worktreeId).None? && Enqueue(q, r, now, freshId).Ok?
      then Some(Joined(r, q.worktrees[r.worktreeId])) else None
    case MutateOp(x, c, now) => if x == id && Mutate(q, x, c, now).Ok? then Some(Did(c)) else None
    case FinishRebaseOp(x, target, head, reason, now) =>
      if x == id && FinishRebase(q, x, target, head, reason, now).Ok?
      then Some(Did(RequeueAfterRebase(target, head, reason))) else None
    case ConflictTaskOp(x, target, source, paths, now) =>
      if x == id && TaskFor(q.tasks, x).None? && CreateConflictTask(q, x, target, source, paths, now).Ok?
      then Some(OpenedTask(paths)) else None
    case TryClaimOp(x, now) =>
      if x != id || TryClaim(q, x, now).Err? || TryClaim(q, x, now).value.1.Skipped? then None
      else if TryClaim(q, x, now).value.1.Won? then Some(Did(Claim))
      else Some(LostFence(LossOf(q, x, now)))
    case OtherServices(_, _) => None
  }

  function Story(ops: seq<Op>, id: Id): seq<Chapter> {
    if ops == [] then []
    else
      var before, chapter := ops[..|ops| - 1], ChapterOf(Run(ops[..|ops| - 1]), ops[|ops| - 1], id);
      Story(before, id) + if chapter.Some? then [chapter.value] else []
  }

  // ----- Reading it ------------------------------------------------------------------------------------------------

  /** Every chapter ends in one status. */
  function StatusAfter(chapter: Chapter): EntryStatus {
    match chapter
    case Joined(_, _) => Queued
    case OpenedTask(_) => Conflict
    case LostFence(_) => EntryStatus.Failed
    case Did(c) =>
      match c
      case RecordReview(_, _) => Queued
      case RecordTests(_, _) => Queued
      case Cancel(_) => Cancelled
      case Claim => Claimed
      case Begin => Merging
      case MarkConflict(_) => Conflict
      case MarkMerged(_) => Merged
      case MarkFailed(_) => EntryStatus.Failed
      case RequeueAfterRebase(_, _, _) => Queued
      case RequeueAfterTargetMove(_) => Queued
  }

  predicate Requeued(chapter: Chapter) {
    chapter.Did? && (chapter.change.RequeueAfterRebase? || chapter.change.RequeueAfterTargetMove?)
  }

  /** The last verdict since the entry was last put into the queue. */
  function ReviewTold(story: seq<Chapter>): Gate {
    if story == [] then Pending
    else
      var front, last := story[..|story| - 1], story[|story| - 1];
      if last.Joined? || Requeued(last) then Pending
      else if last.Did? && last.change.RecordReview? then if last.change.approved then Passed else Refused
      else ReviewTold(front)
  }

  function TestsTold(story: seq<Chapter>): Gate {
    if story == [] then Pending
    else
      var front, last := story[..|story| - 1], story[|story| - 1];
      if last.Joined? || Requeued(last) then Pending
      else if last.Did? && last.change.RecordTests? then if last.change.passed then Passed else Refused
      else TestsTold(front)
  }

  /** Base and head of the last rebase, or of the worktree that was enqueued. */
  function SnapshotTold(story: seq<Chapter>): (Commit, Option<Commit>) {
    if story == [] then (0, None)
    else
      var front, last := story[..|story| - 1], story[|story| - 1];
      if last.Joined? then (last.worktree.base, last.worktree.head)
      else if last.Did? && last.change.RequeueAfterRebase? then (last.change.target, Some(last.change.head))
      else SnapshotTold(front)
  }

  /** The commit it was merged as, the paths it is in conflict over. */
  function EndTold(story: seq<Chapter>): (Option<Commit>, set<string>) {
    if story == [] then (None, {})
    else
      var last := story[|story| - 1];
      if last.Did? && last.change.MarkMerged? then (Some(last.change.commit), {})
      else if last.Did? && last.change.MarkConflict? then (None, NonBlank(last.change.paths))
      else if last.OpenedTask? then (None, NonBlank(last.paths))
      else (None, {})
  }

  /** The last failure or requeueing since it was enqueued says why. */
  function ErrorTold(story: seq<Chapter>): Option<string> {
    if story == [] then None
    else
      var front, last := story[..|story| - 1], story[|story| - 1];
      match last
      case Did(MarkFailed(error)) => Some(error)
      case Did(RequeueAfterRebase(_, _, reason)) => Some(reason)
      case Did(RequeueAfterTargetMove(_)) => Some(MOVED)
      case LostFence(error) => Some(ErrorText(error))
      case _ => ErrorTold(front)
  }

  function CancellationTold(story: seq<Chapter>): Option<string> {
    if story == [] then None
    else
      match story[|story| - 1]
      case Did(Cancel(reason)) => Some(reason)
      case _ => None
  }

  /** What the entry was enqueued with never changes. */
  predicate OriginTold(first: Chapter, e: Entry) {
    && first.Joined?
    && e.worktreeId == first.request.worktreeId && e.targetBranch == first.request.targetBranch
    && e.priority == first.request.priority
    && e.sourceBranch == first.worktree.branch && e.session == first.worktree.session
    && e.agent == first.worktree.agent && e.workspaceId == first.worktree.workspaceId
    && e.fence == first.worktree.fence
  }

  predicate RowTold(story: seq<Chapter>, e: Entry) {
    && story != [] && OriginTold(story[0], e)
    && e.status == StatusAfter(story[|story| - 1])
    && e.review == ReviewTold(story) && e.tests == TestsTold(story)
    && (e.base, Some(e.head)) == SnapshotTold(story)
    && (e.mergeCommit, e.conflict) == EndTold(story)
    && e.lastError == ErrorTold(story) && e.cancellation == CancellationTold(story)
  }

  /** The event that a chapter is reported by. */
  function KindOf(chapter: Chapter): EventKind {
    match chapter
    case Joined(_, _) => Enqueued
    case Did(c) => Changed(c)
    case OpenedTask(_) => ConflictTaskCreated
    case LostFence(_) => FenceRejected
  }

  function KindsOf(story: seq<Chapter>): seq<EventKind> {
    seq(|story|, i requires 0 <= i < |story| => KindOf(story[i]))
  }

  function Reported(outbox: seq<MergeEvent>, id: Id): seq<EventKind> {
    if outbox == [] then []
    else
      var front, ev := outbox[..|outbox| - 1], outbox[|outbox| - 1];
      Reported(front, id) + if ev.queueId == id then [ev.kind] else []
  }

  // ----- One transaction -------------------------------------------------------------------------------------------

  /** The story of an entry that is not there has not begun; that of one that is there is true of its row, and was
      reported chapter by chapter. */
  ghost predicate Told(q: Queue, story: seq<Chapter>, id: Id) {
    && Reported(q.outbox, id) == KindsOf(story)
    && match IndexOf(q.entries, id)
       case None => story == []
       case Some(i) => RowTold(story, q.entries[i])
  }

  lemma StorySnoc(story: seq<Chapter>, last: Chapter)
    ensures KindsOf(story + [last]) == KindsOf(story) + [KindOf(last)]
    ensures (story + [last])[..|story|] == story && (story + [last])[|story|] == last
  {
  }

  lemma ReportedSnoc(outbox: seq<MergeEvent>, ev: MergeEvent, id: Id)
    ensures Reported(outbox + [ev], id) == Reported(outbox, id) + if ev.queueId == id then [ev.kind] else []
  {
    assert (outbox + [ev])[..|outbox|] == outbox;
  }

  /** A change that an entry accepts is the next chapter. */
  lemma ChangeTold(story: seq<Chapter>, e: Entry, c: Change, now: int)
    requires RowTold(story, e) && Transition(e, c, now).Ok?
    ensures RowTold(story + [Did(c)], Transition(e, c, now).value)
  {
    StorySnoc(story, Did(c));
    UnendedSoFar(story, e);
  }

  /** An entry that can still change has not been merged or cancelled, nor run into a conflict. */
  lemma UnendedSoFar(story: seq<Chapter>, e: Entry)
    requires RowTold(story, e)
    ensures e.status !in {Merged, Conflict} ==> e.mergeCommit == None && e.conflict == {}
    ensures e.status != Cancelled ==> e.cancellation == None
  {
  }

  lemma TaskTold(story: seq<Chapter>, e: Entry, paths: set<string>, now: int)
    requires RowTold(story, e) && Transition(e, MarkConflict(paths), now).Ok?
    ensures RowTold(story + [OpenedTask(paths)], Transition(e, MarkConflict(paths), now).value)
  {
    StorySnoc(story, OpenedTask(paths));
    UnendedSoFar(story, e);
  }

  lemma LossTold(story: seq<Chapter>, e: Entry, error: MergeError, now: int)
    requires RowTold(story, e) && e.Claimable()
    ensures RowTold(story + [LostFence(error)], FenceFailed(e, error, now))
  {
    StorySnoc(story, LostFence(error));
    UnendedSoFar(story, e);
  }

  /** A row is replaced and an event about it appended. */
  lemma SaveTold(q: Queue, q': Queue, i: nat, e: Entry, kind: EventKind, story: seq<Chapter>, chapter: Chapter, id: Id)
    requires RowsInv(q) && i < |q.entries| && e.id == q.entries[i].id && Told(q, story, id)
    requires q'.entries == q.entries[i := e] && q'.outbox == q.outbox + [EventFor(kind, e)]
    requires IndexOf(q.entries, e.id) == Some(i)
    requires e.id == id ==> RowTold(story + [chapter], e) && kind == KindOf(chapter)
    ensures Told(q', if e.id == id then story + [chapter] else story, id)
  {
    MergeClaim.SameIds(q.entries, i, e);
    ReportedSnoc(q.outbox, EventFor(kind, e), id);
    StorySnoc(story, chapter);
  }

  function Continued(story: seq<Chapter>, chapter: Option<Chapter>): seq<Chapter> {
    if chapter.Some? then story + [chapter.value] else story
  }

  lemma MutateTold(q: Queue, x: Id, c: Change, now: int, q': Queue, story: seq<Chapter>, id: Id)
    requires QueueInv(q) && Told(q, story, id) && Mutate(q, x, c, now).Ok?
    requires q'.entries == Mutate(q, x, c, now).value.0.entries && q'.outbox == Mutate(q, x, c, now).value.0.outbox
    ensures Told(q', if x == id then story + [Did(c)] else story, id)
  {
    var i := IndexOf(q.entries, x).value;
    var e := Transition(q.entries[i], c, now).value;
    if x == id { ChangeTold(story, q.entries[i], c, now); }
    SaveTold(q, q', i, e, Changed(c), story, Did(c), id);
  }

  lemma ConflictTold(q: Queue, op: Op, story: seq<Chapter>, id: Id)
    requires QueueInv(q) && Told(q, story, id) && op.ConflictTaskOp? && TaskFor(q.tasks, op.id).None?
    requires CreateConflictTask(q, op.id, op.target, op.source, op.paths, op.now).Ok?
    ensures Told(QueueStep(q, op), if op.id == id then story + [OpenedTask(op.paths)] else story, id)
  {
    var i := IndexOf(q.entries, op.id).value;
    var e := Transition(q.entries[i], MarkConflict(op.paths), op.now).value;
    if op.id == id { TaskTold(story, q.entries[i], op.paths, op.now); }
    SaveTold(q, QueueStep(q, op), i, e, ConflictTaskCreated, story, OpenedTask(op.paths), id);
  }

  lemma LostTold(q: Queue, op: Op, i: nat, story: seq<Chapter>, id: Id)
    requires QueueInv(q) && Told(q, story, id) && op.TryClaimOp? && TryClaim(q, op.id, op.now).Ok?
    requires IndexOf(q.entries, op.id) == Some(i) && q.entries[i].Claimable()
    requires FenceError(q, q.entries[i], op.now).Some?
    ensures Told(QueueStep(q, op), if op.id == id then story + [LostFence(LossOf(q, op.id, op.now))] else story, id)
  {
    var e, error := q.entries[i], FenceError(q, q.entries[i], op.now).value;
    if op.id == id { LossTold(story, e, error, op.now); }
    SaveTold(q, QueueStep(q, op), i, FenceFailed(e, error, op.now), FenceRejected, story, LostFence(error), id);
  }

  lemma WonTold(q: Queue, op: Op, i: nat, story: seq<Chapter>, id: Id)
    requires QueueInv(q) && Told(q, story, id) && op.TryClaimOp? && TryClaim(q, op.id, op.now).Ok?
    requires IndexOf(q.entries, op.id) == Some(i) && q.entries[i].Claimable()
    requires FenceError(q, q.entries[i], op.now).None?
    ensures Told(QueueStep(q, op), if op.id == id then story + [Did(Claim)] else story, id)
  {
    var e := q.entries[i];
    if op.id == id { ChangeTold(story, e, Claim, op.now); }
    SaveTold(q, QueueStep(q, op), i, e.(status := Claimed, updatedAt := op.now), Changed(Claim), story,
             Did(Claim), id);
  }

  /** What a tried candidate comes to. */
  lemma TriedChapter(q: Queue, op: Op, i: nat, id: Id)
    requires op.TryClaimOp? && TryClaim(q, op.id, op.now).Ok? && IndexOf(q.entries, op.id) == Some(i)
    ensures ChapterOf(q, op, id) ==
            if op.id != id || !q.entries[i].Claimable() then None
            else if FenceError(q, q.entries[i], op.now).Some? then Some(LostFence(LossOf(q, op.id, op.now)))
            else Some(Did(Claim))
    ensures !q.entries[i].Claimable() ==> QueueStep(q, op) == q
  {
  }

  lemma TryTold(q: Queue, op: Op, story: seq<Chapter>, id: Id)
    requires QueueInv(q) && Told(q, story, id) && op.TryClaimOp? && TryClaim(q, op.id, op.now).Ok?
    ensures Told(QueueStep(q, op), Continued(story, ChapterOf(q, op, id)), id)
  {
    var i := IndexOf(q.entries, op.id).value;
    TriedChapter(q, op, i, id);
    if q.entries[i].Claimable() {
      if FenceError(q, q.entries[i], op.now).Some? {
        LostTold(q, op, i, story, id);
      } else {
        WonTold(q, op, i, story, id);
      }
    }
  }

  /** A row is added and an event about it appended. */
  lemma AddTold(q: Queue, q': Queue, e: Entry, story: seq<Chapter>, chapter: Chapter, id: Id)
    requires Told(q, story, id) && IndexOf(q.entries, e.id).None?
    requires q'.entries == q.entries + [e] && q'.outbox == q.outbox + [EventFor(Enqueued, e)]
    requires RowTold([chapter], e) && KindOf(chapter) == Enqueued
    ensures Told(q', if e.id == id then story + [chapter] else story, id)
  {
    ReportedSnoc(q.outbox, EventFor(Enqueued, e), id);
    StorySnoc(story, chapter);
    assert q'.entries[..|q.entries|] == q.entries;
    if e.id == id {
      assert story + [chapter] == [chapter];
    }
  }

  lemma JoinTold(q: Queue, r: Request, now: int, freshId: Id)
    requires ByWorktree(q.entries, r.worktreeId).None? && Enqueue(q, r, now, freshId).Ok?
    ensures r.worktreeId in q.worktrees && IndexOf(q.entries, freshId).None?
    ensures var (q', e) := Enqueue(q, r, now, freshId).value;
            && e.id == freshId && RowTold([Joined(r, q.worktrees[r.worktreeId])], e)
            && q'.entries == q.entries + [e] && q'.outbox == q.outbox + [EventFor(Enqueued, e)]
  {
  }

  lemma EnqueueTold(q: Queue, op: Op, story: seq<Chapter>, id: Id)
    requires Told(q, story, id) && op.EnqueueOp?
    requires ByWorktree(q.entries, op.request.worktreeId).None? && Enqueue(q, op.request, op.now, op.freshId).Ok?
    ensures Told(QueueStep(q, op), Continued(story, ChapterOf(q, op, id)), id)
  {
    var (q', e) := Enqueue(q, op.request, op.now, op.freshId).value;
    JoinTold(q, op.request, op.now, op.freshId);
    AddTold(q, q', e, story, Joined(op.request, q.worktrees[op.request.worktreeId]), id);
  }

  lemma StepTold(q: Queue, op: Op, story: seq<Chapter>, id: Id)
    requires QueueInv(q) && Told(q, story, id)
    ensures Told(QueueStep(q, op), Continued(story, ChapterOf(q, op, id)), id)
  {
    match op
    case EnqueueOp(r, now, freshId) =>
      if Enqueue(q, r, now, freshId).Ok? && ByWorktree(q.entries, r.worktreeId).None? { EnqueueTold(q, op, story, id); }
    case MutateOp(x, c, now) => if Mutate(q, x, c, now).Ok? { MutateTold(q, x, c, now, QueueStep(q, op), story, id); }
    case FinishRebaseOp(x, target, head, reason, now) =>
      if FinishRebase(q, x, target, head, reason, now).Ok? {
        MutateTold(q, x, RequeueAfterRebase(target, head, reason), now, QueueStep(q, op), story, id);
      }
    case ConflictTaskOp(x, target, source, paths, now) =>
      if CreateConflictTask(q, x, target, source, paths, now).Ok? && TaskFor(q.tasks, x).None? {
        ConflictTold(q, op, story, id);
      }
    case TryClaimOp(x, now) => if TryClaim(q, x, now).Ok? { TryTold(q, op, story, id); }
    case OtherServices(_, _) =>
  }

  /** Over every run an entry is as its accepted transactions tell: its status by the last of them, its gates by the
      last verdicts since it was queued, base and head by the worktree it came with or its last rebase; what it was
      enqueued with never changes; and the outbox has reported exactly these transactions, in order. */
  lemma {:induction false} HistoryTells(ops: seq<Op>, id: Id)
    ensures Told(Run(ops), Story(ops, id), id)
  {
    if ops == [] {
    } else {
      var before, op := ops[..|ops| - 1], ops[|ops| - 1];
      HistoryTells(before, id);
      QueueInvAlways(before);
      StepTold(Run(before), op, Story(before, id), id);
      assert Story(ops, id) == Continued(Story(before, id), ChapterOf(Run(before), op, id));
    }
  }

  // ----- When an entry was touched ---------------------------------------------------------------------------------

  function RowOf(q: Queue, id: Id): Option<Entry> {
    match IndexOf(q.entries, id)
    case None => None
    case Some(i) => Some(q.entries[i])
  }

  /** When the last chapter about an entry was written. */
  function LastTouched(ops: seq<Op>, id: Id): Option<int> {
    if ops == [] then None
    else
      var before, op := ops[..|ops| - 1], ops[|ops| - 1];
      if !op.OtherServices? && ChapterOf(Run(before), op, id).Some? then Some(op.now) else LastTouched(before, id)
  }

  /** The row of `id` is touched now if the step is about it, and stays as it is otherwise. */
  ghost predicate TouchedBy(q: Queue, q': Queue, op: Op, id: Id) {
    if !op.OtherServices? && ChapterOf(q, op, id).Some?
    then RowOf(q', id).Some? && RowOf(q', id).value.updatedAt == op.now
    else RowOf(q', id) == RowOf(q, id)
  }

  lemma ReplacedTouch(q: Queue, q': Queue, i: nat, e: Entry, id: Id)
    requires i < |q.entries| && e.id == q.entries[i].id && IndexOf(q.entries, e.id) == Some(i)
    requires q'.entries == q.entries[i := e]
    ensures RowOf(q', id) == if id == e.id then Some(e) else RowOf(q, id)
  {
    MergeClaim.SameIds(q.entries, i, e);
  }

  lemma MutateTouches(q: Queue, x: Id, c: Change, now: int, q': Queue, id: Id)
    requires Mutate(q, x, c, now).Ok? && q'.entries == Mutate(q, x, c, now).value.0.entries
    ensures x != id ==> RowOf(q', id) == RowOf(q, id)
    ensures x == id ==> RowOf(q', id).Some? && RowOf(q', id).value.updatedAt == now
  {
    var i := IndexOf(q.entries, x).value;
    ReplacedTouch(q, q', i, Transition(q.entries[i], c, now).value, id);
  }

  lemma TryTouches(q: Queue, op: Op, id: Id)
    requires op.TryClaimOp? && TryClaim(q, op.id, op.now).Ok?
    ensures TouchedBy(q, QueueStep(q, op), op, id)
  {
    var i := IndexOf(q.entries, op.id).value;
    TriedChapter(q, op, i, id);
    if q.entries[i].Claimable() {
      ReplacedTouch(q, QueueStep(q, op), i, QueueStep(q, op).entries[i], id);
    }
  }

  lemma ConflictTouches(q: Queue, op: Op, id: Id)
    requires op.ConflictTaskOp? && CreateConflictTask(q, op.id, op.target, op.source, op.paths, op.now).Ok?
    ensures TouchedBy(q, QueueStep(q, op), op, id)
  {
    if TaskFor(q.tasks, op.id).None? {
      var i := IndexOf(q.entries, op.id).value;
      ReplacedTouch(q, QueueStep(q, op), i, Transition(q.entries[i], MarkConflict(op.paths), op.now).value, id);
    }
  }

  lemma EnqueueTouches(q: Queue, op: Op, id: Id)
    requires op.EnqueueOp? && Enqueue(q, op.request, op.now, op.freshId).Ok?
    ensures TouchedBy(q, QueueStep(q, op), op, id)
  {
    if ByWorktree(q.entries, op.request.worktreeId).None? {
      var q' := QueueStep(q, op);
      assert q'.entries[..|q.entries|] == q.entries;
    }
  }

  lemma StepTouches(q: Queue, op: Op, id: Id)
    ensures TouchedBy(q, QueueStep(q, op), op, id)
  {
    match op
    case EnqueueOp(r, now, freshId) => if Enqueue(q, r, now, freshId).Ok? { EnqueueTouches(q, op, id); }
    case MutateOp(x, c, now) => if Mutate(q, x, c, now).Ok? { MutateTouches(q, x, c, now, QueueStep(q, op), id); }
    case FinishRebaseOp(x, target, head, reason, now) =>
      if FinishRebase(q, x, target, head, reason, now).Ok? {
        MutateTouches(q, x, RequeueAfterRebase(target, head, reason), now, QueueStep(q, op), id);
      }
    case ConflictTaskOp(x, target, source, paths, now) =>
      if CreateConflictTask(q, x, target, source, paths, now).Ok? { ConflictTouches(q, op, id); }
    case TryClaimOp(x, now) => if TryClaim(q, x, now).Ok? { TryTouches(q, op, id); }
    case OtherServices(_, _) =>
  }

  /** Over every run an entry's update time is that of the last accepted transaction about it; no other transaction
      changes anything about it. */
  lemma {:induction false} TouchedWhenTold(ops: seq<Op>, id: Id)
    ensures LastTouched(ops, id) == (match RowOf(Run(ops), id) case Some(e) => Some(e.updatedAt) case None => None)
  {
    if ops == [] {
    } else {
      var before, op := ops[..|ops| - 1], ops[|ops| - 1];
      TouchedWhenTold(before, id);
      StepTouches(Run(before), op, id);
    }
  }

  // ----- Which transactions are accepted ---------------------------------------------------------------------------

  /** What a change asks of its entry. */
  predicate Possible(e: Entry, c: Change) {
    match c
    case RecordReview(reviewer, _) => e.status == Queued && !Blank(reviewer)
    case RecordTests(suite, _) => e.status == Queued && !Blank(suite)
    case Cancel(reason) => e.status in {Queued, Claimed} && !Blank(reason)
    case Claim => e.status == Queued && e.review == Passed && e.tests == Passed
    case Begin => e.status == Claimed
    case MarkConflict(paths) => e.status == Merging && exists p <- paths :: !Blank(p)
    case MarkMerged(_) => e.status == Merging
    case MarkFailed(error) => e.status in {Claimed, Merging} && !Blank(error)
    case RequeueAfterRebase(_, _, _) => e.status == Merging
    case RequeueAfterTargetMove(_) => e.status == Merging
  }

  lemma TransitionOkIff(e: Entry, c: Change, now: int)
    ensures Transition(e, c, now).Ok? <==> Possible(e, c)
  {
    if c.MarkConflict? {
      assert NonBlank(c.paths) == {} <==> !exists p <- c.paths :: !Blank(p) by {
        if p :| p in c.paths && !Blank(p) {
          assert p in NonBlank(c.paths);
        }
      }
    }
  }

  /** A change is accepted exactly if its entry is where the change can take it, and, for a claim, no entry is
      active. */
  lemma ChangeAcceptedIff(ops: seq<Op>, id: Id, c: Change, now: int)
    ensures var q := Run(ops);
            Mutate(q, id, c, now).Ok? <==>
            && IndexOf(q.entries, id).Some? && Possible(q.entries[IndexOf(q.entries, id).value], c)
            && (c.Claim? ==> !HasActive(q.entries))
  {
    var q := Run(ops);
    QueueInvAlways(ops);
    if IndexOf(q.entries, id).Some? {
      var i := IndexOf(q.entries, id).value;
      MergeClaim.MutateOkIff(q, i, c, now);
      TransitionOkIff(q.entries[i], c, now);
    }
  }

  /** A rebase is recorded exactly if the entry is merging and its worktree is there and ready. */
  lemma RebaseAcceptedIff(ops: seq<Op>, id: Id, target: Commit, head: Commit, reason: string, now: int)
    ensures var q := Run(ops);
            FinishRebase(q, id, target, head, reason, now).Ok? <==>
            && IndexOf(q.entries, id).Some?
            && var e := q.entries[IndexOf(q.entries, id).value];
               e.status == Merging && e.worktreeId in q.worktrees && q.worktrees[e.worktreeId].status == Ready
  {
    ChangeAcceptedIff(ops, id, RequeueAfterRebase(target, head, reason), now);
  }

  /** A conflict task is answered exactly if the entry has one, or it is merging and some path is named. */
  lemma TaskAcceptedIff(ops: seq<Op>, id: Id, target: Commit, source: Commit, paths: set<string>, now: int)
    ensures var q := Run(ops);
            CreateConflictTask(q, id, target, source, paths, now).Ok? <==>
            && IndexOf(q.entries, id).Some?
            && (|| TaskFor(q.tasks, id).Some?
                || (q.entries[IndexOf(q.entries, id).value].status == Merging && exists p <- paths :: !Blank(p)))
  {
    var q := Run(ops);
    ChangeAcceptedIff(ops, id, MarkConflict(paths), now);
    if IndexOf(q.entries, id).Some? {
      TransitionOkIff(q.entries[IndexOf(q.entries, id).value], MarkConflict(paths), now);
    }
  }

  /** A worktree is enqueued for the first time exactly if the request is well formed, the worktree is there, ready,
      at some commit, under a live lease and not on the target branch, and the identifier is new. */
  lemma EnqueueAcceptedIff(q: Queue, r: Request, now: int, freshId: Id)
    requires ByWorktree(q.entries, r.worktreeId).None?
    ensures Enqueue(q, r, now, freshId).Ok? <==>
            && SafeBranch(r.targetBranch) && -MAX_PRIORITY <= r.priority <= MAX_PRIORITY
            && r.worktreeId in q.worktrees && IndexOf(q.entries, freshId).None?
            && var w := q.worktrees[r.worktreeId];
               && w.status == Ready && w.head.Some? && w.branch != r.targetBranch
               && LeaseMatches(q.leases, w.fence, w.session, w.agent, w.workspaceId, now)
  {
  }

  lemma OnlyRowOfWorktree(q: Queue, e: Entry)
    requires RowsInv(q) && e in q.entries
    ensures ByWorktree(q.entries, e.worktreeId) == Some(e)
  {
    var found := ByWorktree(q.entries, e.worktreeId).value;
    var i :| 0 <= i < |q.entries| && q.entries[i] == e;
    var j :| 0 <= j < |q.entries| && q.entries[j] == found;
    Unordered(q, i, j);
  }

  lemma Unordered(q: Queue, i: nat, j: nat)
    requires RowsInv(q) && i < |q.entries| && j < |q.entries|
    ensures i != j ==> q.entries[i].worktreeId != q.entries[j].worktreeId
  {
    if i < j {
      assert InOrder(q.entries[i], q.entries[j]);
    } else if j < i {
      assert InOrder(q.entries[j], q.entries[i]);
    }
  }

  /** Enqueueing the same again, at any later time and under any identifier, gives the entry as it is by then, and
      changes nothing; with another target or priority it is refused. */
  lemma EnqueueAgain(ops: seq<Op>, e: Entry, r: Request, now: int, freshId: Id)
    requires e in Run(ops).entries && r.worktreeId == e.worktreeId && r.Valid()
    ensures Enqueue(Run(ops), r, now, freshId) ==
            if r.targetBranch == e.targetBranch && r.priority == e.priority then Ok((Run(ops), e))
            else Err(InvalidRequest)
  {
    QueueInvAlways(ops);
    OnlyRowOfWorktree(Run(ops), e);
  }

  // ----- Conflict tasks --------------------------------------------------------------------------------------------

  /** A task that is opened says what was asked for. */
  lemma TaskSays(q: Queue, id: Id, target: Commit, source: Commit, paths: set<string>, now: int)
    requires TaskFor(q.tasks, id).None? && CreateConflictTask(q, id, target, source, paths, now).Ok?
    ensures var (q', e, task) := CreateConflictTask(q, id, target, source, paths, now).value;
            && task == ConflictTask(id, target, source, NonBlank(paths)) && e.conflict == NonBlank(paths)
            && q'.tasks == q.tasks + [task]
  {
  }

  lemma EntryAfterTask(q: Queue, id: Id, target: Commit, source: Commit, paths: set<string>, now: int)
    requires TaskFor(q.tasks, id).None? && CreateConflictTask(q, id, target, source, paths, now).Ok?
    ensures var (q', e, task) := CreateConflictTask(q, id, target, source, paths, now).value;
            && TaskFor(q'.tasks, id) == Some(task)
            && IndexOf(q'.entries, id).Some? && q'.entries[IndexOf(q'.entries, id).value] == e
  {
    var (q', e, task) := CreateConflictTask(q, id, target, source, paths, now).value;
    var i := IndexOf(q.entries, id).value;
    MergeClaim.SameIds(q.entries, i, e);
    TaskSays(q, id, target, source, paths, now);
    assert q'.entries == q.entries[i := e];
    assert (q.tasks + [task])[..|q.tasks|] == q.tasks;
  }

  /** Asking again, for whatever commits and paths, gives the same task and changes nothing. */
  lemma TaskAgain(q: Queue, id: Id, target: Commit, source: Commit, paths: set<string>, now: int)
    requires TaskFor(q.tasks, id).Some? && IndexOf(q.entries, id).Some?
    ensures CreateConflictTask(q, id, target, source, paths, now) ==
            Ok((q, q.entries[IndexOf(q.entries, id).value], TaskFor(q.tasks, id).value))
  {
  }

  /** So an opened task is what every later request for one is answered with, until the queue changes again. */
  lemma OneTaskPerEntry(q: Queue, id: Id, target: Commit, source: Commit, paths: set<string>, now: int,
                        target': Commit, source': Commit, paths': set<string>, later: int)
    requires TaskFor(q.tasks, id).None? && CreateConflictTask(q, id, target, source, paths, now).Ok?
    ensures var (q', e, task) := CreateConflictTask(q, id, target, source, paths, now).value;
            CreateConflictTask(q', id, target', source', paths', later) == Ok((q', e, task))
  {
    EntryAfterTask(q, id, target, source, paths, now);
    TaskAgain(CreateConflictTask(q, id, target, source, paths, now).value.0, id, target', source', paths', later);
  }

  // ----- Stale entries ---------------------------------------------------------------------------------------------

  /** `a` was touched earlier, or at the same time and enqueued earlier. */
  predicate Older(a: Entry, b: Entry) {
    a.updatedAt < b.updatedAt || (a.updatedAt == b.updatedAt && a.sequence < b.sequence)
  }

  ghost predicate Oldest(stale: seq<Entry>) {
    forall i, j :: 0 <= i < j < |stale| ==> Older(stale[i], stale[j])
  }

  lemma {:induction false} StaleInSorted(e: Entry, stale: seq<Entry>)
    requires Oldest(stale) && forall x <- stale :: x.sequence != e.sequence
    ensures Oldest(StaleIn(e, stale))
    ensures forall x :: x in StaleIn(e, stale) <==> x == e || x in stale
  {
    if stale == [] || TouchedBefore(e, stale[0]) {
    } else {
      StaleInSorted(e, stale[1..]);
      assert stale == [stale[0]] + stale[1..];
      var rest := StaleIn(e, stale[1..]);
      forall j | 0 <= j < |rest| ensures Older(stale[0], rest[j]) {
        assert rest[j] in rest;
      }
    }
  }

  lemma {:induction false} StaleSorted(entries: seq<Entry>, before: int)
    requires forall i, j :: 0 <= i < j < |entries| ==> InOrder(entries[i], entries[j])
    ensures Oldest(Stale(entries, before))
    ensures forall x :: x in Stale(entries, before) <==> x in entries && x.status == Merging && x.updatedAt < before
  {
    if entries == [] {
    } else {
      var front, last := entries[..|entries| - 1], entries[|entries| - 1];
      StaleSorted(front, before);
      assert entries == front + [last];
      forall x | x in Stale(front, before) ensures x.sequence != last.sequence {
        assert x in front;
      }
      StaleInSorted(last, Stale(front, before));
    }
  }

  lemma InPrefix<T>(s: seq<T>, n: nat, i: nat)
    requires i < |s| && n <= |s|
    ensures i < n ==> s[i] in s[..n]
  {
    if i < n {
      assert s[..n][i] == s[i];
    }
  }

  /** The stale entries are the merging ones that nobody has touched since, the longest untouched first, and as many
      of them as the limit allows; a limit out of range is refused. */
  lemma StaleMergingIs(ops: seq<Op>, before: int, limit: nat)
    ensures StaleMerging(Run(ops), before, limit).Ok? <==> 1 <= limit <= MAX_STALE
    ensures var r := StaleMerging(Run(ops), before, limit);
            r.Ok? ==>
              && Oldest(r.value) && |r.value| <= limit
              && (forall x <- r.value :: x in Run(ops).entries && x.status == Merging && x.updatedAt < before)
              && forall x <- Run(ops).entries :: x.status == Merging && x.updatedAt < before && x !in r.value ==>
                   |r.value| == limit && forall y <- r.value :: Older(y, x)
  {
    QueueInvAlways(ops);
    var stale := Stale(Run(ops).entries, before);
    StaleSorted(Run(ops).entries, before);
    if 1 <= limit <= MAX_STALE && |stale| > limit {
      forall x | x in stale && x !in stale[..limit]
        ensures forall y <- stale[..limit] :: Older(y, x)
      {
        var i :| 0 <= i < |stale| && stale[i] == x;
        InPrefix(stale, limit, i);
      }
    }
  }
}
