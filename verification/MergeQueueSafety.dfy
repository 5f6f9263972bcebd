/** What holds of the merge queue over every run: one active entry, gates that were passed for the very
    head being merged, and a claim that picks the best candidate whose fence is live. */
module MergeQueueSafety {
  import opened Prelude
  import LockTable
  import opened MergeQueue

  // ----- Runs -----------------------------------------------------------------------------------------

  function Run(ops: seq<Op>): Queue {
    if ops == [] then Queue([], 0, map[], [], [], [])
    else QueueStep(Run(ops[..|ops| - 1]), ops[|ops| - 1])
  }

  // ----- What the outbox says about gates ----------------------------------------------------------------

  /** A gate as an outbox reader reconstructs it: the last decision since the entry was last put in the
      queue, with the head it was recorded for. */
  datatype Decision = Undecided | Decided(gate: Gate, head: Commit)

  predicate Requeues(kind: EventKind) {
    kind.Enqueued? || (kind.Changed? && (kind.change.RequeueAfterRebase? || kind.change.RequeueAfterTargetMove?))
  }

  function ReviewDecision(outbox: seq<MergeEvent>, id: Id): Decision {
    if outbox == [] then Undecided
    else
      var ev, before := outbox[|outbox| - 1], outbox[..|outbox| - 1];
      if ev.queueId != id then ReviewDecision(before, id)
      else if Requeues(ev.kind) then Undecided
      else if ev.kind.Changed? && ev.kind.change.RecordReview? then Decided(ev.review, ev.head)
      else ReviewDecision(before, id)
  }

  function TestDecision(outbox: seq<MergeEvent>, id: Id): Decision {
    if outbox == [] then Undecided
    else
      var ev, before := outbox[|outbox| - 1], outbox[..|outbox| - 1];
      if ev.queueId != id then TestDecision(before, id)
      else if Requeues(ev.kind) then Undecided
      else if ev.kind.Changed? && ev.kind.change.RecordTests? then Decided(ev.tests, ev.head)
      else TestDecision(before, id)
  }

  function Held(gate: Gate, head: Commit): Decision {
    if gate == Pending then Undecided else Decided(gate, head)
  }

  /** A row's gates are what the outbox says, and were decided for the head the row has now. */
  ghost predicate GatesTracked(outbox: seq<MergeEvent>, e: Entry) {
    && ReviewDecision(outbox, e.id) == Held(e.review, e.head)
    && TestDecision(outbox, e.id) == Held(e.tests, e.head)
  }

  /** Only a passed entry gets past the queue. */
  predicate Gated(e: Entry) {
    e.status in {Claimed, Merging, Merged} ==> e.GatesPassed()
  }

  // ----- The invariant --------------------------------------------------------------------------------

  ghost predicate InOrder(a: Entry, b: Entry) {
    a.id != b.id && a.worktreeId != b.worktreeId && a.sequence < b.sequence
  }

  ghost predicate RowsInv(q: Queue) {
    && (forall i, j :: 0 <= i < j < |q.entries| ==> InOrder(q.entries[i], q.entries[j]))
    && (forall e <- q.entries :: 1 <= e.sequence <= q.sequence)
    && SingleActive(q.entries)
  }

  ghost predicate EntryInv(outbox: seq<MergeEvent>, e: Entry) {
    GatesTracked(outbox, e) && Gated(e)
  }

  /** A conflict task's entry has left the queue for good. */
  ghost predicate TaskInv(entries: seq<Entry>, task: ConflictTask) {
    exists e <- entries :: e.id == task.queueId && e.status == Conflict
  }

  ghost predicate QueueInv(q: Queue) {
    && RowsInv(q)
    && (forall e <- q.entries :: EntryInv(q.outbox, e))
    && (forall t <- q.tasks :: TaskInv(q.entries, t))
  }

  lemma OtherEvent(outbox: seq<MergeEvent>, ev: MergeEvent, e: Entry)
    requires EntryInv(outbox, e) && ev.queueId != e.id
    ensures EntryInv(outbox + [ev], e)
  {
    assert (outbox + [ev])[..|outbox|] == outbox;
  }

  lemma TransitionTracks(outbox: seq<MergeEvent>, e: Entry, c: Change, now: int, kind: EventKind)
    requires EntryInv(outbox, e) && Transition(e, c, now).Ok?
    requires kind == Changed(c) || (kind == ConflictTaskCreated && c.MarkConflict?)
    ensures EntryInv(outbox + [EventFor(kind, Transition(e, c, now).value)], Transition(e, c, now).value)
  {
    var ev := EventFor(kind, Transition(e, c, now).value);
    assert (outbox + [ev])[..|outbox|] == outbox;
  }

  lemma RejectionTracks(outbox: seq<MergeEvent>, e: Entry, error: MergeError, now: int)
    requires EntryInv(outbox, e)
    ensures EntryInv(outbox + [EventFor(FenceRejected, FenceFailed(e, error, now))], FenceFailed(e, error, now))
  {
    assert (outbox + [EventFor(FenceRejected, FenceFailed(e, error, now))])[..|outbox|] == outbox;
  }

  /** Replacing one row by a later version of itself. */
  lemma SaveKeeps(q: Queue, i: nat, e: Entry, kind: EventKind)
    requires QueueInv(q) && i < |q.entries| && Save(q, i, e, kind).Ok?
    requires e.id == q.entries[i].id && e.worktreeId == q.entries[i].worktreeId
    requires e.sequence == q.entries[i].sequence
    requires q.entries[i].status == Conflict ==> e.status == Conflict
    requires EntryInv(q.outbox + [EventFor(kind, e)], e)
    ensures QueueInv(Save(q, i, e, kind).value)
  {
    var q' := Save(q, i, e, kind).value;
    forall j | 0 <= j < |q'.entries| ensures EntryInv(q'.outbox, q'.entries[j]) {
      if j != i {
        assert InOrder(q.entries[if i < j then i else j], q.entries[if i < j then j else i]);
        OtherEvent(q.outbox, EventFor(kind, e), q.entries[j]);
      }
    }
    forall t | t in q'.tasks ensures TaskInv(q'.entries, t) {
      assert TaskInv(q.entries, t);
      var k :| 0 <= k < |q.entries| && q.entries[k].id == t.queueId && q.entries[k].status == Conflict;
      assert q'.entries[k] in q'.entries;
    }
  }

  lemma MutateKeeps(q: Queue, id: Id, c: Change, now: int)
    requires QueueInv(q) && Mutate(q, id, c, now).Ok?
    ensures QueueInv(Mutate(q, id, c, now).value.0)
  {
    var i := IndexOf(q.entries, id).value;
    TransitionTracks(q.outbox, q.entries[i], c, now, Changed(c));
    SaveKeeps(q, i, Transition(q.entries[i], c, now).value, Changed(c));
  }

  lemma ConflictTaskKeeps(q: Queue, id: Id, target: Commit, source: Commit, paths: set<string>, now: int)
    requires QueueInv(q) && CreateConflictTask(q, id, target, source, paths, now).Ok?
    ensures QueueInv(CreateConflictTask(q, id, target, source, paths, now).value.0)
  {
    if TaskFor(q.tasks, id).None? {
      var i := IndexOf(q.entries, id).value;
      var e := Transition(q.entries[i], MarkConflict(paths), now).value;
      TransitionTracks(q.outbox, q.entries[i], MarkConflict(paths), now, ConflictTaskCreated);
      SaveKeeps(q, i, e, ConflictTaskCreated);
      assert q.entries[i := e][i].id == id;
    }
  }

  lemma TryClaimKeeps(q: Queue, id: Id, now: int)
    requires QueueInv(q) && TryClaim(q, id, now).Ok?
    ensures QueueInv(TryClaim(q, id, now).value.0)
  {
    var i := IndexOf(q.entries, id).value;
    var e := q.entries[i];
    if e.Claimable() {
      if FenceError(q, e, now).Some? {
        RejectionTracks(q.outbox, e, FenceError(q, e, now).value, now);
        SaveKeeps(q, i, FenceFailed(e, FenceError(q, e, now).value, now), FenceRejected);
      } else {
        TransitionTracks(q.outbox, e, Claim, now, Changed(Claim));
        SaveKeeps(q, i, e.(status := Claimed, updatedAt := now), Changed(Claim));
      }
    }
  }

  lemma NewcomerTracked(outbox: seq<MergeEvent>, e: Entry)
    requires e.review == Pending && e.tests == Pending && e.status == Queued
    ensures EntryInv(outbox + [EventFor(Enqueued, e)], e)
  {
  }

  lemma NewcomerKeeps(q: Queue, e: Entry)
    requires QueueInv(q) && IndexOf(q.entries, e.id).None? && ByWorktree(q.entries, e.worktreeId).None?
    requires e.sequence == q.sequence + 1 && e.review == Pending && e.tests == Pending && e.status == Queued
    ensures QueueInv(q.(entries := q.entries + [e], sequence := e.sequence,
                        outbox := q.outbox + [EventFor(Enqueued, e)]))
  {
    var entries, outbox := q.entries + [e], q.outbox + [EventFor(Enqueued, e)];
    NewcomerTracked(q.outbox, e);
    forall x | x in entries ensures EntryInv(outbox, x) {
      if x in q.entries { OtherEvent(q.outbox, EventFor(Enqueued, e), x); }
    }
    forall t | t in q.tasks ensures TaskInv(entries, t) {
      assert TaskInv(q.entries, t);
    }
  }

  lemma EnqueueKeeps(q: Queue, r: Request, now: int, freshId: Id)
    requires QueueInv(q) && Enqueue(q, r, now, freshId).Ok?
    ensures QueueInv(Enqueue(q, r, now, freshId).value.0)
  {
    if ByWorktree(q.entries, r.worktreeId).None? {
      NewcomerKeeps(q, Enqueue(q, r, now, freshId).value.1);
    }
  }

  lemma StepKeeps(q: Queue, op: Op)
    requires QueueInv(q)
    ensures QueueInv(QueueStep(q, op))
  {
    match op
    case EnqueueOp(r, now, freshId) => if Enqueue(q, r, now, freshId).Ok? { EnqueueKeeps(q, r, now, freshId); }
    case MutateOp(id, c, now) => if Mutate(q, id, c, now).Ok? { MutateKeeps(q, id, c, now); }
    case FinishRebaseOp(id, target, head, reason, now) =>
      if Mutate(q, id, RequeueAfterRebase(target, head, reason), now).Ok? {
        MutateKeeps(q, id, RequeueAfterRebase(target, head, reason), now);
      }
    case ConflictTaskOp(id, target, source, paths, now) =>
      if CreateConflictTask(q, id, target, source, paths, now).Ok? {
        ConflictTaskKeeps(q, id, target, source, paths, now);
      }
    case TryClaimOp(id, now) => if TryClaim(q, id, now).Ok? { TryClaimKeeps(q, id, now); }
    case OtherServices(_, _) =>
  }

  lemma {:induction false} QueueInvAlways(ops: seq<Op>)
    ensures QueueInv(Run(ops))
  {
    if ops == [] {
    } else {
      QueueInvAlways(ops[..|ops| - 1]);
      StepKeeps(Run(ops[..|ops| - 1]), ops[|ops| - 1]);
    }
  }

  // ----- Main results ------------------------------------------------------------------------------------

  /** In every run, an entry that is claimed, merging or merged had both gates passed, by the latest
      decisions since it was queued, recorded while its present head was in place. */
  lemma OnlyTheGatedHead(ops: seq<Op>, e: Entry)
    requires e in Run(ops).entries && e.status in {Claimed, Merging, Merged}
    ensures ReviewDecision(Run(ops).outbox, e.id) == Decided(Passed, e.head)
    ensures TestDecision(Run(ops).outbox, e.id) == Decided(Passed, e.head)
  {
    QueueInvAlways(ops);
    assert EntryInv(Run(ops).outbox, e);
  }

  /** In every run at most one entry is active, and it is the only one a reconciliation can find. */
  lemma AtMostOneActive(ops: seq<Op>, before: int)
    ensures forall a, b :: a in Run(ops).entries && b in Run(ops).entries && a.status.Active() && b.status.Active()
                           ==> a == b
    ensures |Stale(Run(ops).entries, before)| <= 1
  {
    QueueInvAlways(ops);
    var rows := Run(ops).entries;
    AtMostOneStale(rows, before);
    forall a, b | a in rows && b in rows && a.status.Active() && b.status.Active() ensures a == b {
      SameActive(rows, a, b);
    }
  }

  lemma SameActive(entries: seq<Entry>, a: Entry, b: Entry)
    requires SingleActive(entries) && a in entries && b in entries && a.status.Active() && b.status.Active()
    ensures a == b
  {
    var i :| 0 <= i < |entries| && entries[i] == a;
    var j :| 0 <= j < |entries| && entries[j] == b;
    assert i == j;
  }

  lemma {:induction false} AtMostOneStale(entries: seq<Entry>, before: int)
    requires SingleActive(entries)
    ensures |Stale(entries, before)| <= 1
    ensures Stale(entries, before) != [] ==> HasActive(entries)
  {
    if entries == [] {
    } else {
      AtMostOneStale(entries[..|entries| - 1], before);
    }
  }

  /** The index never refuses anything but a claim, and refuses a claim exactly when the candidate could
      have won but some entry is active already. */
  lemma OnlyClaimsContend(q: Queue, id: Id, c: Change, now: int)
    requires QueueInv(q)
    ensures !c.Claim? ==> Mutate(q, id, c, now) != Err(Backend)
    ensures TryClaim(q, id, now) == Err(Backend)
       <==> match IndexOf(q.entries, id)
            case None => false
            case Some(i) => q.entries[i].Claimable() && FenceError(q, q.entries[i], now).None? && HasActive(q.entries)
  {
    if IndexOf(q.entries, id).Some? {
      var i := IndexOf(q.entries, id).value;
      if !c.Claim? { ChangesFit(q.entries, i, c, now); }
      TryContends(q, i, now);
    }
  }

  lemma ChangesFit(entries: seq<Entry>, i: nat, c: Change, now: int)
    requires SingleActive(entries) && i < |entries| && !c.Claim?
    ensures Transition(entries[i], c, now).Ok? ==> SingleActive(entries[i := Transition(entries[i], c, now).value])
  {
    if Transition(entries[i], c, now).Ok? {
      assert Transition(entries[i], c, now).value.status.Active() ==> entries[i].status.Active();
    }
  }

  lemma TryContends(q: Queue, i: nat, now: int)
    requires SingleActive(q.entries) && i < |q.entries| && IndexOf(q.entries, q.entries[i].id) == Some(i)
    ensures TryClaim(q, q.entries[i].id, now) == Err(Backend) <==>
            q.entries[i].Claimable() && FenceError(q, q.entries[i], now).None? && HasActive(q.entries)
  {
    var e := q.entries[i];
    if e.Claimable() {
      ClaimContends(q.entries, i, e.(status := Claimed, updatedAt := now));
    }
  }

  lemma ClaimContends(entries: seq<Entry>, i: nat, won: Entry)
    requires SingleActive(entries) && i < |entries| && !entries[i].status.Active() && won.status.Active()
    ensures SingleActive(entries[i := won]) <==> !HasActive(entries)
  {
    if HasActive(entries) {
      var k :| 0 <= k < |entries| && entries[k].status.Active();
      var rows := entries[i := won];
      assert rows[i].status.Active() && rows[k].status.Active();
      assert if i < k then !SingleActive(rows) else !SingleActive(rows);
    }
  }

  /** Only the coordinator's own calls touch a merging entry: reviews, tests, cancellations, claims,
      enqueues and calls about other entries leave it as it was. */
  predicate FromCoordinator(op: Op, id: Id) {
    match op
    case MutateOp(x, c, _) =>
      x == id && (c.MarkConflict? || c.MarkMerged? || c.MarkFailed? || c.RequeueAfterRebase?
                  || c.RequeueAfterTargetMove?)
    case FinishRebaseOp(x, _, _, _, _) => x == id
    case ConflictTaskOp(x, _, _, _, _) => x == id
    case _ => false
  }

  lemma MutateElsewhere(q: Queue, i: nat, id: Id, c: Change, now: int)
    requires i < |q.entries| && (q.entries[i].id != id || Transition(q.entries[i], c, now).Err?)
    requires Mutate(q, id, c, now).Ok?
    ensures var q' := Mutate(q, id, c, now).value.0;
            i < |q'.entries| && q'.entries[i] == q.entries[i]
  {
  }

  lemma MergingIsUntouched(q: Queue, i: nat, op: Op)
    requires i < |q.entries| && q.entries[i].status == Merging
    requires !FromCoordinator(op, q.entries[i].id)
    ensures i < |QueueStep(q, op).entries| && QueueStep(q, op).entries[i] == q.entries[i]
  {
    match op
    case EnqueueOp(r, now, freshId) =>
    case MutateOp(id, c, now) => if Mutate(q, id, c, now).Ok? { MutateElsewhere(q, i, id, c, now); }
    case FinishRebaseOp(id, target, head, reason, now) =>
      if Mutate(q, id, RequeueAfterRebase(target, head, reason), now).Ok? {
        MutateElsewhere(q, i, id, RequeueAfterRebase(target, head, reason), now);
      }
    case ConflictTaskOp(id, target, source, paths, now) =>
    case TryClaimOp(id, now) =>
    case OtherServices(_, _) =>
  }

  /** Statuses no transaction leads out of. */
  predicate Settled(status: EntryStatus) {
    status in {Merged, Conflict, Cancelled, Failed}
  }

  lemma SettledStep(q: Queue, i: nat, op: Op)
    requires i < |q.entries| && Settled(q.entries[i].status)
    ensures i < |QueueStep(q, op).entries| && QueueStep(q, op).entries[i] == q.entries[i]
  {
    match op
    case EnqueueOp(r, now, freshId) =>
    case MutateOp(id, c, now) => if Mutate(q, id, c, now).Ok? { MutateElsewhere(q, i, id, c, now); }
    case FinishRebaseOp(id, target, head, reason, now) =>
      if Mutate(q, id, RequeueAfterRebase(target, head, reason), now).Ok? {
        MutateElsewhere(q, i, id, RequeueAfterRebase(target, head, reason), now);
      }
    case ConflictTaskOp(id, target, source, paths, now) =>
    case TryClaimOp(id, now) =>
    case OtherServices(_, _) =>
  }

  ghost predicate SettledAt(q: Queue, i: nat, e: Entry) {
    i < |q.entries| && q.entries[i] == e && Settled(e.status)
  }

  lemma SettledSnoc(ops: seq<Op>, op: Op, i: nat, e: Entry)
    requires SettledAt(Run(ops), i, e)
    ensures SettledAt(Run(ops + [op]), i, e)
  {
    RunSnoc(ops, op);
    SettledStep(Run(ops), i, op);
  }

  /** An entry that is merged, in conflict, cancelled or failed stays exactly as it is, whatever follows. */
  lemma {:induction false} SettledForever(ops: seq<Op>, later: seq<Op>, i: nat, e: Entry)
    requires SettledAt(Run(ops), i, e)
    ensures SettledAt(Run(ops + later), i, e)
    decreases |later|
  {
    if later == [] {
      assert ops + later == ops;
    } else {
      SettledSnoc(ops, later[0], i, e);
      SettledForever(ops + [later[0]], later[1..], i, e);
      assert ops + [later[0]] + later[1..] == ops + later;
    }
  }

  /** A conflict task is always opened for the entry it is asked for, and that entry is in conflict. */
  lemma ConflictIsRecorded(q: Queue, id: Id, target: Commit, source: Commit, paths: set<string>, now: int)
    requires QueueInv(q) && CreateConflictTask(q, id, target, source, paths, now).Ok?
    ensures var (q', e, task) := CreateConflictTask(q, id, target, source, paths, now).value;
            e.status == Conflict && e in q'.entries && task in q'.tasks && task.queueId == id == e.id
  {
    var known := TaskFor(q.tasks, id);
    var i := IndexOf(q.entries, id).value;
    if known.Some? {
      assert TaskInv(q.entries, known.value);
      var k :| 0 <= k < |q.entries| && q.entries[k].id == id && q.entries[k].status == Conflict;
      assert i == k;
    } else {
      assert q.entries[i := Transition(q.entries[i], MarkConflict(paths), now).value][i].status == Conflict;
    }
  }

  // ----- Snapshots -----------------------------------------------------------------------------------------

  /** The durable worktree is as the entry recorded it. */
  predicate SnapshotLive(q: Queue, e: Entry) {
    && e.worktreeId in q.worktrees
    && var w := q.worktrees[e.worktreeId];
       w.status == Ready && w.head == Some(e.head) && w.fence.token == e.fence.token
  }

  ghost predicate SnapshotsLive(q: Queue) {
    forall e <- q.entries :: !Settled(e.status) ==> SnapshotLive(q, e)
  }

  /** Neither other services' work on worktrees and leases, nor a new head that leaves the worktree behind. */
  predicate KeepsWorktrees(op: Op) {
    !op.OtherServices? && !(op.MutateOp? && op.change.RequeueAfterRebase?)
  }

  /** A worktree that is enqueued for the first time gets a queued entry with open gates, last in line, whose
      fence and snapshot are live at that moment. */
  lemma EnqueuedIsLive(q: Queue, r: Request, now: int, freshId: Id)
    requires QueueInv(q) && Enqueue(q, r, now, freshId).Ok? && ByWorktree(q.entries, r.worktreeId).None?
    ensures var (q', e) := Enqueue(q, r, now, freshId).value;
            && q'.entries == q.entries + [e] && e.status == Queued && e.review == Pending && e.tests == Pending
            && FenceError(q', e, now).None?
            && (forall x <- q.entries :: x.sequence < e.sequence && x.worktreeId != e.worktreeId)
  {
  }

  /** Recording a rebase moves entry and worktree together, so the snapshot stays valid: a fence that was
      live before is live for the requeued entry. */
  lemma RebaseKeepsSnapshot(q: Queue, id: Id, target: Commit, head: Commit, reason: string, now: int, at: int)
    requires QueueInv(q) && FinishRebase(q, id, target, head, reason, now).Ok?
    ensures var (q', e) := FinishRebase(q, id, target, head, reason, now).value;
            var i := IndexOf(q.entries, id).value;
            && q'.entries == q.entries[i := e] && q'.leases == q.leases
            && q'.worktrees == q.worktrees[e.worktreeId := q.worktrees[e.worktreeId].(head := Some(head))]
            && e == q.entries[i].(base := e.base, head := head, status := e.status, review := e.review,
                                  tests := e.tests, mergeCommit := None, conflict := {}, lastError := e.lastError,
                                  updatedAt := now)
            && e.base == target && e.status == Queued && !e.GatesPassed()
            && (SnapshotLive(q, q.entries[i]) ==> SnapshotLive(q', e))
            && (FenceError(q, q.entries[i], at).None? ==> FenceError(q', e, at).None?)
  {
  }

  /** One row changes, but neither what it recorded of its worktree nor any worktree. */
  lemma ReplacedSnapshot(q: Queue, q': Queue, i: nat, e: Entry)
    requires SnapshotsLive(q) && i < |q.entries| && q'.entries == q.entries[i := e] && q'.worktrees == q.worktrees
    requires e.worktreeId == q.entries[i].worktreeId && e.head == q.entries[i].head
    requires e.fence == q.entries[i].fence && (!Settled(e.status) ==> !Settled(q.entries[i].status))
    ensures SnapshotsLive(q')
  {
    forall x | x in q'.entries && !Settled(x.status) ensures SnapshotLive(q', x) {
      assert x == e ==> SnapshotLive(q, q.entries[i]);
      assert x == e || x in q.entries;
    }
  }

  lemma RebaseSnapshots(q: Queue, op: Op)
    requires QueueInv(q) && SnapshotsLive(q) && op.FinishRebaseOp?
    requires FinishRebase(q, op.id, op.target, op.head, op.reason, op.now).Ok?
    ensures SnapshotsLive(QueueStep(q, op))
  {
    RebaseKeepsSnapshot(q, op.id, op.target, op.head, op.reason, op.now, op.now);
    var (q', e) := FinishRebase(q, op.id, op.target, op.head, op.reason, op.now).value;
    var i := IndexOf(q.entries, op.id).value;
    assert SnapshotLive(q, q.entries[i]);
    forall k | 0 <= k < |q'.entries| && !Settled(q'.entries[k].status) ensures SnapshotLive(q', q'.entries[k]) {
      if k != i {
        assert InOrder(q.entries[if i < k then i else k], q.entries[if i < k then k else i]);
        assert SnapshotLive(q, q.entries[k]);
      }
    }
  }

  lemma EnqueueSnapshots(q: Queue, op: Op)
    requires QueueInv(q) && SnapshotsLive(q) && op.EnqueueOp?
    requires Enqueue(q, op.request, op.now, op.freshId).Ok?
    ensures SnapshotsLive(QueueStep(q, op))
  {
    if ByWorktree(q.entries, op.request.worktreeId).None? {
      EnqueuedIsLive(q, op.request, op.now, op.freshId);
      var (q', e) := Enqueue(q, op.request, op.now, op.freshId).value;
      forall x | x in q'.entries && !Settled(x.status) ensures SnapshotLive(q', x) {
        if x in q.entries { assert SnapshotLive(q, x); }
      }
    }
  }

  lemma MutateSnapshots(q: Queue, op: Op)
    requires SnapshotsLive(q) && op.MutateOp? && KeepsWorktrees(op) && Mutate(q, op.id, op.change, op.now).Ok?
    ensures SnapshotsLive(QueueStep(q, op))
  {
    var i := IndexOf(q.entries, op.id).value;
    ReplacedSnapshot(q, QueueStep(q, op), i, Transition(q.entries[i], op.change, op.now).value);
  }

  lemma ConflictSnapshots(q: Queue, op: Op)
    requires SnapshotsLive(q) && op.ConflictTaskOp?
    requires CreateConflictTask(q, op.id, op.target, op.source, op.paths, op.now).Ok?
    ensures SnapshotsLive(QueueStep(q, op))
  {
    if TaskFor(q.tasks, op.id).None? {
      var i := IndexOf(q.entries, op.id).value;
      ReplacedSnapshot(q, QueueStep(q, op), i, Transition(q.entries[i], MarkConflict(op.paths), op.now).value);
    }
  }

  lemma TrySnapshots(q: Queue, op: Op)
    requires SnapshotsLive(q) && op.TryClaimOp? && TryClaim(q, op.id, op.now).Ok?
    ensures SnapshotsLive(QueueStep(q, op))
  {
    var i := IndexOf(q.entries, op.id).value;
    if q.entries[i].Claimable() {
      ReplacedSnapshot(q, QueueStep(q, op), i, QueueStep(q, op).entries[i]);
    }
  }

  lemma SnapshotStep(q: Queue, op: Op)
    requires QueueInv(q) && SnapshotsLive(q) && KeepsWorktrees(op)
    ensures SnapshotsLive(QueueStep(q, op)) && QueueStep(q, op).leases == q.leases
  {
    match op
    case EnqueueOp(r, now, freshId) => if Enqueue(q, r, now, freshId).Ok? { EnqueueSnapshots(q, op); }
    case MutateOp(id, c, now) => if Mutate(q, id, c, now).Ok? { MutateSnapshots(q, op); }
    case FinishRebaseOp(id, target, head, reason, now) =>
      if FinishRebase(q, id, target, head, reason, now).Ok? { RebaseSnapshots(q, op); }
    case ConflictTaskOp(id, target, source, paths, now) =>
      if CreateConflictTask(q, id, target, source, paths, now).Ok? { ConflictSnapshots(q, op); }
    case TryClaimOp(id, now) => if TryClaim(q, id, now).Ok? { TrySnapshots(q, op); }
    case OtherServices(_, _) =>
  }

  lemma {:induction false} SnapshotsAlways(q: Queue, ops: seq<Op>)
    requires QueueInv(q) && SnapshotsLive(q) && forall op <- ops :: KeepsWorktrees(op)
    ensures QueueInv(QueueSteps(q, ops)) && SnapshotsLive(QueueSteps(q, ops)) && QueueSteps(q, ops).leases == q.leases
  {
    if ops == [] {
    } else {
      var before := ops[..|ops| - 1];
      SnapshotsAlways(q, before);
      StepKeeps(QueueSteps(q, before), ops[|ops| - 1]);
      SnapshotStep(QueueSteps(q, before), ops[|ops| - 1]);
    }
  }

  /** So long as no other service touches worktrees and leases, an entry that can still be merged never loses its
      snapshot, whatever is queued, decided, claimed, rebased or requeued: its fence is dead exactly if its lease
      no longer stands. */
  lemma FencesDieWithTheirLeases(q: Queue, ops: seq<Op>, e: Entry, now: int)
    requires QueueInv(q) && SnapshotsLive(q) && forall op <- ops :: KeepsWorktrees(op)
    requires e in QueueSteps(q, ops).entries && !Settled(e.status)
    ensures FenceError(QueueSteps(q, ops), e, now) ==
            if LeaseMatches(q.leases, e.fence, e.session, e.agent, e.workspaceId, now) then None else Some(StaleFence)
  {
    SnapshotsAlways(q, ops);
  }

  // ----- Selection ---------------------------------------------------------------------------------------

  ghost predicate SortedByRank(s: seq<Entry>) {
    forall i, j :: 0 <= i < j < |s| ==> RanksBefore(s[i], s[j])
  }

  lemma {:induction false} RankInSorted(e: Entry, ranked: seq<Entry>)
    requires SortedByRank(ranked) && forall x <- ranked :: x.sequence < e.sequence
    ensures SortedByRank(RankIn(e, ranked))
    ensures forall x :: x in RankIn(e, ranked) <==> x == e || x in ranked
  {
    if ranked == [] || RanksBefore(e, ranked[0]) {
      assert forall j :: 0 < j < |ranked| ==> RanksBefore(ranked[0], ranked[j]);
    } else {
      RankInSorted(e, ranked[1..]);
      assert ranked == [ranked[0]] + ranked[1..];
      var rest := RankIn(e, ranked[1..]);
      forall j | 0 <= j < |rest| ensures RanksBefore(ranked[0], rest[j]) {
        assert rest[j] in rest;
      }
    }
  }

  /** The candidates are exactly the queued entries with passed gates, best first. */
  lemma {:induction false} RankedSpec(entries: seq<Entry>)
    requires forall i, j :: 0 <= i < j < |entries| ==> InOrder(entries[i], entries[j])
    ensures SortedByRank(Ranked(entries))
    ensures forall e :: e in Ranked(entries) <==> e in entries && e.Claimable()
  {
    if entries == [] {
    } else {
      var front, last := entries[..|entries| - 1], entries[|entries| - 1];
      assert entries == front + [last];
      RankedSpec(front);
      forall x | x in Ranked(front) ensures x.sequence < last.sequence {
        assert x in front;
      }
      RankInSorted(last, Ranked(front));
    }
  }

  /** `k` candidates with dead fences, then, if any is left, one whose fence is live. */
  ghost predicate FirstLive(q: Queue, candidates: seq<Entry>, k: nat, now: int) {
    && k <= |candidates|
    && (forall j :: 0 <= j < k ==> FenceError(q, candidates[j], now).Some?)
    && (k < |candidates| ==> FenceError(q, candidates[k], now).None?)
  }

  lemma {:induction false} FirstLiveExists(q: Queue, candidates: seq<Entry>, now: int) returns (k: nat)
    ensures FirstLive(q, candidates, k, now)
  {
    k := 0;
    while k < |candidates| && FenceError(q, candidates[k], now).Some?
      invariant k <= |candidates|
      invariant forall j :: 0 <= j < k ==> FenceError(q, candidates[j], now).Some?
    {
      k := k + 1;
    }
  }

  /** What a claim does to a row that was `e`. */
  function AfterClaim(q: Queue, candidates: seq<Entry>, k: nat, e: Entry, now: int): Entry
    requires k <= |candidates|
  {
    if e in candidates[..k] && FenceError(q, e, now).Some? then FenceFailed(e, FenceError(q, e, now).value, now)
    else if k < |candidates| && e == candidates[k] then e.(status := Claimed, updatedAt := now)
    else e
  }

  ghost predicate GoodCandidates(q: Queue, candidates: seq<Entry>) {
    && (forall c <- candidates :: c in q.entries && c.Claimable())
    && (forall i, j :: 0 <= i < j < |candidates| ==> candidates[i].id != candidates[j].id)
  }

  ghost predicate Claims(q: Queue, candidates: seq<Entry>, k: nat, now: int, q': Queue,
                         r: Result<Option<Entry>, MergeError>)
  {
    && k <= |candidates|
    && q' == q.(entries := q'.entries, outbox := q'.outbox)
    && |q'.entries| == |q.entries|
    && (forall i :: 0 <= i < |q.entries| ==> q'.entries[i] == AfterClaim(q, candidates, k, q.entries[i], now))
    && r == Ok(if k < |candidates| then Some(candidates[k].(status := Claimed, updatedAt := now)) else None)
  }

  lemma TryClaimFirst(q: Queue, candidates: seq<Entry>, now: int)
    requires RowsInv(q) && !HasActive(q.entries) && candidates != [] && GoodCandidates(q, candidates)
    ensures var i := IndexOf(q.entries, candidates[0].id);
            && i.Some? && q.entries[i.value] == candidates[0]
            && TryClaim(q, candidates[0].id, now).Ok?
            && var (q', attempt) := TryClaim(q, candidates[0].id, now).value;
            && q' == q.(entries := q'.entries, outbox := q'.outbox)
            && match FenceError(q, candidates[0], now)
               case Some(error) =>
                 attempt == FenceRefused && q'.entries == q.entries[i.value := FenceFailed(candidates[0], error, now)]
               case None =>
                 && attempt == Won(candidates[0].(status := Claimed, updatedAt := now))
                 && q'.entries == q.entries[i.value := attempt.entry]
  {
    assert candidates[0] in q.entries;
    var i := IndexOf(q.entries, candidates[0].id).value;
    var k :| 0 <= k < |q.entries| && q.entries[k] == candidates[0];
    assert i == k;
    ClaimContends(q.entries, i, candidates[0].(status := Claimed, updatedAt := now));
  }

  /** A row that lost its fence leaves the other candidates where they were. */
  lemma RestStaysGood(q: Queue, candidates: seq<Entry>, i: nat, failed: Entry, q1: Queue)
    requires RowsInv(q) && !HasActive(q.entries) && candidates != [] && GoodCandidates(q, candidates)
    requires i < |q.entries| && q.entries[i] == candidates[0]
    requires failed == candidates[0].(status := Failed, lastError := failed.lastError, updatedAt := failed.updatedAt)
    requires q1 == q.(entries := q.entries[i := failed], outbox := q1.outbox)
    ensures RowsInv(q1) && !HasActive(q1.entries) && GoodCandidates(q1, candidates[1..])
  {
    forall c | c in candidates[1..] ensures c in q1.entries && c.Claimable() {
      assert c in candidates && c in q.entries;
      var j :| 0 <= j < |q.entries| && q.entries[j] == c;
      assert q1.entries[j] == c;
    }
    forall e | e in q1.entries ensures !e.status.Active() && 1 <= e.sequence <= q1.sequence {
      assert e in q.entries || e == failed;
      assert candidates[0] in q.entries;
    }
  }

  lemma SameOutcome(q: Queue, candidates: seq<Entry>, k: nat, now: int, e: Entry, q1: Queue, e1: Entry)
    requires 0 < k <= |candidates| && FenceError(q, candidates[0], now).Some?
    requires forall c <- candidates :: c.Claimable()
    requires q1 == q.(entries := q1.entries, outbox := q1.outbox)
    requires forall j :: 0 < j < |candidates| ==> candidates[0].id != candidates[j].id
    requires e1 == if e == candidates[0] then FenceFailed(e, FenceError(q, e, now).value, now) else e
    ensures AfterClaim(q1, candidates[1..], k - 1, e1, now) == AfterClaim(q, candidates, k, e, now)
  {
    assert candidates[..k] == [candidates[0]] + candidates[1..][..k - 1];
    assert FenceError(q1, e, now) == FenceError(q, e, now);
    if e == candidates[0] {
      assert !e1.Claimable();
      assert forall c <- candidates[1..] :: c in candidates;
      assert e1 !in candidates[1..];
    }
  }

  /** What remains to be decided after the first candidate was failed in row `i0`. */
  lemma AfterRefusal(q: Queue, candidates: seq<Entry>, k: nat, now: int, i0: nat, q1: Queue)
    requires RowsInv(q) && GoodCandidates(q, candidates) && 0 < k <= |candidates| && FirstLive(q, candidates, k, now)
    requires i0 < |q.entries| && q.entries[i0] == candidates[0]
    requires q1 == q.(entries := q1.entries, outbox := q1.outbox)
    requires q1.entries == q.entries[i0 := FenceFailed(candidates[0], FenceError(q, candidates[0], now).value, now)]
    ensures FirstLive(q1, candidates[1..], k - 1, now)
    ensures forall i :: 0 <= i < |q.entries| ==>
      AfterClaim(q1, candidates[1..], k - 1, q1.entries[i], now) == AfterClaim(q, candidates, k, q.entries[i], now)
  {
    forall i | 0 <= i < |q.entries|
      ensures AfterClaim(q1, candidates[1..], k - 1, q1.entries[i], now)
           == AfterClaim(q, candidates, k, q.entries[i], now)
    {
      assert i < i0 ==> InOrder(q.entries[i], q.entries[i0]);
      assert i0 < i ==> InOrder(q.entries[i0], q.entries[i]);
      SameOutcome(q, candidates, k, now, q.entries[i], q1, q1.entries[i]);
    }
  }

  lemma ClaimsAfterRefusal(q: Queue, candidates: seq<Entry>, k: nat, now: int, q1: Queue, q': Queue,
                           r: Result<Option<Entry>, MergeError>)
    requires 0 < k <= |candidates| && |q1.entries| == |q.entries|
    requires q1 == q.(entries := q1.entries, outbox := q1.outbox)
    requires forall i :: 0 <= i < |q.entries| ==>
      AfterClaim(q1, candidates[1..], k - 1, q1.entries[i], now) == AfterClaim(q, candidates, k, q.entries[i], now)
    requires Claims(q1, candidates[1..], k - 1, now, q', r)
    ensures Claims(q, candidates, k, now, q', r)
  {
  }

  lemma ClaimsAtOnce(q: Queue, candidates: seq<Entry>, now: int)
    requires RowsInv(q) && !HasActive(q.entries) && candidates != [] && GoodCandidates(q, candidates)
    requires FenceError(q, candidates[0], now).None?
    ensures var (q', r) := ClaimFrom(q, candidates, now);
            Claims(q, candidates, 0, now, q', r)
  {
    TryClaimFirst(q, candidates, now);
  }

  /** The first candidate is refused and the claim goes on with the others. */
  lemma RefuseOne(q: Queue, candidates: seq<Entry>, k: nat, now: int) returns (q1: Queue)
    requires RowsInv(q) && !HasActive(q.entries) && GoodCandidates(q, candidates)
    requires FirstLive(q, candidates, k, now) && k > 0
    ensures q1 == q.(entries := q1.entries, outbox := q1.outbox) && |q1.entries| == |q.entries|
    ensures RowsInv(q1) && !HasActive(q1.entries) && GoodCandidates(q1, candidates[1..])
    ensures FirstLive(q1, candidates[1..], k - 1, now)
    ensures forall i :: 0 <= i < |q.entries| ==>
      AfterClaim(q1, candidates[1..], k - 1, q1.entries[i], now) == AfterClaim(q, candidates, k, q.entries[i], now)
    ensures ClaimFrom(q, candidates, now) == ClaimFrom(q1, candidates[1..], now)
  {
    TryClaimFirst(q, candidates, now);
    q1 := TryClaim(q, candidates[0].id, now).value.0;
    var i0 := IndexOf(q.entries, candidates[0].id).value;
    RestStaysGood(q, candidates, i0, q1.entries[i0], q1);
    AfterRefusal(q, candidates, k, now, i0, q1);
  }

  lemma {:induction false} ClaimFromSpec(q: Queue, candidates: seq<Entry>, k: nat, now: int)
    requires RowsInv(q) && !HasActive(q.entries) && GoodCandidates(q, candidates)
    requires FirstLive(q, candidates, k, now)
    ensures var (q', r) := ClaimFrom(q, candidates, now);
            Claims(q, candidates, k, now, q', r)
    decreases |candidates|
  {
    if candidates == [] {
    } else if k == 0 {
      ClaimsAtOnce(q, candidates, now);
    } else {
      var q1 := RefuseOne(q, candidates, k, now);
      ClaimFromSpec(q1, candidates[1..], k - 1, now);
      var (q', r) := ClaimFrom(q1, candidates[1..], now);
      ClaimsAfterRefusal(q, candidates, k, now, q1, q', r);
    }
  }

  lemma CandidatesAreGood(q: Queue)
    requires RowsInv(q)
    ensures GoodCandidates(q, Candidates(q.entries)) && SortedByRank(Candidates(q.entries))
  {
    RankedSpec(q.entries);
    var candidates := Candidates(q.entries);
    forall i, j | 0 <= i < j < |candidates| ensures candidates[i].id != candidates[j].id {
      assert RanksBefore(candidates[i], candidates[j]);
      assert candidates[i] in Ranked(q.entries) && candidates[j] in Ranked(q.entries);
    }
  }

  lemma RankIsPosition(s: seq<Entry>, i: nat, j: nat)
    requires SortedByRank(s) && i < |s| && j < |s| && RanksBefore(s[i], s[j])
    ensures i < j
  {
  }

  /** Candidates that rank before the k-th stand before it. */
  lemma BetterRankedAreEarlier(q: Queue, k: nat, e: Entry)
    requires RowsInv(q) && k < |Candidates(q.entries)|
    requires e in q.entries && e.Claimable() && RanksBefore(e, Candidates(q.entries)[k])
    ensures e in Candidates(q.entries)[..k]
  {
    RankedSpec(q.entries);
    var ranked := Ranked(q.entries);
    var j :| 0 <= j < |ranked| && ranked[j] == e;
    RankIsPosition(ranked, j, k);
    assert Candidates(q.entries)[..k][j] == e;
  }

  lemma WorseRankedAreLater(q: Queue, k: nat, e: Entry)
    requires RowsInv(q) && k < |Candidates(q.entries)|
    requires e in q.entries && e.Claimable() && e != Candidates(q.entries)[k] && e !in Candidates(q.entries)[..k]
    ensures RanksBefore(Candidates(q.entries)[k], e)
  {
    RankedSpec(q.entries);
    var ranked := Ranked(q.entries);
    var j :| 0 <= j < |ranked| && ranked[j] == e;
    assert forall m :: 0 <= m < k ==> Candidates(q.entries)[..k][m] == ranked[m];
    assert j > k ==> RanksBefore(ranked[k], ranked[j]);
  }

  /** The winner: a row that was claimable, with a live fence and snapshot in that very state. */
  ghost predicate WonBy(q: Queue, q': Queue, i: nat, w: Entry, now: int) {
    && i < |q.entries| && q.entries[i].Claimable() && FenceError(q, q.entries[i], now).None?
    && w == q.entries[i].(status := Claimed, updatedAt := now)
    && i < |q'.entries| && q'.entries[i] == w
  }

  /** Nothing that can still be claimed ranks before the winner. */
  ghost predicate BestLeft(q': Queue, w: Entry) {
    forall i :: 0 <= i < |q'.entries| && q'.entries[i].Claimable() ==> RanksBefore(w, q'.entries[i])
  }

  /** Everything that ranked better had a dead fence and is failed now. */
  ghost predicate BetterFailed(q: Queue, q': Queue, w: Entry, now: int) {
    && |q'.entries| == |q.entries|
    && forall i :: 0 <= i < |q.entries| && q.entries[i].Claimable() && RanksBefore(q.entries[i], w) ==>
         FenceError(q, q.entries[i], now).Some? && q'.entries[i].status == Failed
  }

  /** A row changes only by winning or by failing, as a candidate, with a dead fence. */
  ghost predicate OthersKept(q: Queue, q': Queue, r: Option<Entry>, now: int) {
    && |q'.entries| == |q.entries|
    && forall i :: 0 <= i < |q.entries| && q'.entries[i] != q.entries[i] && r != Some(q'.entries[i]) ==>
         && q.entries[i].Claimable() && FenceError(q, q.entries[i], now).Some?
         && q'.entries[i] == FenceFailed(q.entries[i], FenceError(q, q.entries[i], now).value, now)
  }

  lemma OthersAreKept(q: Queue, k: nat, now: int, q': Queue, r: Result<Option<Entry>, MergeError>)
    requires RowsInv(q) && Claims(q, Candidates(q.entries), k, now, q', r)
    ensures OthersKept(q, q', r.value, now)
  {
    CandidatesAreGood(q);
    var candidates := Candidates(q.entries);
    assert forall c <- candidates[..k] :: c in candidates;
  }

  lemma WinnerIsBest(q: Queue, k: nat, now: int, q': Queue, r: Result<Option<Entry>, MergeError>)
    requires RowsInv(q) && Claims(q, Candidates(q.entries), k, now, q', r)
    requires k < |Candidates(q.entries)| && FirstLive(q, Candidates(q.entries), k, now)
    ensures BestLeft(q', r.value.value)
  {
    var candidates, w := Candidates(q.entries), r.value.value;
    forall i | 0 <= i < |q'.entries| && q'.entries[i].Claimable() ensures RanksBefore(w, q'.entries[i]) {
      assert q'.entries[i] == AfterClaim(q, candidates, k, q.entries[i], now);
      assert forall c <- candidates[..k] :: FenceError(q, c, now).Some?;
      WorseRankedAreLater(q, k, q.entries[i]);
    }
  }

  lemma BetterHaveFailed(q: Queue, k: nat, now: int, q': Queue, r: Result<Option<Entry>, MergeError>)
    requires RowsInv(q) && Claims(q, Candidates(q.entries), k, now, q', r)
    requires k < |Candidates(q.entries)| && FirstLive(q, Candidates(q.entries), k, now)
    ensures BetterFailed(q, q', r.value.value, now)
  {
    var candidates, w := Candidates(q.entries), r.value.value;
    forall i | 0 <= i < |q.entries| && q.entries[i].Claimable() && RanksBefore(q.entries[i], w)
      ensures FenceError(q, q.entries[i], now).Some? && q'.entries[i].status == Failed
    {
      BetterRankedAreEarlier(q, k, q.entries[i]);
      assert forall c <- candidates[..k] :: FenceError(q, c, now).Some?;
      assert q'.entries[i] == AfterClaim(q, candidates, k, q.entries[i], now);
    }
  }

  lemma WinnerWon(q: Queue, k: nat, now: int, q': Queue, r: Result<Option<Entry>, MergeError>)
    requires RowsInv(q) && Claims(q, Candidates(q.entries), k, now, q', r)
    requires k < |Candidates(q.entries)| && FirstLive(q, Candidates(q.entries), k, now)
    ensures exists i: nat :: WonBy(q, q', i, r.value.value, now)
  {
    CandidatesAreGood(q);
    var best := Candidates(q.entries)[k];
    assert best in q.entries;
    var i: nat :| i < |q.entries| && q.entries[i] == best;
    assert q'.entries[i] == AfterClaim(q, Candidates(q.entries), k, q.entries[i], now);
    assert WonBy(q, q', i, r.value.value, now);
  }

  /** When nothing is active, a claim never fails. It returns nothing exactly when each of the hundred best
      candidates has a dead fence. Otherwise it returns a candidate whose fence and snapshot are live;
      every candidate that ranked better had a dead fence and is now failed, and every entry that is
      still queued with passed gates ranks after it. Nothing else changes. */
  lemma ClaimSelects(q: Queue, now: int)
    requires RowsInv(q) && !HasActive(q.entries)
    ensures var (q', r) := ClaimNext(q, now);
            && r.Ok? && OthersKept(q, q', r.value, now)
            && (r.value.None? <==> forall c <- Candidates(q.entries) :: FenceError(q, c, now).Some?)
            && (r.value.Some? ==>
                  && (exists i: nat :: WonBy(q, q', i, r.value.value, now))
                  && BestLeft(q', r.value.value)
                  && BetterFailed(q, q', r.value.value, now))
  {
    CandidatesAreGood(q);
    var candidates := Candidates(q.entries);
    var k := FirstLiveExists(q, candidates, now);
    ClaimFromSpec(q, candidates, k, now);
    var (q', r) := ClaimNext(q, now);
    OthersAreKept(q, k, now, q', r);
    if k < |candidates| {
      WinnerWon(q, k, now, q', r);
      WinnerIsBest(q, k, now, q', r);
      BetterHaveFailed(q, k, now, q', r);
    }
  }

  lemma ClaimFromUnfolds(q: Queue, candidates: seq<Entry>, now: int)
    requires candidates != []
    ensures var tried := QueueStep(q, TryClaimOp(candidates[0].id, now));
            || ClaimFrom(q, candidates, now).0 == tried
            || ClaimFrom(q, candidates, now).0 == ClaimFrom(tried, candidates[1..], now).0
  {
  }

  lemma RunSnoc(ops: seq<Op>, op: Op)
    ensures Run(ops + [op]) == QueueStep(Run(ops), op)
  {
    assert (ops + [op])[..|ops|] == ops;
  }

  /** `to` is reached from where `ops` leads by more transactions of a claim. */
  ghost predicate ClaimRun(ops: seq<Op>, more: seq<Op>, to: Queue) {
    (forall op <- more :: op.TryClaimOp?) && Run(ops + more) == to
  }

  lemma ClaimRunCons(ops: seq<Op>, op: Op, more: seq<Op>, to: Queue)
    requires op.TryClaimOp? && ClaimRun(ops + [op], more, to)
    ensures ClaimRun(ops, [op] + more, to)
  {
    assert ops + ([op] + more) == ops + [op] + more;
  }

  lemma ClaimRunNil(ops: seq<Op>)
    ensures ClaimRun(ops, [], Run(ops))
  {
    assert ops + [] == ops;
  }

  /** A whole claim is a run of its candidates' transactions, so everything above holds of it. */
  lemma {:induction false} ClaimIsARun(ops: seq<Op>, q: Queue, candidates: seq<Entry>, now: int) returns (more: seq<Op>)
    requires q == Run(ops)
    ensures ClaimRun(ops, more, ClaimFrom(q, candidates, now).0)
    decreases |candidates|
  {
    ClaimRunNil(ops);
    more := [];
    if candidates == [] {
    } else {
      var op := TryClaimOp(candidates[0].id, now);
      var tried := QueueStep(q, op);
      ClaimFromUnfolds(q, candidates, now);
      RunSnoc(ops, op);
      ClaimRunNil(ops + [op]);
      if ClaimFrom(q, candidates, now).0 != tried {
        more := ClaimIsARun(ops + [op], tried, candidates[1..], now);
      }
      ClaimRunCons(ops, op, more, ClaimFrom(q, candidates, now).0);
      more := [op] + more;
    }
  }
}
