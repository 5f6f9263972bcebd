/** Queue, refs and coordinator together: what is written to the target and recorded as merged is the row's own
    head, for which the outbox holds passing decisions. */
module MergeEndToEnd {
  import opened Prelude
  import opened MergeQueue
  import MergeQueueSafety
  import MergeClaim
  import opened MergeExecution
  import opened MergeRecovery

  /** The queue, and the machine that merges one of its entries. */
  datatype Joint = Joint(queue: Queue, machine: Machine)

  datatype JointTick =
    | CoordinatorStep(reply: Reply)
    | RefMove(tick: Tick)
    | ClientStep(op: Op)

  /** The transaction that a step of the coordinator runs, if it runs one. */
  function TransactionOf(m: Machine, now: int): Option<Op> {
    match m.pc
    case Requeueing(t, h) => Some(FinishRebaseOp(m.job.id, t, h, REBASED, now))
    case OpeningTask(t, paths) => Some(ConflictTaskOp(m.job.id, t, m.job.head, paths, now))
    case _ =>
      if Recorded(m.pc, m.job).Some? then Some(MutateOp(m.job.id, Recorded(m.pc, m.job).value.0, now)) else None
  }

  predicate Accepts(q: Queue, op: Op) {
    match op
    case MutateOp(id, c, now) => Mutate(q, id, c, now).Ok?
    case FinishRebaseOp(id, t, h, reason, now) => FinishRebase(q, id, t, h, reason, now).Ok?
    case ConflictTaskOp(id, t, s, paths, now) => CreateConflictTask(q, id, t, s, paths, now).Ok?
    case _ => true
  }

  /** A transaction and the coordinator's step go together; when the queue refuses, the step fails. Other clients
      run any transactions but the coordinator's own on this entry, and third parties move the refs. */
  function JointStep(g: Graph, j: Joint, tick: JointTick): Joint {
    match tick
    case CoordinatorStep(r) => (
      match TransactionOf(j.machine, r.now)
      case None => j.(machine := Proceed(g, j.machine, r))
      case Some(op) =>
        if r.ok && Accepts(j.queue, op) then Joint(QueueStep(j.queue, op), Proceed(g, j.machine, r))
        else j.(machine := Proceed(g, j.machine, r.(ok := false))))
    case RefMove(t) => if t.Advance? then j else j.(machine := Step(g, j.machine, t))
    case ClientStep(op) =>
      if MergeQueueSafety.FromCoordinator(op, j.machine.job.id) then j else j.(queue := QueueStep(j.queue, op))
  }

  function JointRun(g: Graph, j: Joint, ticks: seq<JointTick>): Joint {
    if ticks == [] then j else JointStep(g, JointRun(g, j, ticks[..|ticks| - 1]), ticks[|ticks| - 1])
  }

  /** A merge of row `e` begins: the row is merging and the machine has its copy. */
  ghost predicate Begins(j: Joint) {
    && MergeQueueSafety.QueueInv(j.queue)
    && j.machine == Start(j.machine.world) && Begun(j.machine.world) && j.machine.world.entry in j.queue.entries
  }

  // ----- The row is the coordinator's copy -------------------------------------------------------------------

  /** Nobody else can change the row while the machine depends on it. */
  predicate Pinned(pc: Pc) {
    !pc.Done? || pc == Done(MergedOutcome)
  }

  ghost predicate JointInv(g: Graph, first: Commit, j: Joint) {
    && MergeQueueSafety.QueueInv(j.queue) && MachineInv(g, first, j.machine)
    && j.machine.world.entry.id == j.machine.job.id
    && (Pinned(j.machine.pc) ==> j.machine.world.entry in j.queue.entries)
  }

  lemma MutateWritesRow(q: Queue, e: Entry, c: Change, now: int)
    requires MergeQueueSafety.RowsInv(q) && e in q.entries && Mutate(q, e.id, c, now).Ok?
    ensures Transition(e, c, now).Ok? && Transition(e, c, now).value in Mutate(q, e.id, c, now).value.0.entries
  {
    MergeClaim.RowOf(q, e);
    var i := IndexOf(q.entries, e.id).value;
    assert Mutate(q, e.id, c, now).value.0.entries[i] == Transition(e, c, now).value;
  }

  lemma MergingHasNoTask(q: Queue, e: Entry)
    requires MergeQueueSafety.QueueInv(q) && e in q.entries && e.status == Merging
    ensures TaskFor(q.tasks, e.id).None?
  {
    var known := TaskFor(q.tasks, e.id);
    if known.Some? {
      assert MergeQueueSafety.TaskInv(q.entries, known.value);
      var x :| x in q.entries && x.id == e.id && x.status == Conflict;
      MergeClaim.RowOf(q, x);
      MergeClaim.RowOf(q, e);
    }
  }

  lemma ConflictWritesRow(q: Queue, e: Entry, t: Commit, s: Commit, paths: set<string>, now: int)
    requires MergeQueueSafety.QueueInv(q) && e in q.entries && e.status == Merging
    requires CreateConflictTask(q, e.id, t, s, paths, now).Ok?
    ensures Transition(e, MarkConflict(paths), now).Ok?
    ensures var q' := CreateConflictTask(q, e.id, t, s, paths, now).value.0;
            Transition(e, MarkConflict(paths), now).value in q'.entries
  {
    MergingHasNoTask(q, e);
    MergeClaim.RowOf(q, e);
    var i := IndexOf(q.entries, e.id).value;
    var q' := CreateConflictTask(q, e.id, t, s, paths, now).value.0;
    assert q'.entries[i] == Transition(e, MarkConflict(paths), now).value;
  }

  /** An accepted transaction of the coordinator writes the row that its step expects. */
  lemma TransactionWritesRow(q: Queue, m: Machine, now: int)
    requires MergeQueueSafety.QueueInv(q) && m.world.entry in q.entries && m.world.entry == m.job
    requires m.job.status == Merging && Recorded(m.pc, m.job).Some? && Accepts(q, TransactionOf(m, now).value)
    ensures var e := Transition(m.world.entry, Recorded(m.pc, m.job).value.0, now);
            e.Ok? && e.value in QueueStep(q, TransactionOf(m, now).value).entries && e.value.id == m.job.id
  {
    if m.pc.OpeningTask? {
      ConflictWritesRow(q, m.job, m.pc.t, m.job.head, m.pc.paths, now);
    } else {
      MutateWritesRow(q, m.job, Recorded(m.pc, m.job).value.0, now);
    }
  }

  lemma WithoutTransaction(g: Graph, m: Machine, r: Reply)
    requires Recorded(m.pc, m.job).None? || !r.ok
    ensures Proceed(g, m, r).world.entry == m.world.entry && Proceed(g, m, r).job == m.job
    ensures Pinned(Proceed(g, m, r).pc) ==> Pinned(m.pc)
  {
  }

  /** A step whose transaction the queue accepts. */
  lemma AcceptedKeeps(g: Graph, first: Commit, j: Joint, r: Reply)
    requires JointInv(g, first, j) && Recorded(j.machine.pc, j.machine.job).Some? && r.ok
    requires Accepts(j.queue, TransactionOf(j.machine, r.now).value)
    ensures JointInv(g, first,
              Joint(QueueStep(j.queue, TransactionOf(j.machine, r.now).value), Proceed(g, j.machine, r)))
  {
    ProceedKeeps(g, first, j.machine, r);
    MergeQueueSafety.StepKeeps(j.queue, TransactionOf(j.machine, r.now).value);
    TransactionWritesRow(j.queue, j.machine, r.now);
    RecordingSettles(g, j.machine, r);
  }

  /** A step without a transaction, or whose transaction fails. */
  lemma OtherStepKeeps(g: Graph, first: Commit, j: Joint, r: Reply)
    requires JointInv(g, first, j) && (Recorded(j.machine.pc, j.machine.job).None? || !r.ok)
    ensures JointInv(g, first, j.(machine := Proceed(g, j.machine, r)))
  {
    ProceedKeeps(g, first, j.machine, r);
    WithoutTransaction(g, j.machine, r);
  }

  lemma CoordinatorKeeps(g: Graph, first: Commit, j: Joint, r: Reply)
    requires JointInv(g, first, j)
    ensures JointInv(g, first, JointStep(g, j, CoordinatorStep(r)))
  {
    var op := TransactionOf(j.machine, r.now);
    assert op.Some? <==> Recorded(j.machine.pc, j.machine.job).Some?;
    if op.Some? && r.ok && Accepts(j.queue, op.value) {
      AcceptedKeeps(g, first, j, r);
    } else {
      OtherStepKeeps(g, first, j, if op.Some? then r.(ok := false) else r);
    }
  }

  lemma ClientKeeps(g: Graph, first: Commit, j: Joint, op: Op)
    requires JointInv(g, first, j)
    ensures JointInv(g, first, JointStep(g, j, ClientStep(op)))
  {
    if !MergeQueueSafety.FromCoordinator(op, j.machine.job.id) {
      MergeQueueSafety.StepKeeps(j.queue, op);
      if Pinned(j.machine.pc) {
        var i :| 0 <= i < |j.queue.entries| && j.queue.entries[i] == j.machine.world.entry;
        if j.machine.pc.Done? {
          MergeQueueSafety.SettledStep(j.queue, i, op);
        } else {
          MergeQueueSafety.MergingIsUntouched(j.queue, i, op);
        }
        assert QueueStep(j.queue, op).entries[i] in QueueStep(j.queue, op).entries;
      }
    }
  }

  lemma JointStepKeeps(g: Graph, first: Commit, j: Joint, tick: JointTick)
    requires JointInv(g, first, j)
    ensures JointInv(g, first, JointStep(g, j, tick)) && JointStep(g, j, tick).machine.job == j.machine.job
  {
    match tick
    case CoordinatorStep(r) =>
      CoordinatorKeeps(g, first, j, r);
      JobStays(g, j.machine, Advance(r));
      JobStays(g, j.machine, Advance(r.(ok := false)));
    case RefMove(t) => if !t.Advance? { InterferenceKeeps(g, first, j.machine, t); }
    case ClientStep(op) => ClientKeeps(g, first, j, op);
  }

  lemma {:induction false} JointInvAlways(g: Graph, j: Joint, ticks: seq<JointTick>)
    requires Begins(j)
    ensures JointInv(g, j.machine.world.target, JointRun(g, j, ticks))
    ensures JointRun(g, j, ticks).machine.job == j.machine.job
  {
    if ticks == [] {
      MachineInvAlways(g, j.machine.world, []);
    } else {
      JointInvAlways(g, j, ticks[..|ticks| - 1]);
      JointStepKeeps(g, j.machine.world.target, JointRun(g, j, ticks[..|ticks| - 1]), ticks[|ticks| - 1]);
    }
  }

  // ----- Main results -----------------------------------------------------------------------------------------

  /** The outbox holds, as the latest decisions on the entry since it was queued, passing ones for its head. */
  ghost predicate PassedFor(q: Queue, e: Entry) {
    && MergeQueueSafety.ReviewDecision(q.outbox, e.id) == MergeQueueSafety.Decided(Passed, e.head)
    && MergeQueueSafety.TestDecision(q.outbox, e.id) == MergeQueueSafety.Decided(Passed, e.head)
  }

  lemma PinnedRowPassed(g: Graph, first: Commit, j: Joint)
    requires JointInv(g, first, j) && Pinned(j.machine.pc)
    ensures PassedFor(j.queue, j.machine.world.entry) && j.machine.world.entry.head == j.machine.job.head
  {
    assert MergeQueueSafety.EntryInv(j.queue.outbox, j.machine.world.entry);
  }

  /** Under any interference of clients and third parties: whenever the coordinator moves the target forward, it
      moves it to the head of the stored row, which is merging and has passing decisions for that head. */
  lemma OnlyGatedHeadsAreWritten(g: Graph, j: Joint, ticks: seq<JointTick>, r: Reply)
    requires Begins(j)
    ensures var now, next := JointRun(g, j, ticks), JointStep(g, JointRun(g, j, ticks), CoordinatorStep(r));
            now.machine.pc.SwapTarget? && next.machine.world.writes != now.machine.world.writes ==>
              exists e <- now.queue.entries ::
                && e.id == j.machine.job.id && e.status == Merging && PassedFor(now.queue, e)
                && next.machine.world.target == e.head && IsAncestor(g, now.machine.world.target, e.head)
  {
    JointInvAlways(g, j, ticks);
    var now := JointRun(g, j, ticks);
    if now.machine.pc.SwapTarget? {
      PinnedRowPassed(g, j.machine.world.target, now);
      assert now.machine.world.entry in now.queue.entries;
    }
  }

  /** Under any interference: once the coordinator has reported a merge, and for ever after, the stored row is
      merged with its own head as the merge commit, that head was written to the target over the row's base,
      and the outbox holds passing decisions for it. */
  lemma OnlyGatedHeadsAreMerged(g: Graph, j: Joint, ticks: seq<JointTick>)
    requires Begins(j) && JointRun(g, j, ticks).machine.pc == Done(MergedOutcome)
    ensures var now := JointRun(g, j, ticks);
            exists e <- now.queue.entries ::
              && e.id == j.machine.job.id && e.status == Merged && e.mergeCommit == Some(e.head)
              && PassedFor(now.queue, e)
              && RefWrite(Coordinator, e.base, e.head) in now.machine.world.writes
  {
    JointInvAlways(g, j, ticks);
    var now := JointRun(g, j, ticks);
    PinnedRowPassed(g, j.machine.world.target, now);
    OwnAreWrites(now.machine.world.writes);
    assert Forward(now.machine.job) in Own(now.machine.world.writes);
    assert now.machine.world.entry in now.queue.entries;
  }
}
