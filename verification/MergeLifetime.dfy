/** The whole life of a queue: one merge after the other, crashes at any step, recoveries, and everybody else in
    between. Whatever is merged in the end went through its gates and through its target branch. */
module MergeLifetime {
  import opened Prelude
  import opened MergeQueue
  import MergeQueueSafety
  import opened MergeExecution
  import opened MergeRecovery
  import MergeClaim
  import MergeReconciliation
  import opened MergeEndToEnd

  /** What the coordinator is about; `first` is the target its merge began with. */
  datatype Phase = Resting | Running(first: Commit, machine: Machine) | Crashed(world: World)

  /** `held` is history only: the values that the target branch of an entry has had while the entry was merging. */
  datatype Life = Life(queue: Queue, phase: Phase, held: set<(Id, Commit)>)

  datatype LifeTick =
    | StartMerge(id: Id, target: Commit, source: Commit, now: int)
    | CoordinatorTick(reply: Reply)
    | RefTick(move: Tick)
    | ClientTick(op: Op)
    | Stop
    | Reconciliation(before: int, limit: nat, probe: Probe)

  const AT_FIRST := Life(Queue([], 0, map[], [], [], []), Resting, {})

  /** What no client but the coordinator does: begin a merge, record one, or settle the entry being merged. */
  predicate Reserved(op: Op, phase: Phase) {
    || (op.MutateOp? && (op.change.Begin? || op.change.MarkMerged?))
    || (phase.Running? && MergeQueueSafety.FromCoordinator(op, phase.machine.job.id))
    || (phase.Crashed? && MergeQueueSafety.FromCoordinator(op, phase.world.entry.id))
  }

  function Seen(s: Life, e: Entry, c: Commit): Life {
    s.(held := s.held + {(e.id, c)})
  }

  /** The merge of a claimed entry begins, with the refs wherever they are by then. */
  function Started(s: Life, id: Id, target: Commit, source: Commit, now: int): Life {
    match Mutate(s.queue, id, Begin, now)
    case Err(_) => s
    case Ok((q, e)) =>
      var w := World(target, source, false, None, e, []);
      Seen(s.(queue := q, phase := Running(target, Start(w))), e, target)
  }

  /** The transaction of a recovery. */
  function RecoveryOp(w: World, change: Change, now: int): Op {
    if change.RequeueAfterRebase?
    then FinishRebaseOp(w.entry.id, change.target, change.head, change.reason, now)
    else MutateOp(w.entry.id, change, now)
  }

  /** The crashed entry is settled by what its refs say; when the queue refuses, it is left for the next time. */
  function Reconciled(g: Graph, s: Life, w: World, p: Probe): Life {
    var (seen, observation) := Recover(g, w, p);
    var op := RecoveryOp(w, RecoveryChange(observation).0, p.now);
    if p.persistOk && Accepts(s.queue, op) then s.(queue := QueueStep(s.queue, op), phase := Resting)
    else s.(phase := Crashed(seen))
  }

  function RefsMoved(g: Graph, s: Life, move: Tick): Life {
    match s.phase
    case Resting => s
    case Running(first, m) =>
      var m' := Step(g, m, move);
      Seen(s.(phase := Running(first, m')), m.job, m'.world.target)
    case Crashed(w) =>
      var w' := Step(g, Start(w), move).world;
      Seen(s.(phase := Crashed(w')), w.entry, w'.target)
  }

  function LifeStep(g: Graph, s: Life, tick: LifeTick): Life {
    match tick
    case StartMerge(id, target, source, now) =>
      if s.phase == Resting then Started(s, id, target, source, now) else s
    case CoordinatorTick(r) =>
      if s.phase.Running? then
        var j := JointStep(g, Joint(s.queue, s.phase.machine), CoordinatorStep(r));
        Seen(Life(j.queue, Running(s.phase.first, j.machine), s.held), s.phase.machine.job, j.machine.world.target)
      else s
    case RefTick(move) => if move.Advance? then s else RefsMoved(g, s, move)
    case ClientTick(op) => if Reserved(op, s.phase) then s else s.(queue := QueueStep(s.queue, op))
    case Stop =>
      if s.phase.Running? then
        var w := s.phase.machine.world;
        s.(phase := if w.entry.status == Merging then Crashed(w) else Resting)
      else s
    case Reconciliation(before, limit, p) =>
      var stale := StaleMerging(s.queue, before, limit);
      if s.phase.Crashed? && stale.Ok? && s.phase.world.entry in stale.value
      then Reconciled(g, s, s.phase.world, p)
      else s
  }

  function LifeRun(g: Graph, ticks: seq<LifeTick>): Life {
    if ticks == [] then AT_FIRST else LifeStep(g, LifeRun(g, ticks[..|ticks| - 1]), ticks[|ticks| - 1])
  }

  // ----- The invariant -------------------------------------------------------------------------------------------

  /** The refs of the entry at hand have only had values that are on record. */
  predicate OnRecord(held: set<(Id, Commit)>, id: Id, w: World) {
    (id, w.target) in held && forall x <- w.writes :: (id, x.after) in held
  }

  ghost predicate PhaseInv(g: Graph, s: Life) {
    match s.phase
    case Resting => true
    case Running(first, m) => JointInv(g, first, Joint(s.queue, m)) && OnRecord(s.held, m.job.id, m.world)
    case Crashed(w) =>
      w.entry in s.queue.entries && w.entry.status == Merging && (w.entry.id, w.target) in s.held
  }

  predicate IsAtHand(phase: Phase, e: Entry) {
    match phase
    case Resting => false
    case Running(_, m) => m.world.entry == e
    case Crashed(w) => w.entry == e
  }

  /** A merged row is merged with its own head, which its target branch has had meanwhile; a merging one is at
      hand. */
  predicate RowIsFine(s: Life, e: Entry) {
    && (e.status == Merged ==> e.mergeCommit == Some(e.head) && (e.id, e.head) in s.held)
    && (e.status == Merging ==> IsAtHand(s.phase, e))
  }

  ghost predicate RowsAreFine(s: Life) {
    forall e <- s.queue.entries :: RowIsFine(s, e)
  }

  ghost predicate LifeInv(g: Graph, s: Life) {
    MergeQueueSafety.QueueInv(s.queue) && PhaseInv(g, s) && RowsAreFine(s)
  }

  // ----- Rows that become merging or merged -----------------------------------------------------------------------

  predicate Busy(e: Entry) {
    e.status == Merging || e.status == Merged
  }

  lemma ReplacedRow(q: Queue, q': Queue, i: nat, x: Entry)
    requires i < |q.entries| && q'.entries == q.entries[i := x]
    ensures forall e <- q'.entries :: e == x || e in q.entries
  {
  }

  /** A row that was replaced is there no longer. */
  lemma ReplacedIsGone(q: Queue, row: Entry, x: Entry)
    requires MergeQueueSafety.RowsInv(q) && x in q.entries && x.id == row.id && x != row
    ensures row !in q.entries
  {
    MergeClaim.RowOf(q, x);
    if row in q.entries {
      MergeClaim.RowOf(q, row);
    }
  }

  lemma MutatedRows(q: Queue, id: Id, c: Change, now: int)
    requires Mutate(q, id, c, now).Ok?
    ensures var (q', x) := Mutate(q, id, c, now).value;
            forall e <- q'.entries :: e == x || e in q.entries
  {
    var (q', x) := Mutate(q, id, c, now).value;
    ReplacedRow(q, q', IndexOf(q.entries, id).value, x);
  }

  lemma MutationStarts(q: Queue, id: Id, c: Change, now: int)
    requires Mutate(q, id, c, now).Ok? && !c.Begin? && !c.MarkMerged?
    ensures forall e <- Mutate(q, id, c, now).value.0.entries :: Busy(e) ==> e in q.entries
  {
    MutatedRows(q, id, c, now);
  }

  lemma TryStarts(q: Queue, id: Id, now: int)
    requires TryClaim(q, id, now).Ok?
    ensures forall e <- TryClaim(q, id, now).value.0.entries :: Busy(e) ==> e in q.entries
  {
    var i := IndexOf(q.entries, id).value;
    var q' := TryClaim(q, id, now).value.0;
    ReplacedRow(q, q', i, q'.entries[i]);
  }

  lemma ConflictStarts(q: Queue, id: Id, t: Commit, s: Commit, paths: set<string>, now: int)
    requires CreateConflictTask(q, id, t, s, paths, now).Ok?
    ensures forall e <- CreateConflictTask(q, id, t, s, paths, now).value.0.entries :: Busy(e) ==> e in q.entries
  {
    var i := IndexOf(q.entries, id).value;
    var q' := CreateConflictTask(q, id, t, s, paths, now).value.0;
    ReplacedRow(q, q', i, q'.entries[i]);
  }

  /** Only the beginning and the recording of a merge make a row merging or merged. */
  lemma NothingElseStarts(q: Queue, op: Op)
    requires !(op.MutateOp? && (op.change.Begin? || op.change.MarkMerged?))
    ensures forall e <- QueueStep(q, op).entries :: Busy(e) ==> e in q.entries
  {
    match op
    case EnqueueOp(_, _, _) =>
    case MutateOp(id, c, now) => if Mutate(q, id, c, now).Ok? { MutationStarts(q, id, c, now); }
    case FinishRebaseOp(id, t, h, reason, now) =>
      if FinishRebase(q, id, t, h, reason, now).Ok? {
        MutationStarts(q, id, RequeueAfterRebase(t, h, reason), now);
      }
    case ConflictTaskOp(id, t, s, paths, now) =>
      if CreateConflictTask(q, id, t, s, paths, now).Ok? { ConflictStarts(q, id, t, s, paths, now); }
    case TryClaimOp(id, now) => if TryClaim(q, id, now).Ok? { TryStarts(q, id, now); }
    case OtherServices(_, _) =>
  }

  /** The row at hand is recorded as merged: no other row changes. */
  lemma MarkedRows(q: Queue, row: Entry, c: Commit, now: int)
    requires MergeQueueSafety.RowsInv(q) && row in q.entries && Mutate(q, row.id, MarkMerged(c), now).Ok?
    ensures forall e <- Mutate(q, row.id, MarkMerged(c), now).value.0.entries :: Busy(e) ==>
              e == row.(status := Merged, mergeCommit := Some(c), updatedAt := now) || (e in q.entries && e != row)
  {
    MergeClaim.RowOf(q, row);
    var i := IndexOf(q.entries, row.id).value;
    var q' := Mutate(q, row.id, MarkMerged(c), now).value.0;
    forall k | 0 <= k < |q'.entries| && k != i ensures q'.entries[k] == q.entries[k] != row {
      assert MergeQueueSafety.InOrder(q.entries[if i < k then i else k], q.entries[if i < k then k else i]);
    }
  }

  // ----- Steps -----------------------------------------------------------------------------------------------------

  lemma StartKeeps(g: Graph, s: Life, id: Id, target: Commit, source: Commit, now: int)
    requires LifeInv(g, s) && s.phase == Resting
    ensures LifeInv(g, Started(s, id, target, source, now))
  {
    if Mutate(s.queue, id, Begin, now).Ok? {
      var (q, e) := Mutate(s.queue, id, Begin, now).value;
      var w := World(target, source, false, None, e, []);
      MergeQueueSafety.MutateKeeps(s.queue, id, Begin, now);
      MutatedRows(s.queue, id, Begin, now);
      MachineInvAlways(g, w, []);
      assert q.entries[IndexOf(s.queue.entries, id).value] == e;
    }
  }

  /** Rows stay fine when a step makes none merging or merged. */
  lemma QuietRows(s: Life, s': Life)
    requires RowsAreFine(s) && s.held <= s'.held
    requires forall e <- s'.queue.entries :: Busy(e) ==> e in s.queue.entries
    requires forall e <- s'.queue.entries :: e.status == Merging && IsAtHand(s.phase, e) ==> IsAtHand(s'.phase, e)
    ensures RowsAreFine(s')
  {
  }

  lemma ClientKeepsPhase(g: Graph, s: Life, op: Op)
    requires LifeInv(g, s) && !Reserved(op, s.phase)
    ensures PhaseInv(g, s.(queue := QueueStep(s.queue, op)))
  {
    if s.phase.Running? {
      ClientKeeps(g, s.phase.first, Joint(s.queue, s.phase.machine), op);
    } else if s.phase.Crashed? {
      var i :| 0 <= i < |s.queue.entries| && s.queue.entries[i] == s.phase.world.entry;
      MergeQueueSafety.MergingIsUntouched(s.queue, i, op);
      assert QueueStep(s.queue, op).entries[i] in QueueStep(s.queue, op).entries;
    }
  }

  lemma ClientKeepsLife(g: Graph, s: Life, op: Op)
    requires LifeInv(g, s) && !Reserved(op, s.phase)
    ensures LifeInv(g, s.(queue := QueueStep(s.queue, op)))
  {
    MergeQueueSafety.StepKeeps(s.queue, op);
    NothingElseStarts(s.queue, op);
    QuietRows(s, s.(queue := QueueStep(s.queue, op)));
    ClientKeepsPhase(g, s, op);
  }

  lemma RefsKeep(g: Graph, s: Life, move: Tick)
    requires LifeInv(g, s) && !move.Advance?
    ensures LifeInv(g, RefsMoved(g, s, move))
  {
    if s.phase.Running? {
      InterferenceKeeps(g, s.phase.first, s.phase.machine, move);
    }
  }

  lemma StopKeeps(g: Graph, s: Life)
    requires LifeInv(g, s)
    ensures LifeInv(g, LifeStep(g, s, Stop))
  {
    if s.phase.Running? {
      var m := s.phase.machine;
      assert m.world.entry.status == Merging ==> Pinned(m.pc) && m.world.entry == m.job;
    }
  }

  /** A step of the coordinator writes the target at most once. */
  lemma RecordGrows(g: Graph, held: set<(Id, Commit)>, id: Id, m: Machine, r: Reply)
    requires OnRecord(held, id, m.world)
    ensures var after := Proceed(g, m, r).world;
            OnRecord(held + {(id, after.target)}, id, after)
  {
    MergeReconciliation.ProceedWrites(g, m, r);
  }

  /** What the queue and the machine are after the step. */
  lemma StepOfBoth(g: Graph, q: Queue, m: Machine, r: Reply)
    ensures var op := TransactionOf(m, r.now);
            var recorded := op.Some? && r.ok && Accepts(q, op.value);
            JointStep(g, Joint(q, m), CoordinatorStep(r)) ==
            Joint(if recorded then QueueStep(q, op.value) else q,
                  Proceed(g, m, if op.Some? && !recorded then r.(ok := false) else r))
  {
  }

  lemma RecordingEndsMerging(m: Machine, now: int)
    requires Recorded(m.pc, m.job).Some?
    ensures var e := Transition(m.job, Recorded(m.pc, m.job).value.0, now);
            e.Ok? ==> e.value.status != Merging
  {
  }

  /** Whatever the coordinator records, the row at hand is no longer as it was. */
  lemma RecordedRowIsGone(q: Queue, m: Machine, now: int)
    requires MergeQueueSafety.QueueInv(q) && m.world.entry in q.entries && m.world.entry == m.job
    requires m.job.status == Merging && Recorded(m.pc, m.job).Some? && Accepts(q, TransactionOf(m, now).value)
    requires MergeQueueSafety.QueueInv(QueueStep(q, TransactionOf(m, now).value))
    ensures m.job !in QueueStep(q, TransactionOf(m, now).value).entries
  {
    TransactionWritesRow(q, m, now);
    RecordingEndsMerging(m, now);
    ReplacedIsGone(QueueStep(q, TransactionOf(m, now).value), m.job,
                   Transition(m.job, Recorded(m.pc, m.job).value.0, now).value);
  }

  lemma RecordedRows(g: Graph, s: Life, r: Reply)
    requires LifeInv(g, s) && s.phase.Running? && r.ok
    requires TransactionOf(s.phase.machine, r.now).Some?
    requires Accepts(s.queue, TransactionOf(s.phase.machine, r.now).value)
    ensures var q' := QueueStep(s.queue, TransactionOf(s.phase.machine, r.now).value);
            forall e <- q'.entries :: Busy(e) ==>
              || (e in s.queue.entries && !IsAtHand(s.phase, e))
              || (e.status == Merged && e.mergeCommit == Some(e.head) && (e.id, e.head) in s.held)
  {
    var m := s.phase.machine;
    var op := TransactionOf(m, r.now).value;
    if m.pc.Persist? {
      assert Own(m.world.writes) == [Forward(m.job)];
      OwnAreWrites(m.world.writes);
      assert Forward(m.job) in Own(m.world.writes);
      MarkedRows(s.queue, m.job, m.job.head, r.now);
    } else {
      NothingElseStarts(s.queue, op);
      MergeQueueSafety.StepKeeps(s.queue, op);
      RecordedRowIsGone(s.queue, m, r.now);
    }
  }

  lemma CoordinatorKeepsRows(g: Graph, s: Life, r: Reply)
    requires LifeInv(g, s) && s.phase.Running?
    ensures RowsAreFine(LifeStep(g, s, CoordinatorTick(r)))
  {
    var m, s' := s.phase.machine, LifeStep(g, s, CoordinatorTick(r));
    var op := TransactionOf(m, r.now);
    StepOfBoth(g, s.queue, m, r);
    if op.Some? && r.ok && Accepts(s.queue, op.value) {
      RecordedRows(g, s, r);
    } else {
      WithoutTransaction(g, m, if op.Some? then r.(ok := false) else r);
      QuietRows(s, s');
    }
  }

  lemma CoordinatorKeepsLife(g: Graph, s: Life, r: Reply)
    requires LifeInv(g, s) && s.phase.Running?
    ensures LifeInv(g, LifeStep(g, s, CoordinatorTick(r)))
  {
    var m, s' := s.phase.machine, LifeStep(g, s, CoordinatorTick(r));
    var op := TransactionOf(m, r.now);
    CoordinatorKeepsRows(g, s, r);
    JointStepKeeps(g, s.phase.first, Joint(s.queue, m), CoordinatorStep(r));
    StepOfBoth(g, s.queue, m, r);
    var recorded := op.Some? && r.ok && Accepts(s.queue, op.value);
    RecordGrows(g, s.held, m.job.id, m, if op.Some? && !recorded then r.(ok := false) else r);
  }

  /** Recovery records a merge only of a target that it has found at the entry's head. */
  lemma RecoverySees(g: Graph, w: World, p: Probe)
    ensures var (seen, observation) := Recover(g, w, p);
            var change := RecoveryChange(observation).0;
            && seen.entry == w.entry && seen.target == w.target
            && (change.MarkMerged? || change.MarkFailed? || change.RequeueAfterRebase?)
            && (change.MarkMerged? ==> change.commit == w.target == w.entry.head)
  {
  }

  lemma RecoveredRows(s: Life, w: World, change: Change, now: int)
    requires MergeQueueSafety.QueueInv(s.queue) && RowsAreFine(s) && s.phase == Crashed(w)
    requires w.entry in s.queue.entries && w.entry.status == Merging && (w.entry.id, w.target) in s.held
    requires change.MarkMerged? || change.MarkFailed? || change.RequeueAfterRebase?
    requires change.MarkMerged? ==> change.commit == w.target == w.entry.head
    requires Accepts(s.queue, RecoveryOp(w, change, now))
    ensures RowsAreFine(s.(queue := QueueStep(s.queue, RecoveryOp(w, change, now)), phase := Resting))
  {
    if change.MarkMerged? {
      MarkedRows(s.queue, w.entry, change.commit, now);
    } else {
      NothingElseStarts(s.queue, RecoveryOp(w, change, now));
      RecoveredRowIsGone(s.queue, w.entry, change, now);
    }
  }

  lemma RecoveryKeepsRows(g: Graph, s: Life, w: World, p: Probe)
    requires LifeInv(g, s) && s.phase == Crashed(w)
    ensures RowsAreFine(Reconciled(g, s, w, p))
  {
    RecoverySees(g, w, p);
    var change := RecoveryChange(Recover(g, w, p).1).0;
    if p.persistOk && Accepts(s.queue, RecoveryOp(w, change, p.now)) {
      RecoveredRows(s, w, change, p.now);
    }
  }

  lemma RecoveredRowIsGone(q: Queue, row: Entry, change: Change, now: int)
    requires MergeQueueSafety.QueueInv(q) && row in q.entries && row.status == Merging
    requires change.MarkFailed? || change.RequeueAfterRebase?
    requires Mutate(q, row.id, change, now).Ok?
    ensures row !in Mutate(q, row.id, change, now).value.0.entries
  {
    var q' := Mutate(q, row.id, change, now).value.0;
    MergeQueueSafety.MutateKeeps(q, row.id, change, now);
    MutateWritesRow(q, row, change, now);
    ReplacedIsGone(q', row, Transition(row, change, now).value);
  }

  lemma RecoveryKeeps(g: Graph, s: Life, w: World, p: Probe)
    requires LifeInv(g, s) && s.phase == Crashed(w)
    ensures LifeInv(g, Reconciled(g, s, w, p))
  {
    RecoveryKeepsRows(g, s, w, p);
    var op := RecoveryOp(w, RecoveryChange(Recover(g, w, p).1).0, p.now);
    MergeQueueSafety.StepKeeps(s.queue, op);
  }

  /** A recovery in the life of a queue is the recovery that the crash theorems are about: it settles the row as
      that one does, or leaves what that one leaves when the repository refuses. */
  lemma RecoveryRefines(g: Graph, s: Life, w: World, p: Probe)
    requires LifeInv(g, s) && s.phase == Crashed(w)
    ensures var s' := Reconciled(g, s, w, p);
            && (s'.phase == Resting ==>
                  Reconcile(g, w, p).1.Some? && Reconcile(g, w, p).0.entry in s'.queue.entries)
            && (s'.phase != Resting ==>
                  s'.queue == s.queue && s'.phase == Crashed(Reconcile(g, w, p.(persistOk := false)).0))
  {
    RecoverySees(g, w, p);
    var change := RecoveryChange(Recover(g, w, p).1).0;
    if Accepts(s.queue, RecoveryOp(w, change, p.now)) {
      MutateWritesRow(s.queue, w.entry, change, p.now);
    }
  }

  lemma LifeStepKeeps(g: Graph, s: Life, tick: LifeTick)
    requires LifeInv(g, s)
    ensures LifeInv(g, LifeStep(g, s, tick))
  {
    match tick
    case StartMerge(id, target, source, now) =>
      if s.phase == Resting { StartKeeps(g, s, id, target, source, now); }
    case CoordinatorTick(r) => if s.phase.Running? { CoordinatorKeepsLife(g, s, r); }
    case RefTick(move) => if !move.Advance? { RefsKeep(g, s, move); }
    case ClientTick(op) => if !Reserved(op, s.phase) { ClientKeepsLife(g, s, op); }
    case Stop => StopKeeps(g, s);
    case Reconciliation(before, limit, p) => if s.phase.Crashed? { RecoveryKeeps(g, s, s.phase.world, p); }
  }

  lemma {:induction false} LifeInvAlways(g: Graph, ticks: seq<LifeTick>)
    ensures LifeInv(g, LifeRun(g, ticks))
  {
    if ticks == [] {
    } else {
      LifeInvAlways(g, ticks[..|ticks| - 1]);
      LifeStepKeeps(g, LifeRun(g, ticks[..|ticks| - 1]), ticks[|ticks| - 1]);
    }
  }

  // ----- Main results ----------------------------------------------------------------------------------------------

  /** Entry `id` is being merged, or its merge has crashed, and its target branch is at `c`. */
  predicate MergingAt(s: Life, id: Id, c: Commit) {
    match s.phase
    case Resting => false
    case Running(_, m) => m.job.id == id && m.world.target == c
    case Crashed(w) => w.entry.id == id && w.target == c
  }

  lemma HeldIsNew(g: Graph, s: Life, tick: LifeTick, id: Id, c: Commit)
    requires (id, c) in LifeStep(g, s, tick).held && (id, c) !in s.held
    ensures MergingAt(LifeStep(g, s, tick), id, c)
  {
    if tick.CoordinatorTick? && s.phase.Running? {
      JobStays(g, s.phase.machine, Advance(tick.reply));
      JobStays(g, s.phase.machine, Advance(tick.reply.(ok := false)));
    } else if tick.RefTick? && s.phase.Running? {
      JobStays(g, s.phase.machine, tick.move);
    }
  }

  /** What is on record has been so at some point of the run. */
  lemma {:induction false} HeldWasThere(g: Graph, ticks: seq<LifeTick>, id: Id, c: Commit) returns (t: nat)
    requires (id, c) in LifeRun(g, ticks).held
    ensures t <= |ticks| && MergingAt(LifeRun(g, ticks[..t]), id, c)
  {
    if ticks == [] {
      assert false;
    } else {
      var before := ticks[..|ticks| - 1];
      if (id, c) in LifeRun(g, before).held {
        t := HeldWasThere(g, before, id, c);
        assert ticks[..t] == before[..t];
      } else {
        HeldIsNew(g, LifeRun(g, before), ticks[|ticks| - 1], id, c);
        t := |ticks|;
        assert ticks[..t] == ticks;
      }
    }
  }

  /** Over the whole life of a queue - any number of merges, each crashed and recovered any number of times, among
      any clients and third parties - a row is merged only with its own head, with passing decisions for that very
      head in the outbox, and after its target branch has had that head while the row was being merged. */
  lemma EveryMergeWasGated(g: Graph, ticks: seq<LifeTick>, e: Entry) returns (t: nat)
    requires e in LifeRun(g, ticks).queue.entries && e.status == Merged
    ensures e.mergeCommit == Some(e.head) && PassedFor(LifeRun(g, ticks).queue, e)
    ensures t <= |ticks| && MergingAt(LifeRun(g, ticks[..t]), e.id, e.head)
  {
    LifeInvAlways(g, ticks);
    var s := LifeRun(g, ticks);
    assert RowIsFine(s, e);
    assert MergeQueueSafety.EntryInv(s.queue.outbox, e);
    t := HeldWasThere(g, ticks, e.id, e.head);
  }

  /** What a reconciliation finds is the crashed merge, if that is old enough, and nothing else: no row is merging
      that no coordinator is about and no crash has left. */
  lemma StaleIsTheCrash(g: Graph, ticks: seq<LifeTick>, before: int, limit: nat)
    ensures var s := LifeRun(g, ticks);
            var stale := StaleMerging(s.queue, before, limit);
            && (s.phase == Resting && stale.Ok? ==> stale.value == [])
            && (s.phase.Crashed? && stale.Ok? ==>
                  stale.value == if s.phase.world.entry.updatedAt < before then [s.phase.world.entry] else [])
  {
    LifeInvAlways(g, ticks);
    var s := LifeRun(g, ticks);
    MergeQueueSafety.AtMostOneStale(s.queue.entries, before);
    StaleSpec(s.queue.entries, before);
    var found := Stale(s.queue.entries, before);
    if found != [] {
      assert found[0] in found;
      assert RowIsFine(s, found[0]);
    }
    if s.phase.Crashed? && s.phase.world.entry.updatedAt < before {
      assert s.phase.world.entry in found;
    }
  }

  lemma {:induction false} StaleInAdds(e: Entry, stale: seq<Entry>)
    ensures forall x :: x in StaleIn(e, stale) <==> x == e || x in stale
  {
    if stale == [] || TouchedBefore(e, stale[0]) {
    } else {
      StaleInAdds(e, stale[1..]);
      assert stale == [stale[0]] + stale[1..];
    }
  }

  lemma {:induction false} StaleSpec(entries: seq<Entry>, before: int)
    ensures forall x :: x in Stale(entries, before) <==> x in entries && x.status == Merging && x.updatedAt < before
  {
    if entries == [] {
    } else {
      var front, last := entries[..|entries| - 1], entries[|entries| - 1];
      StaleSpec(front, before);
      StaleInAdds(last, Stale(front, before));
      assert entries == front + [last];
    }
  }
}
