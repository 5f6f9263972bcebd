/** The merge coordinator as a machine of atomic steps over an abstract Git: a commit graph, a target ref
    changed by compare-and-set, a source ref and a rebase that may be under way. Any run may stop at any
    step; reconciliation then looks at the refs and settles the entry. */
module MergeExecution {
  import opened Prelude
  import opened MergeQueue

  // ----- Commits ----------------------------------------------------------------------------------

  /** The parents of every commit. Commits are numbered in the order in which they were made. */
  type Graph = map<Commit, set<Commit>>

  predicate IsParent(g: Graph, p: Commit, c: Commit) {
    c in g && p in g[c] && p < c
  }

  predicate IsAncestor(g: Graph, a: Commit, d: Commit)
    decreases d
  {
    a == d || (d in g && exists p <- g[d] :: IsParent(g, p, d) && IsAncestor(g, a, p))
  }

  lemma {:induction false} AncestorTransitive(g: Graph, a: Commit, b: Commit, c: Commit)
    requires IsAncestor(g, a, b) && IsAncestor(g, b, c)
    ensures IsAncestor(g, a, c)
    decreases c
  {
    if b != c {
      var p :| p in g[c] && IsParent(g, p, c) && IsAncestor(g, b, p);
      AncestorTransitive(g, a, b, p);
    }
  }

  // ----- State ----------------------------------------------------------------------------------------

  datatype Author = Coordinator | ThirdParty

  datatype RefWrite = RefWrite(author: Author, before: Commit, after: Commit)

  /** What survives a crash: the refs, a rebase left under way, the stored row; and, for the statements
      below, every write of the target ref and the head of a finished rebase. */
  datatype World = World(
    target: Commit,
    source: Commit,
    rebasing: bool,
    rebased: Option<Commit>,
    entry: Entry,
    writes: seq<RefWrite>
  )

  datatype Outcome = MergedOutcome | RequeuedOutcome | ConflictOutcome | FailedOutcome

  datatype Note = InspectFailed | Dirty | HeadMismatch | RolledBack | RollbackRejected | RollbackFailed

  /** Where the coordinator stands; `t` is the target commit it inspected. */
  datatype Pc =
    | ReadTarget
    | ReadSource(t: Commit)
    | ReadStatus(t: Commit, s: Commit)
    | CheckTarget(t: Commit)
    | CheckAncestor(t: Commit)
    | SwapTarget(t: Commit)
    | RereadTarget(t: Commit)
    | Persist(t: Commit)
    | CheckRollback(t: Commit)
    | SwapBack(t: Commit)
    | RereadRollback(t: Commit)
    | Failing(note: Note)
    | Retrying(actual: Commit)
    | RebaseFence(t: Commit)
    | RebaseStart(t: Commit)
    | RebaseRun(t: Commit)
    | RebaseAbort(t: Commit, paths: set<string>)
    | RebaseRead(t: Commit)
    | Requeueing(t: Commit, h: Commit)
    | OpeningTask(t: Commit, paths: set<string>)
    | Done(outcome: Outcome)
    | Halted

  /** `job` is the coordinator's own copy of the entry, taken when the merge began. */
  datatype Machine = Machine(job: Entry, world: World, pc: Pc)

  datatype RebaseEnd = Finished(head: Commit) | Stopped(paths: set<string>) | NeverStarted

  /** What the surroundings answer to one step. `ok` is false when a command cannot be run, times out or
      a transaction fails; `effect` says whether a Git command that changes something did so. */
  datatype Reply = Reply(ok: bool, effect: bool, clean: bool, rebase: RebaseEnd, now: int)

  datatype Tick =
    | Advance(reply: Reply)
    | MoveTarget(c: Commit)
    | MoveSource(c: Commit)

  function Write(w: World, author: Author, c: Commit): World {
    w.(target := c, writes := w.writes + [RefWrite(author, w.target, c)])
  }

  /** `update-ref` with an expected old value. */
  function CompareAndSet(w: World, expected: Commit, c: Commit, effect: bool): World {
    if effect && w.target == expected then Write(w, Coordinator, c) else w
  }

  function NoteText(note: Note): string {
    match note
    case InspectFailed => "inspection failed"
    case Dirty => "dirty worktree"
    case HeadMismatch => "head mismatch"
    case RolledBack => "rolled back"
    case RollbackRejected => "rollback rejected"
    case RollbackFailed => "rollback failed"
  }

  const REBASED := "source branch rebased; review and tests must run again"
  const RECOVERED := "interrupted merge recovered after completed rebase"

  /** A repository call that changes the row; the merge ends with `outcome`, or the call fails. */
  function Settle(m: Machine, c: Change, r: Reply, outcome: Outcome): Machine {
    var e := Transition(m.world.entry, c, r.now);
    if r.ok && e.Ok? then m.(world := m.world.(entry := e.value), pc := Done(outcome)) else m.(pc := Halted)
  }

  function AfterInspection(job: Entry, t: Commit, s: Commit, clean: bool): Pc {
    if !clean then Failing(Dirty)
    else if s != job.head then Failing(HeadMismatch)
    else if t != job.base then RebaseFence(t)
    else CheckTarget(t)
  }

  function EndRebase(g: Graph, m: Machine, t: Commit, r: Reply): Machine {
    match r.rebase
    case Finished(h) =>
      if IsAncestor(g, t, h)
      then m.(world := m.world.(source := h, rebasing := false, rebased := Some(h)),
              pc := if r.ok then RebaseRead(t) else Halted)
      else m
    case Stopped(paths) => m.(pc := if r.ok && NonBlank(paths) != {} then RebaseAbort(t, paths) else Halted)
    case NeverStarted => m.(world := m.world.(rebasing := false), pc := Halted)
  }

  function StepRebase(g: Graph, m: Machine, r: Reply): Machine {
    match m.pc
    case RebaseFence(t) => m.(pc := if r.ok then RebaseStart(t) else Halted)
    case RebaseStart(t) =>
      if r.ok then m.(world := m.world.(rebasing := true), pc := RebaseRun(t)) else m.(pc := Halted)
    case RebaseRun(t) => EndRebase(g, m, t, r)
    case RebaseAbort(t, paths) =>
      m.(world := m.world.(rebasing := m.world.rebasing && !r.effect),
         pc := if r.ok && r.effect then OpeningTask(t, paths) else Halted)
    case RebaseRead(t) => m.(pc := if r.ok then Requeueing(t, m.world.source) else Halted)
    case Requeueing(t, h) => Settle(m, RequeueAfterRebase(t, h, REBASED), r, RequeuedOutcome)
    case OpeningTask(t, paths) => Settle(m, MarkConflict(paths), r, ConflictOutcome)
    case _ => m
  }

  function StepRollback(m: Machine, r: Reply): Machine {
    var w := m.world;
    match m.pc
    case CheckRollback(t) =>
      m.(pc := if !r.ok then Failing(RollbackFailed)
               else if w.target != m.job.head then Failing(RollbackRejected)
               else SwapBack(t))
    case SwapBack(t) =>
      m.(world := CompareAndSet(w, m.job.head, t, r.effect),
         pc := if !r.ok then Failing(RollbackFailed)
               else if r.effect && w.target == m.job.head then Failing(RolledBack)
               else RereadRollback(t))
    case RereadRollback(_) =>
      m.(pc := Failing(if r.ok && w.target != m.job.head then RollbackRejected else RollbackFailed))
    case _ => m
  }

  function StepForward(g: Graph, m: Machine, r: Reply): Machine {
    var w := m.world;
    match m.pc
    case CheckTarget(t) =>
      m.(pc := if !r.ok then Halted else if w.target != t then Retrying(w.target) else CheckAncestor(t))
    case CheckAncestor(t) => m.(pc := if r.ok && IsAncestor(g, t, m.job.head) then SwapTarget(t) else Halted)
    case SwapTarget(t) =>
      m.(world := CompareAndSet(w, t, m.job.head, r.effect),
         pc := if !r.ok then Halted
               else if r.effect && w.target == t then Persist(t)
               else RereadTarget(t))
    case RereadTarget(t) => m.(pc := if r.ok && w.target != t then Retrying(w.target) else Halted)
    case Persist(t) =>
      var settled := Settle(m, MarkMerged(m.job.head), r, MergedOutcome);
      if settled.pc == Halted then m.(pc := CheckRollback(t)) else settled
    case Retrying(actual) => Settle(m, RequeueAfterTargetMove(actual), r, RequeuedOutcome)
    case _ => m
  }

  /** What the repository is asked to record at a step, and what it means for the merge. */
  function Recorded(pc: Pc, job: Entry): Option<(Change, Outcome)> {
    match pc
    case Persist(_) => Some((MarkMerged(job.head), MergedOutcome))
    case Failing(note) => Some((MarkFailed(NoteText(note)), FailedOutcome))
    case Retrying(actual) => Some((RequeueAfterTargetMove(actual), RequeuedOutcome))
    case Requeueing(t, h) => Some((RequeueAfterRebase(t, h, REBASED), RequeuedOutcome))
    case OpeningTask(_, paths) => Some((MarkConflict(paths), ConflictOutcome))
    case _ => None
  }

  lemma RecordingSettles(g: Graph, m: Machine, r: Reply)
    requires Recorded(m.pc, m.job).Some?
    ensures var (c, outcome) := Recorded(m.pc, m.job).value;
            var e := Transition(m.world.entry, c, r.now);
            Proceed(g, m, r) == (if r.ok && e.Ok?
                                 then Machine(m.job, m.world.(entry := e.value), Done(outcome))
                                 else m.(pc := if m.pc.Persist? then CheckRollback(m.pc.t) else Halted))
  {
  }

  /** One step of the coordinator. */
  function Proceed(g: Graph, m: Machine, r: Reply): Machine {
    match m.pc
    case ReadTarget => m.(pc := if r.ok then ReadSource(m.world.target) else Failing(InspectFailed))
    case ReadSource(t) => m.(pc := if r.ok then ReadStatus(t, m.world.source) else Failing(InspectFailed))
    case ReadStatus(t, s) => m.(pc := if r.ok then AfterInspection(m.job, t, s, r.clean) else Failing(InspectFailed))
    case Failing(note) => Settle(m, MarkFailed(NoteText(note)), r, FailedOutcome)
    case Done(_) => m
    case Halted => m
    case _ =>
      if m.pc.CheckRollback? || m.pc.SwapBack? || m.pc.RereadRollback? then StepRollback(m, r)
      else if m.pc.RebaseFence? || m.pc.RebaseStart? || m.pc.RebaseRun? || m.pc.RebaseAbort? || m.pc.RebaseRead?
           || m.pc.Requeueing? || m.pc.OpeningTask?
      then StepRebase(g, m, r)
      else StepForward(g, m, r)
  }

  function Step(g: Graph, m: Machine, tick: Tick): Machine {
    match tick
    case Advance(reply) => Proceed(g, m, reply)
    case MoveTarget(c) => m.(world := Write(m.world, ThirdParty, c))
    case MoveSource(c) => m.(world := m.world.(source := c))
  }

  function Run(g: Graph, m: Machine, ticks: seq<Tick>): Machine {
    if ticks == [] then m else Step(g, Run(g, m, ticks[..|ticks| - 1]), ticks[|ticks| - 1])
  }

  /** The moment `begin_merge` has returned. */
  ghost predicate Begun(w: World) {
    w.entry.status == Merging && w.writes == [] && !w.rebasing && w.rebased == None
  }

  function Start(w: World): Machine {
    Machine(w.entry, w, ReadTarget)
  }

  // ----- Reconciliation -----------------------------------------------------------------------------------

  /** What the commands of one recovery answer. */
  datatype Probe = Probe(
    worktreeExists: bool,
    targetOk: bool,
    stateOk: bool,
    abortOk: bool,
    sourceOk: bool,
    ancestorOk: bool,
    persistOk: bool,
    now: int
  ) {
    predicate Clean() {
      worktreeExists && targetOk && stateOk && abortOk && sourceOk && ancestorOk && persistOk
    }

    predicate Looks() {
      worktreeExists && targetOk && stateOk && sourceOk
    }
  }

  datatype Observation =
    | SeenMerged(commit: Commit)
    | SeenRebased(target: Commit, head: Commit)
    | InterruptedRebase
    | Diverged
    | MissingWorktree

  function Recover(g: Graph, w: World, p: Probe): (World, Option<Observation>) {
    if !p.worktreeExists then (w, Some(MissingWorktree))
    else if !p.targetOk || !p.stateOk then (w, None)
    else if w.rebasing then
      if !p.abortOk then (w, None)
      else (w.(rebasing := false), if p.sourceOk then Some(InterruptedRebase) else None)
    else if !p.sourceOk then (w, None)
    else if w.target == w.entry.head then (w, Some(SeenMerged(w.target)))
    else if w.source != w.entry.head && !p.ancestorOk then (w, None)
    else if w.source != w.entry.head && IsAncestor(g, w.target, w.source)
    then (w, Some(SeenRebased(w.target, w.source)))
    else (w, Some(Diverged))
  }

  function RecoveryChange(seen: Option<Observation>): (Change, Outcome) {
    match seen
    case None => (MarkFailed("command failed"), FailedOutcome)
    case Some(SeenMerged(c)) => (MarkMerged(c), MergedOutcome)
    case Some(SeenRebased(t, h)) => (RequeueAfterRebase(t, h, RECOVERED), RequeuedOutcome)
    case Some(InterruptedRebase) => (MarkFailed("rebase aborted"), FailedOutcome)
    case Some(Diverged) => (MarkFailed("diverged"), FailedOutcome)
    case Some(MissingWorktree) => (MarkFailed("no worktree"), FailedOutcome)
  }

  /** Settle one stale entry; no outcome when the repository refuses. */
  function Reconcile(g: Graph, w: World, p: Probe): (World, Option<Outcome>) {
    var (seen, observation) := Recover(g, w, p);
    var (change, outcome) := RecoveryChange(observation);
    var e := Transition(w.entry, change, p.now);
    if p.persistOk && e.Ok? then (seen.(entry := e.value), Some(outcome)) else (seen, None)
  }
}
