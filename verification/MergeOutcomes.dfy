/** What a merge comes to when its surroundings answer well, path by path; the rollback of a merge that could not be
    recorded; and what it takes for a rollback to fail. */
module MergeOutcomes {
  import opened Prelude
  import opened MergeQueue
  import opened MergeExecution
  import opened MergeRecovery

  predicate Good(r: Reply) {
    r.ok && r.effect
  }

  /** `n` well-answered steps. */
  function Calm(r: Reply, n: nat): seq<Tick> {
    seq(n, _ => Advance(r))
  }

  /** The row is failed with this note, and nothing else has changed. */
  predicate FailedFor(m: Machine, w: World, note: Note, now: int) {
    && m.pc == Done(FailedOutcome)
    && m.world
       == w.(entry := w.entry.(status := EntryStatus.Failed, lastError := Some(NoteText(note)), updatedAt := now))
  }

  lemma NotesAreText(note: Note)
    ensures !Blank(NoteText(note))
  {
    match note
    case InspectFailed => assert "inspection failed"[0] == 'i';
    case Dirty => assert "dirty worktree"[0] == 'd';
    case HeadMismatch => assert "head mismatch"[0] == 'h';
    case RolledBack => assert "rolled back"[0] == 'r';
    case RollbackRejected => assert "rollback rejected"[0] == 'r';
    case RollbackFailed => assert "rollback failed"[0] == 'r';
  }

  lemma FailingRecords(g: Graph, m: Machine, r: Reply)
    requires r.ok && m.pc.Failing? && m.world.entry.status == Merging
    ensures FailedFor(Proceed(g, m, r), m.world, m.pc.note, r.now) && Proceed(g, m, r).job == m.job
  {
    NotesAreText(m.pc.note);
  }

  // ----- Calm merges ------------------------------------------------------------------------------------------------

  /** A worktree with uncommitted changes, or one that has left the queued head, fails the merge before anything
      is touched. */
  lemma BadSourceFails(g: Graph, w: World, r: Reply)
    requires Begun(w) && Good(r) && (!r.clean || w.source != w.entry.head)
    ensures FailedFor(Run(g, Start(w), Calm(r, 4)), w, if !r.clean then Dirty else HeadMismatch, r.now)
  {
    var m := Start(w);
    SteadyIsARun(g, m, r, 4);
    assert Steady(g, m, r, 1) == m.(pc := ReadSource(w.target));
    assert Steady(g, m, r, 2) == m.(pc := ReadStatus(w.target, w.source));
    var note := if !r.clean then Dirty else HeadMismatch;
    assert Steady(g, m, r, 3) == m.(pc := Failing(note));
    FailingRecords(g, Steady(g, m, r, 3), r);
  }

  /** An inspection that cannot be made fails it too. */
  lemma FailedInspectionFails(g: Graph, w: World, bad: Reply, r: Reply)
    requires Begun(w) && Good(r) && !bad.ok
    ensures FailedFor(Run(g, Start(w), [Advance(bad), Advance(r)]), w, InspectFailed, r.now)
  {
    var m := Start(w);
    assert [Advance(bad), Advance(r)][..1] == [Advance(bad)] && [Advance(bad)][..0] == [];
    assert Run(g, m, [Advance(bad)]) == m.(pc := Failing(InspectFailed));
    FailingRecords(g, m.(pc := Failing(InspectFailed)), r);
  }

  /** A head that does not contain its base is not merged; the coordinator stops with nothing changed. */
  lemma UnrelatedHeadStops(g: Graph, w: World, r: Reply)
    requires Begun(w) && Good(r) && r.clean && w.source == w.entry.head && w.target == w.entry.base
    requires !IsAncestor(g, w.entry.base, w.entry.head)
    ensures Run(g, Start(w), Calm(r, 5)) == Start(w).(pc := Halted)
  {
    var m := Start(w);
    SteadyIsARun(g, m, r, 5);
    InspectionPasses(g, w, r);
    assert Steady(g, m, r, 4) == m.(pc := CheckAncestor(w.target));
  }

  lemma MovedTargetIsSeen(g: Graph, m: Machine, r: Reply)
    requires Good(r) && m.pc.CheckTarget? && m.world.target != m.pc.t && m.world.entry.status == Merging
    ensures Steady(g, m, r, 2) ==
            m.(pc := Done(RequeuedOutcome),
               world := m.world.(entry := m.world.entry.(status := Queued, review := Pending, tests := Pending,
                                                         lastError := Some(MOVED), updatedAt := r.now)))
  {
    assert Steady(g, m, r, 1) == m.(pc := Retrying(m.world.target));
  }

  lemma InspectedThenMoved(g: Graph, w: World, r: Reply, c: Commit)
    requires Begun(w) && Good(r) && r.clean && w.source == w.entry.head && w.target == w.entry.base
    ensures Run(g, Start(w), Calm(r, 3) + [MoveTarget(c)]) ==
            Machine(w.entry, Write(w, ThirdParty, c), CheckTarget(w.target))
  {
    SteadyIsARun(g, Start(w), r, 3);
    InspectionPasses(g, w, r);
    RunSnoc(g, Start(w), Calm(r, 3), MoveTarget(c));
  }

  /** A target that moves after the inspection is left alone, and the entry goes back into the queue with open
      gates. */
  lemma MovedTargetRequeues(g: Graph, w: World, r: Reply, c: Commit)
    requires Begun(w) && Good(r) && r.clean && w.source == w.entry.head && w.target == w.entry.base && c != w.target
    ensures var m := Run(g, Start(w), Calm(r, 3) + [MoveTarget(c)] + Calm(r, 2));
            && m.pc == Done(RequeuedOutcome) && m.world.target == c && Own(m.world.writes) == []
            && m.world.entry == w.entry.(status := Queued, review := Pending, tests := Pending,
                                         lastError := Some(MOVED), updatedAt := r.now)
  {
    InspectedThenMoved(g, w, r, c);
    RunGoesOn(g, Start(w), Calm(r, 3) + [MoveTarget(c)], r, 2);
    MovedTargetIsSeen(g, Machine(w.entry, Write(w, ThirdParty, c), CheckTarget(w.target)), r);
    OwnSnoc([], RefWrite(ThirdParty, w.target, c));
  }

  lemma CheckedThenMoved(g: Graph, w: World, r: Reply, c: Commit)
    requires Begun(w) && Good(r) && r.clean && w.source == w.entry.head && w.target == w.entry.base
    requires IsAncestor(g, w.entry.base, w.entry.head)
    ensures Run(g, Start(w), Calm(r, 5) + [MoveTarget(c)]) ==
            Machine(w.entry, Write(w, ThirdParty, c), SwapTarget(w.target))
  {
    var m := Start(w);
    SteadyIsARun(g, m, r, 5);
    InspectionPasses(g, w, r);
    assert Steady(g, m, r, 4) == m.(pc := CheckAncestor(w.target));
    assert Steady(g, m, r, 5) == m.(pc := SwapTarget(w.target));
    RunSnoc(g, m, Calm(r, 5), MoveTarget(c));
  }

  lemma RefusedSwapIsSeen(g: Graph, m: Machine, r: Reply)
    requires Good(r) && m.pc.SwapTarget? && m.world.target != m.pc.t && m.world.entry.status == Merging
    ensures Steady(g, m, r, 3) ==
            m.(pc := Done(RequeuedOutcome),
               world := m.world.(entry := m.world.entry.(status := Queued, review := Pending, tests := Pending,
                                                         lastError := Some(MOVED), updatedAt := r.now)))
  {
    assert Steady(g, m, r, 1) == m.(pc := RereadTarget(m.pc.t));
    assert Steady(g, m, r, 2) == m.(pc := Retrying(m.world.target));
  }

  /** And so is one that moves after all checks, at the last moment: its write is refused, seen to be refused, and the
      entry goes back into the queue. */
  lemma RefusedSwapRequeues(g: Graph, w: World, r: Reply, c: Commit)
    requires Begun(w) && Good(r) && r.clean && w.source == w.entry.head && w.target == w.entry.base && c != w.target
    requires IsAncestor(g, w.entry.base, w.entry.head)
    ensures var m := Run(g, Start(w), Calm(r, 5) + [MoveTarget(c)] + Calm(r, 3));
            && m.pc == Done(RequeuedOutcome) && m.world.target == c && Own(m.world.writes) == []
            && m.world.entry == w.entry.(status := Queued, review := Pending, tests := Pending,
                                         lastError := Some(MOVED), updatedAt := r.now)
  {
    CheckedThenMoved(g, w, r, c);
    RunGoesOn(g, Start(w), Calm(r, 5) + [MoveTarget(c)], r, 3);
    RefusedSwapIsSeen(g, Machine(w.entry, Write(w, ThirdParty, c), SwapTarget(w.target)), r);
    OwnSnoc([], RefWrite(ThirdParty, w.target, c));
  }

  /** The target is still where the coordinator saw it. */
  predicate SeenWhereItIs(m: Machine) {
    match m.pc
    case ReadSource(t) => m.world.target == t
    case ReadStatus(t, _) => m.world.target == t
    case CheckTarget(t) => m.world.target == t
    case CheckAncestor(t) => m.world.target == t
    case SwapTarget(t) => m.world.target == t
    case RereadTarget(t) => m.world.target == t
    case Retrying(_) => false
    case _ => true
  }

  lemma SeenStep(g: Graph, m: Machine, tick: Tick)
    requires SeenWhereItIs(m) && !tick.MoveTarget?
    ensures SeenWhereItIs(Step(g, m, tick))
  {
  }

  /** Only a target that somebody really moved sends an entry back for having moved. */
  lemma {:induction false} NobodyMovedNobodyRetries(g: Graph, w: World, ticks: seq<Tick>)
    requires forall t <- ticks :: !t.MoveTarget?
    ensures SeenWhereItIs(Run(g, Start(w), ticks))
    ensures !Run(g, Start(w), ticks).pc.Retrying?
  {
    if ticks == [] {
    } else {
      var front, last := ticks[..|ticks| - 1], ticks[|ticks| - 1];
      assert last in ticks;
      NobodyMovedNobodyRetries(g, w, front);
      SeenStep(g, Run(g, Start(w), front), last);
    }
  }

  /** The machine about to run the rebase. */
  lemma RebaseBegins(g: Graph, w: World, r: Reply)
    requires Begun(w) && Good(r) && r.clean && w.source == w.entry.head && w.target != w.entry.base
    ensures Steady(g, Start(w), r, 5) == Start(w).(world := w.(rebasing := true), pc := RebaseRun(w.target))
  {
    var m := Start(w);
    InspectionPasses(g, w, r);
    assert Steady(g, m, r, 4) == m.(pc := RebaseStart(w.target));
  }

  /** When the target has moved before the merge and the rebase finishes, the entry is queued again on the target it
      was rebased onto, with the new head and open gates; the target is not touched. */
  lemma RebaseRequeues(g: Graph, w: World, r: Reply)
    requires Begun(w) && Good(r) && r.clean && w.source == w.entry.head && w.target != w.entry.base
    requires r.rebase.Finished? && IsAncestor(g, w.target, r.rebase.head)
    ensures var m := Run(g, Start(w), Calm(r, 8));
            && m.pc == Done(RequeuedOutcome)
            && m.world.target == w.target && m.world.writes == [] && !m.world.rebasing
            && m.world.source == r.rebase.head
            && m.world.entry == w.entry.(base := w.target, head := r.rebase.head, status := Queued, review := Pending,
                                         tests := Pending, mergeCommit := None, conflict := {},
                                         lastError := Some(REBASED), updatedAt := r.now)
  {
    var m, h := Start(w), r.rebase.head;
    SteadyIsARun(g, m, r, 8);
    RebaseBegins(g, w, r);
    var rebased := w.(source := h, rebased := Some(h));
    assert Steady(g, m, r, 6) == Machine(w.entry, rebased, RebaseRead(w.target));
    assert Steady(g, m, r, 7) == Machine(w.entry, rebased, Requeueing(w.target, h));
  }

  /** When it stops at conflicts, it is aborted and the entry is in conflict over exactly those paths; neither ref
      is touched. */
  lemma RebaseConflicts(g: Graph, w: World, r: Reply)
    requires Begun(w) && Good(r) && r.clean && w.source == w.entry.head && w.target != w.entry.base
    requires r.rebase.Stopped? && NonBlank(r.rebase.paths) != {}
    ensures var m := Run(g, Start(w), Calm(r, 8));
            && m.pc == Done(ConflictOutcome)
            && m.world == w.(entry := w.entry.(status := Conflict, conflict := NonBlank(r.rebase.paths),
                                               updatedAt := r.now))
  {
    var m, paths := Start(w), r.rebase.paths;
    SteadyIsARun(g, m, r, 8);
    RebaseBegins(g, w, r);
    assert Steady(g, m, r, 6) == m.(world := w.(rebasing := true), pc := RebaseAbort(w.target, paths));
    assert Steady(g, m, r, 7) == m.(pc := OpeningTask(w.target, paths));
  }

  // ----- Compensation -----------------------------------------------------------------------------------------------

  /** Once a merge could not be recorded, three well-answered steps take the forward write back and fail the entry. */
  lemma RollbackRuns(g: Graph, m: Machine, r: Reply)
    requires Good(r) && m.pc.CheckRollback? && m.world.target == m.job.head && m.world.entry.status == Merging
    ensures FailedFor(Steady(g, m, r, 3), Write(m.world, Coordinator, m.pc.t), RolledBack, r.now)
  {
    var back := Write(m.world, Coordinator, m.pc.t);
    assert Steady(g, m, r, 1) == m.(pc := SwapBack(m.pc.t));
    assert Steady(g, m, r, 2) == m.(world := back, pc := Failing(RolledBack));
    FailingRecords(g, Steady(g, m, r, 2), r);
  }

  lemma WrittenNotRecorded(g: Graph, w: World, r: Reply, bad: Reply)
    requires Begun(w) && Good(r) && r.clean && w.source == w.entry.head && w.target == w.entry.base
    requires IsAncestor(g, w.entry.base, w.entry.head) && !bad.ok
    ensures Run(g, Start(w), Calm(r, 6) + [Advance(bad)]) ==
            Machine(w.entry, Write(w, Coordinator, w.entry.head), CheckRollback(w.entry.base))
  {
    var m := Start(w);
    SteadyIsARun(g, m, r, 6);
    InspectionPasses(g, w, r);
    ForwardPasses(g, Steady(g, m, r, 3), r, Steady(g, m, r, 4), Steady(g, m, r, 5), Steady(g, m, r, 6));
    RunSnoc(g, m, Calm(r, 6), Advance(bad));
  }

  /** A merge whose forward write could not be recorded, while everything else goes well, restores the target and
      fails the entry. */
  lemma UnrecordedMergeIsTakenBack(g: Graph, w: World, r: Reply, bad: Reply)
    requires Begun(w) && Good(r) && r.clean && w.source == w.entry.head && w.target == w.entry.base
    requires IsAncestor(g, w.entry.base, w.entry.head) && !bad.ok
    ensures var m := Run(g, Start(w), Calm(r, 6) + [Advance(bad)] + Calm(r, 3));
            && m.pc == Done(FailedOutcome) && m.world.target == w.entry.base
            && m.world.writes == [Forward(w.entry), Backward(w.entry)]
            && m.world.entry.status == EntryStatus.Failed && m.world.entry.lastError == Some(NoteText(RolledBack))
  {
    WrittenNotRecorded(g, w, r, bad);
    RunGoesOn(g, Start(w), Calm(r, 6) + [Advance(bad)], r, 3);
    RollbackRuns(g, Machine(w.entry, Write(w, Coordinator, w.entry.head), CheckRollback(w.entry.base)), r);
  }

  lemma {:induction false} RunGoesOn(g: Graph, m: Machine, ticks: seq<Tick>, r: Reply, n: nat)
    ensures Run(g, m, ticks + Calm(r, n)) == Steady(g, Run(g, m, ticks), r, n)
  {
    if n == 0 {
      assert ticks + Calm(r, 0) == ticks;
    } else {
      RunGoesOn(g, m, ticks, r, n - 1);
      assert ticks + Calm(r, n) == ticks + Calm(r, n - 1) + [Advance(r)];
      RunSnoc(g, m, ticks + Calm(r, n - 1), Advance(r));
    }
  }

  // ----- What it takes for a rollback to fail ----------------------------------------------------------------------

  predicate RollingBack(pc: Pc) {
    pc.CheckRollback? || pc.SwapBack? || pc.RereadRollback?
  }

  /** During the rollback a command failed or had no effect, or somebody moved the target. */
  predicate TroubledAt(g: Graph, w: World, ticks: seq<Tick>, i: nat) {
    && i < |ticks|
    && RollingBack(Run(g, Start(w), ticks[..i]).pc)
    && (ticks[i].MoveTarget? || (ticks[i].Advance? && !Good(ticks[i].reply)))
  }

  ghost predicate Troubled(g: Graph, w: World, ticks: seq<Tick>) {
    exists i: nat :: TroubledAt(g, w, ticks, i)
  }

  lemma TroubleSnoc(g: Graph, w: World, before: seq<Tick>, tick: Tick)
    ensures Troubled(g, w, before) ==> Troubled(g, w, before + [tick])
    ensures RollingBack(Run(g, Start(w), before).pc) && (tick.MoveTarget? || (tick.Advance? && !Good(tick.reply))) ==>
              Troubled(g, w, before + [tick])
  {
    var ticks := before + [tick];
    if Troubled(g, w, before) {
      var i: nat :| TroubledAt(g, w, before, i);
      assert ticks[..i] == before[..i];
      assert TroubledAt(g, w, ticks, i);
    }
    if RollingBack(Run(g, Start(w), before).pc) && (tick.MoveTarget? || (tick.Advance? && !Good(tick.reply))) {
      assert ticks[..|before|] == before;
      assert TroubledAt(g, w, ticks, |before|);
    }
  }

  /** A rollback that was not troubled so far has the target at the head before it and needs no second look. */
  ghost predicate RollbackOnCourse(m: Machine, troubled: bool) {
    troubled ||
    (&& (m.pc.SwapBack? ==> m.world.target == m.job.head)
     && !m.pc.RereadRollback? && m.pc != Failing(RollbackFailed))
  }

  lemma RollbackStep(g: Graph, m: Machine, tick: Tick)
    requires RollbackOnCourse(m, false)
    requires RollingBack(m.pc) ==> tick.MoveSource? || (tick.Advance? && Good(tick.reply))
    ensures RollbackOnCourse(Step(g, m, tick), false)
  {
  }

  lemma {:induction false} RollbackCourse(g: Graph, w: World, ticks: seq<Tick>)
    ensures RollbackOnCourse(Run(g, Start(w), ticks), Troubled(g, w, ticks))
  {
    if ticks == [] {
    } else {
      var before, tick := ticks[..|ticks| - 1], ticks[|ticks| - 1];
      RollbackCourse(g, w, before);
      assert ticks == before + [tick];
      TroubleSnoc(g, w, before, tick);
      if !Troubled(g, w, ticks) {
        RollbackStep(g, Run(g, Start(w), before), tick);
      }
    }
  }

  /** Under any interference: a rollback fails only if during it a command failed or had no effect, or somebody moved
      the target. */
  lemma RollbackFailsOnlyInTrouble(g: Graph, w: World, ticks: seq<Tick>)
    requires Run(g, Start(w), ticks).pc == Failing(RollbackFailed)
    ensures Troubled(g, w, ticks)
  {
    RollbackCourse(g, w, ticks);
  }

  /** What the end of a rollback says is true of that moment: it is rejected exactly if the target was seen away from
      the merged head, done exactly if it was put back, and otherwise failed. */
  lemma RollbackNoteTells(g: Graph, w: World, ticks: seq<Tick>, r: Reply)
    requires RollingBack(Run(g, Start(w), ticks).pc) && Run(g, Start(w), ticks + [Advance(r)]).pc.Failing?
    ensures var m, m' := Run(g, Start(w), ticks), Run(g, Start(w), ticks + [Advance(r)]);
            && (m'.pc.note == RollbackRejected <==> r.ok && m.world.target != m.job.head)
            && (m'.pc.note == RolledBack <==> r.ok && m'.world.writes != m.world.writes)
            && m'.pc.note in {RollbackRejected, RolledBack, RollbackFailed}
  {
    RunSnoc(g, Start(w), ticks, Advance(r));
  }

  // ----- Smooth merges ---------------------------------------------------------------------------------------------

  /** Every command and transaction works, a rebase ends one way or the other, and nobody else moves the target. */
  predicate Smooth(tick: Tick) {
    match tick
    case Advance(r) => Good(r) && (r.rebase.Finished? || (r.rebase.Stopped? && NonBlank(r.rebase.paths) != {}))
    case MoveTarget(_) => false
    case MoveSource(_) => true
  }

  predicate PcOnCourse(m: Machine) {
    match m.pc
    case ReadSource(t) => m.world.target == t
    case ReadStatus(t, _) => m.world.target == t
    case CheckTarget(t) => m.world.target == t
    case CheckAncestor(t) => m.world.target == t
    case SwapTarget(t) => m.world.target == t
    case RebaseAbort(_, paths) => NonBlank(paths) != {}
    case OpeningTask(_, paths) => NonBlank(paths) != {}
    case RereadTarget(_) => false
    case Retrying(_) => false
    case Halted => false
    case _ => !RollingBack(m.pc)
  }

  ghost predicate OnCourse(g: Graph, first: Commit, m: Machine) {
    MachineInv(g, first, m) && PcOnCourse(m)
  }

  /** The steps that record something end the merge. */
  lemma SmoothEnd(g: Graph, m: Machine, r: Reply)
    requires PcOnCourse(m) && Recorded(m.pc, m.job).Some? && r.ok
    requires m.world.entry == m.job && m.job.status == Merging
    ensures PcOnCourse(Proceed(g, m, r))
  {
    if m.pc.Failing? { NotesAreText(m.pc.note); }
    RecordingSettles(g, m, r);
  }

  lemma SmoothRebase(g: Graph, m: Machine, r: Reply)
    requires PcOnCourse(m) && Smooth(Advance(r)) && Recorded(m.pc, m.job).None?
    requires m.pc.RebaseFence? || m.pc.RebaseStart? || m.pc.RebaseRun? || m.pc.RebaseAbort? || m.pc.RebaseRead?
    ensures PcOnCourse(Proceed(g, m, r))
  {
  }

  lemma SmoothForward(g: Graph, m: Machine, r: Reply)
    requires PcOnCourse(m) && Smooth(Advance(r)) && Recorded(m.pc, m.job).None?
    requires m.pc.CheckAncestor? ==> m.pc.t == m.job.base
    requires !(m.pc.RebaseFence? || m.pc.RebaseStart? || m.pc.RebaseRun? || m.pc.RebaseAbort? || m.pc.RebaseRead?)
    requires IsAncestor(g, m.job.base, m.job.head)
    ensures PcOnCourse(Proceed(g, m, r))
  {
  }

  lemma SmoothStep(g: Graph, first: Commit, m: Machine, tick: Tick)
    requires OnCourse(g, first, m) && Smooth(tick) && IsAncestor(g, m.job.base, m.job.head)
    ensures OnCourse(g, first, Step(g, m, tick)) && Step(g, m, tick).job == m.job
  {
    StepKeeps(g, first, m, tick);
    if tick.Advance? {
      if Recorded(m.pc, m.job).Some? {
        SmoothEnd(g, m, tick.reply);
      } else if m.pc.RebaseFence? || m.pc.RebaseStart? || m.pc.RebaseRun? || m.pc.RebaseAbort? || m.pc.RebaseRead? {
        SmoothRebase(g, m, tick.reply);
      } else {
        SmoothForward(g, m, tick.reply);
      }
    }
  }

  lemma {:induction false} SmoothRun(g: Graph, w: World, ticks: seq<Tick>)
    requires Begun(w) && IsAncestor(g, w.entry.base, w.entry.head) && forall t <- ticks :: Smooth(t)
    ensures OnCourse(g, w.target, Run(g, Start(w), ticks)) && Run(g, Start(w), ticks).job == w.entry
  {
    if ticks == [] {
      MachineInvAlways(g, w, []);
    } else {
      var front, t := ticks[..|ticks| - 1], ticks[|ticks| - 1];
      assert t in ticks;
      SmoothRun(g, w, front);
      SmoothStep(g, w.target, Run(g, Start(w), front), t);
    }
  }

  /** A merge in which everything works, of a head that contains its base, never stops halfway and never has to take
      anything back: after eleven steps it has an outcome, and what it wrote is what it recorded. */
  lemma SmoothMergeHasAnOutcome(g: Graph, w: World, ticks: seq<Tick>)
    requires Begun(w) && IsAncestor(g, w.entry.base, w.entry.head) && forall t <- ticks :: Smooth(t)
    requires Honest(g, Start(w), ticks) && Advances(ticks) >= 11
    ensures var m := Run(g, Start(w), ticks);
            && m.pc.Done?
            && (m.pc.outcome == MergedOutcome <==> Own(m.world.writes) == [Forward(w.entry)])
            && (m.pc.outcome != MergedOutcome ==> Own(m.world.writes) == [])
  {
    SmoothRun(g, w, ticks);
    EveryMergeEnds(g, w, ticks);
    SmoothWrites(g, w, ticks);
  }

  /** Without a rollback the forward write is there exactly while it is being recorded or has been. */
  lemma {:induction false} SmoothWrites(g: Graph, w: World, ticks: seq<Tick>)
    requires Begun(w) && IsAncestor(g, w.entry.base, w.entry.head) && forall t <- ticks :: Smooth(t)
    ensures var m := Run(g, Start(w), ticks);
            Own(m.world.writes) ==
              if m.pc.Persist? || m.pc == Done(MergedOutcome) then [Forward(w.entry)] else []
  {
    if ticks == [] {
      assert Own(w.writes) == [];
    } else {
      var front, t := ticks[..|ticks| - 1], ticks[|ticks| - 1];
      assert t in ticks;
      SmoothWrites(g, w, front);
      SmoothRun(g, w, front);
      SmoothRun(g, w, ticks);
      SmoothWrite(g, w.target, Run(g, Start(w), front), t);
    }
  }

  lemma SmoothWrite(g: Graph, first: Commit, m: Machine, tick: Tick)
    requires OnCourse(g, first, m) && Smooth(tick) && OnCourse(g, first, Step(g, m, tick))
    requires Own(m.world.writes) == if m.pc.Persist? || m.pc == Done(MergedOutcome) then [Forward(m.job)] else []
    ensures var m' := Step(g, m, tick);
            Own(m'.world.writes) == if m'.pc.Persist? || m'.pc == Done(MergedOutcome) then [Forward(m.job)] else []
  {
    if m.pc.SwapTarget? && tick.Advance? {
      OwnSnoc(m.world.writes, RefWrite(Coordinator, m.world.target, m.job.head));
    } else if m.pc.Failing? {
      NotesAreText(m.pc.note);
    }
  }
}
