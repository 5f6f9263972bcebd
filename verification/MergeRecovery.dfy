/** What the coordinator keeps under any interference, and how a merge ends. */
module MergeRecovery {
  import opened Prelude
  import opened MergeQueue
  import opened MergeExecution

  // ----- Writes of the target ref ----------------------------------------------------------------------

  function Forward(job: Entry): RefWrite {
    RefWrite(Coordinator, job.base, job.head)
  }

  function Backward(job: Entry): RefWrite {
    RefWrite(Coordinator, job.head, job.base)
  }

  /** The coordinator's own writes, in order. */
  function Own(writes: seq<RefWrite>): seq<RefWrite> {
    if writes == [] then []
    else
      var own := Own(writes[..|writes| - 1]);
      if writes[|writes| - 1].author == Coordinator then own + [writes[|writes| - 1]] else own
  }

  lemma OwnSnoc(writes: seq<RefWrite>, w: RefWrite)
    ensures Own(writes + [w]) == if w.author == Coordinator then Own(writes) + [w] else Own(writes)
  {
    assert (writes + [w])[..|writes|] == writes;
  }

  /** Each write replaces the value the ref had, starting from `first` and ending at `last`. */
  predicate Chained(first: Commit, writes: seq<RefWrite>, last: Commit) {
    if writes == [] then first == last
    else writes[|writes| - 1].after == last && Chained(first, writes[..|writes| - 1], writes[|writes| - 1].before)
  }

  lemma ChainedSnoc(first: Commit, w: World, author: Author, c: Commit)
    requires Chained(first, w.writes, w.target)
    ensures Chained(first, Write(w, author, c).writes, c)
  {
    assert Write(w, author, c).writes[..|w.writes|] == w.writes;
  }

  // ----- The invariant ---------------------------------------------------------------------------------

  /** Which writes of its own the coordinator can have behind it at each point. */
  ghost predicate WritesMatch(m: Machine) {
    var own, f, b := Own(m.world.writes), Forward(m.job), Backward(m.job);
    match m.pc
    case Persist(_) => own == [f]
    case CheckRollback(_) => own == [f]
    case SwapBack(_) => own == [f]
    case RereadRollback(_) => own == [f]
    case Failing(note) => (
      match note
      case RolledBack => own == [f, b]
      case RollbackRejected => own == [f]
      case RollbackFailed => own == [f] || own == [f, b]
      case _ => own == [])
    case Done(outcome) => (
      match outcome
      case MergedOutcome => own == [f]
      case FailedOutcome => own == [] || own == [f] || own == [f, b]
      case _ => own == [])
    case Halted => own == [] || own == [f] || own == [f, b]
    case _ => own == []
  }

  /** The inspected commit is the entry's base wherever a write may follow. */
  ghost predicate BaseMatches(m: Machine) {
    match m.pc
    case CheckTarget(t) => t == m.job.base
    case CheckAncestor(t) => t == m.job.base
    case SwapTarget(t) => t == m.job.base
    case RereadTarget(t) => t == m.job.base
    case Persist(t) => t == m.job.base
    case CheckRollback(t) => t == m.job.base
    case SwapBack(t) => t == m.job.base
    case RereadRollback(t) => t == m.job.base
    case _ => true
  }

  ghost predicate RowMatches(m: Machine) {
    match m.pc
    case Done(outcome) => (
      match outcome
      case MergedOutcome =>
        m.world.entry == m.job.(status := Merged, mergeCommit := Some(m.job.head), updatedAt := m.world.entry.updatedAt)
      case RequeuedOutcome => m.world.entry.status == Queued && !m.world.entry.GatesPassed()
      case ConflictOutcome => m.world.entry.status == Conflict
      case FailedOutcome => m.world.entry.status == Failed)
    case _ => m.world.entry == m.job
  }

  /** A rebase is under way, or the ref was moved forward; never both. Forward means to a descendant. */
  ghost predicate GitMatches(g: Graph, m: Machine) {
    && (m.pc.SwapTarget? || Own(m.world.writes) != [] ==> IsAncestor(g, m.job.base, m.job.head))
    && (m.world.rebasing ==> Own(m.world.writes) == [] && (m.pc.RebaseRun? || m.pc.RebaseAbort? || m.pc == Halted))
    && (m.world.rebased.Some? ==> Own(m.world.writes) == [] && !m.world.rebasing)
    && (m.pc.RebaseRun? || m.pc.RebaseAbort? ==> m.world.rebased.None?)
    && (m.world.rebased.Some? ==>
          m.pc.RebaseRead? || m.pc.Requeueing? || m.pc == Halted || m.pc == Done(RequeuedOutcome))
  }

  ghost predicate MachineInv(g: Graph, first: Commit, m: Machine) {
    && m.job.status == Merging
    && WritesMatch(m) && BaseMatches(m) && RowMatches(m) && GitMatches(g, m)
    && Chained(first, m.world.writes, m.world.target)
  }

  lemma SwapKeeps(g: Graph, first: Commit, m: Machine, r: Reply)
    requires MachineInv(g, first, m) && m.pc.SwapTarget?
    ensures MachineInv(g, first, StepForward(g, m, r))
  {
    OwnSnoc(m.world.writes, RefWrite(Coordinator, m.world.target, m.job.head));
    ChainedSnoc(first, m.world, Coordinator, m.job.head);
  }

  lemma ForwardKeeps(g: Graph, first: Commit, m: Machine, r: Reply)
    requires MachineInv(g, first, m)
    requires m.pc.CheckTarget? || m.pc.CheckAncestor? || m.pc.RereadTarget? || m.pc.Persist? || m.pc.Retrying?
    ensures MachineInv(g, first, StepForward(g, m, r))
  {
  }

  lemma RollbackKeeps(g: Graph, first: Commit, m: Machine, r: Reply)
    requires MachineInv(g, first, m)
    requires m.pc.CheckRollback? || m.pc.SwapBack? || m.pc.RereadRollback?
    ensures MachineInv(g, first, StepRollback(m, r))
  {
    OwnSnoc(m.world.writes, RefWrite(Coordinator, m.world.target, m.job.base));
    ChainedSnoc(first, m.world, Coordinator, m.job.base);
  }

  lemma EndOfRebaseKeeps(g: Graph, first: Commit, m: Machine, r: Reply)
    requires MachineInv(g, first, m) && m.pc.RebaseRun?
    ensures MachineInv(g, first, EndRebase(g, m, m.pc.t, r))
  {
  }

  lemma SettlingRebaseKeeps(g: Graph, first: Commit, m: Machine, r: Reply)
    requires MachineInv(g, first, m) && (m.pc.Requeueing? || m.pc.OpeningTask?)
    ensures MachineInv(g, first, StepRebase(g, m, r))
  {
  }

  lemma RebaseKeeps(g: Graph, first: Commit, m: Machine, r: Reply)
    requires MachineInv(g, first, m)
    requires m.pc.RebaseFence? || m.pc.RebaseStart? || m.pc.RebaseRun? || m.pc.RebaseAbort? || m.pc.RebaseRead?
          || m.pc.Requeueing? || m.pc.OpeningTask?
    ensures MachineInv(g, first, StepRebase(g, m, r))
  {
    if m.pc.RebaseRun? {
      EndOfRebaseKeeps(g, first, m, r);
    } else if m.pc.Requeueing? || m.pc.OpeningTask? {
      SettlingRebaseKeeps(g, first, m, r);
    }
  }

  lemma FailingKeeps(g: Graph, first: Commit, m: Machine, r: Reply)
    requires MachineInv(g, first, m) && m.pc.Failing?
    ensures MachineInv(g, first, Proceed(g, m, r))
  {
  }

  lemma InspectionKeeps(g: Graph, first: Commit, m: Machine, r: Reply)
    requires MachineInv(g, first, m)
    requires m.pc.ReadTarget? || m.pc.ReadSource? || m.pc.ReadStatus? || m.pc.Failing? || m.pc.Done? || m.pc.Halted?
    ensures MachineInv(g, first, Proceed(g, m, r))
  {
    if m.pc.Failing? { FailingKeeps(g, first, m, r); }
  }

  lemma InterferenceKeeps(g: Graph, first: Commit, m: Machine, tick: Tick)
    requires MachineInv(g, first, m) && !tick.Advance?
    ensures MachineInv(g, first, Step(g, m, tick))
  {
    if tick.MoveTarget? {
      OwnSnoc(m.world.writes, RefWrite(ThirdParty, m.world.target, tick.c));
      ChainedSnoc(first, m.world, ThirdParty, tick.c);
    }
  }

  lemma ProceedKeeps(g: Graph, first: Commit, m: Machine, r: Reply)
    requires MachineInv(g, first, m)
    ensures MachineInv(g, first, Proceed(g, m, r))
  {
    if m.pc.CheckRollback? || m.pc.SwapBack? || m.pc.RereadRollback? {
      RollbackKeeps(g, first, m, r);
    } else if m.pc.RebaseFence? || m.pc.RebaseStart? || m.pc.RebaseRun? || m.pc.RebaseAbort? || m.pc.RebaseRead?
           || m.pc.Requeueing? || m.pc.OpeningTask? {
      RebaseKeeps(g, first, m, r);
    } else if m.pc.SwapTarget? {
      SwapKeeps(g, first, m, r);
    } else if m.pc.CheckTarget? || m.pc.CheckAncestor? || m.pc.RereadTarget? || m.pc.Persist? || m.pc.Retrying? {
      ForwardKeeps(g, first, m, r);
    } else {
      InspectionKeeps(g, first, m, r);
    }
  }

  lemma JobStays(g: Graph, m: Machine, tick: Tick)
    ensures Step(g, m, tick).job == m.job
  {
  }

  lemma StepKeeps(g: Graph, first: Commit, m: Machine, tick: Tick)
    requires MachineInv(g, first, m)
    ensures MachineInv(g, first, Step(g, m, tick)) && Step(g, m, tick).job == m.job
  {
    JobStays(g, m, tick);
    if tick.Advance? { ProceedKeeps(g, first, m, tick.reply); } else { InterferenceKeeps(g, first, m, tick); }
  }

  lemma StartKeeps(g: Graph, w: World)
    requires Begun(w)
    ensures MachineInv(g, w.target, Start(w))
  {
    assert Own(w.writes) == [];
  }

  lemma {:induction false} MachineInvAlways(g: Graph, w: World, ticks: seq<Tick>)
    requires Begun(w)
    ensures MachineInv(g, w.target, Run(g, Start(w), ticks)) && Run(g, Start(w), ticks).job == w.entry
  {
    if ticks == [] {
      StartKeeps(g, w);
    } else {
      MachineInvAlways(g, w, ticks[..|ticks| - 1]);
      StepKeeps(g, w.target, Run(g, Start(w), ticks[..|ticks| - 1]), ticks[|ticks| - 1]);
    }
  }

  // ----- Progress --------------------------------------------------------------------------------------

  /** How many steps are left at most. */
  function StepsLeft(pc: Pc): nat {
    match pc
    case ReadTarget => 11
    case ReadSource(_) => 10
    case ReadStatus(_, _) => 9
    case CheckTarget(_) => 8
    case CheckAncestor(_) => 7
    case SwapTarget(_) => 6
    case Persist(_) => 5
    case RebaseFence(_) => 5
    case CheckRollback(_) => 4
    case RebaseStart(_) => 4
    case SwapBack(_) => 3
    case RebaseRun(_) => 3
    case RereadTarget(_) => 2
    case RereadRollback(_) => 2
    case RebaseAbort(_, _) => 2
    case RebaseRead(_) => 2
    case Done(_) => 0
    case Halted => 0
    case _ => 1
  }

  function Advances(ticks: seq<Tick>): nat {
    if ticks == [] then 0 else Advances(ticks[..|ticks| - 1]) + if ticks[|ticks| - 1].Advance? then 1 else 0
  }

  /** A rebase that finishes yields a descendant of the commit it was asked to rebase onto. */
  predicate HonestReply(g: Graph, m: Machine, r: Reply) {
    m.pc.RebaseRun? && r.rebase.Finished? ==> IsAncestor(g, m.pc.t, r.rebase.head)
  }

  predicate Honest(g: Graph, m: Machine, ticks: seq<Tick>) {
    ticks == [] ||
    (&& Honest(g, m, ticks[..|ticks| - 1])
     && (ticks[|ticks| - 1].Advance? ==> HonestReply(g, Run(g, m, ticks[..|ticks| - 1]), ticks[|ticks| - 1].reply)))
  }

  lemma {:induction false} StepsRunOut(g: Graph, w: World, ticks: seq<Tick>)
    requires Honest(g, Start(w), ticks)
    ensures var left := StepsLeft(Run(g, Start(w), ticks).pc);
            left == 0 || Advances(ticks) + left <= 11
  {
    if ticks == [] {
    } else {
      StepsRunOut(g, w, ticks[..|ticks| - 1]);
      var m, last := Run(g, Start(w), ticks[..|ticks| - 1]), ticks[|ticks| - 1];
      if last.Advance? {
        NobodyWaits(g, m, last.reply);
        StepCounts(g, m, last.reply);
      }
    }
  }

  /** A merge ends: whatever the surroundings answer and third parties do, after eleven steps of the coordinator
      it has an outcome or has stopped. */
  lemma EveryMergeEnds(g: Graph, w: World, ticks: seq<Tick>)
    requires Honest(g, Start(w), ticks) && Advances(ticks) >= 11
    ensures Run(g, Start(w), ticks).pc.Done? || Run(g, Start(w), ticks).pc == Halted
  {
    StepsRunOut(g, w, ticks);
  }

  lemma RebaseCounts(g: Graph, m: Machine, r: Reply)
    ensures StepRebase(g, m, r) == m || StepsLeft(StepRebase(g, m, r).pc) < StepsLeft(m.pc)
  {
  }

  lemma ForwardCounts(g: Graph, m: Machine, r: Reply)
    ensures StepForward(g, m, r) == m || StepsLeft(StepForward(g, m, r).pc) < StepsLeft(m.pc)
    ensures StepRollback(m, r) == m || StepsLeft(StepRollback(m, r).pc) < StepsLeft(m.pc)
  {
  }

  lemma StepCounts(g: Graph, m: Machine, r: Reply)
    ensures Proceed(g, m, r) == m || StepsLeft(Proceed(g, m, r).pc) < StepsLeft(m.pc)
  {
    RebaseCounts(g, m, r);
    ForwardCounts(g, m, r);
  }

  /** No answer keeps the coordinator where it is. */
  lemma NobodyWaits(g: Graph, m: Machine, r: Reply)
    requires HonestReply(g, m, r)
    ensures StepsLeft(m.pc) > 0 ==> Proceed(g, m, r) != m
  {
  }

  /** `n` steps of the coordinator, all answered alike. */
  function Steady(g: Graph, m: Machine, r: Reply, n: nat): Machine {
    if n == 0 then m else Proceed(g, Steady(g, m, r, n - 1), r)
  }

  lemma RunSnoc(g: Graph, m: Machine, ticks: seq<Tick>, tick: Tick)
    ensures Run(g, m, ticks + [tick]) == Step(g, Run(g, m, ticks), tick)
  {
    assert (ticks + [tick])[..|ticks|] == ticks;
  }

  lemma {:induction false} SteadyIsARun(g: Graph, m: Machine, r: Reply, n: nat)
    ensures Run(g, m, seq(n, _ => Advance(r))) == Steady(g, m, r, n)
  {
    if n == 0 {
    } else {
      SteadyIsARun(g, m, r, n - 1);
      RunSnoc(g, m, seq(n - 1, _ => Advance(r)), Advance(r));
      assert seq(n, _ => Advance(r)) == seq(n - 1, _ => Advance(r)) + [Advance(r)];
    }
  }

  /** Three undisturbed steps decide which way a merge goes. */
  lemma InspectionPasses(g: Graph, w: World, r: Reply)
    requires r.ok && r.clean
    ensures Steady(g, Start(w), r, 3) == Start(w).(pc := AfterInspection(w.entry, w.target, w.source, true))
  {
    var m := Start(w);
    assert Steady(g, m, r, 1) == m.(pc := ReadSource(w.target));
    assert Steady(g, m, r, 2) == m.(pc := ReadStatus(w.target, w.source));
  }

  lemma ForwardPasses(g: Graph, m: Machine, r: Reply, m1: Machine, m2: Machine, m3: Machine)
    requires m.pc == CheckTarget(m.world.target) && m.world.entry == m.job && m.job.status == Merging
    requires IsAncestor(g, m.world.target, m.job.head) && r.ok && r.effect
    requires m1 == Proceed(g, m, r) && m2 == Proceed(g, m1, r) && m3 == Proceed(g, m2, r)
    ensures var done := Proceed(g, m3, r);
            && done.pc == Done(MergedOutcome) && done.world.target == m.job.head && done.world.entry.status == Merged
            && m3 == Machine(m.job, Write(m.world, Coordinator, m.job.head), Persist(m.world.target))
  {
    assert m1 == m.(pc := CheckAncestor(m.world.target));
    assert m2 == m.(pc := SwapTarget(m.world.target));
    assert m3 == Machine(m.job, Write(m.world, Coordinator, m.job.head), Persist(m.world.target));
  }

  /** A merge nobody disturbs, of a head that descends from an unmoved target, gets merged. */
  lemma UndisturbedMergeSucceeds(g: Graph, w: World, r: Reply)
    requires Begun(w) && w.target == w.entry.base && w.source == w.entry.head
    requires IsAncestor(g, w.entry.base, w.entry.head) && r.ok && r.effect && r.clean
    ensures var m := Run(g, Start(w), seq(7, _ => Advance(r)));
            m.pc == Done(MergedOutcome) && m.world.target == w.entry.head && m.world.entry.status == Merged
  {
    var m := Start(w);
    SteadyIsARun(g, m, r, 7);
    InspectionPasses(g, w, r);
    ForwardPasses(g, Steady(g, m, r, 3), r, Steady(g, m, r, 4), Steady(g, m, r, 5), Steady(g, m, r, 6));
  }

  // ----- Interference ------------------------------------------------------------------------------------

  /** With third parties moving the refs between any two steps: whenever the coordinator changes the
      target, it replaces either the inspected base by a descendant, the entry's head, or that head by
      the base. Any other commit, whoever put it there, stays. */
  lemma NeverOverwrites(g: Graph, w: World, ticks: seq<Tick>, r: Reply)
    requires Begun(w)
    ensures var m := Run(g, Start(w), ticks);
            var after := Proceed(g, m, r).world;
            after.writes != m.world.writes ==>
              || (&& m.pc == SwapTarget(w.entry.base) && after.writes == m.world.writes + [Forward(w.entry)]
                  && m.world.target == w.entry.base && after.target == w.entry.head
                  && IsAncestor(g, m.world.target, after.target))
              || (&& m.pc == SwapBack(w.entry.base) && after.writes == m.world.writes + [Backward(w.entry)]
                  && m.world.target == w.entry.head && after.target == w.entry.base)
    ensures var m := Run(g, Start(w), ticks);
            Proceed(g, m, r).world.writes == m.world.writes ==> Proceed(g, m, r).world.target == m.world.target
  {
    MachineInvAlways(g, w, ticks);
  }

  /** A forward write loses no history: whatever was reachable from the target still is. */
  lemma ForwardKeepsHistory(g: Graph, w: World, ticks: seq<Tick>, r: Reply, c: Commit)
    requires Begun(w)
    requires Run(g, Start(w), ticks).pc.SwapTarget?
    requires IsAncestor(g, c, Run(g, Start(w), ticks).world.target)
    ensures IsAncestor(g, c, Proceed(g, Run(g, Start(w), ticks), r).world.target)
  {
    MachineInvAlways(g, w, ticks);
    var m := Run(g, Start(w), ticks);
    if m.world.target == w.entry.base {
      AncestorTransitive(g, c, w.entry.base, w.entry.head);
    }
  }

  /** The whole history of the ref: an unbroken chain of writes, among which the coordinator's are at most
      one forward write and, after it, at most one that takes it back; none is taken back once the row
      says merged. */
  lemma CoordinatorWritesAtMostTwice(g: Graph, w: World, ticks: seq<Tick>)
    requires Begun(w)
    ensures var m := Run(g, Start(w), ticks);
            && Chained(w.target, m.world.writes, m.world.target)
            && Own(m.world.writes) in {[], [Forward(w.entry)], [Forward(w.entry), Backward(w.entry)]}
            && (Own(m.world.writes) != [] ==> IsAncestor(g, w.entry.base, w.entry.head))
            && (m.world.entry.status == Merged <==> m.pc == Done(MergedOutcome))
            && (m.world.entry.status == Merged ==> Own(m.world.writes) == [Forward(w.entry)])
  {
    MachineInvAlways(g, w, ticks);
  }

  /** After a failed persist: a rollback that succeeds leaves the inspected target in place, and a rejected
      one has changed nothing. */
  lemma RollbackRestores(g: Graph, w: World, ticks: seq<Tick>, r: Reply)
    requires Begun(w)
    ensures var m := Run(g, Start(w), ticks);
            var m' := Proceed(g, m, r);
            && (m'.pc == Failing(RolledBack) && m.pc != m'.pc ==>
                  m'.world.target == w.entry.base && m'.world.writes == m.world.writes + [Backward(w.entry)])
            && (m'.pc == Failing(RollbackRejected) && m.pc != m'.pc ==>
                  m'.world == m.world && m.world.target != w.entry.head)
  {
    MachineInvAlways(g, w, ticks);
  }

  /** A merge that is reported merges exactly the head that was queued; if its gates had passed, they had
      passed for that head. */
  lemma MergedIsTheQueuedHead(g: Graph, w: World, ticks: seq<Tick>)
    requires Begun(w) && Run(g, Start(w), ticks).pc == Done(MergedOutcome)
    ensures var e := Run(g, Start(w), ticks).world.entry;
            && e.status == Merged && e.mergeCommit == Some(w.entry.head) && e.head == w.entry.head
            && (e.GatesPassed() <==> w.entry.GatesPassed())
            && Forward(w.entry) in Run(g, Start(w), ticks).world.writes
  {
    MachineInvAlways(g, w, ticks);
    OwnAreWrites(Run(g, Start(w), ticks).world.writes);
    assert Forward(w.entry) in Own(Run(g, Start(w), ticks).world.writes);
  }

  lemma {:induction false} OwnAreWrites(writes: seq<RefWrite>)
    ensures forall x <- Own(writes) :: x in writes
  {
    if writes == [] {
    } else {
      OwnAreWrites(writes[..|writes| - 1]);
    }
  }
}
