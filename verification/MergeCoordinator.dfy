/** The coordinator's code, step by step: every command it awaits may be preceded by third parties moving
    the refs and may fail, and every path through it is a run of the machine in `MergeExecution`. */
module MergeCoordinator {
  import opened Prelude
  import opened MergeQueue
  import opened MergeExecution
  import opened MergeRecovery

  datatype Inspection = Inspection(target: Commit, source: Commit, clean: bool)

  datatype FastForwarded = Applied | TargetMoved(actual: Commit)

  datatype Rebased = NewHead(head: Commit) | Conflicts(paths: set<string>)

  datatype GitError = CommandFailed

  /** The steps that only look. */
  predicate Looks(pc: Pc) {
    || pc.ReadTarget? || pc.ReadSource? || pc.ReadStatus? || pc.CheckTarget? || pc.CheckAncestor?
    || pc.RereadTarget? || pc.CheckRollback? || pc.RereadRollback? || pc.RebaseFence? || pc.RebaseRead?
  }

  lemma RebaseRuns(g: Graph, m: Machine, r: Reply)
    requires m.pc.RebaseRun?
    ensures Proceed(g, m, r) == EndRebase(g, m, m.pc.t, r)
  {
  }

  lemma LookingChangesNothing(g: Graph, m: Machine, r: Reply)
    requires Looks(m.pc)
    ensures Proceed(g, m, r).world == m.world && Proceed(g, m, r).job == m.job
  {
  }

  /** What the outcome of a run says about the row. */
  lemma MergeResult(g: Graph, w: World, ticks: seq<Tick>, r: Result<Outcome, MergeError>)
    requires Begun(w) && (r.Ok? ==> Run(g, Start(w), ticks).pc == Done(r.value))
    ensures var e := Run(g, Start(w), ticks).world.entry;
            && (r == Ok(MergedOutcome) ==>
                  && e.status == Merged && e.head == w.entry.head && e.mergeCommit == Some(e.head)
                  && RefWrite(Coordinator, w.entry.base, e.head) in Run(g, Start(w), ticks).world.writes)
            && (r == Ok(RequeuedOutcome) ==> e.status == Queued && !e.GatesPassed())
  {
    MachineInvAlways(g, w, ticks);
    if r == Ok(MergedOutcome) { MergedIsTheQueuedHead(g, w, ticks); }
  }

  class GitMergeCoordinator {
    const graph: Graph
    var target: Commit
    var source: Commit
    var rebasing: bool
    var entry: Entry
    ghost var rebased: Option<Commit>
    ghost var writes: seq<RefWrite>
    ghost var origin: World
    ghost var trace: seq<Tick>

    ghost function Value(): World
      reads this
    {
      World(target, source, rebasing, rebased, entry, writes)
    }

    /** The machine state that the code has reached. */
    ghost function Reached(): Machine
      reads this
    {
      Run(graph, Start(origin), trace)
    }

    ghost predicate Valid()
      reads this
    {
      Reached().world == Value()
    }

    /** Only the refs may have moved since `m`. */
    ghost predicate Interfered(m: Machine)
      reads this
    {
      Reached() == m.(world := m.world.(target := target, source := source, writes := writes))
    }

    constructor (graph: Graph, target: Commit, source: Commit, entry: Entry)
      ensures Valid() && this.graph == graph
      ensures Value() == World(target, source, false, None, entry, [])
    {
      this.graph, this.target, this.source, this.entry := graph, target, source, entry;
      rebasing, rebased, writes, trace := false, None, [], [];
      origin := World(target, source, false, None, entry, []);
    }

    ghost method Record(tick: Tick)
      modifies this`trace
      ensures trace == old(trace) + [tick]
      ensures Reached() == Step(graph, old(Reached()), tick)
    {
      trace := trace + [tick];
      assert trace[..|trace| - 1] == old(trace);
    }

    /** Between any two steps third parties may move either ref, any number of times. */
    method ThirdParties()
      requires Valid()
      modifies this`target, this`source, this`writes, this`trace
      ensures Valid() && Interfered(old(Reached()))
    {
      var moves: int := *;
      while moves > 0
        invariant Valid() && Interfered(old(Reached()))
      {
        var c: Commit, onTarget: bool := *, *;
        if onTarget {
          Record(MoveTarget(c));
          writes := writes + [RefWrite(ThirdParty, target, c)];
          target := c;
        } else {
          Record(MoveSource(c));
          source := c;
        }
        moves := moves - 1;
      }
    }

    /** Await a command that changes nothing. */
    method Look() returns (r: Reply)
      requires Valid() && Looks(Reached().pc)
      modifies this`target, this`source, this`writes, this`trace
      ensures Valid()
      ensures Reached() == Proceed(graph, Machine(old(Reached()).job, Value(), old(Reached()).pc), r)
    {
      ThirdParties();
      r := *;
      LookingChangesNothing(graph, Reached(), r);
      Record(Advance(r));
    }

    /** Await a transaction on the entry. */
    method Transact(c: Change, ghost outcome: Outcome) returns (r: Result<Entry, MergeError>)
      requires Valid() && Recorded(Reached().pc, Reached().job) == Some((c, outcome))
      modifies this`target, this`source, this`writes, this`trace, this`entry
      ensures Valid() && Reached().job == old(Reached()).job
      ensures r.Ok? ==> r.value == entry && Reached().pc == Done(outcome)
      ensures r.Err? ==> entry == old(entry)
      ensures r.Err? ==>
        Reached().pc == if old(Reached()).pc.Persist? then CheckRollback(old(Reached()).pc.t) else Halted
    {
      ThirdParties();
      var reply: Reply := *;
      RecordingSettles(graph, Reached(), reply);
      Record(Advance(reply));
      if !reply.ok { return Err(Backend); }
      var row := new MergeQueueEntry(entry);
      var applied := row.Apply(c, reply.now);
      if applied.Err? { return Err(applied.error); }
      entry := row.Value();
      return Ok(entry);
    }

    /** `update-ref` with an expected old value: done, refused, or no answer. */
    method UpdateRef(expected: Commit, c: Commit) returns (done: Result<bool, GitError>)
      requires Valid()
      requires || (Reached().pc == SwapTarget(expected) && c == Reached().job.head)
               || (Reached().pc == SwapBack(c) && expected == Reached().job.head)
      modifies this`target, this`source, this`writes, this`trace
      ensures Valid() && Reached().job == old(Reached()).job
      ensures Reached().pc ==
        match old(Reached()).pc
        case SwapTarget(t) => if done.Err? then Halted else if done.value then Persist(t) else RereadTarget(t)
        case SwapBack(t) =>
          if done.Err? then Failing(RollbackFailed)
          else if done.value then Failing(RolledBack)
          else RereadRollback(t)
        case other => other
      ensures done == Ok(true) ==> target == c
    {
      ThirdParties();
      var reply: Reply := *;
      Record(Advance(reply));
      var moves := reply.effect && target == expected;
      if moves {
        writes := writes + [RefWrite(Coordinator, target, c)];
        target := c;
      }
      return if reply.ok then Ok(moves) else Err(CommandFailed);
    }

    method Inspect() returns (r: Result<Inspection, GitError>)
      requires Valid() && Reached().pc == ReadTarget
      modifies this`target, this`source, this`writes, this`trace
      ensures Valid() && Reached().job == old(Reached()).job
      ensures Reached().pc == if r.Err? then Failing(InspectFailed)
                              else AfterInspection(Reached().job, r.value.target, r.value.source, r.value.clean)
    {
      var reply := Look();
      if !reply.ok { return Err(CommandFailed); }
      var t := target;
      reply := Look();
      if !reply.ok { return Err(CommandFailed); }
      var s := source;
      reply := Look();
      if !reply.ok { return Err(CommandFailed); }
      return Ok(Inspection(t, s, reply.clean));
    }

    /** The first half of a fast-forward: is the target still where it was, and behind the head? */
    method CheckForward(expected: Commit, head: Commit) returns (r: Result<Option<Commit>, GitError>)
      requires Valid() && Reached().pc == CheckTarget(expected) && head == Reached().job.head
      modifies this`target, this`source, this`writes, this`trace
      ensures Valid() && Reached().job == old(Reached()).job
      ensures Reached().pc ==
        match r
        case Err(_) => Halted
        case Ok(Some(actual)) => Retrying(actual)
        case Ok(None) => SwapTarget(expected)
      ensures r.Ok? && r.value.None? ==> IsAncestor(graph, expected, head)
    {
      var reply := Look();
      if !reply.ok { return Err(CommandFailed); }
      if target != expected { return Ok(Some(target)); }
      reply := Look();
      if !reply.ok || !IsAncestor(graph, expected, head) { return Err(CommandFailed); }
      return Ok(None);
    }

    method FastForward(expected: Commit, head: Commit) returns (r: Result<FastForwarded, GitError>)
      requires Valid() && Reached().pc == CheckTarget(expected) && head == Reached().job.head
      modifies this`target, this`source, this`writes, this`trace
      ensures Valid() && Reached().job == old(Reached()).job
      ensures Reached().pc ==
        match r
        case Err(_) => Halted
        case Ok(Applied) => Persist(expected)
        case Ok(TargetMoved(actual)) => Retrying(actual)
      ensures r == Ok(Applied) ==> target == head && IsAncestor(graph, expected, head)
    {
      var checked := CheckForward(expected, head);
      if checked.Err? { return Err(CommandFailed); }
      if checked.value.Some? { return Ok(TargetMoved(checked.value.value)); }
      var done := UpdateRef(expected, head);
      if done.Err? { return Err(CommandFailed); }
      if done.value { return Ok(Applied); }
      var reply := Look();
      if reply.ok && target != expected { return Ok(TargetMoved(target)); }
      return Err(CommandFailed);
    }

    method Rollback(current: Commit, restore: Commit) returns (note: Note)
      requires Valid() && Reached().pc == CheckRollback(restore) && current == Reached().job.head
      modifies this`target, this`source, this`writes, this`trace
      ensures Valid() && Reached().job == old(Reached()).job
      ensures Reached().pc == Failing(note)
      ensures note == RolledBack ==> target == restore
    {
      var reply := Look();
      if !reply.ok { return RollbackFailed; }
      if target != current { return RollbackRejected; }
      var done := UpdateRef(current, restore);
      if done.Err? { return RollbackFailed; }
      if done.value { return RolledBack; }
      reply := Look();
      return if reply.ok && target != current then RollbackRejected else RollbackFailed;
    }

    method BeginRebase() returns (r: Result<(), GitError>)
      requires Valid() && Reached().pc.RebaseStart?
      modifies this`target, this`source, this`writes, this`trace, this`rebasing
      ensures Valid() && Reached().job == old(Reached()).job
      ensures Reached().pc == if r.Ok? then RebaseRun(old(Reached()).pc.t) else Halted
    {
      ThirdParties();
      var reply: Reply := *;
      Record(Advance(reply));
      if !reply.ok { return Err(CommandFailed); }
      rebasing := true;
      return Ok(());
    }

    /** The rebase itself either yields a descendant of the target, or stops on conflicts, or fails. */
    method RunRebase(t: Commit) returns (r: Result<Option<set<string>>, GitError>)
      requires Valid() && Reached().pc == RebaseRun(t)
      modifies this`target, this`source, this`writes, this`trace, this`rebasing, this`rebased
      ensures Valid() && Reached().job == old(Reached()).job
      ensures Reached().pc ==
        match r
        case Err(_) => Halted
        case Ok(None) => RebaseRead(t)
        case Ok(Some(paths)) => RebaseAbort(t, paths)
    {
      ThirdParties();
      var reply: Reply := *;
      if reply.rebase.Finished? && !IsAncestor(graph, t, reply.rebase.head) {
        reply := reply.(rebase := Finished(t));
      }
      RebaseRuns(graph, Reached(), reply);
      Record(Advance(reply));
      match reply.rebase {
        case Finished(h) =>
          source, rebasing, rebased := h, false, Some(h);
          return if reply.ok then Ok(None) else Err(CommandFailed);
        case Stopped(paths) =>
          if !reply.ok || NonBlank(paths) == {} { return Err(CommandFailed); }
          return Ok(Some(paths));
        case NeverStarted =>
          rebasing := false;
          return Err(CommandFailed);
      }
    }

    method AbortRebase() returns (r: Result<(), GitError>)
      requires Valid() && Reached().pc.RebaseAbort?
      modifies this`target, this`source, this`writes, this`trace, this`rebasing
      ensures Valid() && Reached().job == old(Reached()).job
      ensures Reached().pc ==
        if r.Ok? then OpeningTask(old(Reached()).pc.t, old(Reached()).pc.paths) else Halted
    {
      ThirdParties();
      var reply: Reply := *;
      Record(Advance(reply));
      rebasing := rebasing && !reply.effect;
      return if reply.ok && reply.effect then Ok(()) else Err(CommandFailed);
    }

    method Rebase(t: Commit) returns (r: Result<Rebased, GitError>)
      requires Valid() && Reached().pc == RebaseStart(t)
      modifies this`target, this`source, this`writes, this`trace, this`rebasing, this`rebased
      ensures Valid() && Reached().job == old(Reached()).job
      ensures Reached().pc ==
        match r
        case Err(_) => Halted
        case Ok(NewHead(h)) => Requeueing(t, h)
        case Ok(Conflicts(paths)) => OpeningTask(t, paths)
    {
      var begun := BeginRebase();
      if begun.Err? { return Err(begun.error); }
      var ended := RunRebase(t);
      if ended.Err? { return Err(ended.error); }
      if ended.value.Some? {
        var aborted := AbortRebase();
        if aborted.Err? { return Err(aborted.error); }
        return Ok(Conflicts(ended.value.value));
      }
      var reply := Look();
      return if reply.ok then Ok(NewHead(source)) else Err(CommandFailed);
    }

    method ExecuteRebase(t: Commit) returns (r: Result<Outcome, MergeError>)
      requires Valid() && Reached().pc == RebaseFence(t)
      modifies this`target, this`source, this`writes, this`trace, this`rebasing, this`rebased, this`entry
      ensures Valid() && Reached().job == old(Reached()).job
      ensures Reached().pc == if r.Ok? then Done(r.value) else Halted
    {
      var fence := Look();
      if !fence.ok { return Err(StaleFence); }
      var rebase := Rebase(t);
      if rebase.Err? { return Err(Backend); }
      match rebase.value {
        case NewHead(h) =>
          var requeued := Transact(RequeueAfterRebase(t, h, REBASED), RequeuedOutcome);
          return if requeued.Ok? then Ok(RequeuedOutcome) else Err(requeued.error);
        case Conflicts(paths) =>
          var task := Transact(MarkConflict(paths), ConflictOutcome);
          return if task.Ok? then Ok(ConflictOutcome) else Err(task.error);
      }
    }

    method Fail(note: Note) returns (r: Result<Outcome, MergeError>)
      requires Valid() && Reached().pc == Failing(note)
      modifies this`target, this`source, this`writes, this`trace, this`entry
      ensures Valid() && Reached().job == old(Reached()).job
      ensures Reached().pc == if r.Ok? then Done(r.value) else Halted
    {
      var failed := Transact(MarkFailed(NoteText(note)), FailedOutcome);
      return if failed.Ok? then Ok(FailedOutcome) else Err(failed.error);
    }

    method ExecuteFastForward(t: Commit, head: Commit) returns (r: Result<Outcome, MergeError>)
      requires Valid() && Reached().pc == CheckTarget(t) && head == Reached().job.head
      modifies this`target, this`source, this`writes, this`trace, this`entry
      ensures Valid() && Reached().job == old(Reached()).job
      ensures Reached().pc == if r.Ok? then Done(r.value) else Halted
    {
      var moved := FastForward(t, head);
      if moved.Err? { return Err(Backend); }
      match moved.value {
        case TargetMoved(actual) =>
          var requeued := Transact(RequeueAfterTargetMove(actual), RequeuedOutcome);
          return if requeued.Ok? then Ok(RequeuedOutcome) else Err(requeued.error);
        case Applied =>
          var merged := Transact(MarkMerged(head), MergedOutcome);
          if merged.Ok? { return Ok(MergedOutcome); }
          var note := Rollback(head, t);
          r := Fail(note);
      }
    }

    /** `begin_merge`: from here on the merge is a run of the machine, and a crash is recoverable. */
    method BeginMerge() returns (r: Result<Entry, MergeError>)
      modifies this`entry, this`writes, this`rebased, this`trace, this`origin
      ensures r.Err? ==> Value() == old(Value())
      ensures r.Ok? ==>
        && Transition(old(entry), Begin, entry.updatedAt) == Ok(entry) && r.value == entry
        && Valid() && origin == Value() == World(target, source, rebasing, None, entry, []) && trace == []
    {
      var reply: Reply := *;
      if !reply.ok { return Err(StaleFence); }
      var begun := Transition(entry, Begin, reply.now);
      if begun.Err? { return Err(begun.error); }
      entry, writes, rebased, trace := begun.value, [], None, [];
      origin := Value();
      return Ok(entry);
    }

    /** Run one claimed merge. On success the machine has reached that outcome; on an error either the merge
        never began, or it was left under way for a later reconciliation. */
    method ExecuteClaimed() returns (r: Result<Outcome, MergeError>)
      modifies this
      ensures r.Ok? ==> Valid() && Reached().pc == Done(r.value)
      ensures r.Err? ==> Value() == old(Value()) || (Valid() && Reached().pc == Halted)
      ensures r.Ok? || Value() != old(Value()) ==>
        && Transition(old(entry), Begin, origin.entry.updatedAt) == Ok(origin.entry)
        && origin == old(Value()).(entry := origin.entry, rebased := None, writes := [])
      ensures r == Ok(MergedOutcome) && !old(rebasing) ==>
        && entry.status == Merged && entry.head == old(entry).head && entry.mergeCommit == Some(entry.head)
        && RefWrite(Coordinator, old(entry).base, entry.head) in writes
      ensures r == Ok(RequeuedOutcome) && !old(rebasing) ==> entry.status == Queued && !entry.GatesPassed()
    {
      var begun := BeginMerge();
      if begun.Err? { return Err(begun.error); }
      r := RunMerge(begun.value);
      ghost var outcome := r;
      if !origin.rebasing {
        MergeResult(graph, origin, trace, outcome);
      }
    }

    method RunMerge(job: Entry) returns (r: Result<Outcome, MergeError>)
      requires Valid() && Reached().pc == ReadTarget && job == Reached().job
      modifies this`target, this`source, this`writes, this`trace, this`rebasing, this`rebased, this`entry
      ensures Valid() && Reached().job == old(Reached()).job
      ensures Reached().pc == if r.Ok? then Done(r.value) else Halted
    {
      var inspection := Inspect();
      if inspection.Err? {
        r := Fail(InspectFailed);
        return;
      }
      var i := inspection.value;
      if !i.clean {
        r := Fail(Dirty);
      } else if i.source != job.head {
        r := Fail(HeadMismatch);
      } else if i.target != job.base {
        r := ExecuteRebase(i.target);
      } else {
        r := ExecuteFastForward(i.target, i.source);
      }
    }

    method RecoverEntry(p: Probe) returns (seen: Option<Observation>)
      modifies this`rebasing
      ensures (Value(), seen) == Recover(graph, old(Value()), p)
    {
      if !p.worktreeExists { return Some(MissingWorktree); }
      if !p.targetOk || !p.stateOk { return None; }
      if rebasing {
        if !p.abortOk { return None; }
        rebasing := false;
        return if p.sourceOk then Some(InterruptedRebase) else None;
      }
      if !p.sourceOk { return None; }
      if target == entry.head { return Some(SeenMerged(target)); }
      if source != entry.head {
        if !p.ancestorOk { return None; }
        if IsAncestor(graph, target, source) { return Some(SeenRebased(target, source)); }
      }
      return Some(Diverged);
    }

    method ReconcileEntry(p: Probe) returns (r: Option<Outcome>)
      modifies this`rebasing, this`entry
      ensures (Value(), r) == Reconcile(graph, old(Value()), p)
    {
      var seen := RecoverEntry(p);
      var (change, outcome) := RecoveryChange(seen);
      if !p.persistOk { return None; }
      var row := new MergeQueueEntry(entry);
      var applied := row.Apply(change, p.now);
      if applied.Err? { return None; }
      entry := row.Value();
      return Some(outcome);
    }
  }

  ghost function Values(sites: seq<GitMergeCoordinator>): (r: seq<World>)
    reads sites
    ensures |r| == |sites| && forall i :: 0 <= i < |sites| ==> r[i] == sites[i].Value()
  {
    seq(|sites|, i requires 0 <= i < |sites| reads sites => sites[i].Value())
  }

  const MAX_RECONCILED: nat := 1000

  /** Settle the stale entries one after the other. The first one that cannot be settled ends the call with
      an error: those before it are settled, those after it untouched. */
  method ReconcileStale(stale: seq<GitMergeCoordinator>, limit: nat, probes: seq<Probe>)
    returns (r: Result<seq<Outcome>, MergeError>, ghost settled: nat)
    requires NoDup(stale) && |probes| == |stale|
    modifies stale
    ensures limit == 0 || limit > MAX_RECONCILED ==> r == Err(InvalidRequest)
    ensures r == Err(InvalidRequest) ==> forall i :: 0 <= i < |stale| ==> stale[i].Value() == old(stale[i].Value())
    ensures r.Ok? ==> settled == |stale| == |r.value|
    ensures r.Ok? ==> forall i :: 0 <= i < |stale| ==>
      Some(r.value[i]) == Reconcile(stale[i].graph, old(stale[i].Value()), probes[i]).1
    ensures r == Err(Backend) ==> settled < |stale|
    ensures r == Err(Backend) ==>
      (stale[settled].Value(), None) == Reconcile(stale[settled].graph, old(stale[settled].Value()), probes[settled])
    ensures r.Ok? || r == Err(InvalidRequest) || r == Err(Backend)
    ensures r != Err(InvalidRequest) ==> settled <= |stale|
    ensures r != Err(InvalidRequest) ==> forall i :: 0 <= i < settled ==>
      stale[i].Value() == Reconcile(stale[i].graph, old(stale[i].Value()), probes[i]).0
    ensures r != Err(InvalidRequest) ==> forall i :: settled < i < |stale| ==> stale[i].Value() == old(stale[i].Value())
  {
    settled := 0;
    if limit == 0 || limit > MAX_RECONCILED { return Err(InvalidRequest), 0; }
    var results: seq<Outcome> := [];
    ghost var before := Values(stale);
    for i := 0 to |stale|
      invariant settled == i == |results|
      invariant forall j :: i <= j < |stale| ==> stale[j].Value() == before[j]
      invariant forall j :: 0 <= j < i ==>
        (stale[j].Value(), Some(results[j])) == Reconcile(stale[j].graph, before[j], probes[j])
    {
      var outcome := stale[i].ReconcileEntry(probes[i]);
      if outcome.None? { return Err(Backend), i; }
      results := results + [outcome.value];
      settled := i + 1;
    }
    return Ok(results), settled;
  }
}
