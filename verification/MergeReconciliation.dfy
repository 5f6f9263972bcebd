/** What reconciliation finds and reports after a crash of the coordinator at any step. */
module MergeReconciliation {
  import opened Prelude
  import opened MergeQueue
  import opened MergeExecution
  import opened MergeRecovery

  // ----- Quiet targets --------------------------------------------------------------------------------------

  /** No third party moves the target. */
  ghost predicate TargetQuiet(ticks: seq<Tick>) {
    forall t <- ticks :: !t.MoveTarget?
  }

  ghost predicate Quiet(ticks: seq<Tick>) {
    forall t <- ticks :: t.Advance?
  }

  /** A step of the coordinator writes nothing, or once, in its own name. */
  lemma ProceedWrites(g: Graph, m: Machine, r: Reply)
    ensures var after := Proceed(g, m, r).world;
            || after.writes == m.world.writes
            || after.writes == m.world.writes + [RefWrite(Coordinator, m.world.target, after.target)]
  {
  }

  lemma {:induction false} QuietWritesAreOwn(g: Graph, w: World, ticks: seq<Tick>)
    requires Begun(w) && TargetQuiet(ticks)
    ensures Own(Run(g, Start(w), ticks).world.writes) == Run(g, Start(w), ticks).world.writes
  {
    if ticks == [] {
    } else {
      var m, tick := Run(g, Start(w), ticks[..|ticks| - 1]), ticks[|ticks| - 1];
      QuietWritesAreOwn(g, w, ticks[..|ticks| - 1]);
      if tick.Advance? {
        ProceedWrites(g, m, tick.reply);
        OwnSnoc(m.world.writes, RefWrite(Coordinator, m.world.target, Proceed(g, m, tick.reply).world.target));
      }
    }
  }

  lemma ChainEnds(first: Commit, writes: seq<RefWrite>, last: Commit, f: RefWrite, b: RefWrite)
    requires Chained(first, writes, last)
    ensures writes == [] ==> last == first
    ensures writes == [f] ==> last == f.after && first == f.before
    ensures writes == [f, b] ==> last == b.after && first == f.before
  {
    if writes == [f] {
      assert Chained(first, writes[..0], writes[0].before);
    } else if writes == [f, b] {
      assert Chained(first, writes[..1], writes[1].before);
      assert Chained(first, writes[..1][..0], writes[0].before);
    }
  }

  /** With a quiet target the ref says which writes are in effect. */
  lemma QuietTarget(g: Graph, w: World, ticks: seq<Tick>)
    requires Begun(w) && TargetQuiet(ticks)
    ensures var now, f := Run(g, Start(w), ticks).world, Forward(w.entry);
            && (now.writes == [] || now.writes == [f] || now.writes == [f, Backward(w.entry)])
            && now.target == (if now.writes == [f] then w.entry.head else w.target)
            && (now.writes != [] ==> w.target == w.entry.base)
  {
    MachineInvAlways(g, w, ticks);
    QuietWritesAreOwn(g, w, ticks);
    var now := Run(g, Start(w), ticks).world;
    ChainEnds(w.target, now.writes, now.target, Forward(w.entry), Backward(w.entry));
  }

  // ----- Which write is in effect ---------------------------------------------------------------------------

  /** The target's present value is the coordinator's own forward write. */
  ghost predicate InEffect(w: World, job: Entry) {
    w.writes != [] && w.writes[|w.writes| - 1] == Forward(job)
  }

  /** Third parties may move the target anywhere but to the entry's head. */
  ghost predicate HeadLeftAlone(w: World, ticks: seq<Tick>) {
    MoveTarget(w.entry.head) !in ticks
  }

  lemma QuietLeavesHeadAlone(w: World, ticks: seq<Tick>)
    requires TargetQuiet(ticks)
    ensures HeadLeftAlone(w, ticks)
  {
  }

  lemma EffectIsOwn(g: Graph, first: Commit, m: Machine)
    requires MachineInv(g, first, m) && InEffect(m.world, m.job)
    ensures m.world.target == m.job.head && Own(m.world.writes) != [] && !m.world.rebasing && m.world.rebased.None?
  {
  }

  /** The target is at the head exactly while the forward write is in effect, whatever else third parties do. */
  lemma {:induction false} TargetTells(g: Graph, w: World, ticks: seq<Tick>)
    requires Begun(w) && HeadLeftAlone(w, ticks) && w.target != w.entry.head
    ensures var now := Run(g, Start(w), ticks).world;
            && (now.target == w.entry.head <==> InEffect(now, w.entry))
            && (Own(now.writes) != [] ==> w.entry.base != w.entry.head)
  {
    if ticks == [] {
      assert Own(w.writes) == [];
    } else {
      var before, tick := ticks[..|ticks| - 1], ticks[|ticks| - 1];
      TargetTells(g, w, before);
      MachineInvAlways(g, w, before);
      var m := Run(g, Start(w), before);
      if tick.MoveTarget? {
        OwnSnoc(m.world.writes, RefWrite(ThirdParty, m.world.target, tick.c));
      } else if tick.Advance? {
        NeverOverwrites(g, w, before, tick.reply);
        AdvanceTells(g, w, m, Proceed(g, m, tick.reply).world);
      }
    }
  }

  lemma AdvanceTells(g: Graph, w: World, m: Machine, after: World)
    requires MachineInv(g, w.target, m) && m.job == w.entry
    requires m.world.target == w.entry.head <==> InEffect(m.world, w.entry)
    requires Own(m.world.writes) != [] ==> w.entry.base != w.entry.head
    requires after.writes == m.world.writes ==> after.target == m.world.target
    requires after.writes != m.world.writes ==>
      || (&& m.pc == SwapTarget(w.entry.base) && after.writes == m.world.writes + [Forward(w.entry)]
          && m.world.target == w.entry.base && after.target == w.entry.head)
      || (&& m.pc == SwapBack(w.entry.base) && after.writes == m.world.writes + [Backward(w.entry)]
          && m.world.target == w.entry.head && after.target == w.entry.base)
    ensures after.target == w.entry.head <==> InEffect(after, w.entry)
    ensures Own(after.writes) != [] ==> w.entry.base != w.entry.head
  {
    if after.writes == m.world.writes {
    } else if m.pc.SwapTarget? {
      assert Own(m.world.writes) == [];
      assert !InEffect(m.world, w.entry);
    } else {
      assert Own(m.world.writes) == [Forward(w.entry)];
    }
  }

  /** With a quiet target the forward write is in effect exactly if it is the only one. */
  lemma QuietEffect(g: Graph, w: World, ticks: seq<Tick>)
    requires Begun(w) && TargetQuiet(ticks) && w.target != w.entry.head
    ensures var now := Run(g, Start(w), ticks).world;
            && (InEffect(now, w.entry) <==> now.writes == [Forward(w.entry)])
            && (!InEffect(now, w.entry) ==> now.target == w.target)
  {
    QuietLeavesHeadAlone(w, ticks);
    TargetTells(g, w, ticks);
    QuietTarget(g, w, ticks);
  }

  // ----- What reconciliation does -----------------------------------------------------------------------------

  lemma RecoveryTextsAreText(seen: Option<Observation>)
    ensures RecoveryChange(seen).0.MarkFailed? ==> !Blank(RecoveryChange(seen).0.error)
  {
    assert "command failed"[0] == 'c' && "rebase aborted"[0] == 'r' && "diverged"[0] == 'd' && "no worktree"[0] == 'n';
  }

  /** Reconciling a merging row has an outcome exactly when the repository accepts it, decides by the refs
      alone, and moves none of them. */
  lemma ReconcileMerging(g: Graph, w: World, p: Probe)
    requires w.entry.status == Merging
    ensures var (settled, outcome) := Reconcile(g, w, p);
            && (outcome.Some? <==> p.persistOk)
            && settled.target == w.target && settled.source == w.source && settled.writes == w.writes
            && (outcome.Some? ==> settled.entry.status != Merging)
            && (outcome == Some(MergedOutcome) <==>
                  p.persistOk && p.Looks() && !w.rebasing && w.target == w.entry.head)
            && (outcome == Some(MergedOutcome) ==>
                  settled.entry == w.entry.(status := Merged, mergeCommit := Some(w.entry.head), updatedAt := p.now))
            && (outcome == Some(RequeuedOutcome) ==>
                  && settled.entry.status == Queued
                  && settled.entry.review == Pending && settled.entry.tests == Pending
                  && settled.entry.base == w.target && settled.entry.head == w.source)
  {
    RecoveryTextsAreText(Recover(g, w, p).1);
  }

  /** What a recovery makes of a merging entry, on the refs and the answers it got: queued again exactly if it could
      look everywhere and found a source away from the head, on top of a target that is; a rebase under way is gone
      exactly if it could be aborted; and a failure says what was wrong. */
  lemma ReconcileSays(g: Graph, w: World, p: Probe)
    requires w.entry.status == Merging && p.persistOk
    ensures var (after, outcome) := Reconcile(g, w, p);
            && (outcome == Some(RequeuedOutcome) <==>
                && p.Looks() && !w.rebasing && w.target != w.entry.head
                && w.source != w.entry.head && p.ancestorOk && IsAncestor(g, w.target, w.source))
            && (after.rebasing <==>
                w.rebasing && !(p.worktreeExists && p.targetOk && p.stateOk && p.abortOk))
            && (outcome == Some(FailedOutcome) ==>
                after.entry.lastError == Some(
                  if !p.worktreeExists then "no worktree"
                  else if !p.Looks() || (w.rebasing && !p.abortOk) then "command failed"
                  else if w.rebasing then "rebase aborted"
                  else if w.source != w.entry.head && !p.ancestorOk then "command failed"
                  else "diverged"))
  {
    RecoveryTextsAreText(Recover(g, w, p).1);
  }

  lemma ReconcileClean(g: Graph, w: World, p: Probe)
    requires w.entry.status == Merging && p.Clean()
    ensures var (settled, outcome) := Reconcile(g, w, p);
            && !settled.rebasing
            && outcome == Some(
                 if w.rebasing then FailedOutcome
                 else if w.target == w.entry.head then MergedOutcome
                 else if w.source != w.entry.head && IsAncestor(g, w.target, w.source) then RequeuedOutcome
                 else FailedOutcome)
  {
    RecoveryTextsAreText(Recover(g, w, p).1);
  }

  lemma MergingRowIsTheJob(g: Graph, w: World, ticks: seq<Tick>)
    requires Begun(w) && Run(g, Start(w), ticks).world.entry.status == Merging
    ensures Run(g, Start(w), ticks).world.entry == w.entry
    ensures Run(g, Start(w), ticks).world.rebasing ==> Own(Run(g, Start(w), ticks).world.writes) == []
    ensures Run(g, Start(w), ticks).world.rebased.Some? ==>
      !Run(g, Start(w), ticks).world.rebasing && Own(Run(g, Start(w), ticks).world.writes) == []
  {
    MachineInvAlways(g, w, ticks);
  }

  // ----- Merged, or not -----------------------------------------------------------------------------------------

  /** Crash at any step, then reconcile. When the target did not start out at the entry's head and nobody
      else moves it there, a reconciliation that has an outcome says merged exactly when the forward write is
      in effect - made, and neither taken back nor overwritten - and its commands let it look. It moves no
      ref, and what it records as merged is the entry's head. */
  lemma RecoveryAgreesWithGit(g: Graph, w: World, ticks: seq<Tick>, p: Probe)
    requires Begun(w) && HeadLeftAlone(w, ticks) && w.target != w.entry.head
    requires Run(g, Start(w), ticks).world.entry.status == Merging
    requires Reconcile(g, Run(g, Start(w), ticks).world, p).1.Some?
    ensures var crashed := Run(g, Start(w), ticks).world;
            var (settled, outcome) := Reconcile(g, crashed, p);
            && (outcome == Some(MergedOutcome) <==> InEffect(crashed, w.entry) && p.Looks())
            && settled.target == crashed.target && settled.source == crashed.source
            && settled.entry.status != Merging
            && (outcome == Some(MergedOutcome) ==>
                  settled.entry.status == Merged && settled.entry.mergeCommit == Some(w.entry.head))
  {
    var m := Run(g, Start(w), ticks);
    MachineInvAlways(g, w, ticks);
    TargetTells(g, w, ticks);
    ReconcileMerging(g, m.world, p);
    MergingRowIsTheJob(g, w, ticks);
    if InEffect(m.world, w.entry) {
      EffectIsOwn(g, w.target, m);
    }
  }

  /** The condition on the first target is needed: when it is the entry's head already, a crash right after
      the merge began is recovered as merged, although nothing was written. */
  lemma EqualRefsLookMerged(g: Graph, w: World, p: Probe)
    requires Begun(w) && w.target == w.entry.head && p.Clean()
    ensures Run(g, Start(w), []).world.writes == []
    ensures Reconcile(g, Run(g, Start(w), []).world, p).1 == Some(MergedOutcome)
  {
  }

  /** So is the one on third parties: one that moves the target to the entry's head makes any merge look
      done. */
  lemma MovedTargetLooksMerged(g: Graph, w: World, p: Probe)
    requires Begun(w) && p.Clean()
    ensures var crashed := Run(g, Start(w), [MoveTarget(w.entry.head)]).world;
            Own(crashed.writes) == [] && Reconcile(g, crashed, p).1 == Some(MergedOutcome)
  {
    var crashed := Write(w, ThirdParty, w.entry.head);
    assert [MoveTarget(w.entry.head)][..0] == [];
    assert Run(g, Start(w), [MoveTarget(w.entry.head)]).world == crashed;
    OwnSnoc([], RefWrite(ThirdParty, w.target, w.entry.head));
    ReconcileClean(g, crashed, p);
  }

  /** A recovery that can look reports a merge just when the forward write is in effect. */
  ghost predicate AgreesAt(g: Graph, w: World, ticks: seq<Tick>, p: Probe) {
    var crashed := Run(g, Start(w), ticks).world;
    HeadLeftAlone(w, ticks) && crashed.entry.status == Merging && p.Clean() ==>
      (Reconcile(g, crashed, p).1 == Some(MergedOutcome) <==> InEffect(crashed, w.entry))
  }

  /** While nobody else moves the target to the entry's head, recovery agrees with Git after every crash if and
      only if the target was not there when the merge began. */
  lemma RecoveryAgreesIff(g: Graph, w: World)
    requires Begun(w)
    ensures (forall ticks, p :: AgreesAt(g, w, ticks, p)) <==> w.target != w.entry.head
  {
    if w.target != w.entry.head {
      forall ticks, p ensures AgreesAt(g, w, ticks, p) {
        var crashed := Run(g, Start(w), ticks).world;
        if HeadLeftAlone(w, ticks) && crashed.entry.status == Merging && p.Clean() {
          ReconcileMerging(g, crashed, p);
          RecoveryAgreesWithGit(g, w, ticks, p);
        }
      }
    } else {
      var p := Probe(true, true, true, true, true, true, true, 0);
      EqualRefsLookMerged(g, w, p);
      assert !AgreesAt(g, w, [], p);
    }
  }

  /** The same for one crash, whatever third parties did before it: the report is right exactly if the refs are
      not equal, a rebase is under way, or the head was put there by this merge. */
  lemma ReportIsRightIff(g: Graph, w: World, ticks: seq<Tick>, p: Probe)
    requires Begun(w) && Run(g, Start(w), ticks).world.entry.status == Merging && p.Clean()
    ensures var crashed := Run(g, Start(w), ticks).world;
            (Reconcile(g, crashed, p).1 == Some(MergedOutcome) <==> InEffect(crashed, w.entry)) <==>
            crashed.target != w.entry.head || crashed.rebasing || InEffect(crashed, w.entry)
  {
    var m := Run(g, Start(w), ticks);
    MachineInvAlways(g, w, ticks);
    MergingRowIsTheJob(g, w, ticks);
    ReconcileClean(g, m.world, p);
    if InEffect(m.world, w.entry) {
      EffectIsOwn(g, w.target, m);
    }
  }

  // ----- Where the source comes from ------------------------------------------------------------------------------

  /** A rebase goes onto the target the merge began with. */
  ghost predicate RebaseMatches(g: Graph, w: World, m: Machine) {
    && (m.world.rebased.Some? ==> IsAncestor(g, w.target, m.world.rebased.value))
    && (match m.pc
        case ReadSource(t) => t == w.target
        case ReadStatus(t, _) => t == w.target
        case RebaseFence(t) => t == w.target
        case RebaseStart(t) => t == w.target
        case RebaseRun(t) => t == w.target
        case RebaseRead(t) => t == w.target
        case _ => true)
  }

  lemma RebaseMatchesStep(g: Graph, w: World, m: Machine, r: Reply)
    requires RebaseMatches(g, w, m)
    requires m.pc.ReadTarget? ==> m.world.target == w.target
    ensures RebaseMatches(g, w, Proceed(g, m, r))
  {
  }

  lemma {:induction false} RebaseMatchesAlways(g: Graph, w: World, ticks: seq<Tick>)
    requires Begun(w) && TargetQuiet(ticks)
    ensures RebaseMatches(g, w, Run(g, Start(w), ticks))
  {
    if ticks == [] {
    } else {
      var before, tick := ticks[..|ticks| - 1], ticks[|ticks| - 1];
      RebaseMatchesAlways(g, w, before);
      MachineInvAlways(g, w, before);
      QuietTarget(g, w, before);
      if tick.Advance? {
        RebaseMatchesStep(g, w, Run(g, Start(w), before), tick.reply);
      }
    }
  }

  /** The source is where it was, where the rebase has put it, or where somebody else has. */
  ghost predicate SourceAccounted(w: World, ticks: seq<Tick>, now: World) {
    MoveSource(now.source) in ticks || now.source == (if now.rebased.Some? then now.rebased.value else w.source)
  }

  lemma ProceedMovesSource(g: Graph, m: Machine, r: Reply)
    requires m.pc.RebaseRun? ==> m.world.rebased.None?
    ensures var after := Proceed(g, m, r).world;
            || (after.source == m.world.source && after.rebased == m.world.rebased)
            || after.rebased == Some(after.source)
  {
  }

  lemma SourceStep(g: Graph, w: World, ticks: seq<Tick>, m: Machine, tick: Tick)
    requires SourceAccounted(w, ticks, m.world) && (m.pc.RebaseRun? ==> m.world.rebased.None?)
    ensures SourceAccounted(w, ticks + [tick], Step(g, m, tick).world)
  {
    if tick.Advance? {
      ProceedMovesSource(g, m, tick.reply);
    }
  }

  lemma {:induction false} SourceCameFrom(g: Graph, w: World, ticks: seq<Tick>)
    requires Begun(w)
    ensures SourceAccounted(w, ticks, Run(g, Start(w), ticks).world)
  {
    if ticks == [] {
    } else {
      var before, tick := ticks[..|ticks| - 1], ticks[|ticks| - 1];
      SourceCameFrom(g, w, before);
      RebaseStartsClean(g, w, before);
      SourceStep(g, w, before, Run(g, Start(w), before), tick);
      assert ticks == before + [tick];
    }
  }

  lemma RebaseStartsClean(g: Graph, w: World, ticks: seq<Tick>)
    requires Begun(w)
    ensures Run(g, Start(w), ticks).pc.RebaseRun? ==> Run(g, Start(w), ticks).world.rebased.None?
  {
    MachineInvAlways(g, w, ticks);
  }

  // ----- Queued again, or not ---------------------------------------------------------------------------------------

  /** The outcome of a recovery that can look and can persist, for a crash at any step, whatever happened to the
      source, and to the target so long as nobody else moved it to the head: merged if the forward write is in
      effect; failed if a rebase was under way, which is aborted; back in the queue with both gates open if the
      source differs from the head and descends from the target; failed otherwise. The target stays. */
  lemma RecoveryOutcome(g: Graph, w: World, ticks: seq<Tick>, p: Probe)
    requires Begun(w) && HeadLeftAlone(w, ticks) && w.target != w.entry.head
    requires Run(g, Start(w), ticks).world.entry.status == Merging && p.Clean()
    ensures var crashed := Run(g, Start(w), ticks).world;
            var (settled, outcome) := Reconcile(g, crashed, p);
            && outcome == Some(
                 if InEffect(crashed, w.entry) then MergedOutcome
                 else if && !crashed.rebasing && crashed.source != w.entry.head
                         && IsAncestor(g, crashed.target, crashed.source)
                 then RequeuedOutcome
                 else FailedOutcome)
            && (outcome == Some(RequeuedOutcome) ==>
                  && settled.entry.status == Queued
                  && settled.entry.review == Pending && settled.entry.tests == Pending
                  && settled.entry.base == crashed.target && settled.entry.head == crashed.source)
            && settled.target == crashed.target && !settled.rebasing
  {
    var m := Run(g, Start(w), ticks);
    MachineInvAlways(g, w, ticks);
    TargetTells(g, w, ticks);
    MergingRowIsTheJob(g, w, ticks);
    ReconcileMerging(g, m.world, p);
    ReconcileClean(g, m.world, p);
    if InEffect(m.world, w.entry) {
      EffectIsOwn(g, w.target, m);
    }
  }

  /** For a lone coordinator whose source was at the head: merged if the write is in effect, queued again if a
      rebase had finished with a new head, failed otherwise. */
  lemma LoneRecoveryOutcome(g: Graph, w: World, ticks: seq<Tick>, p: Probe)
    requires Begun(w) && Quiet(ticks) && w.target != w.entry.head && w.source == w.entry.head
    requires Run(g, Start(w), ticks).world.entry.status == Merging && p.Clean()
    ensures var crashed := Run(g, Start(w), ticks).world;
            Reconcile(g, crashed, p).1 == Some(
              if crashed.writes == [Forward(w.entry)] then MergedOutcome
              else if crashed.rebased.Some? && crashed.rebased != Some(w.entry.head) then RequeuedOutcome
              else FailedOutcome)
  {
    RecoveryOutcome(g, w, ticks, p);
    MergingRowIsTheJob(g, w, ticks);
    RebaseMatchesAlways(g, w, ticks);
    SourceCameFrom(g, w, ticks);
    QuietEffect(g, w, ticks);
    QuietWritesAreOwn(g, w, ticks);
  }

  /** A finished rebase has a new head whenever the target was not in the head's history before, and nobody else
      has moved it. */
  lemma RebaseChangesHead(g: Graph, w: World, ticks: seq<Tick>)
    requires Begun(w) && TargetQuiet(ticks) && !IsAncestor(g, w.target, w.entry.head)
    ensures Run(g, Start(w), ticks).world.rebased != Some(w.entry.head)
  {
    RebaseMatchesAlways(g, w, ticks);
  }

  /** Third parties move the source only to new commits on top of the target. */
  ghost predicate SourceMovesOn(g: Graph, w: World, ticks: seq<Tick>) {
    forall t <- ticks :: t.MoveSource? ==> t.c != w.entry.head && IsAncestor(g, w.target, t.c)
  }

  ghost predicate RequeuedAt(g: Graph, w: World, ticks: seq<Tick>, p: Probe) {
    var crashed := Run(g, Start(w), ticks).world;
    && TargetQuiet(ticks) && SourceMovesOn(g, w, ticks)
    && crashed.entry.status == Merging && crashed.rebased.Some? && p.Clean() ==>
      Reconcile(g, crashed, p).1 == Some(RequeuedOutcome)
  }

  /** A rebase that has finished, but not been recorded. */
  lemma RebasedNotRecorded(g: Graph, w: World, r: Reply)
    requires Begun(w) && w.source == w.entry.head && w.target != w.entry.base
    requires r.ok && r.clean && r.rebase.Finished? && IsAncestor(g, w.target, r.rebase.head)
    ensures Run(g, Start(w), seq(6, _ => Advance(r))).world ==
            w.(source := r.rebase.head, rebased := Some(r.rebase.head))
  {
    var m := Start(w);
    SteadyIsARun(g, m, r, 6);
    assert Steady(g, m, r, 1) == m.(pc := ReadSource(w.target));
    assert Steady(g, m, r, 2) == m.(pc := ReadStatus(w.target, w.source));
    assert Steady(g, m, r, 3) == m.(pc := RebaseFence(w.target));
    assert Steady(g, m, r, 4) == m.(pc := RebaseStart(w.target));
    assert Steady(g, m, r, 5) == m.(world := w.(rebasing := true), pc := RebaseRun(w.target));
  }

  /** A head that may stay as it is: the rebase finds nothing to do, and a crash before it is recorded is
      recovered as a failure. */
  lemma IdleRebaseFails(g: Graph, w: World, r: Reply, p: Probe)
    requires Begun(w) && w.target != w.entry.head && w.source == w.entry.head && w.target != w.entry.base
    requires IsAncestor(g, w.target, w.entry.head)
    requires r.ok && r.clean && r.rebase == Finished(w.entry.head) && p.Clean()
    ensures !RequeuedAt(g, w, seq(6, _ => Advance(r)), p)
  {
    RebasedNotRecorded(g, w, r);
    ReconcileClean(g, w.(rebased := Some(w.entry.head)), p);
  }

  /** A source that somebody puts back to the old head after the rebase has the same effect. */
  lemma RewoundSourceFails(g: Graph, w: World, r: Reply, p: Probe)
    requires Begun(w) && w.target != w.entry.head && w.source == w.entry.head && w.target != w.entry.base
    requires r.ok && r.clean && r.rebase.Finished? && IsAncestor(g, w.target, r.rebase.head) && p.Clean()
    ensures var crashed := Run(g, Start(w), seq(6, _ => Advance(r)) + [MoveSource(w.entry.head)]).world;
            crashed.rebased == Some(r.rebase.head) && Reconcile(g, crashed, p).1 == Some(FailedOutcome)
  {
    RebasedNotRecorded(g, w, r);
    RunSnoc(g, Start(w), seq(6, _ => Advance(r)), MoveSource(w.entry.head));
    ReconcileClean(g, w.(rebased := Some(r.rebase.head)), p);
  }

  /** When the target has moved before the merge and rests during it, and others only add to the source, a
      finished rebase is always queued again by recovery if and only if the new target was not in the head's
      history. */
  lemma FinishedRebaseRequeuesIff(g: Graph, w: World)
    requires Begun(w) && w.target != w.entry.head && w.source == w.entry.head && w.target != w.entry.base
    ensures (forall ticks, p :: RequeuedAt(g, w, ticks, p)) <==> !IsAncestor(g, w.target, w.entry.head)
  {
    if IsAncestor(g, w.target, w.entry.head) {
      var p := Probe(true, true, true, true, true, true, true, 0);
      var r := Reply(true, true, true, Finished(w.entry.head), 0);
      IdleRebaseFails(g, w, r, p);
    } else {
      forall ticks, p ensures RequeuedAt(g, w, ticks, p) {
        var crashed := Run(g, Start(w), ticks).world;
        if && TargetQuiet(ticks) && SourceMovesOn(g, w, ticks)
           && crashed.entry.status == Merging && crashed.rebased.Some? && p.Clean()
        {
          QuietLeavesHeadAlone(w, ticks);
          RebaseChangesHead(g, w, ticks);
          RebaseMatchesAlways(g, w, ticks);
          SourceCameFrom(g, w, ticks);
          MergingRowIsTheJob(g, w, ticks);
          QuietTarget(g, w, ticks);
          QuietWritesAreOwn(g, w, ticks);
          FinishedRebaseAtIff(g, w, ticks, p);
        }
      }
    }
  }

  /** The same for one crash, by what the refs say then: a finished rebase is queued again exactly if the source is
      not at the old head and descends from the target. */
  lemma FinishedRebaseAtIff(g: Graph, w: World, ticks: seq<Tick>, p: Probe)
    requires Begun(w) && HeadLeftAlone(w, ticks) && w.target != w.entry.head && p.Clean()
    requires var crashed := Run(g, Start(w), ticks).world;
             crashed.entry.status == Merging && crashed.rebased.Some?
    ensures var crashed := Run(g, Start(w), ticks).world;
            Reconcile(g, crashed, p).1 == Some(RequeuedOutcome) <==>
            crashed.source != w.entry.head && IsAncestor(g, crashed.target, crashed.source)
  {
    var m := Run(g, Start(w), ticks);
    RecoveryOutcome(g, w, ticks, p);
    MergingRowIsTheJob(g, w, ticks);
    MachineInvAlways(g, w, ticks);
    if InEffect(m.world, w.entry) {
      EffectIsOwn(g, w.target, m);
    }
  }

  // ----- Queued again without a rebase --------------------------------------------------------------------------

  /** Third parties move the source, if at all, to the entry's head or to a commit that lacks the target. */
  ghost predicate SourceStaysBehind(g: Graph, w: World, ticks: seq<Tick>) {
    forall t <- ticks :: t.MoveSource? ==> t.c == w.entry.head || !IsAncestor(g, w.target, t.c)
  }

  /** What is recovered as a finished rebase was one. */
  ghost predicate RequeuedMeansRebased(g: Graph, w: World, ticks: seq<Tick>, p: Probe) {
    var crashed := Run(g, Start(w), ticks).world;
    && TargetQuiet(ticks) && SourceStaysBehind(g, w, ticks)
    && crashed.entry.status == Merging && p.Clean() ==>
      (Reconcile(g, crashed, p).1 == Some(RequeuedOutcome) ==> crashed.rebased.Some?)
  }

  /** A crash before any step with a source that has drifted past the target is recovered as a rebase. */
  lemma DriftLooksRebased(g: Graph, w: World, p: Probe)
    requires Begun(w) && w.target != w.entry.head && p.Clean()
    requires w.source != w.entry.head && IsAncestor(g, w.target, w.source)
    ensures Run(g, Start(w), []).world.rebased.None?
    ensures Reconcile(g, Run(g, Start(w), []).world, p).1 == Some(RequeuedOutcome)
  {
    ReconcileClean(g, w, p);
  }

  /** So is one after somebody has moved the source past the target during the merge, wherever it was before. */
  lemma MovedSourceLooksRebased(g: Graph, w: World, c: Commit, p: Probe)
    requires Begun(w) && w.target != w.entry.head && p.Clean()
    requires c != w.entry.head && IsAncestor(g, w.target, c)
    ensures var crashed := Run(g, Start(w), [MoveSource(c)]).world;
            crashed.rebased.None? && Reconcile(g, crashed, p).1 == Some(RequeuedOutcome)
  {
    assert [MoveSource(c)][..0] == [];
    assert Run(g, Start(w), [MoveSource(c)]).world == w.(source := c);
    ReconcileClean(g, w.(source := c), p);
  }

  /** While nobody else moves the target, or the source past it, being queued again by recovery means that a rebase
      finished if and only if the source was at the head when the merge began, or did not descend from the
      target. */
  lemma RequeuedMeansRebasedIff(g: Graph, w: World)
    requires Begun(w) && w.target != w.entry.head
    ensures (forall ticks, p :: RequeuedMeansRebased(g, w, ticks, p)) <==>
            w.source == w.entry.head || !IsAncestor(g, w.target, w.source)
  {
    if w.source == w.entry.head || !IsAncestor(g, w.target, w.source) {
      forall ticks, p ensures RequeuedMeansRebased(g, w, ticks, p) {
        var crashed := Run(g, Start(w), ticks).world;
        if && TargetQuiet(ticks) && SourceStaysBehind(g, w, ticks)
           && crashed.entry.status == Merging && p.Clean()
        {
          QuietLeavesHeadAlone(w, ticks);
          RecoveryOutcome(g, w, ticks, p);
          QuietEffect(g, w, ticks);
          SourceCameFrom(g, w, ticks);
        }
      }
    } else {
      var p := Probe(true, true, true, true, true, true, true, 0);
      DriftLooksRebased(g, w, p);
      assert !RequeuedMeansRebased(g, w, [], p);
    }
  }

  /** The same for one crash, whatever third parties did to the source, by what can be read before recovery. */
  lemma RequeuedMeansRebasedAtIff(g: Graph, w: World, ticks: seq<Tick>, p: Probe)
    requires Begun(w) && HeadLeftAlone(w, ticks) && w.target != w.entry.head
    requires Run(g, Start(w), ticks).world.entry.status == Merging && p.Clean()
    ensures var crashed := Run(g, Start(w), ticks).world;
            (Reconcile(g, crashed, p).1 == Some(RequeuedOutcome) ==> crashed.rebased.Some?) <==>
            || crashed.rebased.Some? || crashed.source == w.entry.head
            || !IsAncestor(g, crashed.target, crashed.source)
            || crashed.rebasing || crashed.target == w.entry.head
  {
    RecoveryOutcome(g, w, ticks, p);
    TargetTells(g, w, ticks);
  }

  // ----- Blind and repeated recoveries -----------------------------------------------------------------------

  /** Six undisturbed steps put the forward write into effect before it is recorded. */
  lemma WrittenNotRecorded(g: Graph, w: World, r: Reply)
    requires Begun(w) && w.target == w.entry.base && w.source == w.entry.head
    requires IsAncestor(g, w.entry.base, w.entry.head) && r.ok && r.effect && r.clean
    ensures Run(g, Start(w), seq(6, _ => Advance(r))).world == Write(w, Coordinator, w.entry.head)
  {
    var m := Start(w);
    SteadyIsARun(g, m, r, 6);
    InspectionPasses(g, w, r);
    ForwardPasses(g, Steady(g, m, r, 3), r, Steady(g, m, r, 4), Steady(g, m, r, 5), Steady(g, m, r, 6));
  }

  /** A recovery that cannot look fails the entry although its forward write is in effect. */
  lemma BlindRecoveryFails(g: Graph, w: World, r: Reply, p: Probe)
    requires Begun(w) && w.target == w.entry.base && w.source == w.entry.head
    requires IsAncestor(g, w.entry.base, w.entry.head) && r.ok && r.effect && r.clean
    requires !p.Looks() && p.persistOk
    ensures var crashed := Run(g, Start(w), seq(6, _ => Advance(r))).world;
            && crashed.writes == [Forward(w.entry)] && crashed.target == w.entry.head
            && crashed.entry.status == Merging && Reconcile(g, crashed, p).1 == Some(FailedOutcome)
  {
    WrittenNotRecorded(g, w, r);
    RecoveryTextsAreText(Recover(g, Write(w, Coordinator, w.entry.head), p).1);
  }

  /** The world after reconciliations that all came to nothing, one after the other. */
  function Retried(g: Graph, w: World, probes: seq<Probe>): World {
    if probes == [] then w else Reconcile(g, Retried(g, w, probes[..|probes| - 1]), probes[|probes| - 1]).0
  }

  ghost predicate AllRefused(g: Graph, w: World, probes: seq<Probe>) {
    forall i :: 0 <= i < |probes| ==> Reconcile(g, Retried(g, w, probes[..i]), probes[i]).1.None?
  }

  lemma RefusedOnlyAborts(g: Graph, w: World, p: Probe)
    requires Reconcile(g, w, p).1.None?
    ensures Reconcile(g, w, p).0 == w || Reconcile(g, w, p).0 == w.(rebasing := false)
  {
  }

  lemma {:induction false} RetriesOnlyAbort(g: Graph, w: World, probes: seq<Probe>)
    requires AllRefused(g, w, probes)
    ensures Retried(g, w, probes) == w || Retried(g, w, probes) == w.(rebasing := false)
  {
    if probes == [] {
    } else {
      var n := |probes| - 1;
      forall i | 0 <= i < n ensures Reconcile(g, Retried(g, w, probes[..n][..i]), probes[..n][i]).1.None? {
        assert probes[..n][..i] == probes[..i];
      }
      RetriesOnlyAbort(g, w, probes[..n]);
      RefusedOnlyAborts(g, Retried(g, w, probes[..n]), probes[n]);
    }
  }

  /** Recovery agrees with Git after any number of reconciliations that came to nothing. */
  lemma RetriedRecoveryAgrees(g: Graph, w: World, ticks: seq<Tick>, probes: seq<Probe>, p: Probe)
    requires Begun(w) && HeadLeftAlone(w, ticks) && w.target != w.entry.head
    requires var crashed := Run(g, Start(w), ticks).world;
             crashed.entry.status == Merging && AllRefused(g, crashed, probes)
    ensures var crashed := Run(g, Start(w), ticks).world;
            var (settled, outcome) := Reconcile(g, Retried(g, crashed, probes), p);
            && (outcome.Some? <==> p.persistOk)
            && (outcome == Some(MergedOutcome) <==>
                  p.persistOk && InEffect(crashed, w.entry) && p.Looks())
            && settled.target == crashed.target && settled.source == crashed.source
            && (outcome == Some(MergedOutcome) ==> settled.entry.mergeCommit == Some(w.entry.head))
  {
    var crashed := Run(g, Start(w), ticks).world;
    MachineInvAlways(g, w, ticks);
    TargetTells(g, w, ticks);
    MergingRowIsTheJob(g, w, ticks);
    RetriesOnlyAbort(g, crashed, probes);
    ReconcileMerging(g, Retried(g, crashed, probes), p);
    if InEffect(crashed, w.entry) {
      EffectIsOwn(g, w.target, Run(g, Start(w), ticks));
    }
  }

  /** For a lone coordinator whose source was at the head they do not even change the outcome. */
  lemma RetriesChangeNothing(g: Graph, w: World, ticks: seq<Tick>, probes: seq<Probe>, p: Probe)
    requires Begun(w) && Quiet(ticks) && w.target != w.entry.head && w.source == w.entry.head && p.Clean()
    requires var crashed := Run(g, Start(w), ticks).world;
             crashed.entry.status == Merging && AllRefused(g, crashed, probes)
    ensures var crashed := Run(g, Start(w), ticks).world;
            Reconcile(g, Retried(g, crashed, probes), p).1 == Reconcile(g, crashed, p).1
  {
    var crashed := Run(g, Start(w), ticks).world;
    MergingRowIsTheJob(g, w, ticks);
    QuietTarget(g, w, ticks);
    QuietWritesAreOwn(g, w, ticks);
    SourceCameFrom(g, w, ticks);
    RetriesOnlyAbort(g, crashed, probes);
    ReconcileClean(g, crashed, p);
    ReconcileClean(g, Retried(g, crashed, probes), p);
  }
}
