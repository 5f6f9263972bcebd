/** Reachable queues on which a claim does less than one might expect. */
module MergeScenario {
  import opened Prelude
  import LockResource
  import LockTable
  import opened MergeQueue
  import opened MergeQueueSafety
  import opened MergeClaim

  // ----- Queues full of claimable entries ------------------------------------------------------------------

  const HELD := Fence(0, 1)

  const LEASE := LockTable.Lease(0, 0, "a", LockResource.Workspace("w"), LockTable.Exclusive, 1, 0, 1)

  const TREE := Worktree(0, "a", "w", "b", 0, Some(1), HELD, Ready)

  /** The first `n` worktrees. */
  function Trees(n: nat): (r: map<Id, Worktree>)
    ensures forall i: Id {:trigger i in r} :: i in r <==> i < n
    ensures forall i: Id {:trigger r[i]} :: i < n ==> r[i] == TREE
  {
    if n == 0 then map[] else Trees(n - 1)[n - 1 := TREE]
  }

  function Row(i: nat, priority: int, tests: Gate): Entry {
    Entry(i, i + 1, priority, i, 0, "a", "w", "b", "m", 0, 1, None, HELD, Passed, tests, Queued, {}, None, None, 0)
  }

  function Rows(n: nat): seq<Entry> {
    seq(n, i requires 0 <= i < n => Row(i, 0, Passed))
  }

  /** Enqueue worktree `i` and pass its review. */
  function Reviewed(ops: seq<Op>, i: nat, priority: int): seq<Op> {
    ops + [EnqueueOp(Request(i, "m", priority), 0, i)] + [MutateOp(i, RecordReview("r", true), 0)]
  }

  function PassTests(i: nat): Op {
    MutateOp(i, RecordTests("t", true), 0)
  }

  /** `n` of `limit` worktrees in the queue, all gates passed. */
  function Fill(limit: nat, n: nat): seq<Op> {
    if n == 0 then [OtherServices(Trees(limit), [LEASE])]
    else Reviewed(Fill(limit, n - 1), n - 1, 0) + [PassTests(n - 1)]
  }

  ghost predicate Filled(q: Queue, limit: nat, entries: seq<Entry>) {
    && q.entries == entries && q.sequence == |entries| && q.worktrees == Trees(limit) && q.leases == [LEASE]
    && forall i :: 0 <= i < |entries| ==>
         entries[i].id == i && entries[i].worktreeId == i && entries[i].status == Queued
  }

  lemma NamesAreFine()
    ensures SafeBranch("m") && !Blank("r") && !Blank("t")
  {
    assert "r"[0] == 'r' && "t"[0] == 't' && "m"[0] == 'm';
    assert Trim("m") == "m";
  }

  lemma NewcomerFits(entries: seq<Entry>)
    requires forall i :: 0 <= i < |entries| ==> entries[i].id == i && entries[i].worktreeId == i
    ensures ByWorktree(entries, |entries|).None? && IndexOf(entries, |entries|).None?
  {
  }

  lemma EnqueueRow(q: Queue, limit: nat, entries: seq<Entry>, priority: int)
    requires Filled(q, limit, entries) && |entries| < limit && -MAX_PRIORITY <= priority <= MAX_PRIORITY
    ensures var i := |entries|;
            Filled(QueueStep(q, EnqueueOp(Request(i, "m", priority), 0, i)), limit,
                   entries + [Row(i, priority, Pending).(review := Pending)])
  {
    NamesAreFine();
    NewcomerFits(entries);
    var i := |entries|;
    assert LockTable.Lookup([LEASE], 0) == Some(LEASE);
    assert q.worktrees[i] == TREE;
  }

  function WithGate(e: Entry, c: Change): Entry {
    if c.RecordReview? then e.(review := Passed, updatedAt := 0) else e.(tests := Passed, updatedAt := 0)
  }

  lemma DecideLast(q: Queue, limit: nat, entries: seq<Entry>, c: Change)
    requires Filled(q, limit, entries) && entries != []
    requires c == RecordReview("r", true) || c == RecordTests("t", true)
    ensures var i := |entries| - 1;
            Filled(QueueStep(q, MutateOp(i, c, 0)), limit, entries[i := WithGate(entries[i], c)])
  {
    NamesAreFine();
    var i := |entries| - 1;
    assert IndexOf(entries, i) == Some(i);
    assert Transition(entries[i], c, 0) == Ok(WithGate(entries[i], c));
    var after := entries[i := WithGate(entries[i], c)];
    assert forall j :: 0 <= j < |after| ==> !after[j].status.Active();
  }

  lemma ReviewedRow(ops: seq<Op>, limit: nat, entries: seq<Entry>, priority: int)
    requires Filled(Run(ops), limit, entries) && |entries| < limit && -MAX_PRIORITY <= priority <= MAX_PRIORITY
    ensures Filled(Run(Reviewed(ops, |entries|, priority)), limit, entries + [Row(|entries|, priority, Pending)])
  {
    var i := |entries|;
    var enqueue, review := EnqueueOp(Request(i, "m", priority), 0, i), MutateOp(i, RecordReview("r", true), 0);
    RunSnoc(ops, enqueue);
    RunSnoc(ops + [enqueue], review);
    EnqueueRow(Run(ops), limit, entries, priority);
    var queued := entries + [Row(i, priority, Pending).(review := Pending)];
    DecideLast(Run(ops + [enqueue]), limit, queued, RecordReview("r", true));
    assert queued[i := WithGate(queued[i], RecordReview("r", true))] == entries + [Row(i, priority, Pending)];
  }

  lemma TestedRow(ops: seq<Op>, limit: nat, entries: seq<Entry>, priority: int)
    requires Filled(Run(ops), limit, entries + [Row(|entries|, priority, Pending)])
    ensures Filled(Run(ops + [PassTests(|entries|)]), limit, entries + [Row(|entries|, priority, Passed)])
  {
    var i, rows := |entries|, entries + [Row(|entries|, priority, Pending)];
    RunSnoc(ops, PassTests(i));
    DecideLast(Run(ops), limit, rows, RecordTests("t", true));
    assert rows[i := WithGate(rows[i], RecordTests("t", true))] == entries + [Row(i, priority, Passed)];
  }

  lemma {:induction false} FillFills(limit: nat, n: nat)
    requires n <= limit
    ensures Filled(Run(Fill(limit, n)), limit, Rows(n))
  {
    if n == 0 {
      RunSnoc([], OtherServices(Trees(limit), [LEASE]));
      assert [] + [OtherServices(Trees(limit), [LEASE])] == Fill(limit, 0);
      assert Rows(0) == [];
    } else {
      var fewer := Fill(limit, n - 1);
      FillFills(limit, n - 1);
      assert |Rows(n - 1)| == n - 1;
      ReviewedRow(fewer, limit, Rows(n - 1), 0);
      TestedRow(Reviewed(fewer, n - 1, 0), limit, Rows(n - 1), 0);
      assert Rows(n - 1) + [Row(n - 1, 0, Passed)] == Rows(n);
    }
  }

  // ----- A live candidate behind a hundred dead ones ----------------------------------------------------------

  /** When the hundred best have dead fences, a claim returns nothing and a live one behind them stays claimable. */
  lemma DeadOnesHideLive(q: Queue, now: int, i: nat)
    requires RowsInv(q) && !HasActive(q.entries) && i < |q.entries|
    requires forall c <- Candidates(q.entries) :: FenceError(q, c, now).Some?
    requires q.entries[i].Claimable() && FenceError(q, q.entries[i], now).None?
    ensures var (q', r) := ClaimNext(q, now);
            r == Ok(None) && |q'.entries| == |q.entries| && q'.entries[i] == q.entries[i]
  {
    ClaimSelects(q, now);
  }

  lemma {:induction false} RankedInOrder(entries: seq<Entry>)
    requires forall e <- entries :: e.Claimable()
    requires forall i, j :: 0 <= i < j < |entries| ==> RanksBefore(entries[i], entries[j])
    ensures Ranked(entries) == entries
  {
    if entries == [] {
    } else {
      var front, last := entries[..|entries| - 1], entries[|entries| - 1];
      RankedInOrder(front);
      RanksLast(last, front);
      assert entries == front + [last];
    }
  }

  lemma {:induction false} RanksLast(e: Entry, ranked: seq<Entry>)
    requires forall x <- ranked :: RanksBefore(x, e)
    ensures RankIn(e, ranked) == ranked + [e]
  {
    if ranked == [] {
    } else {
      assert ranked[0] in ranked;
      RanksLast(e, ranked[1..]);
      assert ranked + [e] == [ranked[0]] + (ranked[1..] + [e]);
    }
  }

  lemma HundredCandidates(q: Queue)
    requires q.entries == Rows(101) && q.worktrees == map[100 := TREE] && q.leases == [LEASE]
    ensures Candidates(q.entries) == Rows(101)[..100]
    ensures forall c <- Candidates(q.entries) :: FenceError(q, c, 0).Some?
    ensures q.entries[100].Claimable() && FenceError(q, q.entries[100], 0).None?
  {
    RankedInOrder(q.entries);
    assert LockTable.Lookup([LEASE], 0) == Some(LEASE);
  }

  lemma OneHidden(q: Queue)
    requires RowsInv(q) && q.entries == Rows(101) && q.worktrees == map[100 := TREE] && q.leases == [LEASE]
    ensures q.entries[100].Claimable() && FenceError(q, q.entries[100], 0).None?
    ensures var (q', r) := ClaimNext(q, 0);
            r == Ok(None) && |q'.entries| == 101 && q'.entries[100] == q.entries[100]
  {
    HundredCandidates(q);
    assert !HasActive(q.entries);
    DeadOnesHideLive(q, 0, 100);
  }

  lemma FillThenLose(n: nat, left: map<Id, Worktree>) returns (ops: seq<Op>)
    ensures var q := Run(ops);
            RowsInv(q) && q.entries == Rows(n) && q.worktrees == left && q.leases == [LEASE]
  {
    var gone := OtherServices(left, [LEASE]);
    ops := Fill(n, n) + [gone];
    FillFills(n, n);
    RunSnoc(Fill(n, n), gone);
    QueueInvAlways(ops);
  }

  /** It happens: 101 entries are queued with passed gates, then all worktrees but the last are gone. */
  lemma HundredDeadHideOne() returns (ops: seq<Op>)
    ensures var q := Run(ops);
            var (q', r) := ClaimNext(q, 0);
            && |q.entries| == |q'.entries| == 101
            && q.entries[100].Claimable() && FenceError(q, q.entries[100], 0).None?
            && r == Ok(None) && q'.entries[100] == q.entries[100]
  {
    ops := FillThenLose(101, map[100 := TREE]);
    OneHidden(Run(ops));
  }

  // ----- A better entry opened behind the listing --------------------------------------------------------------

  lemma OneListed(low: Entry, high: Entry)
    requires low.Claimable() && !high.Claimable()
    ensures Ranked([low, high]) == [low]
  {
    assert [low, high][..1] == [low] && [low][..0] == [];
    assert Ranked([low]) == [low];
  }

  lemma LowWins(q: Queue, low: Entry, high: Entry)
    requires Filled(q, 2, [low, high]) && low == Row(0, 0, Passed) && high == Row(1, 1, Passed)
    ensures TryClaim(q, 0, 0).Ok? && TryClaim(q, 0, 0).value.1 == Won(low.(status := Claimed))
    ensures TryClaim(q, 0, 0).value.0.entries == [low.(status := Claimed), high]
  {
    assert q.entries[..1] == [low] && IndexOf(q.entries, 0) == Some(0);
    assert LockTable.Lookup([LEASE], 0) == Some(LEASE);
    assert q.entries[0 := low.(status := Claimed)] == [low.(status := Claimed), high];
  }

  /** The call up to the point where it is about to try the only entry it has listed. */
  lemma ListThenOpen(q: Queue, low: Entry, high: Entry) returns (ticks: seq<CallTick>)
    requires q.entries == [low, high] && low.Claimable() && !high.Claimable() && high.status == Queued
    ensures ticks == [OwnStep, OwnStep, OtherStep(PassTests(1))]
    ensures CallRun(q, 0, ticks).queue == QueueStep(q, PassTests(1)) && CallRun(q, 0, ticks).pc == Trying([low])
  {
    OneListed(low, high);
    assert !HasActive(q.entries);
    CallSnoc(q, 0, [], OwnStep);
    CallSnoc(q, 0, [OwnStep], OwnStep);
    CallSnoc(q, 0, [OwnStep, OwnStep], OtherStep(PassTests(1)));
    assert [] + [OwnStep] == [OwnStep];
    assert [OwnStep] + [OwnStep] == [OwnStep, OwnStep];
    ticks := [OwnStep, OwnStep] + [OtherStep(PassTests(1))];
  }

  lemma TwoRows() returns (ops: seq<Op>)
    ensures Filled(Run(ops), 2, [Row(0, 0, Passed), Row(1, 1, Pending)])
    ensures Filled(QueueStep(Run(ops), PassTests(1)), 2, [Row(0, 0, Passed), Row(1, 1, Passed)])
  {
    var low := Row(0, 0, Passed);
    ops := Reviewed(Fill(2, 1), 1, 1);
    FillFills(2, 1);
    assert Rows(1) == [low];
    ReviewedRow(Fill(2, 1), 2, [low], 1);
    assert [low] + [Row(1, 1, Pending)] == [low, Row(1, 1, Pending)];
    RunSnoc(ops, PassTests(1));
    TestedRow(ops, 2, [low], 1);
    assert [low] + [Row(1, 1, Passed)] == [low, Row(1, 1, Passed)];
  }

  lemma LowWinsTheCall(c: ClaimCall)
    requires c.pc == Trying([Row(0, 0, Passed)]) && Filled(c.queue, 2, [Row(0, 0, Passed), Row(1, 1, Passed)])
    ensures var w := Row(0, 0, Passed).(status := Claimed);
            && CallStep(c, 0, OwnStep).pc == Answered(Ok(Some(w)))
            && !BestLeft(CallStep(c, 0, OwnStep).queue, w)
  {
    LowWins(c.queue, Row(0, 0, Passed), Row(1, 1, Passed));
    var left := CallStep(c, 0, OwnStep).queue;
    assert left.entries[1] == Row(1, 1, Passed);
  }

  /** A claim lists one entry; before it tries it, another client passes the tests of an entry with a higher
      priority. The claim still takes the listed one, and something better is left. */
  lemma OpenedBehindTheListing() returns (ops: seq<Op>, ticks: seq<CallTick>, w: Entry)
    ensures ticks == [OwnStep, OwnStep, OtherStep(PassTests(1))]
    ensures WinsNext(Run(ops), 0, ticks, w)
    ensures !BestLeft(CallStep(CallRun(Run(ops), 0, ticks), 0, OwnStep).queue, w)
  {
    ops := TwoRows();
    ticks := ListThenOpen(Run(ops), Row(0, 0, Passed), Row(1, 1, Pending));
    w := Row(0, 0, Passed).(status := Claimed);
    LowWinsTheCall(CallRun(Run(ops), 0, ticks));
  }
}
