/** What the queue asks of the lock table: the fence of an entry is live exactly if the lease behind it was granted for
    the entry's own session, agent and workspace, and still stands; and whom a claim serves first. */
module MergeFence {
  import opened Prelude
  import opened MergeQueue
  import opened MergeQueueSafety
  import LockTable
  import LockHistory

  // ----- Fences and grants -----------------------------------------------------------------------------------------

  /** There is a grant under this identifier and token, for this session and agent, somewhere in this workspace, that
      stands beyond `now`. */
  predicate Granted(s: LockHistory.Story, fence: Fence, session: nat, agent: string, workspaceId: string, now: int) {
    && LockHistory.Stands(s, fence.token, now)
    && var g := s.grants[fence.token - 1];
       && g.id == fence.lockId && g.request.session == session && g.request.owner == agent
       && g.request.resource.workspaceId == workspaceId
  }

  lemma MatchTold(s: LockHistory.Story, t: LockTable.Table, fence: Fence, session: nat, agent: string,
                  workspaceId: string, now: int)
    requires LockHistory.Told(s, t) && LockTable.Orderly(t.leases)
    ensures LeaseMatches(t.leases, fence, session, agent, workspaceId, now) <==>
            Granted(s, fence, session, agent, workspaceId, now)
  {
    LockHistory.LookupTold(s, t, fence.lockId, agent, fence.token);
    var row := LockTable.Lookup(t.leases, fence.lockId);
    if row.Some? {
      assert LockHistory.RowTold(s, row.value);
    }
  }

  /** Over every run of the lock table a fence matches its lease exactly if the grant behind it stands, as told by the
      lock operations alone. */
  lemma LeaseMatchesIff(ops: seq<LockTable.Op>, fence: Fence, session: nat, agent: string, workspaceId: string,
                        now: int)
    ensures LeaseMatches(LockTable.Run(ops).table.leases, fence, session, agent, workspaceId, now) <==>
            Granted(LockHistory.StoryOf(ops), fence, session, agent, workspaceId, now)
  {
    LockHistory.HistoryTells(ops);
    LockTable.RunInv(ops);
    MatchTold(LockHistory.StoryOf(ops), LockTable.Run(ops).table, fence, session, agent, workspaceId, now);
  }

  /** An entry passes its fence check exactly if the grant behind it stands, and its worktree is there, ready, at the
      entry's head and under the same token. */
  lemma FenceCheckIff(ops: seq<LockTable.Op>, q: Queue, id: Id, now: int)
    requires q.leases == LockTable.Run(ops).table.leases
    ensures FenceCheck(q, id, now).Ok? <==>
            && IndexOf(q.entries, id).Some?
            && var e := q.entries[IndexOf(q.entries, id).value];
               && Granted(LockHistory.StoryOf(ops), e.fence, e.session, e.agent, e.workspaceId, now)
               && e.worktreeId in q.worktrees
               && var w := q.worktrees[e.worktreeId];
                  w.status == Ready && w.head == Some(e.head) && w.fence.token == e.fence.token
  {
    if IndexOf(q.entries, id).Some? {
      var e := q.entries[IndexOf(q.entries, id).value];
      LeaseMatchesIff(ops, e.fence, e.session, e.agent, e.workspaceId, now);
    }
  }

  // ----- Whom a claim serves ---------------------------------------------------------------------------------------

  /** After an undisturbed claim the rows are still in the order in which they were enqueued. */
  lemma ClaimedRows(ops: seq<Op>, now: int)
    ensures RowsInv(ClaimFrom(Run(ops), Candidates(Run(ops).entries), now).0)
  {
    var more := ClaimIsARun(ops, Run(ops), Candidates(Run(ops).entries), now);
    QueueInvAlways(ops + more);
  }

  lemma BestIsFirst(q: Queue, i: nat, j: nat)
    requires RowsInv(q) && i < |q.entries| && j < |q.entries|
    requires BestLeft(q, q.entries[i]) && q.entries[j].Claimable()
    ensures q.entries[j].priority < q.entries[i].priority || (q.entries[j].priority == q.entries[i].priority && i < j)
  {
    if j < i {
      assert InOrder(q.entries[j], q.entries[i]);
    }
  }

  /** Over every run: whoever could still be claimed after an undisturbed claim has no higher priority than the winner,
      and was enqueued after it if it has the same. */
  lemma HighestPriorityFirst(ops: seq<Op>, now: int, q: Queue, i: nat, j: nat)
    requires !HasActive(Run(ops).entries)
    requires i < |q.entries| && ClaimNext(Run(ops), now) == (q, Ok(Some(q.entries[i])))
    requires j < |q.entries| && q.entries[j].Claimable()
    ensures q.entries[j].priority < q.entries[i].priority || (q.entries[j].priority == q.entries[i].priority && i < j)
  {
    QueueInvAlways(ops);
    ClaimSelects(Run(ops), now);
    ClaimedRows(ops, now);
    BestIsFirst(q, i, j);
  }
}
