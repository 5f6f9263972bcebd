/** A claim among other clients: who can win, what happened to the better-ranked candidates, and exactly when
    nothing better is left. */
module MergeClaim {
  import opened Prelude
  import opened MergeQueue
  import opened MergeQueueSafety

  // ----- Rows keep their rank ------------------------------------------------------------------------------

  /** The row of `r` is there and ranks as it did. */
  ghost predicate HasRow(q: Queue, r: Entry) {
    exists e <- q.entries :: SameRank(e, r)
  }

  predicate SameRank(a: Entry, b: Entry) {
    a.id == b.id && a.priority == b.priority && a.sequence == b.sequence
  }

  lemma MutateKeepsRank(q: Queue, id: Id, c: Change, now: int, i: nat)
    requires i < |q.entries| && Mutate(q, id, c, now).Ok?
    ensures var q' := Mutate(q, id, c, now).value.0;
            i < |q'.entries| && SameRank(q'.entries[i], q.entries[i])
  {
  }

  lemma StepKeepsRank(q: Queue, op: Op, i: nat)
    requires i < |q.entries|
    ensures i < |QueueStep(q, op).entries| && SameRank(QueueStep(q, op).entries[i], q.entries[i])
  {
    match op
    case EnqueueOp(r, now, freshId) =>
    case MutateOp(id, c, now) => if Mutate(q, id, c, now).Ok? { MutateKeepsRank(q, id, c, now, i); }
    case FinishRebaseOp(id, target, head, reason, now) =>
      if Mutate(q, id, RequeueAfterRebase(target, head, reason), now).Ok? {
        MutateKeepsRank(q, id, RequeueAfterRebase(target, head, reason), now, i);
      }
    case ConflictTaskOp(id, target, source, paths, now) =>
    case TryClaimOp(id, now) =>
    case OtherServices(_, _) =>
  }

  lemma RowsStay(q: Queue, op: Op, r: Entry)
    requires HasRow(q, r)
    ensures HasRow(QueueStep(q, op), r)
  {
    var e :| e in q.entries && SameRank(e, r);
    var i :| 0 <= i < |q.entries| && q.entries[i] == e;
    StepKeepsRank(q, op, i);
    assert QueueStep(q, op).entries[i] in QueueStep(q, op).entries;
  }

  // ----- What holds during a call ---------------------------------------------------------------------------

  /** The candidate was tried on this queue and did not win: it was not claimable, or it had a dead fence and is
      failed for it. */
  ghost predicate Lost(q: Queue, id: Id, now: int) {
    !ClaimableId(q, id) || (exists e <- q.entries :: e.id == id && e.Claimable() && FenceError(q, e, now).Some?)
  }

  ghost predicate Listed(c: ClaimCall, now: int) {
    && SortedByRank(c.ranked) && NoDup(IdList(c.ranked))
    && (forall r <- c.ranked :: HasRow(c.queue, r))
    && (forall id <- c.lit :: ClaimableId(c.queue, id) && exists r <- c.ranked :: r.id == id)
  }

  function IdList(entries: seq<Entry>): seq<Id> {
    seq(|entries|, i requires 0 <= i < |entries| => entries[i].id)
  }

  ghost predicate LostSoFar(c: ClaimCall, k: nat, now: int) {
    && k <= |c.tried| && k <= |Shortlist(c.ranked)|
    && forall j :: 0 <= j < k ==> Lost(c.tried[j], Shortlist(c.ranked)[j].id, now) && c.ranked[j].id !in c.lit
  }

  /** The candidate at hand won: it was claimable, its fence and snapshot were live, and nothing was active. */
  ghost predicate WonIn(q: Queue, w: Entry, q': Queue, now: int) {
    && !HasActive(q.entries)
    && exists i: nat :: WonBy(q, q', i, w, now)
  }

  ghost predicate CallInv(c: ClaimCall, now: int) {
    && QueueInv(c.queue)
    && match c.pc
       case Trying(rest) =>
         && Listed(c, now) && LostSoFar(c, |c.tried|, now) && rest == Shortlist(c.ranked)[|c.tried|..]
       case _ => true
  }

  lemma RelitKeeps(c: ClaimCall, now: int)
    requires QueueInv(c.queue) && c.pc.Trying?
    requires SortedByRank(c.ranked) && NoDup(IdList(c.ranked)) && forall r <- c.ranked :: HasRow(c.queue, r)
    requires forall id <- c.lit :: exists r <- c.ranked :: r.id == id
    requires |c.tried| <= |Shortlist(c.ranked)| && c.pc.rest == Shortlist(c.ranked)[|c.tried|..]
    requires forall j :: 0 <= j < |c.tried| ==>
      Lost(c.tried[j], Shortlist(c.ranked)[j].id, now)
      && (c.ranked[j].id in c.lit ==> !ClaimableId(c.queue, c.ranked[j].id))
    ensures CallInv(Relit(c), now)
  {
  }

  lemma OtherKeeps(c: ClaimCall, now: int, op: Op)
    requires CallInv(c, now)
    ensures CallInv(CallStep(c, now, OtherStep(op)), now)
  {
    StepKeeps(c.queue, op);
    if c.pc.Trying? {
      forall r | r in c.ranked ensures HasRow(QueueStep(c.queue, op), r) {
        RowsStay(c.queue, op, r);
      }
      RelitKeeps(c.(queue := QueueStep(c.queue, op)), now);
    }
  }

  lemma RankedIds(q: Queue)
    requires RowsInv(q)
    ensures NoDup(IdList(Ranked(q.entries)))
  {
    RankedSpec(q.entries);
    var ranked := Ranked(q.entries);
    forall i, j | 0 <= i < j < |ranked| ensures IdList(ranked)[i] != IdList(ranked)[j] {
      assert ranked[i] in q.entries && ranked[j] in q.entries && RanksBefore(ranked[i], ranked[j]);
    }
  }

  lemma RowOf(q: Queue, e: Entry)
    requires RowsInv(q) && e in q.entries
    ensures IndexOf(q.entries, e.id).Some? && q.entries[IndexOf(q.entries, e.id).value] == e
  {
    var i :| 0 <= i < |q.entries| && q.entries[i] == e;
    var k := IndexOf(q.entries, e.id).value;
    assert i < k ==> InOrder(q.entries[i], q.entries[k]);
    assert k < i ==> InOrder(q.entries[k], q.entries[i]);
  }

  lemma ListingKeeps(c: ClaimCall, now: int)
    requires CallInv(c, now) && c.pc == Listing
    ensures CallInv(CallStep(c, now, OwnStep), now)
  {
    var q, ranked := c.queue, Ranked(c.queue.entries);
    RankedSpec(q.entries);
    RankedIds(q);
    forall r | r in ranked ensures HasRow(q, r) && ClaimableId(q, r.id) {
      RowOf(q, r);
      assert SameRank(r, r);
    }
  }

  lemma TriedAndLost(q: Queue, id: Id, now: int)
    requires RowsInv(q) && TryClaim(q, id, now).Ok? && !TryClaim(q, id, now).value.1.Won?
    ensures Lost(q, id, now) && !ClaimableId(TryClaim(q, id, now).value.0, id)
  {
    var i := IndexOf(q.entries, id).value;
    var e := q.entries[i];
    if e.Claimable() {
      assert e in q.entries;
      var q' := TryClaim(q, id, now).value.0;
      assert q'.entries == q.entries[i := FenceFailed(e, FenceError(q, e, now).value, now)];
      SameIds(q.entries, i, q'.entries[i]);
    }
  }

  lemma {:induction false} SameIds(entries: seq<Entry>, i: nat, e: Entry)
    requires i < |entries| && e.id == entries[i].id
    ensures forall id :: IndexOf(entries[i := e], id) == IndexOf(entries, id)
  {
    var n := |entries|;
    forall id ensures IndexOf(entries[i := e], id) == IndexOf(entries, id) {
      if i < n - 1 {
        SameIds(entries[..n - 1], i, e);
        assert entries[i := e][..n - 1] == entries[..n - 1][i := e];
      } else {
        assert entries[i := e][..n - 1] == entries[..n - 1];
      }
    }
  }

  lemma AfterLoss(c: ClaimCall, now: int, rest: seq<Entry>, q: Queue)
    requires CallInv(c, now) && c.pc == Trying(rest) && rest != []
    requires QueueInv(q) && Lost(c.queue, rest[0].id, now) && !ClaimableId(q, rest[0].id)
    requires forall r <- c.ranked :: HasRow(q, r)
    ensures CallInv(Relit(c.(queue := q, tried := c.tried + [c.queue], pc := Trying(rest[1..]))), now)
  {
    assert rest[0] == Shortlist(c.ranked)[|c.tried|] == c.ranked[|c.tried|];
    RelitKeeps(c.(queue := q, tried := c.tried + [c.queue], pc := Trying(rest[1..])), now);
  }

  lemma TryKeepsQueue(q: Queue, id: Id, now: int, ranked: seq<Entry>)
    requires QueueInv(q) && TryClaim(q, id, now).Ok? && forall r <- ranked :: HasRow(q, r)
    ensures QueueInv(TryClaim(q, id, now).value.0) && forall r <- ranked :: HasRow(TryClaim(q, id, now).value.0, r)
  {
    TryClaimKeeps(q, id, now);
    forall r | r in ranked ensures HasRow(TryClaim(q, id, now).value.0, r) {
      RowsStay(q, TryClaimOp(id, now), r);
    }
  }

  lemma TryKeeps(c: ClaimCall, now: int)
    requires CallInv(c, now) && c.pc.Trying?
    ensures CallInv(CallStep(c, now, OwnStep), now)
  {
    var rest := c.pc.rest;
    if rest != [] && TryClaim(c.queue, rest[0].id, now).Ok? {
      TryKeepsQueue(c.queue, rest[0].id, now, c.ranked);
      if !TryClaim(c.queue, rest[0].id, now).value.1.Won? {
        TriedAndLost(c.queue, rest[0].id, now);
        AfterLoss(c, now, rest, TryClaim(c.queue, rest[0].id, now).value.0);
      }
    }
  }

  lemma {:induction false} CallInvAlways(q: Queue, now: int, ticks: seq<CallTick>)
    requires QueueInv(q)
    ensures CallInv(CallRun(q, now, ticks), now)
  {
    if ticks == [] {
    } else {
      var c, tick := CallRun(q, now, ticks[..|ticks| - 1]), ticks[|ticks| - 1];
      CallInvAlways(q, now, ticks[..|ticks| - 1]);
      if tick.OtherStep? {
        OtherKeeps(c, now, tick.op);
      } else if c.pc == Listing {
        ListingKeeps(c, now);
      } else if c.pc.Trying? {
        TryKeeps(c, now);
      }
    }
  }

  // ----- The winner and the candidates before it ------------------------------------------------------------

  /** After `ticks` the call tries a candidate and it wins. */
  ghost predicate WinsNext(q: Queue, now: int, ticks: seq<CallTick>, w: Entry) {
    var c := CallRun(q, now, ticks);
    c.pc.Trying? && CallStep(c, now, OwnStep).pc == Answered(Ok(Some(w)))
  }

  lemma WinningTry(q: Queue, id: Id, now: int) returns (i: nat)
    requires RowsInv(q) && TryClaim(q, id, now).Ok? && TryClaim(q, id, now).value.1.Won?
    ensures var (q', attempt) := TryClaim(q, id, now).value;
            && i < |q.entries| && q.entries[i].id == id && !HasActive(q.entries)
            && WonBy(q, q', i, attempt.entry, now) && q'.entries == q.entries[i := attempt.entry]
  {
    i := IndexOf(q.entries, id).value;
    ClaimContends(q.entries, i, q.entries[i].(status := Claimed, updatedAt := now));
  }

  /** With other clients in between: the winner was claimable, with a live fence and snapshot and nothing
      active, in its own transaction; and every listed candidate that ranks before it was, in its own
      transaction, not claimable or failed for a dead fence. */
  lemma WinnerAmongOthers(q: Queue, now: int, ticks: seq<CallTick>, w: Entry)
    requires QueueInv(q) && WinsNext(q, now, ticks, w)
    ensures var c := CallRun(q, now, ticks);
            && WonIn(c.queue, w, CallStep(c, now, OwnStep).queue, now)
            && |c.tried| < |Shortlist(c.ranked)| && SameRank(w, Shortlist(c.ranked)[|c.tried|])
            && forall j :: 0 <= j < |Shortlist(c.ranked)| && RanksBefore(Shortlist(c.ranked)[j], w) ==>
                 j < |c.tried| && Lost(c.tried[j], Shortlist(c.ranked)[j].id, now)
  {
    CallInvAlways(q, now, ticks);
    var c := CallRun(q, now, ticks);
    var r := c.pc.rest[0];
    assert r == Shortlist(c.ranked)[|c.tried|];
    var i := WinningTry(c.queue, r.id, now);
    WinnerRank(c.queue, i, r);
    forall j | 0 <= j < |Shortlist(c.ranked)| && RanksBefore(Shortlist(c.ranked)[j], w)
      ensures j < |c.tried| && Lost(c.tried[j], Shortlist(c.ranked)[j].id, now)
    {
      RankIsPosition(c.ranked, j, |c.tried|);
    }
  }

  lemma WinnerRank(q: Queue, i: nat, r: Entry)
    requires RowsInv(q) && i < |q.entries| && q.entries[i].id == r.id && HasRow(q, r)
    ensures SameRank(q.entries[i], r)
  {
    var e :| e in q.entries && SameRank(e, r);
    RowOf(q, e);
    RowOf(q, q.entries[i]);
  }

  /** Each candidate met the queue as it was when its own transaction ran. */
  ghost predicate TriedAt(q: Queue, now: int, ticks: seq<CallTick>, j: nat, t: nat) {
    var c := CallRun(q, now, ticks);
    && t < |ticks| && ticks[t] == OwnStep && j < |c.tried| && j < |Shortlist(c.ranked)|
    && var met := CallRun(q, now, ticks[..t]);
       && met.queue == c.tried[j]
       && met.pc.Trying? && met.pc.rest != [] && met.pc.rest[0] == Shortlist(c.ranked)[j]
  }

  lemma TriedAtStays(q: Queue, now: int, ticks: seq<CallTick>, tick: CallTick, j: nat, t: nat)
    requires TriedAt(q, now, ticks, j, t)
    requires CallRun(q, now, ticks + [tick]).ranked == CallRun(q, now, ticks).ranked
    requires j < |CallRun(q, now, ticks + [tick]).tried|
    requires CallRun(q, now, ticks + [tick]).tried[j] == CallRun(q, now, ticks).tried[j]
    ensures TriedAt(q, now, ticks + [tick], j, t)
  {
    assert (ticks + [tick])[..t] == ticks[..t];
  }

  lemma {:induction false} TriedInItsTurn(q: Queue, now: int, ticks: seq<CallTick>, j: nat) returns (t: nat)
    requires QueueInv(q) && CallRun(q, now, ticks).pc.Trying? && j < |CallRun(q, now, ticks).tried|
    ensures TriedAt(q, now, ticks, j, t)
  {
    var before, tick := ticks[..|ticks| - 1], ticks[|ticks| - 1];
    assert ticks == before + [tick];
    CallSnoc(q, now, before, tick);
    CallInvAlways(q, now, before);
    CallInvAlways(q, now, ticks);
    var c0 := CallRun(q, now, before);
    if j < |c0.tried| {
      t := TriedInItsTurn(q, now, before, j);
      TriedAtStays(q, now, before, tick, j, t);
    } else {
      t := |before|;
      assert ticks[..t] == before;
    }
  }

  // ----- Which transactions open and close an entry ---------------------------------------------------------

  /** A passing decision on a queued entry whose other gate has passed already. */
  predicate Opens(q: Queue, op: Op, id: Id) {
    && op.MutateOp? && op.id == id && IndexOf(q.entries, id).Some?
    && var e := q.entries[IndexOf(q.entries, id).value];
       && e.status == Queued
       && match op.change
          case RecordReview(reviewer, approved) =>
            approved && !Blank(reviewer) && e.review != Passed && e.tests == Passed
          case RecordTests(suite, passed) => passed && !Blank(suite) && e.tests != Passed && e.review == Passed
          case _ => false
  }

  /** A refusing decision, a cancellation or a claim that takes a claimable entry, or a claim that finds its
      fence dead. */
  predicate Closes(q: Queue, op: Op, id: Id) {
    && ClaimableId(q, id)
    && match op
       case MutateOp(x, c, _) =>
         && x == id
         && (match c
             case RecordReview(reviewer, approved) => !approved && !Blank(reviewer)
             case RecordTests(suite, passed) => !passed && !Blank(suite)
             case Cancel(reason) => !Blank(reason)
             case Claim => !HasActive(q.entries)
             case _ => false)
       case TryClaimOp(x, now) =>
         && x == id
         && (HasActive(q.entries) ==> FenceError(q, q.entries[IndexOf(q.entries, id).value], now).Some?)
       case _ => false
  }

  lemma MutateChangesOne(q: Queue, x: Id, c: Change, now: int, id: Id)
    requires RowsInv(q) && Mutate(q, x, c, now).Ok?
    ensures ClaimableId(Mutate(q, x, c, now).value.0, id) <==>
            if x == id then Mutate(q, x, c, now).value.1.Claimable() else ClaimableId(q, id)
  {
    var i := IndexOf(q.entries, x).value;
    var e := Transition(q.entries[i], c, now).value;
    SameIds(q.entries, i, e);
    assert Mutate(q, x, c, now).value.0.entries == q.entries[i := e];
  }

  lemma MutateOkIff(q: Queue, i: nat, c: Change, now: int)
    requires RowsInv(q) && i < |q.entries| && IndexOf(q.entries, q.entries[i].id) == Some(i)
    ensures Mutate(q, q.entries[i].id, c, now).Ok? <==>
            Transition(q.entries[i], c, now).Ok? && (c.Claim? ==> !HasActive(q.entries))
  {
    var e := Transition(q.entries[i], c, now);
    if e.Ok? {
      if c.Claim? {
        ClaimContends(q.entries, i, e.value);
      } else {
        ChangesFit(q.entries, i, c, now);
      }
    }
  }

  lemma MutateElsewhereKeeps(q: Queue, op: Op, id: Id)
    requires RowsInv(q) && op.MutateOp? && (op.id != id || IndexOf(q.entries, id).None?)
    ensures ClaimableId(QueueStep(q, op), id) <==> ClaimableId(q, id)
  {
    if Mutate(q, op.id, op.change, op.now).Ok? {
      MutateChangesOne(q, op.id, op.change, op.now, id);
    }
  }

  /** A change of the entry itself, by its transition. */
  lemma MutateItself(q: Queue, op: Op, i: nat)
    requires RowsInv(q) && op.MutateOp? && IndexOf(q.entries, op.id) == Some(i)
    ensures var e, c := q.entries[i], op.change;
            var done := Transition(e, c, op.now).Ok? && (c.Claim? ==> !HasActive(q.entries));
            ClaimableId(QueueStep(q, op), op.id) <==>
            (if done then Transition(e, c, op.now).value.Claimable() else e.Claimable())
  {
    MutateOkIff(q, i, op.change, op.now);
    if Mutate(q, op.id, op.change, op.now).Ok? {
      MutateChangesOne(q, op.id, op.change, op.now, op.id);
    }
  }

  lemma MutateOpens(q: Queue, op: Op, id: Id)
    requires RowsInv(q) && op.MutateOp?
    ensures !ClaimableId(q, id) && ClaimableId(QueueStep(q, op), id) <==> Opens(q, op, id)
  {
    if op.id == id && IndexOf(q.entries, id).Some? {
      MutateItself(q, op, IndexOf(q.entries, id).value);
    } else {
      MutateElsewhereKeeps(q, op, id);
    }
  }

  lemma MutateCloses(q: Queue, op: Op, id: Id)
    requires RowsInv(q) && op.MutateOp?
    ensures ClaimableId(q, id) && !ClaimableId(QueueStep(q, op), id) <==> Closes(q, op, id)
  {
    if op.id == id && IndexOf(q.entries, id).Some? {
      MutateItself(q, op, IndexOf(q.entries, id).value);
    } else {
      MutateElsewhereKeeps(q, op, id);
    }
  }

  lemma RebaseOpensNothing(q: Queue, op: Op, id: Id)
    requires RowsInv(q) && op.FinishRebaseOp?
    ensures ClaimableId(QueueStep(q, op), id) <==> ClaimableId(q, id)
  {
    var c := RequeueAfterRebase(op.target, op.head, op.reason);
    if Mutate(q, op.id, c, op.now).Ok? {
      MutateChangesOne(q, op.id, c, op.now, id);
    }
  }

  lemma ConflictOpensNothing(q: Queue, op: Op, id: Id)
    requires RowsInv(q) && op.ConflictTaskOp?
    ensures ClaimableId(QueueStep(q, op), id) <==> ClaimableId(q, id)
  {
    var i := IndexOf(q.entries, op.id);
    if TaskFor(q.tasks, op.id).None? && i.Some? && Transition(q.entries[i.value], MarkConflict(op.paths), op.now).Ok? {
      SameIds(q.entries, i.value, Transition(q.entries[i.value], MarkConflict(op.paths), op.now).value);
    }
  }

  lemma EnqueueOpensNothing(q: Queue, op: Op, id: Id)
    requires op.EnqueueOp?
    ensures ClaimableId(QueueStep(q, op), id) <==> ClaimableId(q, id)
  {
    if Enqueue(q, op.request, op.now, op.freshId).Ok? && ByWorktree(q.entries, op.request.worktreeId).None? {
      var (q', e) := Enqueue(q, op.request, op.now, op.freshId).value;
      assert q'.entries[..|q.entries|] == q.entries;
    }
  }

  lemma TryOpensAndCloses(q: Queue, op: Op, id: Id)
    requires RowsInv(q) && op.TryClaimOp?
    ensures ClaimableId(QueueStep(q, op), id) ==> ClaimableId(q, id)
    ensures ClaimableId(q, id) && !ClaimableId(QueueStep(q, op), id) <==> Closes(q, op, id)
  {
    if IndexOf(q.entries, op.id).Some? {
      var i := IndexOf(q.entries, op.id).value;
      TryContends(q, i, op.now);
      if TryClaim(q, op.id, op.now).Ok? {
        var q' := TryClaim(q, op.id, op.now).value.0;
        assert q'.entries == q.entries[i := q'.entries[i]];
        SameIds(q.entries, i, q'.entries[i]);
      } else if q.entries[i].Claimable() {
        FailedFits(q.entries, i, op.now, FenceError(q, q.entries[i], op.now));
      }
    }
  }

  lemma FailedFits(entries: seq<Entry>, i: nat, now: int, error: Option<MergeError>)
    requires SingleActive(entries) && i < |entries|
    ensures error.Some? ==> SingleActive(entries[i := FenceFailed(entries[i], error.value, now)])
  {
  }

  /** Exactly the passing decisions that complete an entry's gates make it claimable, and exactly the refusing
      ones, cancellations and claims end that. */
  lemma OpensAndCloses(q: Queue, op: Op, id: Id)
    requires RowsInv(q)
    ensures !ClaimableId(q, id) && ClaimableId(QueueStep(q, op), id) <==> Opens(q, op, id)
    ensures ClaimableId(q, id) && !ClaimableId(QueueStep(q, op), id) <==> Closes(q, op, id)
  {
    match op
    case EnqueueOp(_, _, _) => EnqueueOpensNothing(q, op, id);
    case MutateOp(_, _, _) =>
      MutateOpens(q, op, id);
      MutateCloses(q, op, id);
    case FinishRebaseOp(_, _, _, _, _) => RebaseOpensNothing(q, op, id);
    case ConflictTaskOp(_, _, _, _, _) => ConflictOpensNothing(q, op, id);
    case TryClaimOp(_, _) => TryOpensAndCloses(q, op, id);
    case OtherServices(_, _) =>
  }

  // ----- When nothing better is left --------------------------------------------------------------------------

  /** The transaction that a step of the call is, its own or another client's. */
  function OpOf(c: ClaimCall, now: int, tick: CallTick): Option<Op> {
    match tick
    case OtherStep(op) => Some(op)
    case OwnStep => if c.pc.Trying? && c.pc.rest != [] then Some(TryClaimOp(c.pc.rest[0].id, now)) else None
  }

  lemma StepsAreOps(c: ClaimCall, now: int, tick: CallTick)
    ensures CallStep(c, now, tick).queue ==
            (match OpOf(c, now, tick) case Some(op) => QueueStep(c.queue, op) case None => c.queue)
  {
  }

  /** The queue that step `t` meets. */
  function QueueAt(q: Queue, now: int, ticks: seq<CallTick>, t: nat): Queue
    requires t <= |ticks|
  {
    CallRun(q, now, ticks[..t]).queue
  }

  /** Since the listing, another client's decision at step `t` opened entry `id`. */
  ghost predicate OpensAt(q: Queue, now: int, ticks: seq<CallTick>, t: nat, id: Id) {
    && t < |ticks| && ticks[t].OtherStep? && CallRun(q, now, ticks[..t]).pc.Trying?
    && Opens(QueueAt(q, now, ticks, t), ticks[t].op, id)
  }

  /** A refusal, a cancellation or a claim at step `t` closed it. */
  ghost predicate ClosesAt(q: Queue, now: int, ticks: seq<CallTick>, t: nat, id: Id) {
    && t < |ticks| && OpOf(CallRun(q, now, ticks[..t]), now, ticks[t]).Some?
    && Closes(QueueAt(q, now, ticks, t), OpOf(CallRun(q, now, ticks[..t]), now, ticks[t]).value, id)
  }

  /** An entry was opened at step `t` and no later step closed it. */
  ghost predicate OpenedForGood(q: Queue, now: int, ticks: seq<CallTick>, t: nat, id: Id) {
    && OpensAt(q, now, ticks, t, id)
    && forall u :: t < u < |ticks| ==> !ClosesAt(q, now, ticks, u, id)
  }

  /** The row of entry `id` ranks before `w`. */
  ghost predicate Outranks(q: Queue, id: Id, w: Entry) {
    exists e <- q.entries :: e.id == id && RanksBefore(e, w)
  }

  /** A claimable entry that ranks before `w`. */
  ghost predicate BetterClaimable(q: Queue, w: Entry, id: Id) {
    exists e <- q.entries :: e.id == id && e.Claimable() && RanksBefore(e, w)
  }

  /** An entry that ranks before `w` was opened for good at step `t`. */
  ghost predicate BetterOpened(q: Queue, now: int, ticks: seq<CallTick>, w: Entry, t: nat, id: Id) {
    OpenedForGood(q, now, ticks, t, id) && Outranks(QueueAt(q, now, ticks, t), id, w)
  }

  lemma OpenedForGoodSnoc(q: Queue, now: int, before: seq<CallTick>, tick: CallTick, t: nat, id: Id)
    requires t < |before|
    ensures OpenedForGood(q, now, before + [tick], t, id) <==>
            OpenedForGood(q, now, before, t, id) && !ClosesAt(q, now, before + [tick], |before|, id)
  {
    var ticks := before + [tick];
    forall u: nat | u < |before| ensures ticks[..u] == before[..u] && ticks[u] == before[u] {
    }
    forall u: nat | u < |before| ensures ClosesAt(q, now, ticks, u, id) <==> ClosesAt(q, now, before, u, id) {
      assert ticks[..u] == before[..u];
    }
    assert OpensAt(q, now, ticks, t, id) <==> OpensAt(q, now, before, t, id) by {
      assert ticks[..t] == before[..t];
    }
  }

  /** The last step, as a transaction that opens or closes entry `id` or leaves it as it is. */
  lemma LastStep(q: Queue, now: int, before: seq<CallTick>, tick: CallTick, id: Id)
    requires QueueInv(q)
    ensures var c0, ticks := CallRun(q, now, before), before + [tick];
            var after := CallRun(q, now, ticks).queue;
            && (ClaimableId(c0.queue, id) && !ClaimableId(after, id) <==> ClosesAt(q, now, ticks, |before|, id))
            && (tick.OtherStep? && c0.pc.Trying? ==>
                  (!ClaimableId(c0.queue, id) && ClaimableId(after, id) <==> OpensAt(q, now, ticks, |before|, id)))
            && (tick == OwnStep ==> (ClaimableId(after, id) ==> ClaimableId(c0.queue, id)))
            && (OpensAt(q, now, ticks, |before|, id) ==> ClaimableId(after, id))
  {
    var c0 := CallRun(q, now, before);
    CallSnoc(q, now, before, tick);
    CallInvAlways(q, now, before);
    StepsAreOps(c0, now, tick);
    assert (before + [tick])[..|before|] == before;
    if OpOf(c0, now, tick).Some? {
      OpensAndCloses(c0.queue, OpOf(c0, now, tick).value, id);
    }
  }

  lemma ListedAreLit(q: Queue, id: Id)
    requires RowsInv(q) && ClaimableId(q, id)
    ensures id in Ids(Ranked(q.entries))
  {
    RankedSpec(q.entries);
    var e := q.entries[IndexOf(q.entries, id).value];
    assert e in Ranked(q.entries);
  }

  /** An entry that is claimable now but has not been so ever since the listing was opened by somebody, for
      good. */
  lemma {:induction false} OpenedSince(q: Queue, now: int, ticks: seq<CallTick>, id: Id) returns (t: nat)
    requires QueueInv(q) && CallRun(q, now, ticks).pc.Trying?
    requires ClaimableId(CallRun(q, now, ticks).queue, id) && id !in CallRun(q, now, ticks).lit
    ensures OpenedForGood(q, now, ticks, t, id)
  {
    var before, tick := ticks[..|ticks| - 1], ticks[|ticks| - 1];
    assert ticks == before + [tick];
    CallSnoc(q, now, before, tick);
    CallInvAlways(q, now, before);
    LastStep(q, now, before, tick, id);
    var c0 := CallRun(q, now, before);
    if c0.pc == Listing {
      ListedAreLit(c0.queue, id);
    }
    if ClaimableId(c0.queue, id) {
      t := OpenedSince(q, now, before, id);
      OpenedForGoodSnoc(q, now, before, tick, t, id);
    } else {
      t := |before|;
    }
  }

  /** What was opened for good is claimable still. */
  lemma {:induction false} OpenedIsOpen(q: Queue, now: int, ticks: seq<CallTick>, t: nat, id: Id)
    requires QueueInv(q) && OpenedForGood(q, now, ticks, t, id)
    ensures ClaimableId(CallRun(q, now, ticks).queue, id)
    decreases |ticks|
  {
    var before, tick := ticks[..|ticks| - 1], ticks[|ticks| - 1];
    assert ticks == before + [tick];
    LastStep(q, now, before, tick, id);
    if t < |before| {
      OpenedForGoodSnoc(q, now, before, tick, t, id);
      OpenedIsOpen(q, now, before, t, id);
    }
  }

  lemma {:induction false} RankStays(q: Queue, now: int, ticks: seq<CallTick>, t: nat, i: nat)
    requires t <= |ticks| && i < |QueueAt(q, now, ticks, t).entries|
    ensures var q' := CallRun(q, now, ticks).queue;
            i < |q'.entries| && SameRank(q'.entries[i], QueueAt(q, now, ticks, t).entries[i])
    decreases |ticks|
  {
    if t == |ticks| {
      assert ticks[..t] == ticks;
    } else {
      var before, tick := ticks[..|ticks| - 1], ticks[|ticks| - 1];
      assert ticks == before + [tick] && ticks[..t] == before[..t];
      RankStays(q, now, before, t, i);
      CallSnoc(q, now, before, tick);
      var c0 := CallRun(q, now, before);
      StepsAreOps(c0, now, tick);
      if OpOf(c0, now, tick).Some? {
        StepKeepsRank(c0.queue, OpOf(c0, now, tick).value, i);
      }
    }
  }

  /** An entry ranks now as it did when it was opened. */
  lemma OutranksStays(q: Queue, now: int, ticks: seq<CallTick>, t: nat, id: Id, w: Entry)
    requires QueueInv(q) && OpensAt(q, now, ticks, t, id)
    ensures Outranks(QueueAt(q, now, ticks, t), id, w) <==> Outranks(CallRun(q, now, ticks).queue, id, w)
  {
    var met, after := QueueAt(q, now, ticks, t), CallRun(q, now, ticks).queue;
    var i := IndexOf(met.entries, id).value;
    CallInvAlways(q, now, ticks[..t]);
    CallInvAlways(q, now, ticks);
    RankStays(q, now, ticks, t, i);
    OnlyRow(met, i, id, w);
    OnlyRow(after, i, id, w);
  }

  lemma OnlyRow(q: Queue, i: nat, id: Id, w: Entry)
    requires RowsInv(q) && i < |q.entries| && q.entries[i].id == id
    ensures Outranks(q, id, w) <==> RanksBefore(q.entries[i], w)
    ensures BetterClaimable(q, w, id) <==> ClaimableId(q, id) && Outranks(q, id, w)
  {
    RowOf(q, q.entries[i]);
    forall e | e in q.entries && e.id == id ensures e == q.entries[i] {
      RowOf(q, e);
    }
  }

  /** What has been claimable ever since the listing does not rank before the winner. */
  lemma LitIsNotBetter(c: ClaimCall, now: int, e: Entry, w: Entry)
    requires RowsInv(c.queue) && Listed(c, now) && LostSoFar(c, |c.tried|, now)
    requires |c.tried| < |c.ranked| && SameRank(w, c.ranked[|c.tried|]) && e in c.queue.entries
    ensures e.id in c.lit ==> !RanksBefore(e, w)
  {
    if e.id in c.lit {
      var m :| 0 <= m < |c.ranked| && c.ranked[m].id == e.id;
      var i :| 0 <= i < |c.queue.entries| && c.queue.entries[i] == e;
      WinnerRank(c.queue, i, c.ranked[m]);
      assert m >= |c.tried|;
      assert m == |c.tried| || RanksBefore(c.ranked[|c.tried|], c.ranked[m]);
    }
  }

  /** In the queue the winner leaves behind, nothing claimable ranks before it exactly if nothing claimable ranked
      before it in the queue it met. */
  lemma BestLeftIsLocal(q: Queue, i: nat, w: Entry, q': Queue, now: int)
    requires RowsInv(q) && WonBy(q, q', i, w, now) && q'.entries == q.entries[i := w]
    ensures BestLeft(q', w) <==> forall id :: !BetterClaimable(q, w, id)
  {
    if BestLeft(q', w) {
      forall e | e in q.entries && e.Claimable() ensures !RanksBefore(e, w) {
        var k :| 0 <= k < |q.entries| && q.entries[k] == e;
        assert k != i ==> q'.entries[k] == e && RanksBefore(w, q'.entries[k]);
      }
    }
    if forall id :: !BetterClaimable(q, w, id) {
      forall k | 0 <= k < |q'.entries| && q'.entries[k].Claimable() ensures RanksBefore(w, q'.entries[k]) {
        assert k != i;
        var e := q.entries[k];
        assert e in q.entries && !BetterClaimable(q, w, e.id);
        assert if k < i then InOrder(q.entries[k], q.entries[i]) else InOrder(q.entries[i], q.entries[k]);
      }
    }
  }

  /** The candidate at hand, of the rank of `w`, and what is known of those before it. */
  ghost predicate Reached(c: ClaimCall, w: Entry, now: int) {
    && c.pc.Trying? && Listed(c, now) && LostSoFar(c, |c.tried|, now)
    && |c.tried| < |c.ranked| && SameRank(w, c.ranked[|c.tried|])
  }

  lemma BetterIsNew(c: ClaimCall, now: int, w: Entry, id: Id)
    requires RowsInv(c.queue) && Reached(c, w, now) && BetterClaimable(c.queue, w, id)
    ensures ClaimableId(c.queue, id) && id !in c.lit && Outranks(c.queue, id, w)
  {
    var e :| e in c.queue.entries && e.id == id && e.Claimable() && RanksBefore(e, w);
    LitIsNotBetter(c, now, e, w);
    RowOf(c.queue, e);
  }

  lemma BetterWasOpened(q: Queue, now: int, ticks: seq<CallTick>, w: Entry, id: Id) returns (t: nat)
    requires QueueInv(q) && Reached(CallRun(q, now, ticks), w, now)
    requires BetterClaimable(CallRun(q, now, ticks).queue, w, id)
    ensures BetterOpened(q, now, ticks, w, t, id)
  {
    CallInvAlways(q, now, ticks);
    BetterIsNew(CallRun(q, now, ticks), now, w, id);
    t := OpenedSince(q, now, ticks, id);
    OutranksStays(q, now, ticks, t, id, w);
  }

  lemma OpenedIsBetter(q: Queue, now: int, ticks: seq<CallTick>, w: Entry, t: nat, id: Id)
    requires QueueInv(q) && BetterOpened(q, now, ticks, w, t, id)
    ensures BetterClaimable(CallRun(q, now, ticks).queue, w, id)
  {
    var now' := CallRun(q, now, ticks).queue;
    CallInvAlways(q, now, ticks);
    OpenedIsOpen(q, now, ticks, t, id);
    OutranksStays(q, now, ticks, t, id, w);
    OnlyRow(now', IndexOf(now'.entries, id).value, id, w);
  }

  lemma WinMeets(q: Queue, now: int, ticks: seq<CallTick>, w: Entry)
    requires QueueInv(q) && WinsNext(q, now, ticks, w)
    ensures var c := CallRun(q, now, ticks);
            && Reached(c, w, now)
            && (BestLeft(CallStep(c, now, OwnStep).queue, w) <==> forall id :: !BetterClaimable(c.queue, w, id))
  {
    var c := CallRun(q, now, ticks);
    CallInvAlways(q, now, ticks);
    WinnerAmongOthers(q, now, ticks, w);
    var i := WinningTry(c.queue, c.pc.rest[0].id, now);
    BestLeftIsLocal(c.queue, i, w, CallStep(c, now, OwnStep).queue, now);
  }

  lemma BetterMeansOpened(q: Queue, now: int, ticks: seq<CallTick>, w: Entry)
    requires QueueInv(q) && Reached(CallRun(q, now, ticks), w, now)
    requires exists id :: BetterClaimable(CallRun(q, now, ticks).queue, w, id)
    ensures exists t, id :: BetterOpened(q, now, ticks, w, t, id)
  {
    var id :| BetterClaimable(CallRun(q, now, ticks).queue, w, id);
    var t := BetterWasOpened(q, now, ticks, w, id);
  }

  lemma OpenedMeansBetter(q: Queue, now: int, ticks: seq<CallTick>, w: Entry)
    requires QueueInv(q)
    requires exists t, id :: BetterOpened(q, now, ticks, w, t, id)
    ensures exists id :: BetterClaimable(CallRun(q, now, ticks).queue, w, id)
  {
    var t, id :| BetterOpened(q, now, ticks, w, t, id);
    OpenedIsBetter(q, now, ticks, w, t, id);
  }

  /** Nothing claimable that is left ranks before the winner, if and only if no decision of another client since
      the listing completed the gates of an entry that ranks before it, unless a later refusal, cancellation
      or claim closed that entry again. */
  lemma BestLeftIff(q: Queue, now: int, ticks: seq<CallTick>, w: Entry)
    requires QueueInv(q) && WinsNext(q, now, ticks, w)
    ensures BestLeft(CallStep(CallRun(q, now, ticks), now, OwnStep).queue, w) <==>
            !exists t, id :: BetterOpened(q, now, ticks, w, t, id)
  {
    WinMeets(q, now, ticks, w);
    if exists id :: BetterClaimable(CallRun(q, now, ticks).queue, w, id) {
      BetterMeansOpened(q, now, ticks, w);
    }
    if exists t, id :: BetterOpened(q, now, ticks, w, t, id) {
      OpenedMeansBetter(q, now, ticks, w);
    }
  }

  // ----- Calls that claim nothing ---------------------------------------------------------------------------------

  /** With other clients in between, a call answers `None` exactly if something was active when it counted, or its
      shortlist is used up; and then every candidate on it was, in its own transaction, not claimable or failed
      for a dead fence. */
  lemma NoneAmongOthers(q: Queue, now: int, ticks: seq<CallTick>)
    requires QueueInv(q)
    ensures var c := CallRun(q, now, ticks);
            && (!c.pc.Answered? ==>
                  (CallStep(c, now, OwnStep).pc == Answered(Ok(None)) <==>
                     (c.pc == Counting && HasActive(c.queue.entries)) || c.pc == Trying([])))
            && (c.pc == Trying([]) ==>
                  && |c.tried| == |Shortlist(c.ranked)|
                  && forall j :: 0 <= j < |c.tried| ==> Lost(c.tried[j], Shortlist(c.ranked)[j].id, now))
  {
    CallInvAlways(q, now, ticks);
  }

  /** What such a call leaves behind: a claimable entry was beyond the shortlist all along, or was opened for good
      by another client since the listing. */
  lemma NoneLeavesBehind(q: Queue, now: int, ticks: seq<CallTick>, id: Id)
    requires QueueInv(q) && CallRun(q, now, ticks).pc == Trying([])
    ensures var c := CallRun(q, now, ticks);
            ClaimableId(c.queue, id) <==>
            || (id in c.lit && exists j :: CLAIM_LIMIT <= j < |c.ranked| && c.ranked[j].id == id)
            || exists t :: OpenedForGood(q, now, ticks, t, id)
  {
    var c := CallRun(q, now, ticks);
    CallInvAlways(q, now, ticks);
    if id in c.lit {
      var j :| 0 <= j < |c.ranked| && c.ranked[j].id == id;
      assert j >= |c.tried| == |Shortlist(c.ranked)|;
    } else if ClaimableId(c.queue, id) {
      var t := OpenedSince(q, now, ticks, id);
    }
    forall t | OpenedForGood(q, now, ticks, t, id) ensures ClaimableId(c.queue, id) {
      OpenedIsOpen(q, now, ticks, t, id);
    }
  }

  /** A call fails exactly if its next candidate could win but another client has made an entry active since the
      count. */
  lemma ErrorAmongOthers(q: Queue, now: int, ticks: seq<CallTick>)
    requires QueueInv(q) && CallRun(q, now, ticks).pc.Trying? && CallRun(q, now, ticks).pc.rest != []
    ensures var c := CallRun(q, now, ticks);
            var next, i := CallStep(c, now, OwnStep).pc, IndexOf(c.queue.entries, c.pc.rest[0].id);
            && i.Some?
            && (next.Answered? && next.r.Err? <==>
                  && ClaimableId(c.queue, c.pc.rest[0].id)
                  && FenceError(c.queue, c.queue.entries[i.value], now).None? && HasActive(c.queue.entries))
            && (next.Answered? && next.r.Err? ==> next.r == Err(Backend))
  {
    NextHasRow(q, now, ticks);
    TryFails(CallRun(q, now, ticks), now);
  }

  lemma NextHasRow(q: Queue, now: int, ticks: seq<CallTick>)
    requires QueueInv(q) && CallRun(q, now, ticks).pc.Trying? && CallRun(q, now, ticks).pc.rest != []
    ensures var c := CallRun(q, now, ticks);
            QueueInv(c.queue) && IndexOf(c.queue.entries, c.pc.rest[0].id).Some?
  {
    var c := CallRun(q, now, ticks);
    CallInvAlways(q, now, ticks);
    assert c.pc.rest[0] == c.ranked[|c.tried|];
    assert HasRow(c.queue, c.ranked[|c.tried|]);
  }

  lemma TryFails(c: ClaimCall, now: int)
    requires QueueInv(c.queue) && c.pc.Trying? && c.pc.rest != []
    requires IndexOf(c.queue.entries, c.pc.rest[0].id).Some?
    ensures var next, i := CallStep(c, now, OwnStep).pc, IndexOf(c.queue.entries, c.pc.rest[0].id).value;
            && (next.Answered? && next.r.Err? <==>
                  && ClaimableId(c.queue, c.pc.rest[0].id)
                  && FenceError(c.queue, c.queue.entries[i], now).None? && HasActive(c.queue.entries))
            && (next.Answered? && next.r.Err? ==> next.r == Err(Backend))
  {
    OnlyClaimsContend(c.queue, c.pc.rest[0].id, Claim, now);
  }

  // ----- Undisturbed calls ---------------------------------------------------------------------------------------

  /** The call has ended with what the atomic selection gives. */
  ghost predicate EndsAs(c: ClaimCall, end: (Queue, Result<Option<Entry>, MergeError>)) {
    c.queue == end.0 && c.pc == Answered(end.1)
  }

  /** Whether the claim goes on after its next candidate, and if not, where it ends. */
  lemma NextTry(c: ClaimCall, rest: seq<Entry>, now: int) returns (goesOn: bool)
    requires c.pc == Trying(rest)
    ensures goesOn ==>
      && rest != [] && CallStep(c, now, OwnStep).pc == Trying(rest[1..])
      && ClaimFrom(c.queue, rest, now) == ClaimFrom(CallStep(c, now, OwnStep).queue, rest[1..], now)
    ensures !goesOn ==> EndsAs(CallStep(c, now, OwnStep), ClaimFrom(c.queue, rest, now))
  {
    goesOn := rest != [] && TryClaim(c.queue, rest[0].id, now).Ok? && !TryClaim(c.queue, rest[0].id, now).value.1.Won?;
  }

  /** `n` transactions of the call with nobody in between. */
  function OwnSteps(c: ClaimCall, now: int, n: nat): ClaimCall
    decreases n
  {
    if n == 0 then c else OwnSteps(CallStep(c, now, OwnStep), now, n - 1)
  }

  lemma {:induction false} OwnStepsAreARun(q: Queue, now: int, ticks: seq<CallTick>, n: nat)
    ensures OwnSteps(CallRun(q, now, ticks), now, n) == CallRun(q, now, ticks + seq(n, _ => OwnStep))
    decreases n
  {
    if n == 0 {
      assert ticks + seq(0, _ => OwnStep) == ticks;
    } else {
      CallSnoc(q, now, ticks, OwnStep);
      OwnStepsAreARun(q, now, ticks + [OwnStep], n - 1);
      assert ticks + [OwnStep] + seq(n - 1, _ => OwnStep) == ticks + seq(n, _ => OwnStep);
    }
  }

  lemma {:induction false} UndisturbedTries(c: ClaimCall, rest: seq<Entry>, now: int) returns (n: nat)
    requires c.pc == Trying(rest)
    ensures EndsAs(OwnSteps(c, now, n), ClaimFrom(c.queue, rest, now))
    decreases |rest|
  {
    var goesOn := NextTry(c, rest, now);
    if goesOn {
      var others := UndisturbedTries(CallStep(c, now, OwnStep), rest[1..], now);
      n := others + 1;
    } else {
      n := 1;
      assert OwnSteps(CallStep(c, now, OwnStep), now, 0) == CallStep(c, now, OwnStep);
    }
  }

  lemma UndisturbedSteps(q: Queue, now: int) returns (n: nat)
    ensures EndsAs(OwnSteps(CallStart(q), now, n), ClaimNext(q, now))
  {
    var c := CallStart(q);
    var counted := CallStep(c, now, OwnStep);
    if HasActive(q.entries) {
      n := 1;
      assert OwnSteps(counted, now, 0) == counted;
    } else {
      var listed := CallStep(counted, now, OwnStep);
      var tries := UndisturbedTries(listed, Candidates(q.entries), now);
      n := tries + 2;
      assert OwnSteps(counted, now, tries + 1) == OwnSteps(listed, now, tries);
    }
  }

  /** A call that nobody disturbs is the atomic selection. */
  lemma UndisturbedCall(q: Queue, now: int) returns (ticks: seq<CallTick>)
    ensures forall t <- ticks :: t == OwnStep
    ensures EndsAs(CallRun(q, now, ticks), ClaimNext(q, now))
  {
    var n := UndisturbedSteps(q, now);
    OwnStepsAreARun(q, now, [], n);
    ticks := seq(n, _ => OwnStep);
    assert [] + ticks == ticks;
  }
}
