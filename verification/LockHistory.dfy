/** The lease table as told by its operations alone: which leases were granted to whom, until when each of them
    stands, and which operations are accepted. */
module LockHistory {
  import opened Prelude
  import opened LockResource
  import opened LockTable

  // ----- The story of a run -----------------------------------------------------------------------------------

  datatype Grant = Grant(request: Request, id: LockId, now: int)

  predicate Accepted(h: History, op: Op) {
    match op
    case AcquireOp(q, now, id) => Acquire(h.table, q, now, id).Ok?
    case HeartbeatOp(id, owner, token, ttl, now) => Heartbeat(h.table, id, owner, token, ttl, now).Ok?
    case ReleaseOp(id, owner, token) => Release(h.table, id, owner, token).Ok?
  }

  /** The accepted acquisitions in order; the k-th gets token k + 1. */
  function Grants(ops: seq<Op>): seq<Grant> {
    if ops == [] then []
    else
      var before, op := ops[..|ops| - 1], ops[|ops| - 1];
      if op.AcquireOp? && Accepted(Run(before), op)
      then Grants(before) + [Grant(op.request, op.freshId, op.now)] else Grants(before)
  }

  /** What one accepted operation does to a lease that stood until `expiry`; `next` is the token a grant gets. */
  function Moved(expiry: Option<int>, token: nat, next: nat, op: Op): Option<int> {
    match op
    case AcquireOp(q, now, _) =>
      if token == next then Some(now + q.ttl)
      else if expiry.Some? && expiry.value <= now then None
      else expiry
    case HeartbeatOp(_, _, t, ttl, now) => if t == token then Some(now + ttl) else expiry
    case ReleaseOp(_, _, t) => if t == token then None else expiry
  }

  /** Until when the lease under a token stands: from its grant or its last renewal; not at all before the grant,
      after a release, or once it had expired when another lease was granted. */
  function Expiry(ops: seq<Op>, token: nat): Option<int> {
    if ops == [] then None
    else
      var before, op := ops[..|ops| - 1], ops[|ops| - 1];
      if Accepted(Run(before), op) then Moved(Expiry(before, token), token, |Grants(before)| + 1, op)
      else Expiry(before, token)
  }

  /** What the operations tell: the grants, and until when the lease under each token stands. */
  datatype Story = Story(grants: seq<Grant>, expiry: nat -> Option<int>)

  ghost function StoryOf(ops: seq<Op>): Story {
    Story(Grants(ops), (token: nat) => Expiry(ops, token))
  }

  function LeaseOf(g: Grant, token: nat, expiresAt: int): Lease {
    Lease(g.id, g.request.session, g.request.owner, g.request.resource, g.request.mode, token, g.now, expiresAt)
  }

  // ----- The story is true ----------------------------------------------------------------------------------------

  /** A row is the lease of its token, standing until it expires. */
  predicate RowTold(s: Story, l: Lease) {
    && 1 <= l.token <= |s.grants| && s.expiry(l.token) == Some(l.expiresAt)
    && l == LeaseOf(s.grants[l.token - 1], l.token, l.expiresAt)
  }

  predicate HasToken(leases: seq<Lease>, token: nat) {
    exists l <- leases :: l.token == token
  }

  ghost predicate Told(s: Story, t: Table) {
    && t.sequence == |s.grants|
    && (forall l <- t.leases :: RowTold(s, l))
    && forall token :: s.expiry(token).Some? ==> HasToken(t.leases, token)
  }

  /** The story goes on with an accepted operation. */
  ghost predicate GoesOn(s: Story, s': Story, op: Op) {
    && s'.grants == (if op.AcquireOp? then s.grants + [Grant(op.request, op.freshId, op.now)] else s.grants)
    && forall token {:trigger s'.expiry(token)} ::
         s'.expiry(token) == Moved(s.expiry(token), token, |s.grants| + 1, op)
  }

  lemma AcquireTold(h: History, s: Story, s': Story, op: Op)
    requires HistoryInv(h) && Told(s, h.table) && op.AcquireOp? && Accepted(h, op) && GoesOn(s, s', op)
    ensures Told(s', Step(h, op).table)
  {
    var rows, rows' := h.table.leases, Step(h, op).table.leases;
    LiveMembers(rows, op.now);
    var live := Live(rows, op.now);
    var lease := rows'[|rows'| - 1];
    assert rows' == live + [lease];
    forall l | l in rows' ensures RowTold(s', l) {
      if l in live { assert RowTold(s, l); }
    }
    forall token | s'.expiry(token).Some? ensures HasToken(rows', token) {
      if token == |s.grants| + 1 {
        assert lease in rows';
      } else {
        assert HasToken(rows, token);
        var l :| l in rows && l.token == token;
        assert RowTold(s, l) && l in live && l in rows';
      }
    }
  }

  lemma HeartbeatTold(h: History, s: Story, s': Story, op: Op)
    requires HistoryInv(h) && Told(s, h.table) && op.HeartbeatOp? && Accepted(h, op) && GoesOn(s, s', op)
    ensures Told(s', Step(h, op).table)
  {
    var rows, rows' := h.table.leases, Step(h, op).table.leases;
    var k := RenewedRow(h.table, op.id, op.owner, op.token, op.ttl, op.now);
    forall i | 0 <= i < |rows|
      ensures (rows[i].lockId == op.id <==> i == k) && (rows[i].token == op.token <==> i == k)
    {
      if rows[i].lockId == op.id || rows[i].token == op.token { SameRow(rows, i, k); }
    }
    forall i | 0 <= i < |rows'| ensures RowTold(s', rows'[i]) {
      assert RowTold(s, rows[i]);
    }
    forall token | s'.expiry(token).Some? ensures HasToken(rows', token) {
      if token == op.token {
        assert rows'[k] in rows';
      } else {
        assert HasToken(rows, token);
        var i :| 0 <= i < |rows| && rows[i].token == token;
        assert rows'[i] in rows';
      }
    }
  }

  lemma ReleaseTold(h: History, s: Story, s': Story, op: Op)
    requires HistoryInv(h) && Told(s, h.table) && op.ReleaseOp? && Accepted(h, op) && GoesOn(s, s', op)
    ensures Told(s', Step(h, op).table)
  {
    var rows, rows' := h.table.leases, Step(h, op).table.leases;
    WithoutMembers(rows, op.id);
    var k :| 0 <= k < |rows| && rows[k] == Lookup(rows, op.id).value;
    forall l | l in rows ensures (l.lockId == op.id <==> l.token == op.token) {
      var i :| 0 <= i < |rows| && rows[i] == l;
      if l.lockId == op.id || l.token == op.token { SameRow(rows, i, k); }
    }
    forall l | l in rows' ensures RowTold(s', l) {
      assert RowTold(s, l);
    }
    forall token | s'.expiry(token).Some? ensures HasToken(rows', token) {
      assert HasToken(rows, token);
      var l :| l in rows && l.token == token;
      assert l in rows';
    }
  }

  lemma AcceptedTold(h: History, s: Story, s': Story, op: Op)
    requires HistoryInv(h) && Told(s, h.table) && Accepted(h, op) && GoesOn(s, s', op)
    ensures Told(s', Step(h, op).table)
  {
    match op
    case AcquireOp(_, _, _) => AcquireTold(h, s, s', op);
    case HeartbeatOp(_, _, _, _, _) => HeartbeatTold(h, s, s', op);
    case ReleaseOp(_, _, _) => ReleaseTold(h, s, s', op);
  }

  lemma RefusedTold(h: History, s: Story, s': Story, op: Op)
    requires Told(s, h.table) && !Accepted(h, op)
    requires s'.grants == s.grants && forall token {:trigger s'.expiry(token)} :: s'.expiry(token) == s.expiry(token)
    ensures Told(s', Step(h, op).table)
  {
    forall l | l in h.table.leases ensures RowTold(s', l) {
      assert RowTold(s, l);
    }
  }

  /** Over every run the rows of the table are exactly the leases that still stand, each as it was requested. */
  lemma {:induction false} HistoryTells(ops: seq<Op>)
    ensures Told(StoryOf(ops), Run(ops).table)
  {
    if ops == [] {
    } else {
      var before, op := ops[..|ops| - 1], ops[|ops| - 1];
      HistoryTells(before);
      RunInv(before);
      if Accepted(Run(before), op) {
        AcceptedTold(Run(before), StoryOf(before), StoryOf(ops), op);
      } else {
        RefusedTold(Run(before), StoryOf(before), StoryOf(ops), op);
      }
    }
  }

  // ----- Fences ----------------------------------------------------------------------------------------------------

  /** The lease under a token stands beyond `at`. */
  predicate Stands(s: Story, token: nat, at: int) {
    1 <= token <= |s.grants| && s.expiry(token).Some? && s.expiry(token).value > at
  }

  lemma StandingRow(s: Story, t: Table, token: nat) returns (l: Lease)
    requires Told(s, t) && s.expiry(token).Some?
    ensures l in t.leases && l.token == token && RowTold(s, l)
  {
    assert HasToken(t.leases, token);
    l :| l in t.leases && l.token == token;
  }

  lemma FenceTold(s: Story, t: Table, resource: Resource, owner: string, token: nat, at: int)
    requires Told(s, t)
    ensures FenceHolds(t, resource, owner, token, at) <==>
            && Stands(s, token, at) && s.grants[token - 1].request.owner == owner
            && Overlaps(s.grants[token - 1].request.resource, resource)
  {
    if FenceHolds(t, resource, owner, token, at) {
      var l :| l in t.leases && Backs(l, resource, owner, token, at);
      assert RowTold(s, l);
    }
    if Stands(s, token, at) {
      var l := StandingRow(s, t, token);
    }
  }

  /** A fence holds exactly if the lease under its token was granted to that owner for an overlapping resource and
      stands: whatever else was granted, renewed or released. */
  lemma FenceHoldsIff(ops: seq<Op>, resource: Resource, owner: string, token: nat, at: int)
    ensures FenceHolds(Run(ops).table, resource, owner, token, at) <==>
            && Stands(StoryOf(ops), token, at)
            && StoryOf(ops).grants[token - 1].request.owner == owner
            && Overlaps(StoryOf(ops).grants[token - 1].request.resource, resource)
  {
    HistoryTells(ops);
    FenceTold(StoryOf(ops), Run(ops).table, resource, owner, token, at);
  }

  lemma ApartTold(s: Story, t: Table, i: nat, j: nat, at: int)
    requires Told(s, t) && Orderly(t.leases) && Stands(s, i, at) && Stands(s, j, at) && i < j
    ensures !Overlaps(s.grants[i - 1].request.resource, s.grants[j - 1].request.resource)
         || (s.grants[i - 1].request.mode == Shared && s.grants[j - 1].request.mode == Shared)
  {
    var a := StandingRow(s, t, i);
    var b := StandingRow(s, t, j);
    var m :| 0 <= m < |t.leases| && t.leases[m] == a;
    var n :| 0 <= n < |t.leases| && t.leases[n] == b;
    assert m < n ==> Apart(a, b);
    assert n < m ==> Apart(b, a);
  }

  /** Two leases that stand were requested for resources that do not overlap, or both shared. */
  lemma StandingLeasesAreApart(ops: seq<Op>, i: nat, j: nat, at: int)
    requires Stands(StoryOf(ops), i, at) && Stands(StoryOf(ops), j, at) && i < j
    ensures var a, b := StoryOf(ops).grants[i - 1].request, StoryOf(ops).grants[j - 1].request;
            !Overlaps(a.resource, b.resource) || (a.mode == Shared && b.mode == Shared)
  {
    HistoryTells(ops);
    RunInv(ops);
    ApartTold(StoryOf(ops), Run(ops).table, i, j, at);
  }

  // ----- Which operations are accepted -----------------------------------------------------------------------------

  /** The grant stands in the way of a request: they clash, or it has the identifier. */
  predicate InTheWay(g: Grant, q: Request, id: LockId) {
    || g.id == id
    || (Overlaps(g.request.resource, q.resource) && (g.request.mode == Exclusive || q.mode == Exclusive))
  }

  lemma AcquireOkIff(t: Table, q: Request, now: int, id: LockId)
    ensures Acquire(t, q, now, id).Ok? <==>
            forall l <- t.leases :: l.expiresAt > now ==> l.lockId != id && !Blocks(l, q, now)
  {
    LiveMembers(t.leases, now);
  }

  lemma AcquireToldIff(s: Story, t: Table, q: Request, now: int, id: LockId)
    requires Told(s, t)
    ensures (forall l <- t.leases :: l.expiresAt > now ==> l.lockId != id && !Blocks(l, q, now)) <==>
            !exists token :: Stands(s, token, now) && InTheWay(s.grants[token - 1], q, id)
  {
    forall token | Stands(s, token, now) && InTheWay(s.grants[token - 1], q, id)
      ensures exists l <- t.leases :: l.expiresAt > now && (l.lockId == id || Blocks(l, q, now))
    {
      var l := StandingRow(s, t, token);
    }
    forall l | l in t.leases && l.expiresAt > now && (l.lockId == id || Blocks(l, q, now))
      ensures Stands(s, l.token, now) && InTheWay(s.grants[l.token - 1], q, id)
    {
      assert RowTold(s, l);
    }
  }

  /** A request is granted exactly if no standing lease clashes with it or has its identifier. */
  lemma AcquireAcceptedIff(ops: seq<Op>, q: Request, now: int, id: LockId)
    ensures Acquire(Run(ops).table, q, now, id).Ok? <==>
            !exists token :: Stands(StoryOf(ops), token, now) && InTheWay(StoryOf(ops).grants[token - 1], q, id)
  {
    HistoryTells(ops);
    AcquireOkIff(Run(ops).table, q, now, id);
    AcquireToldIff(StoryOf(ops), Run(ops).table, q, now, id);
  }

  /** The lease under a token is on the books, under this identifier and for this owner. */
  predicate OnTheBooks(s: Story, id: LockId, owner: string, token: nat) {
    && 1 <= token <= |s.grants| && s.expiry(token).Some?
    && s.grants[token - 1].id == id && s.grants[token - 1].request.owner == owner
  }

  lemma OnlyRowWithId(rows: seq<Lease>, l: Lease)
    requires Orderly(rows) && l in rows
    ensures Lookup(rows, l.lockId) == Some(l)
  {
    var found := Lookup(rows, l.lockId);
    assert HasId(rows, l.lockId);
    var i :| 0 <= i < |rows| && rows[i] == l;
    var j :| 0 <= j < |rows| && rows[j] == found.value;
    SameRow(rows, i, j);
  }

  lemma LookupTold(s: Story, t: Table, id: LockId, owner: string, token: nat)
    requires Told(s, t) && Orderly(t.leases)
    ensures OnTheBooks(s, id, owner, token) <==>
            && Lookup(t.leases, id).Some?
            && Lookup(t.leases, id).value.owner == owner && Lookup(t.leases, id).value.token == token
    ensures OnTheBooks(s, id, owner, token) ==> s.expiry(token) == Some(Lookup(t.leases, id).value.expiresAt)
  {
    if Lookup(t.leases, id).Some? {
      assert RowTold(s, Lookup(t.leases, id).value);
    }
    if OnTheBooks(s, id, owner, token) {
      var l := StandingRow(s, t, token);
      OnlyRowWithId(t.leases, l);
    }
  }

  /** A heartbeat is accepted exactly from the owner of a lease that still stands, under its identifier and token;
      a release also from one whose lease has run out but is still on the books. */
  lemma RenewalAcceptedIff(ops: seq<Op>, id: LockId, owner: string, token: nat, ttl: nat, now: int)
    ensures Heartbeat(Run(ops).table, id, owner, token, ttl, now).Ok? <==>
            OnTheBooks(StoryOf(ops), id, owner, token) && StoryOf(ops).expiry(token).value > now
    ensures Release(Run(ops).table, id, owner, token).Ok? <==> OnTheBooks(StoryOf(ops), id, owner, token)
  {
    HistoryTells(ops);
    RunInv(ops);
    LookupTold(StoryOf(ops), Run(ops).table, id, owner, token);
  }

  // ----- How long a lease stands -----------------------------------------------------------------------------------

  lemma AcquiredRows(t: Table, q: Request, now: int, id: LockId)
    requires Acquire(t, q, now, id).Ok?
    ensures Acquire(t, q, now, id).value.0.leases == Live(t.leases, now) + [Acquire(t, q, now, id).value.1]
  {
  }

  lemma SparedByNewcomer(t: Table, t': Table, live: seq<Lease>, lease: Lease, now: int,
                         resource: Resource, anyone: string, other: nat, at: int)
    requires t'.leases == live + [lease] && at >= now && other != lease.token
    requires forall l :: l in live <==> l in t.leases && l.expiresAt > now
    ensures FenceHolds(t', resource, anyone, other, at) <==> FenceHolds(t, resource, anyone, other, at)
  {
    if FenceHolds(t, resource, anyone, other, at) {
      var l :| l in t.leases && Backs(l, resource, anyone, other, at);
      assert Backs(l, resource, anyone, other, at);
      assert l.expiresAt > at;
      assert l in live;
      assert t'.leases[..|live|] == live;
      assert l in t'.leases;
    }
  }

  /** An accepted acquisition leaves the fence under every other token as it was, from then on. */
  lemma AcquireSparesOthers(t: Table, q: Request, now: int, id: LockId,
                            resource: Resource, anyone: string, other: nat, at: int)
    requires Acquire(t, q, now, id).Ok? && at >= now && other != Acquire(t, q, now, id).value.1.token
    ensures FenceHolds(Acquire(t, q, now, id).value.0, resource, anyone, other, at)
       <==> FenceHolds(t, resource, anyone, other, at)
  {
    LiveMembers(t.leases, now);
    AcquiredRows(t, q, now, id);
    var (t', lease) := Acquire(t, q, now, id).value;
    SparedByNewcomer(t, t', Live(t.leases, now), lease, now, resource, anyone, other, at);
  }

  /** The operation neither renews nor releases the lease under `token`, nor is it an acquisition made when the
      lease, standing until `x`, had expired. */
  predicate LeavesStanding(op: Op, token: nat, x: int) {
    match op
    case AcquireOp(_, now, _) => now < x
    case HeartbeatOp(_, _, t, _, _) => t != token
    case ReleaseOp(_, _, t) => t != token
  }

  lemma ExpiryStaysOnce(ops: seq<Op>, op: Op, token: nat, x: int)
    requires Expiry(ops, token) == Some(x) && 1 <= token <= |Grants(ops)| && LeavesStanding(op, token, x)
    ensures Expiry(ops + [op], token) == Some(x) && Grants(ops) <= Grants(ops + [op])
  {
    assert (ops + [op])[..|ops|] == ops;
  }

  lemma OneByOne(ops: seq<Op>, later: seq<Op>)
    requires later != []
    ensures ops + [later[0]] + later[1..] == ops + later
  {
  }

  lemma {:induction false} ExpiryStays(ops: seq<Op>, later: seq<Op>, token: nat, x: int)
    requires Expiry(ops, token) == Some(x) && 1 <= token <= |Grants(ops)|
    requires forall op <- later :: LeavesStanding(op, token, x)
    ensures Expiry(ops + later, token) == Some(x) && Grants(ops) <= Grants(ops + later)
    decreases later
  {
    if later == [] {
      assert ops + later == ops;
    } else {
      OneByOne(ops, later);
      ExpiryStaysOnce(ops, later[0], token, x);
      ExpiryStays(ops + [later[0]], later[1..], token, x);
    }
  }

  /** A lease that is neither renewed nor released is a fence for its owner until it expires, provided nothing is
      acquired with a clock that says it already has. */
  lemma LeaseStands(ops: seq<Op>, later: seq<Op>, token: nat, x: int, resource: Resource, at: int)
    requires Expiry(ops, token) == Some(x) && 1 <= token <= |Grants(ops)|
    requires forall op <- later :: LeavesStanding(op, token, x)
    requires Overlaps(Grants(ops)[token - 1].request.resource, resource)
    ensures FenceHolds(Run(ops + later).table, resource, Grants(ops)[token - 1].request.owner, token, at) <==> at < x
  {
    ExpiryStays(ops, later, token, x);
    FenceHoldsIff(ops + later, resource, Grants(ops)[token - 1].request.owner, token, at);
  }
}
