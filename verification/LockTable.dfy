/** The lease table with its fencing-token counter, and what holds over whole runs of it: exclusion
    between all rows, and tokens that are never honoured again once a conflicting lease was granted. */
module LockTable {
  import opened Prelude
  import opened LockResource

  datatype Mode = Shared | Exclusive

  type LockId = nat

  datatype Lease = Lease(
    lockId: LockId,
    session: nat,
    owner: string,
    resource: Resource,
    mode: Mode,
    token: nat,
    acquiredAt: int,
    expiresAt: int
  )

  datatype Request = Request(session: nat, owner: string, resource: Resource, mode: Mode, ttl: nat)

  /** Rows in the order in which they were inserted, the last token handed out, and the events. */
  datatype Table = Table(leases: seq<Lease>, sequence: nat, outbox: seq<LockEvent>)

  /** Written to the outbox in the transaction that it describes. */
  datatype LockEvent =
    | LockAcquired(lease: Lease)
    | LockRenewed(lockId: LockId, token: nat, expiresAt: int)
    | LockReleased(lease: Lease)

  datatype LockError =
    | LockConflict(owner: string, resource: Resource)
    | LockNotFound(lockId: LockId)
    | StaleFence
    | Backend

  predicate ModesConflict(a: Mode, b: Mode) {
    a == Exclusive || b == Exclusive
  }

  /** A live lease that stands in the way of a request. */
  predicate Blocks(l: Lease, q: Request, now: int) {
    l.expiresAt > now && Overlaps(l.resource, q.resource) && ModesConflict(l.mode, q.mode)
  }

  // ----- Table operations --------------------------------------------------------------------------

  function Live(leases: seq<Lease>, now: int): seq<Lease> {
    if leases == [] then []
    else if leases[0].expiresAt > now then [leases[0]] + Live(leases[1..], now)
    else Live(leases[1..], now)
  }

  lemma {:induction false} LiveMembers(leases: seq<Lease>, now: int)
    ensures forall l :: l in Live(leases, now) <==> l in leases && l.expiresAt > now
  {
    if leases == [] {
    } else {
      LiveMembers(leases[1..], now);
      assert leases == [leases[0]] + leases[1..];
    }
  }

  function FirstBlocking(leases: seq<Lease>, q: Request, now: int): (r: Option<Lease>)
    ensures r.None? <==> forall l <- leases :: !Blocks(l, q, now)
    ensures r.Some? ==> r.value in leases && Blocks(r.value, q, now)
  {
    if leases == [] then None
    else
      assert leases == [leases[0]] + leases[1..];
      if Blocks(leases[0], q, now) then Some(leases[0]) else FirstBlocking(leases[1..], q, now)
  }

  predicate HasId(leases: seq<Lease>, id: LockId) {
    exists l <- leases :: l.lockId == id
  }

  function Lookup(leases: seq<Lease>, id: LockId): (r: Option<Lease>)
    ensures r.None? <==> !HasId(leases, id)
    ensures r.Some? ==> r.value in leases && r.value.lockId == id
  {
    if leases == [] then None
    else
      assert leases == [leases[0]] + leases[1..];
      if leases[0].lockId == id then Some(leases[0]) else Lookup(leases[1..], id)
  }

  function Without(leases: seq<Lease>, id: LockId): seq<Lease> {
    if leases == [] then []
    else if leases[0].lockId != id then [leases[0]] + Without(leases[1..], id)
    else Without(leases[1..], id)
  }

  lemma {:induction false} WithoutMembers(leases: seq<Lease>, id: LockId)
    ensures forall l :: l in Without(leases, id) <==> l in leases && l.lockId != id
  {
    if leases == [] {
    } else {
      WithoutMembers(leases[1..], id);
      assert leases == [leases[0]] + leases[1..];
    }
  }

  function Renewed(leases: seq<Lease>, id: LockId, expiresAt: int): (r: seq<Lease>)
    ensures |r| == |leases|
    ensures forall i :: 0 <= i < |r| ==>
              r[i] == if leases[i].lockId == id then leases[i].(expiresAt := expiresAt) else leases[i]
  {
    seq(|leases|, i requires 0 <= i < |leases| =>
      if leases[i].lockId == id then leases[i].(expiresAt := expiresAt) else leases[i])
  }

  /** Purge expired rows, look for a conflict, then insert under the next token. A refusal rolls the
      whole transaction back, the purge included. */
  function Acquire(t: Table, q: Request, now: int, freshId: LockId): Result<(Table, Lease), LockError> {
    var live := Live(t.leases, now);
    var blocking := FirstBlocking(live, q, now);
    if blocking.Some? then Err(LockConflict(blocking.value.owner, blocking.value.resource))
    else if HasId(live, freshId) then Err(Backend)
    else
      var lease := Lease(freshId, q.session, q.owner, q.resource, q.mode, t.sequence + 1, now, now + q.ttl);
      Ok((Table(live + [lease], t.sequence + 1, t.outbox + [LockAcquired(lease)]), lease))
  }

  function Heartbeat(t: Table, id: LockId, owner: string, token: nat, ttl: nat, now: int)
    : Result<(Table, Lease), LockError>
  {
    var row := Lookup(t.leases, id);
    if row.None? then Err(LockNotFound(id))
    else
      var lease := row.value;
      if lease.owner != owner || lease.token != token || lease.expiresAt <= now then Err(StaleFence)
      else
        Ok((t.(leases := Renewed(t.leases, id, now + ttl),
               outbox := t.outbox + [LockRenewed(id, token, now + ttl)]),
            lease.(expiresAt := now + ttl)))
  }

  function Release(t: Table, id: LockId, owner: string, token: nat): Result<Table, LockError> {
    var row := Lookup(t.leases, id);
    if row.None? then Err(LockNotFound(id))
    else if row.value.owner != owner || row.value.token != token then Err(StaleFence)
    else Ok(t.(leases := Without(t.leases, id), outbox := t.outbox + [LockReleased(row.value)]))
  }

  predicate FenceHolds(t: Table, resource: Resource, owner: string, token: nat, now: int) {
    exists l <- t.leases ::
      && l.resource.workspaceId == resource.workspaceId
      && l.owner == owner && l.token == token && l.expiresAt > now
      && Overlaps(l.resource, resource)
  }

  // ----- The repository object ---------------------------------------------------------------------

  class LockRepository {
    var leases: seq<Lease>
    var sequence: nat
    var outbox: seq<LockEvent>

    ghost function Value(): Table
      reads this
    {
      Table(leases, sequence, outbox)
    }

    constructor ()
      ensures Value() == Table([], 0, [])
    {
      leases, sequence, outbox := [], 0, [];
    }

    method ActiveLocks(workspaceId: string, now: int) returns (active: seq<Lease>)
      ensures active == Active(leases, workspaceId, now)
    {
      active := [];
      for i := 0 to |leases|
        invariant active + Active(leases[i..], workspaceId, now) == Active(leases, workspaceId, now)
      {
        if leases[i].expiresAt > now && leases[i].resource.workspaceId == workspaceId {
          active := active + [leases[i]];
        }
      }
    }

    static method FindConflict(active: seq<Lease>, q: Request, now: int) returns (r: Option<Lease>)
      ensures r == FirstBlocking(active, q, now)
    {
      for i := 0 to |active|
        invariant FirstBlocking(active, q, now) == FirstBlocking(active[i..], q, now)
      {
        if Blocks(active[i], q, now) {
          return Some(active[i]);
        }
      }
      return None;
    }

    method AcquireLock(q: Request, now: int, freshId: LockId) returns (r: Result<Lease, LockError>)
      modifies this
      ensures match Acquire(old(Value()), q, now, freshId)
              case Ok((t, lease)) => Value() == t && r == Ok(lease)
              case Err(error) => Value() == old(Value()) && r == Err(error)
    {
      var active := ActiveLocks(q.resource.workspaceId, now);
      BlockersAreLocal(leases, q, now);
      var blocking := FindConflict(active, q, now);
      if blocking.Some? {
        return Err(LockConflict(blocking.value.owner, blocking.value.resource));
      }
      var live := Live(leases, now);
      if HasId(live, freshId) { return Err(Backend); }
      sequence := sequence + 1;
      var lease := Lease(freshId, q.session, q.owner, q.resource, q.mode, sequence, now, now + q.ttl);
      leases := live + [lease];
      outbox := outbox + [LockAcquired(lease)];
      return Ok(lease);
    }

    method HeartbeatLock(id: LockId, owner: string, token: nat, ttl: nat, now: int)
      returns (r: Result<Lease, LockError>)
      modifies this`leases, this`outbox
      ensures match Heartbeat(old(Value()), id, owner, token, ttl, now)
              case Ok((t, lease)) => Value() == t && r == Ok(lease)
              case Err(error) => Value() == old(Value()) && r == Err(error)
    {
      var row := Lookup(leases, id);
      if row.None? { return Err(LockNotFound(id)); }
      var lease := row.value;
      if lease.owner != owner || lease.token != token || lease.expiresAt <= now {
        return Err(StaleFence);
      }
      lease := lease.(expiresAt := now + ttl);
      leases := Renewed(leases, id, lease.expiresAt);
      outbox := outbox + [LockRenewed(id, token, lease.expiresAt)];
      return Ok(lease);
    }

    method ReleaseLock(id: LockId, owner: string, token: nat) returns (r: Result<(), LockError>)
      modifies this`leases, this`outbox
      ensures match Release(old(Value()), id, owner, token)
              case Ok(t) => Value() == t && r == Ok(())
              case Err(error) => Value() == old(Value()) && r == Err(error)
    {
      var row := Lookup(leases, id);
      if row.None? { return Err(LockNotFound(id)); }
      if row.value.owner != owner || row.value.token != token { return Err(StaleFence); }
      leases := Without(leases, id);
      outbox := outbox + [LockReleased(row.value)];
      return Ok(());
    }

    method ValidateFence(resource: Resource, owner: string, token: nat, now: int)
      returns (r: Result<(), LockError>)
      ensures r == if FenceHolds(Value(), resource, owner, token, now) then Ok(()) else Err(StaleFence)
    {
      for i := 0 to |leases|
        invariant forall l <- leases[..i] ::
                    !(&& l.resource.workspaceId == resource.workspaceId
                      && l.owner == owner && l.token == token && l.expiresAt > now
                      && Overlaps(l.resource, resource))
      {
        var l := leases[i];
        if && l.resource.workspaceId == resource.workspaceId
           && l.owner == owner && l.token == token && l.expiresAt > now
           && Overlaps(l.resource, resource)
        {
          return Ok(());
        }
        assert leases[..i + 1] == leases[..i] + [l];
      }
      assert leases[..|leases|] == leases;
      return Err(StaleFence);
    }
  }

  /** The live rows of one workspace, by ascending token. */
  function Active(leases: seq<Lease>, workspaceId: string, now: int): seq<Lease> {
    if leases == [] then []
    else if leases[0].expiresAt > now && leases[0].resource.workspaceId == workspaceId
    then [leases[0]] + Active(leases[1..], workspaceId, now)
    else Active(leases[1..], workspaceId, now)
  }

  /** Searching the request's own workspace finds the same first blocker as searching every row. */
  lemma {:induction false} BlockersAreLocal(leases: seq<Lease>, q: Request, now: int)
    ensures FirstBlocking(Active(leases, q.resource.workspaceId, now), q, now)
         == FirstBlocking(Live(leases, now), q, now)
  {
    if leases == [] {
    } else {
      BlockersAreLocal(leases[1..], q, now);
      var active, live := Active(leases[1..], q.resource.workspaceId, now), Live(leases[1..], now);
      assert ([leases[0]] + active)[1..] == active && ([leases[0]] + live)[1..] == live;
    }
  }

  // ----- Whole runs -----------------------------------------------------------------------------------

  datatype Op =
    | AcquireOp(request: Request, now: int, freshId: LockId)
    | HeartbeatOp(id: LockId, owner: string, token: nat, ttl: nat, now: int)
    | ReleaseOp(id: LockId, owner: string, token: nat)

  /** The table together with the history of every lease ever granted, in grant order. */
  datatype History = History(table: Table, grants: seq<Lease>)

  function Step(h: History, op: Op): History {
    match op
    case AcquireOp(q, now, id) => (
      match Acquire(h.table, q, now, id)
      case Ok((t, lease)) => History(t, h.grants + [lease])
      case Err(_) => h)
    case HeartbeatOp(id, owner, token, ttl, now) => (
      match Heartbeat(h.table, id, owner, token, ttl, now)
      case Ok((t, _)) => h.(table := t)
      case Err(_) => h)
    case ReleaseOp(id, owner, token) => (
      match Release(h.table, id, owner, token)
      case Ok(t) => h.(table := t)
      case Err(_) => h)
  }

  function Run(ops: seq<Op>): History {
    if ops == [] then History(Table([], 0, []), [])
    else Step(Run(ops[..|ops| - 1]), ops[|ops| - 1])
  }

  /** Two leases that may not be held together. */
  predicate Clash(a: Lease, b: Lease) {
    Overlaps(a.resource, b.resource) && ModesConflict(a.mode, b.mode)
  }

  /** A row is some grant, renewed any number of times. */
  ghost predicate IsGrant(l: Lease, grants: seq<Lease>) {
    1 <= l.token <= |grants| && l == grants[l.token - 1].(expiresAt := l.expiresAt)
  }

  ghost predicate Counted(t: Table, grants: seq<Lease>) {
    t.sequence == |grants| && forall i :: 0 <= i < |grants| ==> grants[i].token == i + 1
  }

  /** A grant some later grant clashes with. */
  ghost predicate Superseded(grants: seq<Lease>, k: int) {
    exists j :: 0 <= k < j < |grants| && Clash(grants[k], grants[j])
  }

  /** Row `a` stands before row `b`: its token is smaller, and the two may be held together. Insertion
      order is token order, so scanning the rows in order is scanning by ascending token. */
  predicate Apart(a: Lease, b: Lease) {
    a.token < b.token && a.lockId != b.lockId && !Clash(a, b)
  }

  ghost predicate Orderly(leases: seq<Lease>) {
    forall i, j :: 0 <= i < j < |leases| ==> Apart(leases[i], leases[j])
  }

  /** Every row is a grant that no later grant clashes with. */
  ghost predicate Current(l: Lease, grants: seq<Lease>) {
    IsGrant(l, grants) && !Superseded(grants, l.token - 1)
  }

  ghost predicate HistoryInv(h: History) {
    && Counted(h.table, h.grants)
    && Orderly(h.table.leases)
    && (forall l <- h.table.leases :: Current(l, h.grants))
  }

  lemma {:induction false} LiveOrderly(leases: seq<Lease>, now: int)
    requires Orderly(leases)
    ensures Orderly(Live(leases, now))
  {
    if leases == [] {
    } else {
      LiveOrderly(leases[1..], now);
      LiveMembers(leases[1..], now);
    }
  }

  lemma {:induction false} WithoutOrderly(leases: seq<Lease>, id: LockId)
    requires Orderly(leases)
    ensures Orderly(Without(leases, id))
  {
    if leases == [] {
    } else {
      WithoutOrderly(leases[1..], id);
      WithoutMembers(leases[1..], id);
    }
  }

  lemma ReleaseKeeps(h: History, id: LockId)
    requires HistoryInv(h)
    ensures HistoryInv(h.(table := h.table.(leases := Without(h.table.leases, id))))
  {
    WithoutMembers(h.table.leases, id);
    WithoutOrderly(h.table.leases, id);
  }

  lemma RenewalKeeps(h: History, id: LockId, expiresAt: int)
    requires HistoryInv(h)
    ensures HistoryInv(h.(table := h.table.(leases := Renewed(h.table.leases, id, expiresAt))))
  {
    var rows, renewed := h.table.leases, Renewed(h.table.leases, id, expiresAt);
    forall i, j | 0 <= i < j < |renewed| ensures Apart(renewed[i], renewed[j]) {
      assert Apart(rows[i], rows[j]);
    }
    forall i | 0 <= i < |renewed| ensures Current(renewed[i], h.grants) {
      assert Current(rows[i], h.grants);
    }
  }

  /** A new grant supersedes no row it does not clash with. */
  lemma NewGrantSpares(l: Lease, grants: seq<Lease>, lease: Lease)
    requires Current(l, grants) && !Clash(l, lease)
    ensures Current(l, grants + [lease])
  {
    var k := l.token - 1;
    assert (grants + [lease])[k] == grants[k];
    forall j | k < j < |grants| + 1 ensures !Clash((grants + [lease])[k], (grants + [lease])[j]) {
      if j < |grants| {
        assert !Clash(grants[k], grants[j]);
      }
    }
  }

  lemma AcquireKeeps(h: History, q: Request, now: int, id: LockId)
    requires HistoryInv(h) && Acquire(h.table, q, now, id).Ok?
    ensures HistoryInv(Step(h, AcquireOp(q, now, id)))
  {
    var live := Live(h.table.leases, now);
    var (t, lease) := Acquire(h.table, q, now, id).value;
    LiveMembers(h.table.leases, now);
    LiveOrderly(h.table.leases, now);
    forall l <- live ensures Apart(l, lease) && Current(l, h.grants + [lease]) {
      assert !Blocks(l, q, now);
      assert Current(l, h.grants);
      NewGrantSpares(l, h.grants, lease);
    }
    assert Current(lease, h.grants + [lease]);
    assert Counted(t, h.grants + [lease]);
  }

  lemma HeartbeatKeeps(h: History, id: LockId, owner: string, token: nat, ttl: nat, now: int)
    requires HistoryInv(h)
    ensures HistoryInv(Step(h, HeartbeatOp(id, owner, token, ttl, now)))
  {
    if Heartbeat(h.table, id, owner, token, ttl, now).Ok? { RenewalKeeps(h, id, now + ttl); }
  }

  lemma ReleaseStepKeeps(h: History, id: LockId, owner: string, token: nat)
    requires HistoryInv(h)
    ensures HistoryInv(Step(h, ReleaseOp(id, owner, token)))
  {
    if Release(h.table, id, owner, token).Ok? { ReleaseKeeps(h, id); }
  }

  lemma StepInv(h: History, op: Op)
    requires HistoryInv(h)
    ensures HistoryInv(Step(h, op))
  {
    match op
    case AcquireOp(q, now, id) => if Acquire(h.table, q, now, id).Ok? { AcquireKeeps(h, q, now, id); }
    case HeartbeatOp(id, owner, token, ttl, now) => HeartbeatKeeps(h, id, owner, token, ttl, now);
    case ReleaseOp(id, owner, token) => ReleaseStepKeeps(h, id, owner, token);
  }

  lemma {:induction false} RunInv(ops: seq<Op>)
    ensures HistoryInv(Run(ops))
  {
    if ops == [] {
    } else {
      RunInv(ops[..|ops| - 1]);
      StepInv(Run(ops[..|ops| - 1]), ops[|ops| - 1]);
    }
  }

  /** Exclusion over whole runs, with any clock readings: two rows of the table - even expired ones -
      do not overlap, or are both shared. */
  lemma Exclusion(ops: seq<Op>, i: nat, j: nat)
    requires i < |Run(ops).table.leases| && j < |Run(ops).table.leases| && i != j
    ensures var a, b := Run(ops).table.leases[i], Run(ops).table.leases[j];
            !Overlaps(a.resource, b.resource) || (a.mode == Shared && b.mode == Shared)
  {
    RunInv(ops);
    var a, b := Run(ops).table.leases[i], Run(ops).table.leases[j];
    OverlapSymmetric(a.resource, b.resource);
    assert if i < j then Apart(a, b) else Apart(b, a);
  }

  /** Tokens strictly increase in grant order, so none is ever given twice. */
  lemma TokensIncrease(ops: seq<Op>, i: nat, j: nat)
    requires i < j < |Run(ops).grants|
    ensures Run(ops).grants[i].token < Run(ops).grants[j].token
  {
    RunInv(ops);
  }

  lemma {:induction false} GrantsAreKept(ops: seq<Op>, later: seq<Op>)
    ensures Run(ops).grants <= Run(ops + later).grants
  {
    if later == [] {
      assert ops + later == ops;
    } else {
      GrantsAreKept(ops, later[..|later| - 1]);
      assert (ops + later)[..|ops + later| - 1] == ops + later[..|later| - 1];
    }
  }

  lemma SupersededIsGone(h: History, i: nat, j: nat)
    requires HistoryInv(h) && i < j < |h.grants| && Clash(h.grants[i], h.grants[j])
    ensures h.grants[i].token == i + 1 && forall l <- h.table.leases :: l.token != i + 1
  {
    assert Superseded(h.grants, i);
    forall l <- h.table.leases ensures l.token != i + 1 {
      assert Current(l, h.grants);
    }
  }

  /** Fencing over whole runs: once a lease clashing with an earlier one was granted, the earlier token
      is refused from then on - as a fence on any resource, for a heartbeat and for a release, by any
      name, at any clock reading and whatever happens later. */
  lemma SupersededTokenIsRefused(ops: seq<Op>, later: seq<Op>, i: nat, j: nat,
                                 id: LockId, owner: string, resource: Resource, ttl: nat, now: int)
    requires i < j < |Run(ops).grants| && Clash(Run(ops).grants[i], Run(ops).grants[j])
    ensures var token, t := Run(ops).grants[i].token, Run(ops + later).table;
            && !FenceHolds(t, resource, owner, token, now)
            && Heartbeat(t, id, owner, token, ttl, now).Err?
            && Release(t, id, owner, token).Err?
  {
    RunInv(ops);
    RunInv(ops + later);
    GrantsAreKept(ops, later);
    var h := Run(ops + later);
    assert h.grants[i] == Run(ops).grants[i] && h.grants[j] == Run(ops).grants[j];
    SupersededIsGone(h, i, j);
  }

  // ----- The outbox ---------------------------------------------------------------------------------------

  function ReplayOne(rows: seq<Lease>, event: LockEvent): seq<Lease> {
    match event
    case LockAcquired(lease) => rows + [lease]
    case LockRenewed(id, _, expiresAt) => Renewed(rows, id, expiresAt)
    case LockReleased(lease) => Without(rows, lease.lockId)
  }

  /** The lease table as a reader of the outbox would keep it, without purging. */
  function Replayed(outbox: seq<LockEvent>): seq<Lease> {
    if outbox == [] then [] else ReplayOne(Replayed(outbox[..|outbox| - 1]), outbox[|outbox| - 1])
  }

  lemma ReplayedSnoc(outbox: seq<LockEvent>, event: LockEvent)
    ensures Replayed(outbox + [event]) == ReplayOne(Replayed(outbox), event)
  {
    assert (outbox + [event])[..|outbox|] == outbox;
  }

  lemma RenewedMembers(leases: seq<Lease>, rows: seq<Lease>, id: LockId, expiresAt: int)
    requires forall l <- leases :: l in rows
    ensures forall l <- Renewed(leases, id, expiresAt) :: l in Renewed(rows, id, expiresAt)
  {
    var renewed := Renewed(leases, id, expiresAt);
    forall i | 0 <= i < |renewed| ensures renewed[i] in Renewed(rows, id, expiresAt) {
      assert leases[i] in rows;
      var k :| 0 <= k < |rows| && rows[k] == leases[i];
      assert Renewed(rows, id, expiresAt)[k] == renewed[i];
    }
  }

  /** Over every run each row of the table is as the outbox says: granted, renewed and not released. */
  lemma {:induction false} RowsAreInTheOutbox(ops: seq<Op>)
    ensures forall l <- Run(ops).table.leases :: l in Replayed(Run(ops).table.outbox)
  {
    if ops == [] {
    } else {
      RowsAreInTheOutbox(ops[..|ops| - 1]);
      OutboxStep(Run(ops[..|ops| - 1]), ops[|ops| - 1]);
    }
  }

  ghost predicate Backed(t: Table) {
    forall l <- t.leases :: l in Replayed(t.outbox)
  }

  lemma AcquireBacked(t: Table, q: Request, now: int, id: LockId)
    requires Backed(t) && Acquire(t, q, now, id).Ok?
    ensures Backed(Acquire(t, q, now, id).value.0)
  {
    ReplayedSnoc(t.outbox, LockAcquired(Acquire(t, q, now, id).value.1));
    LiveMembers(t.leases, now);
  }

  lemma HeartbeatBacked(t: Table, id: LockId, owner: string, token: nat, ttl: nat, now: int)
    requires Backed(t) && Heartbeat(t, id, owner, token, ttl, now).Ok?
    ensures Backed(Heartbeat(t, id, owner, token, ttl, now).value.0)
  {
    ReplayedSnoc(t.outbox, LockRenewed(id, token, now + ttl));
    RenewedMembers(t.leases, Replayed(t.outbox), id, now + ttl);
  }

  lemma ReleaseBacked(t: Table, id: LockId, owner: string, token: nat)
    requires Backed(t) && Release(t, id, owner, token).Ok?
    ensures Backed(Release(t, id, owner, token).value)
  {
    ReplayedSnoc(t.outbox, LockReleased(Lookup(t.leases, id).value));
    WithoutMembers(t.leases, id);
    WithoutMembers(Replayed(t.outbox), id);
  }

  lemma OutboxStep(h: History, op: Op)
    requires Backed(h.table)
    ensures Backed(Step(h, op).table)
  {
    match op
    case AcquireOp(q, now, id) => if Acquire(h.table, q, now, id).Ok? { AcquireBacked(h.table, q, now, id); }
    case HeartbeatOp(id, owner, token, ttl, now) =>
      if Heartbeat(h.table, id, owner, token, ttl, now).Ok? { HeartbeatBacked(h.table, id, owner, token, ttl, now); }
    case ReleaseOp(id, owner, token) =>
      if Release(h.table, id, owner, token).Ok? { ReleaseBacked(h.table, id, owner, token); }
  }

  // ----- The life of a fence ----------------------------------------------------------------------------

  predicate Backs(l: Lease, resource: Resource, owner: string, token: nat, now: int) {
    && l.resource.workspaceId == resource.workspaceId && l.owner == owner && l.token == token && l.expiresAt > now
    && Overlaps(l.resource, resource)
  }

  lemma HoldsIffBacked(t: Table, resource: Resource, owner: string, token: nat, now: int)
    ensures FenceHolds(t, resource, owner, token, now) <==>
            exists i :: 0 <= i < |t.leases| && Backs(t.leases[i], resource, owner, token, now)
  {
    if FenceHolds(t, resource, owner, token, now) {
      var l :| l in t.leases && Backs(l, resource, owner, token, now);
      var i :| 0 <= i < |t.leases| && t.leases[i] == l;
    }
  }

  lemma SameRow(leases: seq<Lease>, i: nat, j: nat)
    requires Orderly(leases) && i < |leases| && j < |leases|
    requires leases[i].token == leases[j].token || leases[i].lockId == leases[j].lockId
    ensures i == j
  {
    var a, b := leases[i], leases[j];
    assert i < j ==> Apart(a, b);
    assert j < i ==> Apart(b, a);
  }

  /** A new lease is a fence for its holder exactly until it expires. */
  lemma GrantIsHonoured(h: History, q: Request, now: int, id: LockId, at: int)
    requires HistoryInv(h) && Acquire(h.table, q, now, id).Ok?
    ensures var (t, lease) := Acquire(h.table, q, now, id).value;
            FenceHolds(t, q.resource, q.owner, lease.token, at) <==> at < now + q.ttl
  {
    var (t, lease) := Acquire(h.table, q, now, id).value;
    LiveMembers(h.table.leases, now);
    assert lease in t.leases;
    assert forall l <- h.table.leases :: Current(l, h.grants) && l.token <= |h.grants|;
    assert forall l <- t.leases :: l.token == lease.token ==> l == lease;
  }

  /** Renewing a row leaves every fence under another token as it was. */
  lemma RenewalSpares(t: Table, k: nat, expiresAt: int, resource: Resource, anyone: string, other: nat, at: int)
    requires Orderly(t.leases) && k < |t.leases| && other != t.leases[k].token
    ensures FenceHolds(t.(leases := Renewed(t.leases, t.leases[k].lockId, expiresAt)), resource, anyone, other, at)
       <==> FenceHolds(t, resource, anyone, other, at)
  {
    HoldsIffBacked(t.(leases := Renewed(t.leases, t.leases[k].lockId, expiresAt)), resource, anyone, other, at);
    HoldsIffBacked(t, resource, anyone, other, at);
    forall i | 0 <= i < |t.leases| && t.leases[i].lockId == t.leases[k].lockId ensures i == k {
      SameRow(t.leases, i, k);
    }
  }

  /** The renewed row backs its own fence until the new expiry, and no other row does. */
  lemma RenewalExtends(t: Table, k: nat, expiresAt: int, at: int)
    requires Orderly(t.leases) && k < |t.leases|
    ensures var l := t.leases[k];
            (FenceHolds(t.(leases := Renewed(t.leases, l.lockId, expiresAt)), l.resource, l.owner, l.token, at)
             <==> at < expiresAt)
  {
    var l := t.leases[k];
    var renewed := t.(leases := Renewed(t.leases, l.lockId, expiresAt));
    HoldsIffBacked(renewed, l.resource, l.owner, l.token, at);
    assert renewed.leases[k] == l.(expiresAt := expiresAt);
    forall i | 0 <= i < |t.leases| && t.leases[i].token == l.token ensures i == k {
      SameRow(t.leases, i, k);
    }
    if at < expiresAt { assert Backs(renewed.leases[k], l.resource, l.owner, l.token, at); }
  }

  /** Events are not looked at when a fence is checked. */
  lemma EventsDoNotMatter(t: Table, u: Table, resource: Resource, owner: string, token: nat, now: int)
    requires t.leases == u.leases
    ensures FenceHolds(t, resource, owner, token, now) <==> FenceHolds(u, resource, owner, token, now)
  {
  }

  lemma RenewedRow(t: Table, id: LockId, owner: string, token: nat, ttl: nat, now: int) returns (k: nat)
    requires Heartbeat(t, id, owner, token, ttl, now).Ok?
    ensures k < |t.leases|
    ensures var l, (t', lease) := t.leases[k], Heartbeat(t, id, owner, token, ttl, now).value;
            && l.lockId == id && l.owner == owner && l.token == token && l.expiresAt > now
            && t'.leases == Renewed(t.leases, l.lockId, now + ttl) && lease == l.(expiresAt := now + ttl)
  {
    k :| 0 <= k < |t.leases| && t.leases[k] == Lookup(t.leases, id).value;
  }

  /** A heartbeat is accepted only from the owner of a live row under its token, and makes the fence hold until
      exactly the new expiry. */
  lemma RenewalIsHonoured(h: History, id: LockId, owner: string, token: nat, ttl: nat, now: int, at: int)
    requires HistoryInv(h) && Heartbeat(h.table, id, owner, token, ttl, now).Ok?
    ensures var (t, lease) := Heartbeat(h.table, id, owner, token, ttl, now).value;
            && (exists l <- h.table.leases :: Backs(l, lease.resource, owner, token, now) && l.lockId == id)
            && (FenceHolds(t, lease.resource, owner, token, at) <==> at < now + ttl)
  {
    var k := RenewedRow(h.table, id, owner, token, ttl, now);
    var l, t := h.table.leases[k], Heartbeat(h.table, id, owner, token, ttl, now).value.0;
    assert Backs(l, l.resource, owner, token, now);
    RenewalExtends(h.table, k, now + ttl, at);
    EventsDoNotMatter(t, h.table.(leases := t.leases), l.resource, owner, token, at);
  }

  /** A heartbeat affects no fence under another token. */
  lemma RenewalSparesOthers(h: History, id: LockId, owner: string, token: nat, ttl: nat, now: int,
                            resource: Resource, anyone: string, other: nat, at: int)
    requires HistoryInv(h) && Heartbeat(h.table, id, owner, token, ttl, now).Ok? && other != token
    ensures FenceHolds(Heartbeat(h.table, id, owner, token, ttl, now).value.0, resource, anyone, other, at)
       <==> FenceHolds(h.table, resource, anyone, other, at)
  {
    var k := RenewedRow(h.table, id, owner, token, ttl, now);
    var t := Heartbeat(h.table, id, owner, token, ttl, now).value.0;
    RenewalSpares(h.table, k, now + ttl, resource, anyone, other, at);
    EventsDoNotMatter(t, h.table.(leases := t.leases), resource, anyone, other, at);
  }

  /** A release is accepted only from the owner under the token; the fence ends at once, and no other fence is
      affected. */
  lemma ReleaseEndsFence(h: History, id: LockId, owner: string, token: nat,
                         resource: Resource, anyone: string, other: nat, at: int)
    requires HistoryInv(h) && Release(h.table, id, owner, token).Ok?
    ensures var t := Release(h.table, id, owner, token).value;
            && (exists l <- h.table.leases :: l.lockId == id && l.owner == owner && l.token == token)
            && !FenceHolds(t, resource, anyone, token, at)
            && (other != token ==>
                  (FenceHolds(t, resource, anyone, other, at) <==> FenceHolds(h.table, resource, anyone, other, at)))
  {
    var row := Lookup(h.table.leases, id).value;
    WithoutMembers(h.table.leases, id);
    var rows := h.table.leases;
    var k :| 0 <= k < |rows| && rows[k] == row;
    forall l <- rows | l.token == token || l.lockId == id ensures l == row {
      var i :| 0 <= i < |rows| && rows[i] == l;
      SameRow(rows, i, k);
    }
  }

  /** A request is refused for a conflict exactly when some live row clashes with it. */
  lemma RefusedIffBlocked(t: Table, q: Request, now: int, id: LockId)
    ensures (exists l <- t.leases :: Blocks(l, q, now)) <==>
            Acquire(t, q, now, id).Err? && Acquire(t, q, now, id).error.LockConflict?
    ensures Acquire(t, q, now, id).Err? && Acquire(t, q, now, id).error.LockConflict? ==>
            exists l <- t.leases ::
              Blocks(l, q, now) && Acquire(t, q, now, id) == Err(LockConflict(l.owner, l.resource))
  {
    var live := Live(t.leases, now);
    LiveMembers(t.leases, now);
    if exists l <- t.leases :: Blocks(l, q, now) {
      var l :| l in t.leases && Blocks(l, q, now);
      assert l in live;
    }
  }
}
