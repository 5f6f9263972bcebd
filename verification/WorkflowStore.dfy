/** The workflow table with its transactional outbox, and the proof that clients which read, mutate
    locally and then compare-and-set on the version are linearizable. */
module WorkflowStore {
  import opened Prelude
  import opened WorkflowDefinition
  import opened WorkflowExecution
  import opened WorkflowSafety

  type WorkflowId = nat
  type ClientId = nat

  /** A table row: the version column that is compared, and the stored execution. */
  datatype Row = Row(version: nat, data: Execution)

  datatype OutboxRow = OutboxRow(workflow: WorkflowId, event: Event)

  datatype Db = Db(rows: map<WorkflowId, Row>, outbox: seq<OutboxRow>)

  datatype StoreError =
    | Backend
    | WorkflowNotFound(id: WorkflowId)
    | SaveConflict(expected: nat, actual: nat)

  function Tag(id: WorkflowId, events: seq<Event>): (r: seq<OutboxRow>)
    ensures |r| == |events|
  {
    seq(|events|, i requires 0 <= i < |events| => OutboxRow(id, events[i]))
  }

  /** The insert fails on a primary key that exists and on a version outside the column's range. */
  function Create(db: Db, id: WorkflowId, e: Execution, events: seq<Event>): Result<Db, StoreError> {
    if e.version > I64_MAX || id in db.rows then Err(Backend)
    else Ok(Db(db.rows[id := Row(e.version, e)], db.outbox + Tag(id, events)))
  }

  /** The compare-and-set: row and events are written together, and only at the expected version. */
  function Save(db: Db, id: WorkflowId, expected: nat, e: Execution, events: seq<Event>)
    : Result<Db, StoreError>
  {
    if e.version > I64_MAX || expected > I64_MAX then Err(Backend)
    else if id !in db.rows then Err(WorkflowNotFound(id))
    else if db.rows[id].version != expected then Err(SaveConflict(expected, db.rows[id].version))
    else Ok(Db(db.rows[id := Row(e.version, e)], db.outbox + Tag(id, events)))
  }

  class WorkflowRepository {
    var rows: map<WorkflowId, Row>
    var outbox: seq<OutboxRow>

    ghost function Value(): Db
      reads this
    {
      Db(rows, outbox)
    }

    constructor ()
      ensures Value() == Db(map[], [])
    {
      rows, outbox := map[], [];
    }

    method CreateWorkflow(id: WorkflowId, e: Execution, events: seq<Event>)
      returns (r: Result<Execution, StoreError>)
      modifies this
      ensures match Create(old(Value()), id, e, events)
              case Ok(db) => Value() == db && r == Ok(e)
              case Err(error) => Value() == old(Value()) && r == Err(error)
    {
      if e.version > I64_MAX { return Err(Backend); }
      if id in rows { return Err(Backend); }
      rows := rows[id := Row(e.version, e)];
      outbox := outbox + Tag(id, events);
      return Ok(e);
    }

    method GetWorkflow(id: WorkflowId) returns (r: Option<Execution>)
      ensures r == if id in rows then Some(rows[id].data) else None
    {
      if id in rows { return Some(rows[id].data); }
      return None;
    }

    method SaveWorkflow(expected: nat, id: WorkflowId, e: Execution, events: seq<Event>)
      returns (r: Result<Execution, StoreError>)
      modifies this
      ensures match Save(old(Value()), id, expected, e, events)
              case Ok(db) => Value() == db && r == Ok(e)
              case Err(error) => Value() == old(Value()) && r == Err(error)
    {
      if e.version > I64_MAX || expected > I64_MAX { return Err(Backend); }
      var affected := 0;
      if id in rows && rows[id].version == expected {
        rows := rows[id := Row(e.version, e)];
        affected := 1;
      }
      if affected != 1 {
        if id in rows { return Err(SaveConflict(expected, rows[id].version)); }
        return Err(WorkflowNotFound(id));
      }
      outbox := outbox + Tag(id, events);
      return Ok(e);
    }
  }

  // ----- Serial history --------------------------------------------------------------------------------

  datatype Commit =
    | Created(id: WorkflowId, def: Definition)
    | Advanced(id: WorkflowId, request: Request)

  function CreationEvents(e: Execution): seq<Event> {
    [Event(WorkflowCreated, e.version, "")]
  }

  ghost predicate StoredWell(db: Db) {
    forall id {:trigger db.rows[id].data} :: id in db.rows ==> Inv(db.rows[id].data)
  }

  /** A commit that is legal on this very state: a fresh workflow from a valid definition, or an
      accepted request applied to exactly the stored execution. */
  ghost predicate Legal(db: Db, c: Commit)
    requires StoredWell(db)
  {
    match c
    case Created(id, def) => id !in db.rows && ValidDefinition(def)
    case Advanced(id, q) =>
      && id in db.rows
      && Inv(db.rows[id].data)
      && var r := Apply(db.rows[id].data, q.expected, q.action);
         r.Ok? && r.value.0.version <= I64_MAX
  }

  /** The serial effect of one legal commit. */
  ghost function Perform(db: Db, c: Commit): (r: Db)
    requires StoredWell(db) && Legal(db, c)
    ensures StoredWell(r)
  {
    match c
    case Created(id, def) =>
      InvInitial(def);
      var e := Initial(def);
      Db(db.rows[id := Row(e.version, e)], db.outbox + Tag(id, CreationEvents(e)))
    case Advanced(id, q) =>
      InvStep(db.rows[id].data, q.expected, q.action);
      var (e, events) := Apply(db.rows[id].data, q.expected, q.action).value;
      Db(db.rows[id := Row(e.version, e)], db.outbox + Tag(id, events))
  }

  /** One client at a time, from the empty database, in the order of the list; None when some commit
      was not legal where it stands. */
  ghost function Replay(log: seq<Commit>): (r: Option<Db>)
    ensures r.Some? ==> StoredWell(r.value)
  {
    if log == [] then Some(Db(map[], []))
    else
      var before := Replay(log[..|log| - 1]);
      var c := log[|log| - 1];
      if before.None? || !Legal(before.value, c) then None
      else Some(Perform(before.value, c))
  }

  // ----- Concurrent clients ------------------------------------------------------------------------------

  /** A client between its atomic steps. The snapshot may be arbitrarily stale. */
  datatype Client =
    | Holding(id: WorkflowId, snapshot: Execution)
    | Saving(id: WorkflowId, snapshot: Execution, request: Request, next: Execution, events: seq<Event>)

  /** `log` is history only: the commits in the order in which the database accepted them. */
  datatype System = System(db: Db, clients: map<ClientId, Client>, log: seq<Commit>)

  datatype Tick =
    | CreateTick(id: WorkflowId, def: Definition)
    | ReadTick(client: ClientId, id: WorkflowId)
    | MutateTick(client: ClientId, request: Request)
    | SaveTick(client: ClientId)

  ghost function CreateStep(s: System, id: WorkflowId, def: Definition): System {
    if !ValidDefinition(def) then s
    else
      ValidMeansResolved(def);
      var e := Initial(def);
      match Create(s.db, id, e, CreationEvents(e))
      case Ok(db) => s.(db := db, log := s.log + [Created(id, def)])
      case Err(_) => s
  }

  ghost function ReadStep(s: System, c: ClientId, id: WorkflowId): System {
    if id in s.db.rows then s.(clients := s.clients[c := Holding(id, s.db.rows[id].data)]) else s
  }

  ghost function MutateStep(s: System, c: ClientId, q: Request): System {
    if c in s.clients && s.clients[c].Holding? && WellFormed(s.clients[c].snapshot) then
      var Holding(id, snapshot) := s.clients[c];
      match Apply(snapshot, q.expected, q.action)
      case Ok((next, events)) => s.(clients := s.clients[c := Saving(id, snapshot, q, next, events)])
      case Err(_) => s.(clients := s.clients - {c})
    else s
  }

  ghost function SaveStep(s: System, c: ClientId): System {
    if c in s.clients && s.clients[c].Saving? then
      var Saving(id, _, q, next, events) := s.clients[c];
      match Save(s.db, id, q.expected, next, events)
      case Ok(db) => System(db, s.clients - {c}, s.log + [Advanced(id, q)])
      case Err(_) => s.(clients := s.clients - {c})
    else s
  }

  ghost function Step(s: System, t: Tick): System {
    match t
    case CreateTick(id, def) => CreateStep(s, id, def)
    case ReadTick(c, id) => ReadStep(s, c, id)
    case MutateTick(c, q) => MutateStep(s, c, q)
    case SaveTick(c) => SaveStep(s, c)
  }

  ghost function Execute(schedule: seq<Tick>): System {
    if schedule == [] then System(Db(map[], []), map[], [])
    else Step(Execute(schedule[..|schedule| - 1]), schedule[|schedule| - 1])
  }

  // ----- Snapshots are states the workflow really went through ----------------------------------------------

  /** `e` was the stored execution of `id` when exactly the commits of `past` had been made. */
  ghost predicate WasStored(past: seq<Commit>, id: WorkflowId, e: Execution) {
    && Replay(past).Some?
    && id in Replay(past).value.rows
    && Replay(past).value.rows[id].data == e
  }

  ghost predicate VersionColumnsAgree(db: Db) {
    forall id {:trigger db.rows[id].version} :: id in db.rows ==>
      db.rows[id].version == db.rows[id].data.version <= I64_MAX
  }

  lemma {:induction false} ReplayColumns(log: seq<Commit>)
    requires Replay(log).Some?
    ensures VersionColumnsAgree(Replay(log).value)
  {
    if log == [] {
    } else {
      ReplayColumns(log[..|log| - 1]);
    }
  }

  /** A legal commit moves its workflow's version up by exactly one and touches no other row. */
  lemma PerformMoves(db: Db, c: Commit, id: WorkflowId)
    requires StoredWell(db) && VersionColumnsAgree(db) && Legal(db, c) && id in db.rows
    ensures id in Perform(db, c).rows
    ensures c.id != id ==> Perform(db, c).rows[id] == db.rows[id]
    ensures c.id == id ==> Perform(db, c).rows[id].version == db.rows[id].version + 1
  {
    if c.Advanced? && c.id == id {
      VersionStep(db.rows[id].data, c.request.expected, c.request.action);
    }
  }

  /** Versions identify states: a workflow whose version is unchanged since some earlier commit is
      unchanged altogether. */
  lemma {:induction false} VersionIdentifiesState(log: seq<Commit>, past: seq<Commit>, id: WorkflowId,
                                                  e: Execution)
    requires Replay(log).Some? && past <= log && WasStored(past, id, e)
    ensures id in Replay(log).value.rows
    ensures e.version <= Replay(log).value.rows[id].version
    ensures e.version == Replay(log).value.rows[id].version ==> Replay(log).value.rows[id].data == e
  {
    if past == log {
      ReplayColumns(log);
    } else {
      var init, c := log[..|log| - 1], log[|log| - 1];
      assert past <= init;
      VersionIdentifiesState(init, past, id, e);
      ReplayColumns(init);
      PerformMoves(Replay(init).value, c, id);
    }
  }

  ghost predicate SnapshotKnown(log: seq<Commit>, id: WorkflowId, snapshot: Execution) {
    exists past :: past <= log && WasStored(past, id, snapshot)
  }

  /** What a client is about to save is its own snapshot moved on by its request. */
  ghost predicate LocallySound(c: Client) {
    c.Saving? ==>
      && WellFormed(c.snapshot)
      && c.snapshot.version == c.request.expected
      && Apply(c.snapshot, c.request.expected, c.request.action) == Ok((c.next, c.events))
  }

  ghost predicate ClientInv(log: seq<Commit>, c: Client) {
    SnapshotKnown(log, c.id, c.snapshot) && LocallySound(c)
  }

  ghost predicate SystemInv(s: System) {
    && Replay(s.log) == Some(s.db)
    && (forall c {:trigger s.clients[c]} :: c in s.clients ==> ClientInv(s.log, s.clients[c]))
  }

  lemma SnapshotStaysKnown(log: seq<Commit>, more: Commit, id: WorkflowId, snapshot: Execution)
    requires SnapshotKnown(log, id, snapshot)
    ensures SnapshotKnown(log + [more], id, snapshot)
  {
    var past :| past <= log && WasStored(past, id, snapshot);
    assert past <= log + [more];
  }

  lemma ClientsStay(log: seq<Commit>, more: Commit, clients: map<ClientId, Client>)
    requires forall c {:trigger clients[c]} :: c in clients ==> ClientInv(log, clients[c])
    ensures forall c {:trigger clients[c]} :: c in clients ==> ClientInv(log + [more], clients[c])
  {
    forall c | c in clients ensures ClientInv(log + [more], clients[c]) {
      SnapshotStaysKnown(log, more, clients[c].id, clients[c].snapshot);
    }
  }

  lemma ReplaySnoc(log: seq<Commit>, c: Commit)
    requires Replay(log).Some? && Legal(Replay(log).value, c)
    ensures Replay(log + [c]) == Some(Perform(Replay(log).value, c))
  {
    assert (log + [c])[..|log + [c]| - 1] == log;
  }

  lemma CreateStepKeeps(s: System, id: WorkflowId, def: Definition)
    requires SystemInv(s)
    ensures SystemInv(CreateStep(s, id, def))
  {
    if ValidDefinition(def) && id !in s.db.rows {
      ValidMeansResolved(def);
      ReplaySnoc(s.log, Created(id, def));
      ClientsStay(s.log, Created(id, def), s.clients);
    }
  }

  lemma ReadStepKeeps(s: System, c: ClientId, id: WorkflowId)
    requires SystemInv(s)
    ensures SystemInv(ReadStep(s, c, id))
  {
    if id in s.db.rows {
      assert WasStored(s.log, id, s.db.rows[id].data);
    }
  }

  lemma MutateStepKeeps(s: System, c: ClientId, q: Request)
    requires SystemInv(s)
    ensures SystemInv(MutateStep(s, c, q))
  {
  }

  /** The heart of the protocol: when the version test passes, the client's snapshot is the stored
      state itself, however stale its read was, so the commit is legal where it lands. */
  lemma SaveIsLegal(s: System, c: ClientId)
    requires SystemInv(s) && c in s.clients && s.clients[c].Saving?
    requires var Saving(id, _, q, next, events) := s.clients[c];
             Save(s.db, id, q.expected, next, events).Ok?
    ensures var Saving(id, snapshot, q, next, events) := s.clients[c];
            && s.db.rows[id].data == snapshot
            && StoredWell(s.db) && Legal(s.db, Advanced(id, q))
            && Save(s.db, id, q.expected, next, events) == Ok(Perform(s.db, Advanced(id, q)))
  {
    var Saving(id, snapshot, q, next, events) := s.clients[c];
    assert ClientInv(s.log, s.clients[c]);
    var past :| past <= s.log && WasStored(past, id, snapshot);
    VersionIdentifiesState(s.log, past, id, snapshot);
    assert Inv(s.db.rows[id].data);
  }

  /** What a client is about to save is one version past the one it expects. */
  lemma NextVersion(c: Client)
    requires c.Saving? && LocallySound(c)
    ensures c.next.version == Bump(c.request.expected)
  {
    VersionStep(c.snapshot, c.request.expected, c.request.action);
  }

  lemma SecondSaveIsRefused(db: Db, id: WorkflowId, expected: nat, a: Execution, b: Execution, events: seq<Event>,
                            more: seq<Event>)
    requires a.version == b.version == Bump(expected) && Save(db, id, expected, a, events).Ok?
    ensures Save(Save(db, id, expected, a, events).value, id, expected, b, more)
         == Err(SaveConflict(expected, expected + 1))
  {
  }

  lemma SaveStepKeeps(s: System, c: ClientId)
    requires SystemInv(s)
    ensures SystemInv(SaveStep(s, c))
  {
    if c in s.clients && s.clients[c].Saving? {
      var Saving(id, _, q, next, events) := s.clients[c];
      if Save(s.db, id, q.expected, next, events).Ok? {
        var commit := Advanced(id, q);
        SaveIsLegal(s, c);
        ReplaySnoc(s.log, commit);
        ClientsStay(s.log, commit, s.clients);
      }
    }
  }

  /** Linearizability: under every interleaving of stale reads, local transitions and saves, the
      database - rows and outbox together - is what the accepted commits produce when performed one
      after the other, each as a legal transition on exactly the state before it. */
  lemma {:induction false} Linearizable(schedule: seq<Tick>)
    ensures SystemInv(Execute(schedule))
    ensures var s := Execute(schedule); Replay(s.log) == Some(s.db)
  {
    if schedule == [] {
    } else {
      var init, t := schedule[..|schedule| - 1], schedule[|schedule| - 1];
      Linearizable(init);
      var s := Execute(init);
      match t
      case CreateTick(id, def) => CreateStepKeeps(s, id, def);
      case ReadTick(c, id) => ReadStepKeeps(s, c, id);
      case MutateTick(c, q) => MutateStepKeeps(s, c, q);
      case SaveTick(c) => SaveStepKeeps(s, c);
    }
  }

  /** No update is lost: whatever was committed stays, in place, in every later state. */
  lemma {:induction false} CommitsAreKept(schedule: seq<Tick>, later: seq<Tick>)
    ensures Execute(schedule).log <= Execute(schedule + later).log
  {
    if later == [] {
      assert schedule + later == schedule;
    } else {
      var init := later[..|later| - 1];
      CommitsAreKept(schedule, init);
      assert (schedule + later)[..|schedule + later| - 1] == schedule + init;
    }
  }

  function CommitsTo(log: seq<Commit>, id: WorkflowId): nat {
    if log == [] then 0
    else
      CommitsTo(log[..|log| - 1], id) +
      if log[|log| - 1].Advanced? && log[|log| - 1].id == id then 1 else 0
  }

  /** In every reachable database a workflow's version is the number of requests committed to it, and
      its stored execution satisfies the workflow invariant. */
  lemma {:induction false} VersionsCountCommits(log: seq<Commit>, id: WorkflowId)
    requires Replay(log).Some? && id in Replay(log).value.rows
    ensures Replay(log).value.rows[id].version == CommitsTo(log, id)
    ensures Inv(Replay(log).value.rows[id].data)
  {
    var init, c := log[..|log| - 1], log[|log| - 1];
    if id in Replay(init).value.rows {
      VersionsCountCommits(init, id);
      ReplayColumns(init);
      PerformMoves(Replay(init).value, c, id);
    } else {
      NothingToAbsent(init, id);
    }
    assert Inv(Replay(log).value.rows[id].data);
  }

  lemma {:induction false} NothingToAbsent(log: seq<Commit>, id: WorkflowId)
    requires Replay(log).Some? && id !in Replay(log).value.rows
    ensures CommitsTo(log, id) == 0
  {
    if log == [] {
    } else {
      NothingToAbsent(log[..|log| - 1], id);
    }
  }

  lemma SavingVersion(schedule: seq<Tick>, c: ClientId)
    requires c in Execute(schedule).clients && Execute(schedule).clients[c].Saving?
    ensures Execute(schedule).clients[c].next.version == Bump(Execute(schedule).clients[c].request.expected)
  {
    Linearizable(schedule);
    assert ClientInv(Execute(schedule).log, Execute(schedule).clients[c]);
    NextVersion(Execute(schedule).clients[c]);
  }

  /** Of two clients that moved on from the same version of a workflow, in any reachable state, the first to
      save wins; the other stays where it is, is told the version that beat it, and changes nothing. */
  lemma SecondSaveConflicts(schedule: seq<Tick>, c: ClientId, d: ClientId)
    requires var clients := Execute(schedule).clients;
             && c != d && c in clients && d in clients && clients[c].Saving? && clients[d].Saving?
             && clients[c].id == clients[d].id && clients[c].request.expected == clients[d].request.expected
    requires var s := Execute(schedule);
             var a := s.clients[c];
             Save(s.db, a.id, a.request.expected, a.next, a.events).Ok?
    ensures var s, b := SaveStep(Execute(schedule), c), Execute(schedule).clients[d];
            && d in s.clients && s.clients[d] == b
            && (Save(s.db, b.id, b.request.expected, b.next, b.events)
                == Err(SaveConflict(b.request.expected, b.request.expected + 1)))
    ensures SaveStep(SaveStep(Execute(schedule), c), d).db == SaveStep(Execute(schedule), c).db
  {
    var s := Execute(schedule);
    var a, b := s.clients[c], s.clients[d];
    SavingVersion(schedule, c);
    SavingVersion(schedule, d);
    SecondSaveIsRefused(s.db, a.id, a.request.expected, a.next, b.next, a.events, b.events);
  }

  // ----- The service ---------------------------------------------------------------------------------------

  datatype ServiceError = NoSuchWorkflow(id: WorkflowId) | Refused(error: WorkflowError) | NotSaved(why: StoreError)

  /** Read, mutate locally, compare-and-set: what it does when it reads from one state of the database and
      saves to a later one. */
  function ReadMutateSave(read: Db, late: Db, id: WorkflowId, q: Request): (Db, Result<Execution, ServiceError>)
    requires id in read.rows ==> WellFormed(read.rows[id].data)
  {
    if id !in read.rows then (late, Err(NoSuchWorkflow(id)))
    else
      match Apply(read.rows[id].data, q.expected, q.action)
      case Err(why) => (late, Err(Refused(why)))
      case Ok((next, events)) =>
        match Save(late, id, q.expected, next, events)
        case Err(why) => (late, Err(NotSaved(why)))
        case Ok(db) => (db, Ok(next))
  }

  class OrchestrationService {
    const repository: WorkflowRepository

    constructor (repository: WorkflowRepository)
      ensures this.repository == repository
    {
      this.repository := repository;
    }

    /** Other clients do anything to the tables. */
    method OtherClients()
      modifies repository
    {
      var rows: map<WorkflowId, Row>, outbox: seq<OutboxRow> := *, *;
      repository.rows, repository.outbox := rows, outbox;
    }

    method Mutate(execution: WorkflowExecution, q: Request)
      returns (r: Result<seq<Event>, WorkflowError>)
      requires execution.Valid()
      modifies execution
      ensures execution.Valid() && Performed(old(execution.Value()), q.expected, q.action, execution.Value(), r)
    {
      match q.action {
        case Start(node, owner) => r := execution.StartNode(q.expected, node, owner);
        case Complete(node) => r := execution.CompleteNode(q.expected, node);
        case Fail(node, error) => r := execution.FailNode(q.expected, node, error);
        case Decide(node, approved) => r := execution.DecideApproval(q.expected, node, approved);
      }
    }

    /** `start_node`, `complete_node`, `fail_node` and `decide_approval`. The row is read from `old` of the
        tables and the save meets whatever other clients have left by then. */
    method Advance(id: WorkflowId, q: Request) returns (r: Result<Execution, ServiceError>, ghost late: Db)
      requires id in repository.rows ==> WellFormed(repository.rows[id].data)
      modifies repository
      ensures (repository.Value(), r) == ReadMutateSave(old(repository.Value()), late, id, q)
    {
      var snapshot := repository.GetWorkflow(id);
      OtherClients();
      late := repository.Value();
      if snapshot.None? { return Err(NoSuchWorkflow(id)), late; }
      var execution := new WorkflowExecution.Load(snapshot.value);
      var events := Mutate(execution, q);
      if events.Err? { return Err(Refused(events.error)), late; }
      var next := Execution(execution.def, execution.version, execution.status, execution.nodes);
      var saved := repository.SaveWorkflow(q.expected, id, next, events.value);
      if saved.Err? { return Err(NotSaved(saved.error)), late; }
      return Ok(next), late;
    }
  }

  /** A request that is saved took effect on exactly the execution that was stored at that moment, although
      it was computed from an earlier read: for any two points of a run of other clients. */
  lemma ServiceIsLinearizable(schedule: seq<Tick>, later: seq<Tick>, id: WorkflowId, q: Request)
    requires var read := Execute(schedule).db; id in read.rows ==> WellFormed(read.rows[id].data)
    requires ReadMutateSave(Execute(schedule).db, Execute(schedule + later).db, id, q).1.Ok?
    ensures var late := Execute(schedule + later).db;
            && StoredWell(late) && Legal(late, Advanced(id, q))
            && ReadMutateSave(Execute(schedule).db, late, id, q).0 == Perform(late, Advanced(id, q))
  {
    Linearizable(schedule);
    Linearizable(schedule + later);
    CommitsAreKept(schedule, later);
    var read, late := Execute(schedule).db, Execute(schedule + later).db;
    assert WasStored(Execute(schedule).log, id, read.rows[id].data);
    VersionIdentifiesState(Execute(schedule + later).log, Execute(schedule).log, id, read.rows[id].data);
    ReplayColumns(Execute(schedule + later).log);
    assert Inv(late.rows[id].data);
  }
}
