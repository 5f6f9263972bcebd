/** Each workflow of the table as if it were alone in it: its row and its events are told by the requests committed
    to it, and a call saves exactly if nobody else committed to its workflow since the read. */
module WorkflowSolo {
  import opened Prelude
  import opened WorkflowDefinition
  import opened WorkflowExecution
  import opened WorkflowSafety
  import opened WorkflowStore
  import WorkflowHistory

  // ----- One workflow's share of the history -----------------------------------------------------------------

  /** What `id` was created from. */
  function DefinitionOf(log: seq<Commit>, id: WorkflowId): Option<Definition> {
    if log == [] then None
    else
      var init, c := log[..|log| - 1], log[|log| - 1];
      if DefinitionOf(init, id).None? && c.Created? && c.id == id then Some(c.def) else DefinitionOf(init, id)
  }

  /** The requests committed to `id`, in order. */
  function RequestsTo(log: seq<Commit>, id: WorkflowId): seq<Request> {
    if log == [] then []
    else
      var c := log[|log| - 1];
      RequestsTo(log[..|log| - 1], id) + if c.Advanced? && c.id == id then [c.request] else []
  }

  /** The events in the outbox that carry `id`, in order. */
  function EventsOf(outbox: seq<OutboxRow>, id: WorkflowId): seq<Event> {
    if outbox == [] then []
    else
      var row := outbox[|outbox| - 1];
      EventsOf(outbox[..|outbox| - 1], id) + if row.workflow == id then [row.event] else []
  }

  /** The events of a run. */
  function Reported(e: Execution, requests: seq<Request>): seq<Event>
    requires WellFormed(e)
  {
    if requests == [] then []
    else
      var init, q := requests[..|requests| - 1], requests[|requests| - 1];
      Reported(e, init) +
      match Apply(Run(e, init), q.expected, q.action)
      case Ok((_, events)) => events
      case Err(_) => []
  }

  /** The row and the events that the committed requests lead to from the initial execution: none of them is
      refused, and the version counts them. */
  ghost predicate LeadTo(start: Execution, requests: seq<Request>, row: Row, events: seq<Event>) {
    && WellFormed(start)
    && row == Row(|requests|, Run(start, requests))
    && |WorkflowHistory.Log(start, requests)| == |requests|
    && events == [Event(WorkflowCreated, 0, "")] + Reported(start, requests)
  }

  /** The row of `id` is where its own requests lead, and the outbox tells of its creation and of each of them. */
  ghost predicate Alone(db: Db, log: seq<Commit>, id: WorkflowId) {
    match DefinitionOf(log, id)
    case None => id !in db.rows && EventsOf(db.outbox, id) == [] && RequestsTo(log, id) == []
    case Some(def) =>
      && ValidDefinition(def) && FallbacksResolve(Table(def.nodes)) && id in db.rows
      && LeadTo(Initial(def), RequestsTo(log, id), db.rows[id], EventsOf(db.outbox, id))
  }

  lemma {:induction false} EventsAppend(outbox: seq<OutboxRow>, id: WorkflowId, other: WorkflowId, events: seq<Event>)
    ensures EventsOf(outbox + Tag(other, events), id) == EventsOf(outbox, id) + if other == id then events else []
  {
    if events == [] {
      assert outbox + Tag(other, events) == outbox;
      assert EventsOf(outbox, id) + [] == EventsOf(outbox, id);
    } else {
      var init, last := events[..|events| - 1], events[|events| - 1];
      EventsAppend(outbox, id, other, init);
      var all := outbox + Tag(other, events);
      assert all[..|all| - 1] == outbox + Tag(other, init);
      assert init + [last] == events;
    }
  }

  lemma LogSnoc(log: seq<Commit>, c: Commit, id: WorkflowId)
    ensures RequestsTo(log + [c], id) == RequestsTo(log, id) + if c.Advanced? && c.id == id then [c.request] else []
    ensures DefinitionOf(log + [c], id)
         == if DefinitionOf(log, id).None? && c.Created? && c.id == id then Some(c.def) else DefinitionOf(log, id)
  {
    assert (log + [c])[..|log|] == log;
  }

  /** One more request that is accepted where the others lead. */
  lemma RunSnoc(start: Execution, requests: seq<Request>, q: Request)
    requires WellFormed(start) && Apply(Run(start, requests), q.expected, q.action).Ok?
    ensures var (e, events) := Apply(Run(start, requests), q.expected, q.action).value;
            && Run(start, requests + [q]) == e
            && Reported(start, requests + [q]) == Reported(start, requests) + events
            && |WorkflowHistory.Log(start, requests + [q])| == |WorkflowHistory.Log(start, requests)| + 1
  {
    assert (requests + [q])[..|requests|] == requests;
  }

  lemma NextIsCounted(e: Execution, q: Request)
    requires WellFormed(e) && e.version <= I64_MAX && Apply(e, q.expected, q.action).Ok?
    ensures Apply(e, q.expected, q.action).value.0.version == e.version + 1
  {
    VersionStep(e, q.expected, q.action);
  }

  lemma Regroup<T>(a: seq<T>, b: seq<T>, c: seq<T>)
    ensures a + b + c == a + (b + c)
  {
  }

  lemma LeadOn(start: Execution, requests: seq<Request>, told: seq<Event>, q: Request)
    requires WellFormed(start) && LeadTo(start, requests, Row(|requests|, Run(start, requests)), told)
    requires Apply(Run(start, requests), q.expected, q.action).Ok?
    ensures var (e, events) := Apply(Run(start, requests), q.expected, q.action).value;
            LeadTo(start, requests + [q], Row(|requests| + 1, e), told + events)
  {
    RunSnoc(start, requests, q);
    Regroup([Event(WorkflowCreated, 0, "")], Reported(start, requests),
            Apply(Run(start, requests), q.expected, q.action).value.1);
  }

  lemma AdvanceAlone(db: Db, log: seq<Commit>, id: WorkflowId, q: Request)
    requires StoredWell(db) && VersionColumnsAgree(db) && Legal(db, Advanced(id, q)) && Alone(db, log, id)
    ensures Alone(Perform(db, Advanced(id, q)), log + [Advanced(id, q)], id)
  {
    LogSnoc(log, Advanced(id, q), id);
    var (e, events) := Apply(db.rows[id].data, q.expected, q.action).value;
    EventsAppend(db.outbox, id, id, events);
    NextIsCounted(db.rows[id].data, q);
    LeadOn(Initial(DefinitionOf(log, id).value), RequestsTo(log, id), EventsOf(db.outbox, id), q);
  }

  lemma CreationAlone(db: Db, log: seq<Commit>, id: WorkflowId, def: Definition)
    requires StoredWell(db) && Legal(db, Created(id, def)) && Alone(db, log, id)
    ensures Alone(Perform(db, Created(id, def)), log + [Created(id, def)], id)
  {
    LogSnoc(log, Created(id, def), id);
    InvInitial(def);
    EventsAppend(db.outbox, id, id, CreationEvents(Initial(def)));
    NothingLeads(Initial(def));
  }

  lemma NothingLeads(start: Execution)
    requires WellFormed(start) && start.version == 0
    ensures LeadTo(start, [], Row(0, start), CreationEvents(start))
  {
  }

  lemma OtherAlone(db: Db, log: seq<Commit>, c: Commit, id: WorkflowId)
    requires StoredWell(db) && Legal(db, c) && Alone(db, log, id) && c.id != id
    ensures Alone(Perform(db, c), log + [c], id)
  {
    LogSnoc(log, c, id);
    match c {
      case Created(_, def) =>
        InvInitial(def);
        EventsAppend(db.outbox, id, c.id, CreationEvents(Initial(def)));
      case Advanced(_, q) =>
        EventsAppend(db.outbox, id, c.id, Apply(db.rows[c.id].data, q.expected, q.action).value.1);
    }
    assert EventsOf(db.outbox, id) + [] == EventsOf(db.outbox, id);
    assert RequestsTo(log, id) + [] == RequestsTo(log, id);
  }

  lemma CommitAlone(db: Db, log: seq<Commit>, c: Commit, id: WorkflowId)
    requires StoredWell(db) && VersionColumnsAgree(db) && Legal(db, c) && Alone(db, log, id)
    ensures Alone(Perform(db, c), log + [c], id)
  {
    if c.id != id {
      OtherAlone(db, log, c, id);
    } else {
      match c
      case Created(_, def) => CreationAlone(db, log, id, def);
      case Advanced(_, q) => AdvanceAlone(db, log, id, q);
    }
  }

  lemma {:induction false} ReplayedAlone(log: seq<Commit>, id: WorkflowId)
    requires Replay(log).Some?
    ensures Alone(Replay(log).value, log, id)
  {
    if log == [] {
    } else {
      var init, c := log[..|log| - 1], log[|log| - 1];
      ReplayedAlone(init, id);
      ReplayColumns(init);
      CommitAlone(Replay(init).value, init, c, id);
      FrontAndLast(log);
    }
  }

  lemma FrontAndLast(log: seq<Commit>)
    requires log != []
    ensures log[..|log| - 1] + [log[|log| - 1]] == log
  {
  }

  /** Under every interleaving of clients, each workflow is stored and reported as if its own requests had been made
      one after the other with nobody else around. */
  lemma EachWorkflowIsAlone(schedule: seq<Tick>, id: WorkflowId)
    ensures Alone(Execute(schedule).db, Execute(schedule).log, id)
  {
    Linearizable(schedule);
    ReplayedAlone(Execute(schedule).log, id);
  }

  // ----- Which saves succeed -----------------------------------------------------------------------------------

  /** A creation is committed exactly if its definition is valid and its key is new. */
  lemma CreationCommitsIff(s: System, id: WorkflowId, def: Definition)
    ensures CreateStep(s, id, def).log
         == s.log + if ValidDefinition(def) && id !in s.db.rows then [Created(id, def)] else []
    ensures CreateStep(s, id, def).log == s.log ==> CreateStep(s, id, def).db == s.db
  {
    if ValidDefinition(def) {
      ValidMeansResolved(def);
    } else {
      assert s.log + [] == s.log;
    }
  }

  /** A save is committed exactly if the stored version is the expected one and can be counted further; otherwise
      it leaves the tables alone. */
  lemma SaveCommitsIff(schedule: seq<Tick>, c: ClientId)
    requires c in Execute(schedule).clients && Execute(schedule).clients[c].Saving?
    ensures var s := Execute(schedule);
            var Saving(id, _, q, _, _) := s.clients[c];
            && SaveStep(s, c).log == s.log + (
                 if id in s.db.rows && s.db.rows[id].version == q.expected < I64_MAX then [Advanced(id, q)] else [])
            && (SaveStep(s, c).log == s.log ==> SaveStep(s, c).db == s.db)
            && SaveStep(s, c).clients == s.clients - {c}
  {
    var s := Execute(schedule);
    SavingVersion(schedule, c);
    assert s.log + [] == s.log;
  }

  lemma {:induction false} CommitsGrow(log: seq<Commit>, later: seq<Commit>, id: WorkflowId)
    requires log <= later
    ensures CommitsTo(log, id) <= CommitsTo(later, id)
  {
    if log == later {
    } else {
      CommitsGrow(log, later[..|later| - 1], id);
    }
  }

  /** How many requests were committed to `id` between two points of a run. */
  ghost function Others(schedule: seq<Tick>, later: seq<Tick>, id: WorkflowId): int {
    CommitsTo(Execute(schedule + later).log, id) - CommitsTo(Execute(schedule).log, id)
  }

  /** That is how far its version has moved. */
  lemma VersionsTellOthers(schedule: seq<Tick>, later: seq<Tick>, id: WorkflowId)
    requires id in Execute(schedule).db.rows
    ensures var early, late := Execute(schedule), Execute(schedule + later);
            && id in late.db.rows
            && early.db.rows[id].version == early.db.rows[id].data.version <= I64_MAX
            && late.db.rows[id].version - early.db.rows[id].version == Others(schedule, later, id) >= 0
  {
    Linearizable(schedule);
    Linearizable(schedule + later);
    var early, late := Execute(schedule), Execute(schedule + later);
    CommitsAreKept(schedule, later);
    CommitsGrow(early.log, late.log, id);
    assert WasStored(early.log, id, early.db.rows[id].data);
    VersionIdentifiesState(late.log, early.log, id, early.db.rows[id].data);
    VersionsCountCommits(early.log, id);
    VersionsCountCommits(late.log, id);
    ReplayColumns(early.log);
  }

  /** The stored execution would accept the request. */
  ghost predicate Acceptable(db: Db, id: WorkflowId, q: Request) {
    id in db.rows && WellFormed(db.rows[id].data) && Apply(db.rows[id].data, q.expected, q.action).Ok?
  }

  /** How a call ends whose request would be accepted by what it read, when `others` requests have been committed
      to its workflow since: it saves exactly if there are none and the version can be counted further. Otherwise
      it changes nothing, and is told how far the others have gone. */
  ghost predicate SavedUnlessOvertaken(read: Db, late: Db, id: WorkflowId, q: Request, others: int) {
    && Acceptable(read, id, q) && others >= 0
    && var next := Apply(read.rows[id].data, q.expected, q.action).value.0;
       var (db, r) := ReadMutateSave(read, late, id, q);
       && (r.Ok? <==> others == 0 && q.expected < I64_MAX)
       && (r.Ok? ==> r.value == next && id in db.rows && db.rows[id] == Row(q.expected + 1, next))
       && (r.Err? ==> db == late)
       && (q.expected < I64_MAX && others > 0 ==>
            r == Err(NotSaved(SaveConflict(q.expected, q.expected + others))))
  }

  lemma SavedUnlessMoved(read: Db, late: Db, id: WorkflowId, q: Request, others: nat)
    requires Acceptable(read, id, q) && id in late.rows
    requires read.rows[id].version == read.rows[id].data.version <= I64_MAX
    requires others == late.rows[id].version - read.rows[id].version
    ensures SavedUnlessOvertaken(read, late, id, q, others)
  {
    WorkflowHistory.AcceptedIff(read.rows[id].data, q.expected, q.action);
    NextIsCounted(read.rows[id].data, q);
  }

  lemma SavedIffUndisturbed(schedule: seq<Tick>, later: seq<Tick>, id: WorkflowId, q: Request)
    requires Acceptable(Execute(schedule).db, id, q)
    ensures SavedUnlessOvertaken(Execute(schedule).db, Execute(schedule + later).db, id, q, Others(schedule, later, id))
  {
    VersionsTellOthers(schedule, later, id);
    SavedUnlessMoved(Execute(schedule).db, Execute(schedule + later).db, id, q, Others(schedule, later, id));
  }
}
