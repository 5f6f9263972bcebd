/** The versioned workflow state machine: what one start, completion, failure or approval does to an
    execution (as functions on values) and the class that does it in place. */
module WorkflowExecution {
  import opened Prelude
  import opened WorkflowDefinition

  datatype NodeStatus =
    | Pending
    | Ready
    | Running
    | WaitingApproval
    | Succeeded
    | Failed
    | Skipped
  {
    predicate Satisfies(continueOnFailure: bool) {
      Succeeded? || Skipped? || (continueOnFailure && Failed?)
    }

    /** Work that can still move the workflow on. */
    predicate Active() {
      Ready? || Running? || WaitingApproval?
    }

    /** Statuses no transition ever leaves. */
    predicate Settled() {
      Succeeded? || Failed? || Skipped?
    }
  }

  datatype WorkflowStatus = InProgress | Completed | Aborted | Cancelled

  datatype NodeRun = NodeRun(
    status: NodeStatus,
    attempts: nat,
    owner: Option<string>,
    lastError: Option<string>
  )

  const FRESH_NODE := NodeRun(Pending, 0, None, None)

  type Nodes = map<string, NodeRun>

  datatype EventKind =
    | WorkflowCreated
    | NodeStarted
    | NodeCompleted
    | NodeRetryScheduled
    | NodeFailed
    | FallbackActivated
    | ApprovalGranted
    | ApprovalRejected
    | WorkflowCompleted
    | WorkflowFailed

  datatype Event = Event(kind: EventKind, version: nat, node: string)

  datatype WorkflowError =
    | VersionConflict(expected: nat, actual: nat)
    | WorkflowNotRunning
    | NodeNotFound(id: string)
    | WrongNodeStatus(id: string)
    | NotAnApproval(id: string)

  datatype Execution = Execution(
    def: Definition,
    version: nat,
    status: WorkflowStatus,
    nodes: Nodes
  )

  datatype Action =
    | Start(node: string, owner: string)
    | Complete(node: string)
    | Fail(node: string, error: string)
    | Decide(node: string, approved: bool)

  type Outcome = Result<(Execution, seq<Event>), WorkflowError>

  function FallbackOf(g: Graph, id: string): Option<string>
    requires id in g
  {
    g[id].fallback
  }

  ghost predicate FallbacksResolve(g: Graph) {
    forall id {:trigger FallbackOf(g, id)} ::
      id in g && FallbackOf(g, id).Some? ==> FallbackOf(g, id).value in g
  }

  /** The node table of an execution lists exactly the nodes of its definition. (Acyclicity, the
      rest of validation, is not needed to carry out a transition.) */
  ghost predicate WellFormed(e: Execution) {
    && UniqueIds(e.def.nodes)
    && FallbacksResolve(Table(e.def.nodes))
    && e.nodes.Keys == Table(e.def.nodes).Keys
  }

  // ----- Readiness -------------------------------------------------------------------------------

  predicate DependenciesSatisfied(g: Graph, nodes: Nodes, id: string)
    requires id in g
  {
    forall d <- g[id].dependencies ::
      d in g && d in nodes && nodes[d].status.Satisfies(g[d].continueOnFailure)
  }

  function Promoted(n: NodeDef): NodeStatus {
    if n.kind == Approval then WaitingApproval else Ready
  }

  function RefreshNode(g: Graph, nodes: Nodes, id: string): NodeRun
    requires id in g && id in nodes
  {
    if nodes[id].status == Pending && DependenciesSatisfied(g, nodes, id)
    then nodes[id].(status := Promoted(g[id]))
    else nodes[id]
  }

  /** All pending nodes whose dependencies are satisfied become ready, or wait for their approval,
      at the same time. */
  function Refresh(g: Graph, nodes: Nodes): Nodes
    requires nodes.Keys == g.Keys
  {
    map id <- nodes :: RefreshNode(g, nodes, id)
  }

  predicate NodeDone(g: Graph, nodes: Nodes, id: string)
    requires id in g && id in nodes
  {
    nodes[id].status.Satisfies(g[id].continueOnFailure)
  }

  predicate SuccessfullyComplete(g: Graph, nodes: Nodes)
    requires nodes.Keys == g.Keys
  {
    forall id {:trigger NodeDone(g, nodes, id)} :: id in g ==> NodeDone(g, nodes, id)
  }

  predicate IsActive(nodes: Nodes, id: string)
    requires id in nodes
  {
    nodes[id].status.Active()
  }

  predicate HasActive(nodes: Nodes) {
    exists id {:trigger IsActive(nodes, id)} :: id in nodes && IsActive(nodes, id)
  }

  function Initial(def: Definition): (e: Execution)
    requires UniqueIds(def.nodes) && FallbacksResolve(Table(def.nodes))
    ensures WellFormed(e)
  {
    var g := Table(def.nodes);
    Execution(def, 0, InProgress, Refresh(g, map id <- g :: FRESH_NODE))
  }

  // ----- Transitions -------------------------------------------------------------------------------

  function Bump(version: nat): nat {
    SatAdd(version, 1, U64_MAX)
  }

  function StartNode(e: Execution, id: string, owner: string): (r: Outcome)
    requires WellFormed(e)
    ensures r.Ok? ==> WellFormed(r.value.0) && r.value.0.def == e.def
  {
    if id !in e.nodes then Err(NodeNotFound(id))
    else
      var s := e.nodes[id];
      if s.status != Ready then Err(WrongNodeStatus(id))
      else
        var s' := NodeRun(Running, SatAdd(s.attempts, 1, U32_MAX), Some(owner), None);
        var v := Bump(e.version);
        Ok((e.(version := v, nodes := e.nodes[id := s']), [Event(NodeStarted, v, id)]))
  }

  function CompleteNode(e: Execution, id: string): (r: Outcome)
    requires WellFormed(e)
    ensures r.Ok? ==> WellFormed(r.value.0) && r.value.0.def == e.def
  {
    if id !in e.nodes then Err(NodeNotFound(id))
    else
      var s := e.nodes[id];
      if s.status != Running then Err(WrongNodeStatus(id))
      else
        var g := Table(e.def.nodes);
        var v := Bump(e.version);
        var nodes := Refresh(g, e.nodes[id := s.(status := Succeeded, owner := None)]);
        if SuccessfullyComplete(g, nodes) then
          Ok((Execution(e.def, v, Completed, nodes),
              [Event(NodeCompleted, v, id), Event(WorkflowCompleted, v, id)]))
        else
          Ok((e.(version := v, nodes := nodes), [Event(NodeCompleted, v, id)]))
  }

  /** A used-up node names its fallback, which becomes ready if it was still pending. */
  function ActivateFallback(nodes: Nodes, fallback: Option<string>): (r: Nodes)
    requires fallback.Some? ==> fallback.value in nodes
    ensures r.Keys == nodes.Keys
  {
    if fallback.Some? && nodes[fallback.value].status == Pending
    then nodes[fallback.value := nodes[fallback.value].(status := Ready)]
    else nodes
  }

  /** The node table once `id` has failed for good and its fallback was woken. */
  function NodesWithout(g: Graph, nodes: Nodes, id: string, error: string): (r: Nodes)
    requires nodes.Keys == g.Keys && id in g && FallbacksResolve(g)
    ensures r.Keys == nodes.Keys
  {
    var failed := nodes[id].(status := Failed, owner := None, lastError := Some(error));
    ActivateFallback(nodes[id := failed], FallbackOf(g, id))
  }

  function FailureEvents(v: nat, id: string, fallback: Option<string>): seq<Event> {
    if fallback.Some? then [Event(NodeFailed, v, id), Event(FallbackActivated, v, fallback.value)]
    else [Event(NodeFailed, v, id)]
  }

  /** The last allowed attempt failed: the node is used up. */
  function UseUpNode(e: Execution, id: string, error: string): (r: (Execution, seq<Event>))
    requires WellFormed(e) && id in e.nodes
    ensures WellFormed(r.0) && r.0.def == e.def
  {
    var g := Table(e.def.nodes);
    var v := Bump(e.version);
    var nodes := Refresh(g, NodesWithout(g, e.nodes, id, error));
    var events := FailureEvents(v, id, FallbackOf(g, id));
    if !g[id].continueOnFailure && !HasActive(nodes)
    then (Execution(e.def, v, Aborted, nodes), events + [Event(WorkflowFailed, v, id)])
    else (e.(version := v, nodes := nodes), events)
  }

  function FailNode(e: Execution, id: string, error: string): (r: Outcome)
    requires WellFormed(e)
    ensures r.Ok? ==> WellFormed(r.value.0) && r.value.0.def == e.def
  {
    if id !in e.nodes then Err(NodeNotFound(id))
    else
      var s := e.nodes[id];
      if s.status != Running then Err(WrongNodeStatus(id))
      else if s.attempts < Table(e.def.nodes)[id].maxAttempts then
        var v := Bump(e.version);
        var s' := s.(status := Ready, owner := None, lastError := Some(error));
        Ok((e.(version := v, nodes := e.nodes[id := s']), [Event(NodeRetryScheduled, v, id)]))
      else
        Ok(UseUpNode(e, id, error))
  }

  function DecideApproval(e: Execution, id: string, approved: bool): (r: Outcome)
    requires WellFormed(e)
    ensures r.Ok? ==> WellFormed(r.value.0) && r.value.0.def == e.def
  {
    if id !in e.nodes then Err(NodeNotFound(id))
    else
      var g := Table(e.def.nodes);
      if g[id].kind != Approval then Err(NotAnApproval(id))
      else
        var s := e.nodes[id];
        if s.status != WaitingApproval then Err(WrongNodeStatus(id))
        else
          var v := Bump(e.version);
          var decided := s.(status := if approved then Succeeded else Failed);
          var nodes := Refresh(g, e.nodes[id := decided]);
          if !approved then
            Ok((Execution(e.def, v, Aborted, nodes),
                [Event(ApprovalRejected, v, id), Event(WorkflowFailed, v, id)]))
          else if SuccessfullyComplete(g, nodes) then
            Ok((Execution(e.def, v, Completed, nodes),
                [Event(ApprovalGranted, v, id), Event(WorkflowCompleted, v, id)]))
          else
            Ok((e.(version := v, nodes := nodes), [Event(ApprovalGranted, v, id)]))
  }

  /** One request against an execution: the version and the workflow status are checked first. */
  function Apply(e: Execution, expected: nat, a: Action): (r: Outcome)
    requires WellFormed(e)
    ensures r.Ok? ==> WellFormed(r.value.0) && r.value.0.def == e.def
  {
    if e.version != expected then Err(VersionConflict(expected, e.version))
    else if e.status != InProgress then Err(WorkflowNotRunning)
    else
      match a
      case Start(id, owner) => StartNode(e, id, owner)
      case Complete(id) => CompleteNode(e, id)
      case Fail(id, error) => FailNode(e, id, error)
      case Decide(id, approved) => DecideApproval(e, id, approved)
  }

  // ----- The object --------------------------------------------------------------------------------

  /** What a method call did, in terms of the transition function: on an error nothing changed. */
  ghost predicate Performed(before: Execution, expected: nat, a: Action, after: Execution,
                            r: Result<seq<Event>, WorkflowError>)
    requires WellFormed(before)
  {
    match Apply(before, expected, a)
    case Ok((e, events)) => after == e && r == Ok(events)
    case Err(error) => after == before && r == Err(error)
  }

  /** Promoting a pending node satisfies nobody's dependencies, so the order of promotion within a
      pass does not matter. */
  lemma PromotionSatisfiesNobody(g: Graph, before: Nodes, after: Nodes, id: string)
    requires before.Keys == after.Keys == g.Keys && id in g
    requires forall x <- g.Keys ::
               before[x].status == after[x].status ||
               (before[x].status == Pending && after[x].status.Active())
    ensures DependenciesSatisfied(g, before, id) == DependenciesSatisfied(g, after, id)
  {
    forall d <- g[id].dependencies | d in g
      ensures before[d].status.Satisfies(g[d].continueOnFailure)
           == after[d].status.Satisfies(g[d].continueOnFailure)
    {
    }
  }

  /** The node table in the middle of a refresh pass: the first `i` nodes are refreshed. */
  ghost predicate RefreshedUpTo(defs: seq<NodeDef>, i: nat, before: Nodes, now: Nodes)
    requires UniqueIds(defs) && i <= |defs|
  {
    && before.Keys == now.Keys == Table(defs).Keys
    && (forall k {:trigger RefreshNode(Table(defs), before, defs[k].id)} ::
          0 <= k < i && defs[k].id in now ==>
          now[defs[k].id] == RefreshNode(Table(defs), before, defs[k].id))
    && (forall k :: i <= k < |defs| && defs[k].id in now ==> now[defs[k].id] == before[defs[k].id])
  }

  lemma TableAt(defs: seq<NodeDef>, k: nat)
    requires UniqueIds(defs) && k < |defs|
    ensures defs[k].id in Table(defs) && Table(defs)[defs[k].id] == defs[k]
  {
    assert defs[k] in defs;
  }

  /** During the pass a node differs from its original only by having been promoted. */
  lemma OnlyPromotions(defs: seq<NodeDef>, i: nat, before: Nodes, now: Nodes, x: string)
    requires UniqueIds(defs) && i <= |defs| && RefreshedUpTo(defs, i, before, now)
    requires x in now
    ensures before[x].status == now[x].status ||
            (before[x].status == Pending && now[x].status.Active())
  {
    var k :| 0 <= k < |defs| && defs[k].id == x;
    if k < i {
      assert now[x] == RefreshNode(Table(defs), before, defs[k].id);
    }
  }

  /** Refreshing the next node on the current table gives what the original table asks for. */
  lemma RefreshSame(defs: seq<NodeDef>, i: nat, before: Nodes, now: Nodes)
    requires UniqueIds(defs) && i < |defs| && RefreshedUpTo(defs, i, before, now)
    ensures defs[i].id in Table(defs) && Table(defs)[defs[i].id] == defs[i]
    ensures RefreshNode(Table(defs), now, defs[i].id) == RefreshNode(Table(defs), before, defs[i].id)
  {
    var g := Table(defs);
    TableAt(defs, i);
    forall x <- g.Keys
      ensures before[x].status == now[x].status ||
              (before[x].status == Pending && now[x].status.Active())
    {
      OnlyPromotions(defs, i, before, now, x);
    }
    PromotionSatisfiesNobody(g, before, now, defs[i].id);
    assert now[defs[i].id] == before[defs[i].id];
  }

  lemma RefreshStep(defs: seq<NodeDef>, i: nat, before: Nodes, now: Nodes, next: NodeRun)
    requires UniqueIds(defs) && i < |defs| && RefreshedUpTo(defs, i, before, now)
    requires defs[i].id in Table(defs)
    requires next == RefreshNode(Table(defs), before, defs[i].id)
    ensures RefreshedUpTo(defs, i + 1, before, now[defs[i].id := next])
  {
    var id := defs[i].id;
    forall k | 0 <= k < i + 1 && defs[k].id in now
      ensures now[id := next][defs[k].id] == RefreshNode(Table(defs), before, defs[k].id)
    {
      if k < i { assert defs[k].id != id; }
    }
    forall k | i + 1 <= k < |defs| && defs[k].id in now ensures now[id := next][defs[k].id] == before[defs[k].id] {
      assert defs[k].id != id;
    }
  }

  lemma RefreshDone(defs: seq<NodeDef>, before: Nodes, now: Nodes)
    requires UniqueIds(defs) && RefreshedUpTo(defs, |defs|, before, now)
    ensures now == Refresh(Table(defs), before)
  {
    forall x <- now.Keys ensures now[x] == RefreshNode(Table(defs), before, x) {
      var k :| 0 <= k < |defs| && defs[k].id == x;
    }
  }

  lemma ValidMeansResolved(def: Definition)
    requires ValidDefinition(def)
    ensures FallbacksResolve(Table(def.nodes)) && Closed(Table(def.nodes))
    ensures forall id <- Table(def.nodes).Keys :: ValidNode(Table(def.nodes)[id])
  {
    var g := Table(def.nodes);
    forall id | id in g ensures FallbackOf(g, id).Some? ==> FallbackOf(g, id).value in g {
      var n :| n in def.nodes && n.id == id;
      assert LinksResolve(n, IdsOf(def.nodes));
    }
    forall x, d | x in g && d in g[x].dependencies ensures d in g {
      var n :| n in def.nodes && n.id == x;
      assert LinksResolve(n, IdsOf(def.nodes));
    }
  }

  /** What using up a node comes to, put together from the parts of the new execution. */
  lemma UsedUpIs(e: Execution, id: string, error: string, nodes: Nodes, stuck: bool,
                 after: Execution, events: seq<Event>)
    requires WellFormed(e) && id in e.nodes
    requires nodes == Refresh(Table(e.def.nodes), NodesWithout(Table(e.def.nodes), e.nodes, id, error))
    requires stuck == (!Table(e.def.nodes)[id].continueOnFailure && !HasActive(nodes))
    requires after == Execution(e.def, Bump(e.version), if stuck then Aborted else e.status, nodes)
    requires var failure := FailureEvents(Bump(e.version), id, FallbackOf(Table(e.def.nodes), id));
             events == if stuck then failure + [Event(WorkflowFailed, Bump(e.version), id)] else failure
    ensures (after, events) == UseUpNode(e, id, error)
  {
  }

  class WorkflowExecution {
    const def: Definition
    var version: nat
    var status: WorkflowStatus
    var nodes: Nodes

    ghost function Value(): Execution
      reads this
    {
      Execution(def, version, status, nodes)
    }

    ghost predicate Valid()
      reads this
    {
      WellFormed(Value())
    }

    constructor (def: Definition)
      requires UniqueIds(def.nodes) && FallbacksResolve(Table(def.nodes))
      ensures Valid() && Value() == Initial(def)
    {
      this.def := def;
      version := 0;
      status := InProgress;
      nodes := map n <- def.nodes :: n.id := FRESH_NODE;
      new;
      assert nodes == map id <- Table(def.nodes) :: FRESH_NODE;
      RefreshReadyNodes();
    }

    /** An execution as it was stored. */
    constructor Load(e: Execution)
      requires WellFormed(e)
      ensures Valid() && Value() == e
    {
      def, version, status, nodes := e.def, e.version, e.status, e.nodes;
    }

    /** One pass over the definition, in definition order, updating the node table as it goes. It
        reaches the simultaneous refresh: later promotions never enable earlier nodes. */
    method RefreshReadyNodes()
      requires Valid()
      modifies this`nodes
      ensures Valid()
      ensures nodes == Refresh(Table(def.nodes), old(nodes))
    {
      ghost var before := nodes;
      for i := 0 to |def.nodes|
        invariant Valid()
        invariant RefreshedUpTo(def.nodes, i, before, nodes)
      {
        TableAt(def.nodes, i);
        RefreshSame(def.nodes, i, before, nodes);
        RefreshStep(def.nodes, i, before, nodes, RefreshNode(Table(def.nodes), nodes, def.nodes[i].id));
        RefreshOne(def.nodes[i]);
      }
      RefreshDone(def.nodes, before, nodes);
    }

    method RefreshOne(n: NodeDef)
      requires Valid() && n.id in nodes && Table(def.nodes)[n.id] == n
      modifies this`nodes
      ensures Valid()
      ensures nodes == old(nodes)[n.id := RefreshNode(Table(def.nodes), old(nodes), n.id)]
    {
      if nodes[n.id].status == Pending {
        if DependenciesSatisfied(Table(def.nodes), nodes, n.id) {
          nodes := nodes[n.id := nodes[n.id].(status := Promoted(n))];
        }
      }
    }

    /** One node takes its new state, the version moves on, and the ready set is refreshed. */
    method Settle(id: string, run: NodeRun)
      requires Valid() && id in nodes
      modifies this`nodes, this`version
      ensures Valid() && version == Bump(old(version))
      ensures nodes == Refresh(Table(def.nodes), old(nodes)[id := run])
    {
      nodes := nodes[id := run];
      version := Bump(version);
      RefreshReadyNodes();
    }

    method IsSuccessfullyComplete() returns (complete: bool)
      requires Valid()
      ensures complete == SuccessfullyComplete(Table(def.nodes), nodes)
    {
      for i := 0 to |def.nodes|
        invariant forall k :: 0 <= k < i ==>
                    def.nodes[k].id in nodes &&
                    nodes[def.nodes[k].id].status.Satisfies(def.nodes[k].continueOnFailure)
      {
        var n := def.nodes[i];
        TableAt(def.nodes, i);
        assert NodeDone(Table(def.nodes), nodes, n.id) == nodes[n.id].status.Satisfies(n.continueOnFailure);
        if !nodes[n.id].status.Satisfies(n.continueOnFailure) {
          return false;
        }
      }
      forall id | id in nodes ensures NodeDone(Table(def.nodes), nodes, id) {
        var k :| 0 <= k < |def.nodes| && def.nodes[k].id == id;
        TableAt(def.nodes, k);
      }
      return true;
    }

    method EnsureRunning(expected: nat) returns (r: Result<(), WorkflowError>)
      ensures r == if version != expected then Err(VersionConflict(expected, version))
                   else if status != InProgress then Err(WorkflowNotRunning)
                   else Ok(())
    {
      if version != expected { return Err(VersionConflict(expected, version)); }
      if status != InProgress { return Err(WorkflowNotRunning); }
      return Ok(());
    }

    method StartNode(expected: nat, id: string, owner: string)
      returns (r: Result<seq<Event>, WorkflowError>)
      requires Valid()
      modifies this
      ensures Valid()
      ensures Performed(old(Value()), expected, Start(id, owner), Value(), r)
    {
      var running := EnsureRunning(expected);
      if running.Err? { return Err(running.error); }
      if id !in nodes { return Err(NodeNotFound(id)); }
      var s := nodes[id];
      if s.status != Ready { return Err(WrongNodeStatus(id)); }
      s := s.(status := Running);
      s := s.(attempts := SatAdd(s.attempts, 1, U32_MAX));
      s := s.(owner := Some(owner));
      s := s.(lastError := None);
      nodes := nodes[id := s];
      version := Bump(version);
      return Ok([Event(NodeStarted, version, id)]);
    }

    method CompleteNode(expected: nat, id: string)
      returns (r: Result<seq<Event>, WorkflowError>)
      requires Valid()
      modifies this
      ensures Valid()
      ensures Performed(old(Value()), expected, Complete(id), Value(), r)
    {
      var running := EnsureRunning(expected);
      if running.Err? { return Err(running.error); }
      if id !in nodes { return Err(NodeNotFound(id)); }
      var s := nodes[id];
      if s.status != Running { return Err(WrongNodeStatus(id)); }
      Settle(id, s.(status := Succeeded, owner := None));
      var events := [Event(NodeCompleted, version, id)];
      var complete := IsSuccessfullyComplete();
      if complete {
        status := Completed;
        events := events + [Event(WorkflowCompleted, version, id)];
        assert events == [Event(NodeCompleted, version, id), Event(WorkflowCompleted, version, id)];
      }
      return Ok(events);
    }

    method FailNode(expected: nat, id: string, error: string)
      returns (r: Result<seq<Event>, WorkflowError>)
      requires Valid()
      modifies this
      ensures Valid()
      ensures Performed(old(Value()), expected, Fail(id, error), Value(), r)
    {
      var running := EnsureRunning(expected);
      if running.Err? { return Err(running.error); }
      if id !in nodes { return Err(NodeNotFound(id)); }
      var s := nodes[id];
      if s.status != Running { return Err(WrongNodeStatus(id)); }
      var events;
      if s.attempts < Table(def.nodes)[id].maxAttempts {
        events := ScheduleRetry(id, error);
      } else {
        events := UseUp(id, error);
      }
      return Ok(events);
    }

    method ScheduleRetry(id: string, error: string) returns (events: seq<Event>)
      requires Valid() && id in nodes
      modifies this`nodes, this`version
      ensures Valid() && version == Bump(old(version))
      ensures nodes == old(nodes)[id := old(nodes)[id].(status := Ready, owner := None, lastError := Some(error))]
      ensures events == [Event(NodeRetryScheduled, version, id)]
    {
      nodes := nodes[id := nodes[id].(status := Ready, owner := None, lastError := Some(error))];
      version := Bump(version);
      return [Event(NodeRetryScheduled, version, id)];
    }

    method WakeFallback(fallback: string)
      requires Valid() && fallback in nodes
      modifies this`nodes
      ensures Valid() && nodes == ActivateFallback(old(nodes), Some(fallback))
    {
      if nodes[fallback].status == Pending {
        nodes := nodes[fallback := nodes[fallback].(status := Ready)];
      }
    }

    /** The node fails for good, its fallback is woken, and the ready set is refreshed. */
    method FailForGood(id: string, error: string) returns (events: seq<Event>)
      requires Valid() && id in nodes
      modifies this`nodes, this`version
      ensures Valid() && version == Bump(old(version))
      ensures nodes == Refresh(Table(def.nodes), NodesWithout(Table(def.nodes), old(nodes), id, error))
      ensures events == FailureEvents(version, id, FallbackOf(Table(def.nodes), id))
    {
      var fallback := FallbackOf(Table(def.nodes), id);
      nodes := nodes[id := nodes[id].(status := Failed, owner := None, lastError := Some(error))];
      version := Bump(version);
      events := [Event(NodeFailed, version, id)];
      if fallback.Some? {
        WakeFallback(fallback.value);
        events := [Event(NodeFailed, version, id), Event(FallbackActivated, version, fallback.value)];
      }
      RefreshReadyNodes();
    }

    method UseUp(id: string, error: string) returns (events: seq<Event>)
      requires Valid() && id in nodes
      modifies this
      ensures Valid()
      ensures Value() == UseUpNode(old(Value()), id, error).0
      ensures events == UseUpNode(old(Value()), id, error).1
    {
      ghost var e := Value();
      events := FailForGood(id, error);
      var stuck := AbortIfStuck(id);
      if stuck {
        events := events + [Event(WorkflowFailed, version, id)];
      }
      UsedUpIs(e, id, error, nodes, stuck, Value(), events);
    }

    /** The workflow fails if nothing is left that could recover it from the failure of `id`. */
    method AbortIfStuck(id: string) returns (stuck: bool)
      requires Valid() && id in nodes
      modifies this`status
      ensures stuck == (!Table(def.nodes)[id].continueOnFailure && !HasActive(nodes))
      ensures status == if stuck then Aborted else old(status)
    {
      stuck := !Table(def.nodes)[id].continueOnFailure && !HasActive(nodes);
      if stuck {
        status := Aborted;
      }
    }

    method DecideApproval(expected: nat, id: string, approved: bool)
      returns (r: Result<seq<Event>, WorkflowError>)
      requires Valid()
      modifies this
      ensures Valid()
      ensures Performed(old(Value()), expected, Decide(id, approved), Value(), r)
    {
      var running := EnsureRunning(expected);
      if running.Err? { return Err(running.error); }
      if id !in nodes { return Err(NodeNotFound(id)); }
      if Table(def.nodes)[id].kind != Approval { return Err(NotAnApproval(id)); }
      var s := nodes[id];
      if s.status != WaitingApproval { return Err(WrongNodeStatus(id)); }
      Settle(id, s.(status := if approved then Succeeded else Failed));
      if !approved {
        status := Aborted;
        return Ok([Event(ApprovalRejected, version, id), Event(WorkflowFailed, version, id)]);
      }
      var complete := IsSuccessfullyComplete();
      if complete {
        status := Completed;
        return Ok([Event(ApprovalGranted, version, id), Event(WorkflowCompleted, version, id)]);
      }
      return Ok([Event(ApprovalGranted, version, id)]);
    }
  }

  /** A new execution of a definition, if the definition is valid. */
  method NewExecution(def: Definition) returns (r: Result<WorkflowExecution, ValidationError>)
    ensures r.Ok? <==> ValidDefinition(def)
    ensures r.Ok? ==> fresh(r.value) && r.value.Valid() && r.value.Value() == Initial(def)
    ensures r.Err? ==> ErrorHolds(def, r.error)
  {
    var checked := Validate(def);
    if checked.Err? { return Err(checked.error); }
    ValidMeansResolved(def);
    var execution := new WorkflowExecution(def);
    return Ok(execution);
  }
}
