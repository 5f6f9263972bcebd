/** A workflow as told by its accepted requests alone: how often each node was started, what became of it and of
    the workflow, which requests are accepted, and that every valid workflow can be completed. */
module WorkflowHistory {
  import opened Prelude
  import opened WorkflowDefinition
  import opened WorkflowExecution
  import opened WorkflowSafety

  // ----- The story of a run ---------------------------------------------------------------------------------

  /** The accepted requests of a run, in order. */
  function Log(e: Execution, requests: seq<Request>): seq<Action>
    requires WellFormed(e)
  {
    if requests == [] then []
    else
      var init, q := requests[..|requests| - 1], requests[|requests| - 1];
      Log(e, init) + if Apply(Run(e, init), q.expected, q.action).Ok? then [q.action] else []
  }

  function Starts(log: seq<Action>, id: string): nat {
    if log == [] then 0
    else Starts(log[..|log| - 1], id) + if log[|log| - 1].Start? && log[|log| - 1].node == id then 1 else 0
  }

  function LastOn(log: seq<Action>, id: string): Option<Action> {
    if log == [] then None
    else if log[|log| - 1].node == id then Some(log[|log| - 1])
    else LastOn(log[..|log| - 1], id)
  }

  /** What the story says of one node. */
  predicate NodeTold(n: NodeDef, log: seq<Action>, s: NodeRun) {
    && s.attempts == Starts(log, n.id)
    && match LastOn(log, n.id)
       case None =>
         && s.status in {Pending, Ready, WaitingApproval} && s.owner == None && s.lastError == None
         && (s.status == WaitingApproval ==> n.kind == Approval)
       case Some(Start(_, owner)) => s.status == Running && s.owner == Some(owner) && s.lastError == None
       case Some(Complete(_)) => s.status == Succeeded && s.owner == None
       case Some(Fail(_, error)) =>
         && s.status == (if Starts(log, n.id) < n.maxAttempts then Ready else Failed)
         && s.owner == None && s.lastError == Some(error)
       case Some(Decide(_, approved)) => s.status == if approved then Succeeded else Failed
  }

  /** And of the workflow: only its last accepted request can have ended it. */
  predicate WorkflowTold(g: Graph, log: seq<Action>, e: Execution)
    requires e.nodes.Keys == g.Keys
  {
    e.status ==
    if log == [] then InProgress
    else
      match log[|log| - 1]
      case Start(_, _) => InProgress
      case Complete(_) => if SuccessfullyComplete(g, e.nodes) then Completed else InProgress
      case Fail(n, _) =>
        if && n in g && Starts(log, n) >= g[n].maxAttempts && !g[n].continueOnFailure && !HasActive(e.nodes)
        then Aborted else InProgress
      case Decide(_, approved) =>
        if !approved then Aborted
        else if SuccessfullyComplete(g, e.nodes) then Completed else InProgress
  }

  ghost predicate Told(log: seq<Action>, e: Execution) {
    && WellFormed(e)
    && (forall id {:trigger e.nodes[id]} :: id in e.nodes ==> NodeTold(Table(e.def.nodes)[id], log, e.nodes[id]))
    && WorkflowTold(Table(e.def.nodes), log, e)
  }

  lemma StorySnoc(log: seq<Action>, a: Action, id: string)
    ensures Starts(log + [a], id) == Starts(log, id) + if a.Start? && a.node == id then 1 else 0
    ensures LastOn(log + [a], id) == if a.node == id then Some(a) else LastOn(log, id)
  {
    assert (log + [a])[..|log|] == log;
  }

  // ----- One request ------------------------------------------------------------------------------------------

  /** A node that the request is not about stays as it is, or is promoted. */
  predicate Bystander(n: NodeDef, before: NodeRun, after: NodeRun) {
    || after == before
    || (&& before.status == Pending && after.status in {Ready, WaitingApproval}
        && after == before.(status := after.status) && (after.status == WaitingApproval ==> n.kind == Approval))
  }

  /** What becomes of the node that the request is about. */
  predicate Hero(n: NodeDef, before: NodeRun, a: Action, after: NodeRun) {
    match a
    case Start(_, owner) => before.status == Ready && after == NodeRun(Running, before.attempts + 1, Some(owner), None)
    case Complete(_) => before.status == Running && after == before.(status := Succeeded, owner := None)
    case Fail(_, error) =>
      && before.status == Running && after.attempts == before.attempts && after.owner == None
      && after.lastError == Some(error)
      && after.status == if before.attempts < n.maxAttempts then Ready else Failed
    case Decide(_, approved) =>
      && n.kind == Approval && before.status == WaitingApproval
      && after == before.(status := if approved then Succeeded else Failed)
  }

  /** Why a pending node was promoted: it waits for its approval once its dependencies are satisfied; anything else
      is ready, and an approval node only if the hero used all its attempts and names it as its fallback. */
  predicate Due(g: Graph, b: Nodes, hero: string, x: string)
    requires x in g && x in b
  {
    if b[x].status == WaitingApproval then DependenciesSatisfied(g, b, x)
    else b[x].status == Ready && (g[x].kind == Approval ==> UsedUpFallback(g, b, hero, x))
  }

  ghost predicate Moves(g: Graph, a: Nodes, b: Nodes, action: Action) {
    && a.Keys == b.Keys == g.Keys && action.node in g
    && Hero(g[action.node], a[action.node], action, b[action.node])
    && forall x {:trigger b[x]} :: x in g && x != action.node ==>
         Bystander(g[x], a[x], b[x]) && (a[x].status == Pending != b[x].status ==> Due(g, b, action.node, x))
  }

  lemma Refreshed(g: Graph, nodes: Nodes, x: string)
    requires nodes.Keys == g.Keys && x in g
    ensures Bystander(g[x], nodes[x], Refresh(g, nodes)[x])
    ensures nodes[x].status != Pending ==> Refresh(g, nodes)[x] == nodes[x]
    ensures nodes[x].status == Pending != Refresh(g, nodes)[x].status ==> Due(g, Refresh(g, nodes), "", x)
  {
    RefreshIsFixpoint(g, nodes);
    assert Refresh(g, nodes)[x] == RefreshNode(g, nodes, x);
  }

  /** One node settles, others are woken at most, and the ready set is refreshed. */
  lemma SettlingMoves(g: Graph, a: Nodes, b: Nodes, action: Action)
    requires a.Keys == b.Keys == g.Keys && action.node in g
    requires Hero(g[action.node], a[action.node], action, b[action.node]) && b[action.node].status != Pending
    requires forall x {:trigger b[x]} :: x in g && x != action.node ==>
      || b[x] == a[x]
      || (a[x].status == Pending && b[x] == a[x].(status := Ready) && UsedUpFallback(g, b, action.node, x))
    ensures Moves(g, a, Refresh(g, b), action)
  {
    var c := Refresh(g, b);
    Refreshed(g, b, action.node);
    forall x | x in g && x != action.node
      ensures Bystander(g[x], a[x], c[x]) && (a[x].status == Pending != c[x].status ==> Due(g, c, action.node, x))
    {
      Refreshed(g, b, x);
      assert b[x] == a[x] || (a[x].status == Pending && b[x] == a[x].(status := Ready));
    }
  }

  lemma OneSettles(g: Graph, nodes: Nodes, id: string, s: NodeRun, action: Action)
    requires nodes.Keys == g.Keys && id in g && action.node == id
    requires Hero(g[id], nodes[id], action, s) && s.status != Pending
    ensures Moves(g, nodes, Refresh(g, nodes[id := s]), action)
  {
    SettlingMoves(g, nodes, nodes[id := s], action);
  }

  lemma StartMoves(e: Execution, id: string, owner: string)
    requires Inv(e) && StartNode(e, id, owner).Ok?
    ensures Moves(Table(e.def.nodes), e.nodes, StartNode(e, id, owner).value.0.nodes, Start(id, owner))
  {
    NodeBounds(e, id);
  }

  lemma CompleteMoves(e: Execution, id: string)
    requires Inv(e) && CompleteNode(e, id).Ok?
    ensures Moves(Table(e.def.nodes), e.nodes, CompleteNode(e, id).value.0.nodes, Complete(id))
  {
    OneSettles(Table(e.def.nodes), e.nodes, id, e.nodes[id].(status := Succeeded, owner := None), Complete(id));
  }

  lemma NoMoreAttempts(e: Execution, id: string)
    requires Inv(e) && id in e.nodes
    ensures id in Table(e.def.nodes) && e.nodes[id].attempts <= Table(e.def.nodes)[id].maxAttempts
  {
    assert NodeInv(Table(e.def.nodes), e.nodes, id);
  }

  lemma FailMoves(e: Execution, id: string, error: string)
    requires Inv(e) && FailNode(e, id, error).Ok?
    ensures Moves(Table(e.def.nodes), e.nodes, FailNode(e, id, error).value.0.nodes, Fail(id, error))
  {
    var g := Table(e.def.nodes);
    NoMoreAttempts(e, id);
    if e.nodes[id].attempts >= g[id].maxAttempts {
      UsedUpMoves(g, e.nodes, id, error);
    }
  }

  lemma UsedUpMoves(g: Graph, nodes: Nodes, id: string, error: string)
    requires nodes.Keys == g.Keys && id in g && FallbacksResolve(g)
    requires nodes[id].status == Running && nodes[id].attempts == g[id].maxAttempts
    ensures Moves(g, nodes, Refresh(g, NodesWithout(g, nodes, id, error)), Fail(id, error))
  {
    SettlingMoves(g, nodes, NodesWithout(g, nodes, id, error), Fail(id, error));
  }

  lemma DecideMoves(e: Execution, id: string, approved: bool)
    requires Inv(e) && DecideApproval(e, id, approved).Ok?
    ensures Moves(Table(e.def.nodes), e.nodes, DecideApproval(e, id, approved).value.0.nodes, Decide(id, approved))
  {
    OneSettles(Table(e.def.nodes), e.nodes, id,
               e.nodes[id].(status := if approved then Succeeded else Failed), Decide(id, approved));
  }

  lemma StepMoves(e: Execution, expected: nat, a: Action)
    requires Inv(e) && Apply(e, expected, a).Ok?
    ensures Moves(Table(e.def.nodes), e.nodes, Apply(e, expected, a).value.0.nodes, a)
  {
    match a
    case Start(id, owner) => StartMoves(e, id, owner);
    case Complete(id) => CompleteMoves(e, id);
    case Fail(id, error) => FailMoves(e, id, error);
    case Decide(id, approved) => DecideMoves(e, id, approved);
  }

  // ----- The story is true --------------------------------------------------------------------------------------

  lemma MoveIsTold(n: NodeDef, log: seq<Action>, a: Action, before: NodeRun, after: NodeRun)
    requires NodeTold(n, log, before)
    requires if a.node == n.id then Hero(n, before, a, after) else Bystander(n, before, after)
    ensures NodeTold(n, log + [a], after)
  {
    StorySnoc(log, a, n.id);
  }

  lemma NodesAreTold(e: Execution, log: seq<Action>, a: Action, nodes: Nodes)
    requires WellFormed(e) && Moves(Table(e.def.nodes), e.nodes, nodes, a)
    requires forall id {:trigger e.nodes[id]} :: id in e.nodes ==> NodeTold(Table(e.def.nodes)[id], log, e.nodes[id])
    ensures forall id {:trigger nodes[id]} :: id in nodes ==> NodeTold(Table(e.def.nodes)[id], log + [a], nodes[id])
  {
    forall id | id in nodes ensures NodeTold(Table(e.def.nodes)[id], log + [a], nodes[id]) {
      var n := Table(e.def.nodes)[id];
      assert n.id == id;
      MoveIsTold(n, log, a, e.nodes[id], nodes[id]);
    }
  }

  /** The workflow status that one request leaves behind. */
  lemma StepEnds(e: Execution, expected: nat, a: Action)
    requires Inv(e) && Apply(e, expected, a).Ok?
    ensures var g, e' := Table(e.def.nodes), Apply(e, expected, a).value.0;
            && e.status == InProgress && a.node in g
            && e'.status ==
                 match a
                 case Start(_, _) => InProgress
                 case Complete(_) => if SuccessfullyComplete(g, e'.nodes) then Completed else InProgress
                 case Fail(n, _) =>
                   if e.nodes[n].attempts >= g[n].maxAttempts && !g[n].continueOnFailure && !HasActive(e'.nodes)
                   then Aborted else InProgress
                 case Decide(_, approved) =>
                   if !approved then Aborted
                   else if SuccessfullyComplete(g, e'.nodes) then Completed else InProgress
  {
  }

  lemma StepIsTold(e: Execution, log: seq<Action>, expected: nat, a: Action)
    requires Inv(e) && Told(log, e) && Apply(e, expected, a).Ok?
    ensures Told(log + [a], Apply(e, expected, a).value.0)
  {
    StepMoves(e, expected, a);
    NodesAreTold(e, log, a, Apply(e, expected, a).value.0.nodes);
    StepEnds(e, expected, a);
    StorySnoc(log, a, a.node);
    assert NodeTold(Table(e.def.nodes)[a.node], log, e.nodes[a.node]);
  }

  lemma FreshIsTold(defs: seq<NodeDef>)
    requires UniqueIds(defs)
    ensures var nodes := Refresh(Table(defs), map id <- Table(defs) :: FRESH_NODE);
            forall id {:trigger nodes[id]} :: id in nodes ==> NodeTold(Table(defs)[id], [], nodes[id])
  {
    var g := Table(defs);
    var pristine: Nodes := map id <- g :: FRESH_NODE;
    forall id | id in pristine ensures NodeTold(g[id], [], Refresh(g, pristine)[id]) {
      Refreshed(g, pristine, id);
    }
  }

  lemma InitialIsTold(def: Definition)
    requires UniqueIds(def.nodes) && FallbacksResolve(Table(def.nodes))
    ensures Told([], Initial(def))
  {
    FreshIsTold(def.nodes);
  }

  /** An accepted request is one more line of the story, a refused one is none. */
  lemma RequestIsTold(e: Execution, log: seq<Action>, q: Request)
    requires Inv(e) && Told(log, e)
    ensures Told(log + if Apply(e, q.expected, q.action).Ok? then [q.action] else [], After(e, q))
  {
    if Apply(e, q.expected, q.action).Ok? {
      StepIsTold(e, log, q.expected, q.action);
    } else {
      assert log + [] == log;
    }
  }

  /** In every reachable state, the accepted requests alone tell of each node: its attempt count is the number of
      starts; it runs for the owner of the last start; a failure left it ready again while fewer starts than its
      attempts had been accepted, and failed for good otherwise; completed and granted nodes succeeded, rejected
      ones failed. And of the workflow: what it has come to, which only its last request can have brought about. */
  lemma {:induction false} HistoryTells(def: Definition, requests: seq<Request>)
    requires ValidDefinition(def)
    ensures FallbacksResolve(Table(def.nodes))
    ensures Told(Log(Initial(def), requests), Run(Initial(def), requests))
  {
    ValidMeansResolved(def);
    if requests == [] {
      InitialIsTold(def);
    } else {
      var init, q := requests[..|requests| - 1], requests[|requests| - 1];
      HistoryTells(def, init);
      InvAlways(def, init);
      RequestIsTold(Run(Initial(def), init), Log(Initial(def), init), q);
    }
  }

  /** A failure is final exactly when as many starts of the node have been accepted as it has attempts. */
  lemma FailureIsFinalIff(def: Definition, requests: seq<Request>, id: string, error: string, expected: nat)
    requires ValidDefinition(def)
    ensures FallbacksResolve(Table(def.nodes))
    ensures var e := Run(Initial(def), requests);
            var r := Apply(e, expected, Fail(id, error));
            r.Ok? ==>
              && id in Table(def.nodes) && id in r.value.0.nodes
              && r.value.0.nodes[id].status ==
                   if Starts(Log(Initial(def), requests), id) == Table(def.nodes)[id].maxAttempts
                   then Failed else Ready
  {
    HistoryTells(def, requests);
    InvAlways(def, requests);
    if Apply(Run(Initial(def), requests), expected, Fail(id, error)).Ok? {
      FailureIsFinalHere(Run(Initial(def), requests), Log(Initial(def), requests), id, error, expected);
    }
  }

  lemma FailureIsFinalHere(e: Execution, log: seq<Action>, id: string, error: string, expected: nat)
    requires Inv(e) && Told(log, e) && Apply(e, expected, Fail(id, error)).Ok?
    ensures var e' := Apply(e, expected, Fail(id, error)).value.0;
            && id in Table(e.def.nodes) && id in e'.nodes
            && e'.nodes[id].status == if Starts(log, id) == Table(e.def.nodes)[id].maxAttempts then Failed else Ready
  {
    StepMoves(e, expected, Fail(id, error));
    assert NodeInv(Table(e.def.nodes), e.nodes, id);
    assert NodeTold(Table(e.def.nodes)[id], log, e.nodes[id]);
  }

  // ----- Woken fallbacks -------------------------------------------------------------------------------------------

  /** The fallback of a used-up node does not stay pending. */
  ghost predicate FallbacksWoken(g: Graph, nodes: Nodes) {
    forall f, x :: UsedUpFallback(g, nodes, f, x) && x in nodes ==> nodes[x].status != Pending
  }

  lemma StepWakes(e: Execution, expected: nat, a: Action)
    requires Inv(e) && FallbacksWoken(Table(e.def.nodes), e.nodes) && Apply(e, expected, a).Ok?
    ensures FallbacksWoken(Table(e.def.nodes), Apply(e, expected, a).value.0.nodes)
  {
    var g, nodes := Table(e.def.nodes), Apply(e, expected, a).value.0.nodes;
    StepMoves(e, expected, a);
    forall f, x | UsedUpFallback(g, nodes, f, x) && x in nodes ensures nodes[x].status != Pending {
      if f == a.node {
        HeroWakes(e, expected, a, x);
      } else {
        assert nodes[f] == e.nodes[f];
        assert UsedUpFallback(g, e.nodes, f, x);
        assert x != a.node ==> Bystander(g[x], e.nodes[x], nodes[x]);
      }
    }
  }

  lemma HeroWakes(e: Execution, expected: nat, a: Action, x: string)
    requires Inv(e) && Apply(e, expected, a).Ok?
    requires UsedUpFallback(Table(e.def.nodes), Apply(e, expected, a).value.0.nodes, a.node, x)
    ensures x in e.nodes && Apply(e, expected, a).value.0.nodes[x].status != Pending
  {
    var g := Table(e.def.nodes);
    assert FallbackOf(g, a.node) == Some(x);
    StepMoves(e, expected, a);
    assert NodeInv(g, e.nodes, a.node);
    if a.Fail? {
      var woken := NodesWithout(g, e.nodes, a.node, a.error);
      assert woken[x].status != Pending;
      Refreshed(g, woken, x);
    } else {
      assert false;
    }
  }

  lemma {:induction false} FallbacksAreWoken(def: Definition, requests: seq<Request>)
    requires ValidDefinition(def)
    ensures FallbacksResolve(Table(def.nodes))
    ensures FallbacksWoken(Table(def.nodes), Run(Initial(def), requests).nodes)
  {
    InvInitial(def);
    if requests == [] {
      HistoryTells(def, []);
    } else {
      var init, q := requests[..|requests| - 1], requests[|requests| - 1];
      FallbacksAreWoken(def, init);
      InvAlways(def, init);
      if Apply(Run(Initial(def), init), q.expected, q.action).Ok? {
        StepWakes(Run(Initial(def), init), q.expected, q.action);
      }
    }
  }

  /** A node is pending exactly as long as it has an unsatisfied dependency and is not the fallback of a node that
      used all its attempts. */
  ghost predicate RightlyPending(g: Graph, nodes: Nodes, id: string)
    requires id in g && id in nodes
  {
    nodes[id].status == Pending <==>
    !DependenciesSatisfied(g, nodes, id) && !exists f :: UsedUpFallback(g, nodes, f, id)
  }

  lemma PendingIff(def: Definition, requests: seq<Request>, id: string)
    requires ValidDefinition(def) && id in Table(def.nodes)
    ensures FallbacksResolve(Table(def.nodes))
    ensures id in Run(Initial(def), requests).nodes
    ensures RightlyPending(Table(def.nodes), Run(Initial(def), requests).nodes, id)
  {
    DependencySafety(def, requests, id);
    FallbacksAreWoken(def, requests);
  }

  // ----- Approvals ---------------------------------------------------------------------------------------------------

  /** An approval node can be started only as the fallback of a node that used all its attempts, and a node waits
      for its approval only when its dependencies are satisfied. */
  ghost predicate RightlyOffered(g: Graph, nodes: Nodes, x: string)
    requires x in g && x in nodes
  {
    && (nodes[x].status == WaitingApproval ==> g[x].kind == Approval && DependenciesSatisfied(g, nodes, x))
    && (nodes[x].status in {Ready, Running} && g[x].kind == Approval ==> exists f :: UsedUpFallback(g, nodes, f, x))
  }

  ghost predicate AllOffered(g: Graph, nodes: Nodes)
    requires nodes.Keys == g.Keys
  {
    forall x {:trigger RightlyOffered(g, nodes, x)} :: x in g ==> RightlyOffered(g, nodes, x)
  }

  lemma OfferStays(g: Graph, a: Nodes, b: Nodes, x: string)
    requires a.Keys == b.Keys == g.Keys && x in g && Advances(a, b) && RightlyOffered(g, a, x)
    requires b[x].status == a[x].status || (b[x].status in {Ready, Running} && a[x].status in {Ready, Running})
    ensures RightlyOffered(g, b, x)
  {
    if a[x].status == WaitingApproval {
      SatisfiedStays(g, a, b, x);
    }
    if b[x].status in {Ready, Running} && g[x].kind == Approval {
      var f :| UsedUpFallback(g, a, f, x);
      assert Kept(a, b, f);
      assert UsedUpFallback(g, b, f, x);
    }
  }

  lemma MoveOffers(g: Graph, a: Nodes, b: Nodes, action: Action)
    requires Moves(g, a, b, action) && Advances(a, b) && AllOffered(g, a)
    ensures AllOffered(g, b)
  {
    forall x | x in g ensures RightlyOffered(g, b, x) {
      assert RightlyOffered(g, a, x);
      if x == action.node {
        if b[x].status in {Ready, Running} {
          OfferStays(g, a, b, x);
        }
      } else if b[x] == a[x] {
        OfferStays(g, a, b, x);
      } else {
        assert Bystander(g[x], a[x], b[x]) && Due(g, b, action.node, x);
      }
    }
  }

  lemma FreshOffers(g: Graph)
    ensures AllOffered(g, Refresh(g, map id <- g :: FRESH_NODE))
  {
    var pristine: Nodes := map id <- g :: FRESH_NODE;
    forall x | x in g ensures RightlyOffered(g, Refresh(g, pristine), x) {
      Refreshed(g, pristine, x);
      assert Refresh(g, pristine)[x] == RefreshNode(g, pristine, x);
    }
  }

  lemma {:induction false} ApprovalsAreAwaited(def: Definition, requests: seq<Request>)
    requires ValidDefinition(def)
    ensures FallbacksResolve(Table(def.nodes))
    ensures AllOffered(Table(def.nodes), Run(Initial(def), requests).nodes)
  {
    ValidMeansResolved(def);
    if requests == [] {
      FreshOffers(Table(def.nodes));
    } else {
      var init, q := requests[..|requests| - 1], requests[|requests| - 1];
      ApprovalsAreAwaited(def, init);
      InvAlways(def, init);
      OneMoreOffers(Run(Initial(def), init), q);
    }
  }

  lemma OneMoreOffers(e: Execution, q: Request)
    requires Inv(e) && AllOffered(Table(e.def.nodes), e.nodes)
    ensures AllOffered(Table(e.def.nodes), After(e, q).nodes)
  {
    if Apply(e, q.expected, q.action).Ok? {
      StepMoves(e, q.expected, q.action);
      StepAdvances(e, q.expected, q.action);
      MoveOffers(Table(e.def.nodes), e.nodes, After(e, q).nodes, q.action);
    }
  }

  // ----- Which requests are accepted -------------------------------------------------------------------------------

  /** What a request asks of its node. */
  predicate Possible(g: Graph, nodes: Nodes, a: Action)
    requires a.node in g && a.node in nodes
  {
    match a
    case Start(id, _) => nodes[id].status == Ready
    case Complete(id) => nodes[id].status == Running
    case Fail(id, _) => nodes[id].status == Running
    case Decide(id, _) => g[id].kind == Approval && nodes[id].status == WaitingApproval
  }

  /** A request is accepted exactly if it comes with the current version, the workflow is in progress and the node
      is where the request can take it; an outdated one is told both versions. */
  lemma AcceptedIff(e: Execution, expected: nat, a: Action)
    requires WellFormed(e)
    ensures Apply(e, expected, a).Ok? <==>
            && expected == e.version && e.status == InProgress && a.node in e.nodes
            && Possible(Table(e.def.nodes), e.nodes, a)
    ensures expected != e.version ==> Apply(e, expected, a) == Err(VersionConflict(expected, e.version))
    ensures expected == e.version && e.status != InProgress ==> Apply(e, expected, a) == Err(WorkflowNotRunning)
  {
  }

  // ----- Rejections -------------------------------------------------------------------------------------------------

  /** `id` has failed, and the workflow with it. */
  predicate Rejected(e: Execution, id: string) {
    id in e.nodes && e.nodes[id].status == Failed && e.status == Aborted
  }

  /** A rejection is the last thing in the story. */
  predicate RejectionTold(log: seq<Action>, e: Execution, id: string) {
    Decide(id, false) in log ==> log[|log| - 1] == Decide(id, false) && Rejected(e, id)
  }

  lemma RejectionStep(e: Execution, log: seq<Action>, q: Request, id: string)
    requires Inv(e) && RejectionTold(log, e, id)
    ensures RejectionTold(log + if Apply(e, q.expected, q.action).Ok? then [q.action] else [], After(e, q), id)
  {
    AcceptedIff(e, q.expected, q.action);
    if Apply(e, q.expected, q.action).Ok? {
      if q.action == Decide(id, false) {
        StepMoves(e, q.expected, q.action);
        StepEnds(e, q.expected, q.action);
      }
    } else {
      assert log + [] == log;
    }
  }

  lemma {:induction false} RejectionIsLast(def: Definition, requests: seq<Request>, id: string)
    requires ValidDefinition(def)
    ensures FallbacksResolve(Table(def.nodes))
    ensures RejectionTold(Log(Initial(def), requests), Run(Initial(def), requests), id)
  {
    ValidMeansResolved(def);
    if requests == [] {
    } else {
      var init, q := requests[..|requests| - 1], requests[|requests| - 1];
      RejectionIsLast(def, init, id);
      InvAlways(def, init);
      RejectionStep(Run(Initial(def), init), Log(Initial(def), init), q, id);
    }
  }

  lemma RejectedHoldsBack(g: Graph, e: Execution, id: string, x: string)
    requires id in g && x in g && id in g[x].dependencies && !g[id].continueOnFailure
    requires Rejected(e, id) && x in e.nodes && RightlyPending(g, e.nodes, x)
    ensures e.nodes[x].status == Pending || exists f :: UsedUpFallback(g, e.nodes, f, x)
  {
    assert !DependenciesSatisfied(g, e.nodes, x);
  }

  /** A rejection releases no node that depends on the rejected one, unless it tolerates the failure: the node is
      pending, or the fallback of one that used all its attempts. */
  lemma RejectionReleasesNobody(def: Definition, requests: seq<Request>, id: string, x: string)
    requires ValidDefinition(def) && id in Table(def.nodes) && x in Table(def.nodes)
    requires id in Table(def.nodes)[x].dependencies && !Table(def.nodes)[id].continueOnFailure
    ensures FallbacksResolve(Table(def.nodes))
    ensures var e := Run(Initial(def), requests);
            Decide(id, false) in Log(Initial(def), requests) ==>
              && Rejected(e, id) && x in e.nodes
              && (e.nodes[x].status == Pending || exists f :: UsedUpFallback(Table(def.nodes), e.nodes, f, x))
  {
    RejectionIsLast(def, requests, id);
    PendingIff(def, requests, x);
    if Decide(id, false) in Log(Initial(def), requests) {
      RejectedHoldsBack(Table(def.nodes), Run(Initial(def), requests), id, x);
    }
  }

  // ----- Events ----------------------------------------------------------------------------------------------------

  /** The event that an accepted request is reported by, given its node afterwards. */
  function Headline(a: Action, after: NodeRun): EventKind {
    match a
    case Start(_, _) => NodeStarted
    case Complete(_) => NodeCompleted
    case Fail(_, _) => if after.status == Failed then NodeFailed else NodeRetryScheduled
    case Decide(_, approved) => if approved then ApprovalGranted else ApprovalRejected
  }

  /** All that an accepted request is reported by: what happened to its node, the fallback that a final failure
      names, and the end of the workflow if this was it. */
  function Report(g: Graph, a: Action, after: Execution): seq<Event>
    requires a.node in g && a.node in after.nodes
  {
    var node := after.nodes[a.node];
    [Event(Headline(a, node), after.version, a.node)] +
    (if a.Fail? && node.status == Failed && FallbackOf(g, a.node).Some?
     then [Event(FallbackActivated, after.version, FallbackOf(g, a.node).value)] else []) +
    (match after.status
     case Completed => [Event(WorkflowCompleted, after.version, a.node)]
     case Aborted => [Event(WorkflowFailed, after.version, a.node)]
     case _ => [])
  }

  lemma StartReports(e: Execution, id: string, owner: string)
    requires Inv(e) && e.status == InProgress && StartNode(e, id, owner).Ok?
    ensures var (e', events) := StartNode(e, id, owner).value;
            id in e'.nodes && events == Report(Table(e.def.nodes), Start(id, owner), e')
  {
  }

  lemma CompleteReports(e: Execution, id: string)
    requires Inv(e) && e.status == InProgress && CompleteNode(e, id).Ok?
    ensures var (e', events) := CompleteNode(e, id).value;
            id in e'.nodes && events == Report(Table(e.def.nodes), Complete(id), e')
  {
  }

  lemma UsedUpReports(e: Execution, id: string, error: string)
    requires Inv(e) && e.status == InProgress && id in e.nodes && e.nodes[id].status == Running
    ensures var (e', events) := UseUpNode(e, id, error);
            && id in e'.nodes && e'.nodes[id].status == Failed
            && events == Report(Table(e.def.nodes), Fail(id, error), e')
  {
    UsedUpIsFailed(Table(e.def.nodes), e.nodes, id, error);
  }

  lemma UsedUpIsFailed(g: Graph, nodes: Nodes, id: string, error: string)
    requires nodes.Keys == g.Keys && id in g && FallbacksResolve(g) && nodes[id].status == Running
    ensures id in Refresh(g, NodesWithout(g, nodes, id, error))
    ensures Refresh(g, NodesWithout(g, nodes, id, error))[id].status == Failed
  {
    Refreshed(g, NodesWithout(g, nodes, id, error), id);
  }

  lemma FailReports(e: Execution, id: string, error: string)
    requires Inv(e) && e.status == InProgress && FailNode(e, id, error).Ok?
    ensures var (e', events) := FailNode(e, id, error).value;
            id in e'.nodes && events == Report(Table(e.def.nodes), Fail(id, error), e')
  {
    if e.nodes[id].attempts >= Table(e.def.nodes)[id].maxAttempts {
      UsedUpReports(e, id, error);
    }
  }

  lemma DecideReports(e: Execution, id: string, approved: bool)
    requires Inv(e) && e.status == InProgress && DecideApproval(e, id, approved).Ok?
    ensures var (e', events) := DecideApproval(e, id, approved).value;
            id in e'.nodes && events == Report(Table(e.def.nodes), Decide(id, approved), e')
  {
  }

  /** The events of an accepted request tell what it did, under the new version: all of it, and nothing else. */
  lemma EventsTell(e: Execution, expected: nat, a: Action)
    requires Inv(e) && Apply(e, expected, a).Ok?
    ensures var (e', events) := Apply(e, expected, a).value;
            a.node in e'.nodes && events == Report(Table(e.def.nodes), a, e')
  {
    match a
    case Start(id, owner) => StartReports(e, id, owner);
    case Complete(id) => CompleteReports(e, id);
    case Fail(id, error) => FailReports(e, id, error);
    case Decide(id, approved) => DecideReports(e, id, approved);
  }

  // ----- Every valid workflow can be completed ---------------------------------------------------------------------

  /** A request that moves an active node on towards success. */
  function Onwards(id: string, status: NodeStatus): Action {
    match status
    case Ready => Start(id, "owner")
    case WaitingApproval => Decide(id, true)
    case _ => Complete(id)
  }

  lemma OnwardsIsAccepted(e: Execution, log: seq<Action>, id: string)
    requires Inv(e) && Told(log, e) && e.status == InProgress && id in e.nodes && IsActive(e.nodes, id)
    requires !HasFailed(e.nodes)
    ensures var a := Onwards(id, e.nodes[id].status);
            && Apply(e, e.version, a).Ok?
            && var e' := Apply(e, e.version, a).value.0;
               !HasFailed(e'.nodes) && e'.status in {InProgress, Completed}
  {
    var a := Onwards(id, e.nodes[id].status);
    assert NodeTold(Table(e.def.nodes)[id], log, e.nodes[id]);
    AcceptedIff(e, e.version, a);
    StepMoves(e, e.version, a);
    NobodyFails(Table(e.def.nodes), e.nodes, Apply(e, e.version, a).value.0.nodes, a);
  }

  lemma NobodyFails(g: Graph, a: Nodes, b: Nodes, action: Action)
    requires Moves(g, a, b, action) && !HasFailed(a)
    requires !action.Fail? && (action.Decide? ==> action.approved)
    ensures !HasFailed(b)
  {
    forall x | x in b ensures b[x].status != Failed {
      assert a[x].status != Failed;
      assert x != action.node ==> Bystander(g[x], a[x], b[x]);
    }
  }

  lemma SomethingIsActive(e: Execution)
    requires Inv(e) && e.status == InProgress && !HasFailed(e.nodes)
    requires Acyclic(Table(e.def.nodes)) && Closed(Table(e.def.nodes))
    ensures HasActive(e.nodes)
  {
    if !HasActive(e.nodes) {
      PendingIsDoomed(Table(e.def.nodes), e.nodes);
      IdleWithoutFailureIsDone(Table(e.def.nodes), e.nodes);
    }
  }

  ghost predicate Fine(e: Execution, log: seq<Action>) {
    Inv(e) && Told(log, e) && !HasFailed(e.nodes) && e.status in {InProgress, Completed}
  }

  /** A state without a failure that is not complete has a request that brings it nearer to completion. */
  lemma OneOnwards(e: Execution, log: seq<Action>) returns (a: Action)
    requires Fine(e, log) && e.status == InProgress
    requires Acyclic(Table(e.def.nodes)) && Closed(Table(e.def.nodes))
    ensures var q := Request(e.version, a);
            Fine(After(e, q), log + [a]) && Potential(e.def.nodes, After(e, q).nodes) < Potential(e.def.nodes, e.nodes)
  {
    SomethingIsActive(e);
    var id :| id in e.nodes && IsActive(e.nodes, id);
    a := Onwards(id, e.nodes[id].status);
    OnwardsIsAccepted(e, log, id);
    InvStep(e, e.version, a);
    StepIsTold(e, log, e.version, a);
    AcceptedFalls(e, a);
  }

  lemma AcceptedFalls(e: Execution, a: Action)
    requires Inv(e) && Apply(e, e.version, a).Ok?
    ensures Potential(e.def.nodes, Apply(e, e.version, a).value.0.nodes) < Potential(e.def.nodes, e.nodes)
  {
    StepLightens(e, e.version, a);
    LighteningFalls(e.def.nodes, e.nodes, Apply(e, e.version, a).value.0.nodes, a.node);
  }

  /** From a state without a failure there are requests that complete the workflow. */
  lemma {:induction false} CompletionFrom(e: Execution, log: seq<Action>) returns (requests: seq<Request>)
    requires Fine(e, log)
    requires Acyclic(Table(e.def.nodes)) && Closed(Table(e.def.nodes))
    ensures Run(e, requests).status == Completed
    decreases Potential(e.def.nodes, e.nodes)
  {
    if e.status == Completed {
      requests := [];
    } else {
      PotentialInv(e);
      var a := OneOnwards(e, log);
      var rest := CompletionFrom(After(e, Request(e.version, a)), log + [a]);
      requests := [Request(e.version, a)] + rest;
      RunCons(e, Request(e.version, a), rest);
    }
  }

  lemma {:induction false} RunCons(e: Execution, q: Request, rest: seq<Request>)
    requires WellFormed(e)
    ensures Run(e, [q] + rest) == Run(After(e, q), rest)
  {
    if rest == [] {
      assert [q] + rest == [q] && [q][..0] == [];
    } else {
      RunCons(e, q, rest[..|rest| - 1]);
      FrontOfCons(q, rest);
    }
  }

  lemma FrontOfCons(q: Request, rest: seq<Request>)
    requires rest != []
    ensures ([q] + rest)[..|rest|] == [q] + rest[..|rest| - 1] && ([q] + rest)[|rest|] == rest[|rest| - 1]
  {
  }

  /** Every valid workflow can be completed. */
  lemma EveryWorkflowCanComplete(def: Definition) returns (requests: seq<Request>)
    requires ValidDefinition(def)
    ensures FallbacksResolve(Table(def.nodes))
    ensures Run(Initial(def), requests).status == Completed
  {
    ValidMeansResolved(def);
    InvInitial(def);
    InitialIsTold(def);
    InitialNodes(def);
    requests := CompletionFrom(Initial(def), []);
  }
}
