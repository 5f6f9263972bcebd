/** What every run of a validated workflow keeps: dependency safety, a ready set that is never
    stale, settled nodes that stay settled, a termination measure, and no stall without a failure. */
module WorkflowSafety {
  import opened Prelude
  import opened WorkflowDefinition
  import opened WorkflowExecution

  // ----- Runs --------------------------------------------------------------------------------------

  datatype Request = Request(expected: nat, action: Action)

  /** The execution after one request; a refused request changes nothing. */
  function After(e: Execution, q: Request): (r: Execution)
    requires WellFormed(e)
    ensures WellFormed(r) && r.def == e.def
  {
    match Apply(e, q.expected, q.action)
    case Ok((e', _)) => e'
    case Err(_) => e
  }

  function Run(e: Execution, requests: seq<Request>): (r: Execution)
    requires WellFormed(e)
    ensures WellFormed(r) && r.def == e.def
  {
    if requests == [] then e
    else After(Run(e, requests[..|requests| - 1]), requests[|requests| - 1])
  }

  // ----- The invariant -------------------------------------------------------------------------------

  predicate AttemptsOk(n: NodeDef, s: NodeRun) {
    && 1 <= n.maxAttempts <= MAX_ATTEMPTS
    && s.attempts <= n.maxAttempts
    && (s.status.Pending? || s.status.WaitingApproval? ==> s.attempts == 0)
    && (s.status.Ready? ==> s.attempts < n.maxAttempts)
    && (s.status.Running? ==> 1 <= s.attempts)
    && !s.status.Skipped?
  }

  /** `f` failed for good and names `id` as its fallback. */
  predicate UsedUpFallback(g: Graph, nodes: Nodes, f: string, id: string) {
    && f in g && f in nodes
    && FallbackOf(g, f) == Some(id)
    && nodes[f].status == Failed && nodes[f].attempts == g[f].maxAttempts
  }

  /** A node left Pending for a reason. */
  ghost predicate Justified(g: Graph, nodes: Nodes, id: string)
    requires id in g
  {
    DependenciesSatisfied(g, nodes, id) || exists f :: UsedUpFallback(g, nodes, f, id)
  }

  ghost predicate NodeInv(g: Graph, nodes: Nodes, id: string)
    requires id in g && id in nodes
  {
    && AttemptsOk(g[id], nodes[id])
    && (nodes[id].status != Pending ==> Justified(g, nodes, id))
    && (nodes[id].status == Pending ==> !DependenciesSatisfied(g, nodes, id))
  }

  predicate HasFailed(nodes: Nodes) {
    exists id :: id in nodes && nodes[id].status == Failed
  }

  ghost predicate AllNodesInv(g: Graph, nodes: Nodes)
    requires nodes.Keys == g.Keys
  {
    forall id {:trigger NodeInv(g, nodes, id)} :: id in g ==> NodeInv(g, nodes, id)
  }

  ghost predicate Inv(e: Execution) {
    && WellFormed(e)
    && var g := Table(e.def.nodes);
       && AllNodesInv(g, e.nodes)
       && (e.status == InProgress && SuccessfullyComplete(g, e.nodes) ==> HasFailed(e.nodes))
       && (e.status == Completed ==> SuccessfullyComplete(g, e.nodes))
  }

  // ----- Settled nodes stay settled -------------------------------------------------------------------

  predicate Kept(a: Nodes, b: Nodes, x: string) {
    x in a && x in b && (a[x].status.Settled() ==> b[x] == a[x])
  }

  ghost predicate Advances(a: Nodes, b: Nodes) {
    a.Keys == b.Keys && forall x {:trigger Kept(a, b, x)} :: x in a ==> Kept(a, b, x)
  }

  lemma AdvancesTransitive(a: Nodes, b: Nodes, c: Nodes)
    requires Advances(a, b) && Advances(b, c)
    ensures Advances(a, c)
  {
    forall x | x in a ensures Kept(a, c, x) {
      assert Kept(a, b, x) && Kept(b, c, x);
    }
  }

  lemma RefreshAdvances(g: Graph, nodes: Nodes)
    requires nodes.Keys == g.Keys
    ensures Advances(nodes, Refresh(g, nodes))
  {
  }

  lemma SatisfiedStays(g: Graph, a: Nodes, b: Nodes, id: string)
    requires Advances(a, b) && id in g && DependenciesSatisfied(g, a, id)
    ensures DependenciesSatisfied(g, b, id)
  {
    forall d <- g[id].dependencies ensures Kept(a, b, d) && d in g && d in b {
    }
  }

  lemma JustifiedStays(g: Graph, a: Nodes, b: Nodes, id: string)
    requires Advances(a, b) && id in g && Justified(g, a, id)
    ensures Justified(g, b, id)
  {
    if DependenciesSatisfied(g, a, id) {
      SatisfiedStays(g, a, b, id);
    } else {
      var f :| UsedUpFallback(g, a, f, id);
      assert Kept(a, b, f);
      assert UsedUpFallback(g, b, f, id);
    }
  }

  lemma SettlingAdvances(g: Graph, a: Nodes, b: Nodes)
    requires a.Keys == b.Keys == g.Keys && Advances(a, b)
    ensures Advances(a, Refresh(g, b))
  {
    RefreshAdvances(g, b);
    AdvancesTransitive(a, b, Refresh(g, b));
  }

  lemma CompleteAdvances(e: Execution, id: string)
    requires WellFormed(e)
    ensures var r := CompleteNode(e, id); r.Ok? ==> Advances(e.nodes, r.value.0.nodes)
  {
    if CompleteNode(e, id).Ok? {
      SettlingAdvances(Table(e.def.nodes), e.nodes,
                       e.nodes[id := e.nodes[id].(status := Succeeded, owner := None)]);
    }
  }

  lemma UseUpAdvances(e: Execution, id: string, error: string)
    requires WellFormed(e) && id in e.nodes && e.nodes[id].status == Running
    ensures Advances(e.nodes, UseUpNode(e, id, error).0.nodes)
  {
    var g := Table(e.def.nodes);
    var failed := e.nodes[id].(status := Failed, owner := None, lastError := Some(error));
    SettlingAdvances(g, e.nodes, ActivateFallback(e.nodes[id := failed], FallbackOf(g, id)));
  }

  lemma DecideAdvances(e: Execution, id: string, approved: bool)
    requires WellFormed(e)
    ensures var r := DecideApproval(e, id, approved); r.Ok? ==> Advances(e.nodes, r.value.0.nodes)
  {
    if DecideApproval(e, id, approved).Ok? {
      SettlingAdvances(Table(e.def.nodes), e.nodes,
                       e.nodes[id := e.nodes[id].(status := if approved then Succeeded else Failed)]);
    }
  }

  /** A node that is not settled may be replaced by anything. */
  lemma ReplacingAdvances(a: Nodes, id: string, run: NodeRun)
    requires id in a && !a[id].status.Settled()
    ensures Advances(a, a[id := run])
  {
  }

  lemma StartAdvances(e: Execution, id: string, owner: string)
    requires WellFormed(e)
    ensures var r := StartNode(e, id, owner); r.Ok? ==> Advances(e.nodes, r.value.0.nodes)
  {
    if StartNode(e, id, owner).Ok? {
      ReplacingAdvances(e.nodes, id, StartNode(e, id, owner).value.0.nodes[id]);
    }
  }

  lemma FailAdvances(e: Execution, id: string, error: string)
    requires WellFormed(e)
    ensures var r := FailNode(e, id, error); r.Ok? ==> Advances(e.nodes, r.value.0.nodes)
  {
    if FailNode(e, id, error).Ok? {
      if e.nodes[id].attempts < Table(e.def.nodes)[id].maxAttempts {
        ReplacingAdvances(e.nodes, id, e.nodes[id].(status := Ready, owner := None, lastError := Some(error)));
      } else {
        UseUpAdvances(e, id, error);
      }
    }
  }

  /** Every accepted request leaves all settled nodes exactly as they were. */
  lemma StepAdvances(e: Execution, expected: nat, a: Action)
    requires WellFormed(e)
    ensures var r := Apply(e, expected, a);
            r.Ok? ==> Advances(e.nodes, r.value.0.nodes)
  {
    match a
    case Start(id, owner) => StartAdvances(e, id, owner);
    case Complete(id) => CompleteAdvances(e, id);
    case Fail(id, error) => FailAdvances(e, id, error);
    case Decide(id, approved) => DecideAdvances(e, id, approved);
  }

  /** Succeeded and Failed are absorbing over whole runs. */
  lemma {:induction false} SettledForever(e: Execution, requests: seq<Request>)
    requires WellFormed(e)
    ensures Advances(e.nodes, Run(e, requests).nodes)
  {
    if requests == [] {
    } else {
      var q := requests[|requests| - 1];
      var mid := Run(e, requests[..|requests| - 1]);
      SettledForever(e, requests[..|requests| - 1]);
      StepAdvances(mid, q.expected, q.action);
      if Apply(mid, q.expected, q.action).Ok? {
        AdvancesTransitive(e.nodes, mid.nodes, Run(e, requests).nodes);
      }
    }
  }

  // ----- The ready set is a fixpoint ------------------------------------------------------------------

  /** After one pass no pending node has all its dependencies satisfied, and a second pass would
      change nothing. */
  lemma RefreshIsFixpoint(g: Graph, nodes: Nodes)
    requires nodes.Keys == g.Keys
    ensures forall id :: id in g ==>
              DependenciesSatisfied(g, nodes, id) == DependenciesSatisfied(g, Refresh(g, nodes), id)
    ensures forall id :: id in g && Refresh(g, nodes)[id].status == Pending ==>
              !DependenciesSatisfied(g, Refresh(g, nodes), id)
    ensures Refresh(g, Refresh(g, nodes)) == Refresh(g, nodes)
  {
    var after := Refresh(g, nodes);
    forall id | id in g
      ensures DependenciesSatisfied(g, nodes, id) == DependenciesSatisfied(g, after, id)
      ensures after[id].status == Pending ==> !DependenciesSatisfied(g, after, id)
      ensures RefreshNode(g, after, id) == after[id]
    {
      PromotionSatisfiesNobody(g, nodes, after, id);
      assert after[id] == RefreshNode(g, nodes, id);
    }
  }

  /** A refresh turns justified nodes with sound attempt counts into the full node invariant. */
  lemma RefreshEstablishes(g: Graph, nodes: Nodes)
    requires nodes.Keys == g.Keys
    requires forall id {:trigger AttemptsOk(g[id], nodes[id])} :: id in g ==> AttemptsOk(g[id], nodes[id])
    requires forall id {:trigger Justified(g, nodes, id)} ::
               id in g && nodes[id].status != Pending ==> Justified(g, nodes, id)
    ensures AllNodesInv(g, Refresh(g, nodes))
  {
    var after := Refresh(g, nodes);
    RefreshAdvances(g, nodes);
    forall id | id in g ensures NodeInv(g, after, id) {
      PromotionSatisfiesNobody(g, nodes, after, id);
      assert after[id] == RefreshNode(g, nodes, id);
      assert AttemptsOk(g[id], nodes[id]);
      if nodes[id].status != Pending {
        assert Justified(g, nodes, id);
        JustifiedStays(g, nodes, after, id);
      }
    }
  }

  // ----- The invariant holds in every run ---------------------------------------------------------------

  lemma InvInitial(def: Definition)
    requires ValidDefinition(def)
    ensures FallbacksResolve(Table(def.nodes))
    ensures Inv(Initial(def))
  {
    ValidMeansResolved(def);
    InitialNodes(def);
    var id := def.nodes[0].id;
    TableAt(def.nodes, 0);
    assert !NodeDone(Table(def.nodes), Initial(def).nodes, id);
  }

  lemma InitialNodes(def: Definition)
    requires UniqueIds(def.nodes) && FallbacksResolve(Table(def.nodes))
    requires forall id <- Table(def.nodes).Keys :: ValidNode(Table(def.nodes)[id])
    ensures AllNodesInv(Table(def.nodes), Initial(def).nodes)
    ensures forall id <- Table(def.nodes).Keys :: !Initial(def).nodes[id].status.Settled()
  {
    FreshNodes(Table(def.nodes));
  }

  lemma FreshNodes(g: Graph)
    requires forall id <- g.Keys :: ValidNode(g[id])
    ensures var nodes := Refresh(g, map id <- g :: FRESH_NODE);
            AllNodesInv(g, nodes) && forall id <- g.Keys :: !nodes[id].status.Settled()
  {
    var pristine: Nodes := map id <- g :: FRESH_NODE;
    RefreshEstablishes(g, pristine);
    forall id <- g.Keys ensures !Refresh(g, pristine)[id].status.Settled() {
      assert Refresh(g, pristine)[id] == RefreshNode(g, pristine, id);
    }
  }

  /** One node moves between Ready and Running: nothing settles, so nobody's dependencies change. */
  lemma ShiftKeepsNodes(g: Graph, a: Nodes, id: string, s: NodeRun)
    requires a.Keys == g.Keys && id in g && AllNodesInv(g, a)
    requires a[id].status.Active() && s.status.Active()
    requires AttemptsOk(g[id], s)
    ensures AllNodesInv(g, a[id := s])
  {
    var b := a[id := s];
    assert Advances(a, b);
    forall x | x in g ensures NodeInv(g, b, x) {
      assert NodeInv(g, a, x) && NodeInv(g, a, id);
      if a[x].status != Pending {
        JustifiedStays(g, a, b, x);
      }
    }
  }

  /** One node settles (and possibly activates its fallback), then the ready set is refreshed. */
  lemma SettleKeepsNodes(g: Graph, a: Nodes, b: Nodes, id: string)
    requires a.Keys == b.Keys == g.Keys && id in g && AllNodesInv(g, a)
    requires a[id].status.Active() && b[id].status.Settled() && AttemptsOk(g[id], b[id])
    requires forall x {:trigger Kept(a, b, x)} :: x in g && x != id ==>
               || b[x] == a[x]
               || (UsedUpFallback(g, b, id, x) && a[x].status == Pending
                   && b[x] == a[x].(status := Ready))
    ensures AllNodesInv(g, Refresh(g, b))
  {
    assert Advances(a, b) by {
      forall x | x in a ensures Kept(a, b, x) {
      }
    }
    forall x | x in g ensures AttemptsOk(g[x], b[x]) {
      assert NodeInv(g, a, x) && Kept(a, b, x);
    }
    forall x | x in g && b[x].status != Pending ensures Justified(g, b, x) {
      assert NodeInv(g, a, x) && Kept(a, b, x);
      if a[x].status != Pending {
        JustifiedStays(g, a, b, x);
      } else {
        assert UsedUpFallback(g, b, id, x);
      }
    }
    RefreshEstablishes(g, b);
  }

  lemma InvStart(e: Execution, id: string, owner: string)
    requires Inv(e) && e.status == InProgress && StartNode(e, id, owner).Ok?
    ensures Inv(StartNode(e, id, owner).value.0)
  {
    var g := Table(e.def.nodes);
    var e' := StartNode(e, id, owner).value.0;
    assert NodeInv(g, e.nodes, id);
    NodeBounds(e, id);
    ShiftKeepsNodes(g, e.nodes, id, e'.nodes[id]);
    assert !NodeDone(g, e'.nodes, id);
  }

  /** An attempt count is far below the 32-bit limit, so counting it up never saturates. */
  lemma NodeBounds(e: Execution, id: string)
    requires Inv(e) && id in e.nodes
    ensures e.nodes[id].status == Ready ==> SatAdd(e.nodes[id].attempts, 1, U32_MAX) == e.nodes[id].attempts + 1
  {
    assert NodeInv(Table(e.def.nodes), e.nodes, id);
  }

  lemma InvComplete(e: Execution, id: string)
    requires Inv(e) && e.status == InProgress && CompleteNode(e, id).Ok?
    ensures Inv(CompleteNode(e, id).value.0)
  {
    var g := Table(e.def.nodes);
    var b := e.nodes[id := e.nodes[id].(status := Succeeded, owner := None)];
    assert NodeInv(g, e.nodes, id);
    SettleKeepsNodes(g, e.nodes, b, id);
  }

  lemma InvUseUp(e: Execution, id: string, error: string)
    requires Inv(e) && e.status == InProgress
    requires id in e.nodes && e.nodes[id].status == Running
    requires e.nodes[id].attempts >= Table(e.def.nodes)[id].maxAttempts
    ensures Inv(UseUpNode(e, id, error).0)
  {
    var g := Table(e.def.nodes);
    var failed := e.nodes[id].(status := Failed, owner := None, lastError := Some(error));
    assert NodeInv(g, e.nodes, id);
    UsedUpNodes(g, e.nodes, id, failed);
    var nodes := Refresh(g, ActivateFallback(e.nodes[id := failed], FallbackOf(g, id)));
    assert nodes[id].status == Failed;
  }

  lemma UsedUpNodes(g: Graph, a: Nodes, id: string, failed: NodeRun)
    requires a.Keys == g.Keys && id in g && FallbacksResolve(g) && AllNodesInv(g, a)
    requires a[id].status == Running && failed.status == Failed && failed.attempts == g[id].maxAttempts
    requires AttemptsOk(g[id], failed)
    ensures FallbackOf(g, id).Some? ==> FallbackOf(g, id).value in a
    ensures var b := ActivateFallback(a[id := failed], FallbackOf(g, id));
            AllNodesInv(g, Refresh(g, b)) && Refresh(g, b)[id] == failed
  {
    var b := ActivateFallback(a[id := failed], FallbackOf(g, id));
    forall x | x in g && x != id
      ensures b[x] == a[x] ||
              (UsedUpFallback(g, b, id, x) && a[x].status == Pending && b[x] == a[x].(status := Ready))
    {
      assert b[id] == failed;
    }
    SettleKeepsNodes(g, a, b, id);
    assert Refresh(g, b)[id] == RefreshNode(g, b, id);
  }

  lemma InvFail(e: Execution, id: string, error: string)
    requires Inv(e) && e.status == InProgress && FailNode(e, id, error).Ok?
    ensures Inv(FailNode(e, id, error).value.0)
  {
    var g := Table(e.def.nodes);
    assert NodeInv(g, e.nodes, id);
    if e.nodes[id].attempts < g[id].maxAttempts {
      var e' := FailNode(e, id, error).value.0;
      ShiftKeepsNodes(g, e.nodes, id, e'.nodes[id]);
      assert !NodeDone(g, e'.nodes, id);
    } else {
      InvUseUp(e, id, error);
    }
  }

  lemma InvDecide(e: Execution, id: string, approved: bool)
    requires Inv(e) && e.status == InProgress && DecideApproval(e, id, approved).Ok?
    ensures Inv(DecideApproval(e, id, approved).value.0)
  {
    var g := Table(e.def.nodes);
    var b := e.nodes[id := e.nodes[id].(status := if approved then Succeeded else Failed)];
    assert NodeInv(g, e.nodes, id);
    SettleKeepsNodes(g, e.nodes, b, id);
  }

  /** Every accepted request keeps the invariant. */
  lemma InvStep(e: Execution, expected: nat, a: Action)
    requires Inv(e)
    ensures var r := Apply(e, expected, a); r.Ok? ==> Inv(r.value.0)
  {
    if Apply(e, expected, a).Ok? {
      match a
      case Start(id, owner) => InvStart(e, id, owner);
      case Complete(id) => InvComplete(e, id);
      case Fail(id, error) => InvFail(e, id, error);
      case Decide(id, approved) => InvDecide(e, id, approved);
    }
  }

  /** The invariant holds after every sequence of requests, accepted or refused. */
  lemma {:induction false} InvAlways(def: Definition, requests: seq<Request>)
    requires ValidDefinition(def)
    ensures FallbacksResolve(Table(def.nodes))
    ensures Inv(Run(Initial(def), requests))
  {
    InvInitial(def);
    if requests == [] {
    } else {
      var q := requests[|requests| - 1];
      InvAlways(def, requests[..|requests| - 1]);
      InvStep(Run(Initial(def), requests[..|requests| - 1]), q.expected, q.action);
    }
  }

  /** Dependency safety in every reachable state: a node that left Pending has all its dependencies
      satisfied, or is the named fallback of a node that failed on its last allowed attempt; and no
      node whose dependencies are all satisfied is still Pending. */
  lemma DependencySafety(def: Definition, requests: seq<Request>, id: string)
    requires ValidDefinition(def) && id in Table(def.nodes)
    ensures FallbacksResolve(Table(def.nodes))
    ensures var g, nodes := Table(def.nodes), Run(Initial(def), requests).nodes;
            && id in nodes
            && (nodes[id].status != Pending ==>
                  DependenciesSatisfied(g, nodes, id) || exists f :: UsedUpFallback(g, nodes, f, id))
            && (nodes[id].status == Pending ==> !DependenciesSatisfied(g, nodes, id))
  {
    InvAlways(def, requests);
    assert NodeInv(Table(def.nodes), Run(Initial(def), requests).nodes, id);
  }

  // ----- No stall without a failure ------------------------------------------------------------------------

  /** An unsatisfied dependency of `id`. */
  lemma BlockedBy(g: Graph, nodes: Nodes, id: string) returns (d: string)
    requires Closed(g) && nodes.Keys == g.Keys && id in g && !DependenciesSatisfied(g, nodes, id)
    ensures d in g[id].dependencies && d in g && !nodes[d].status.Satisfies(g[d].continueOnFailure)
  {
    d :| d in g[id].dependencies && !nodes[d].status.Satisfies(g[d].continueOnFailure);
  }

  /** A node that depends, directly or through other nodes, on a failed node nobody tolerates. */
  ghost predicate Doomed(g: Graph, nodes: Nodes, id: string) {
    exists w {:trigger IsWalk(g, w)} :: IsWalk(g, w) && 2 <= |w| && w[0] == id && FailedHard(g, nodes, w[|w| - 1])
  }

  predicate FailedHard(g: Graph, nodes: Nodes, id: string) {
    id in g && id in nodes && nodes[id].status == Failed && !g[id].continueOnFailure
  }

  lemma DoomSpreads(g: Graph, nodes: Nodes, id: string, d: string)
    requires id in g && d in g[id].dependencies
    requires FailedHard(g, nodes, d) || Doomed(g, nodes, d)
    ensures Doomed(g, nodes, id)
  {
    if FailedHard(g, nodes, d) {
      assert IsWalk(g, [id, d]);
    } else {
      var w :| IsWalk(g, w) && 2 <= |w| && w[0] == d && FailedHard(g, nodes, w[|w| - 1]);
      assert IsWalk(g, [id] + w);
    }
  }

  /** With nothing active, every pending node of an acyclic graph is doomed: a least one that is not
      would wait for a node that is neither settled nor pending. */
  lemma PendingIsDoomed(g: Graph, nodes: Nodes)
    requires Acyclic(g) && Closed(g) && nodes.Keys == g.Keys
    requires AllNodesInv(g, nodes) && !HasActive(nodes)
    ensures forall id <- g.Keys :: nodes[id].status == Pending ==> Doomed(g, nodes, id)
  {
    var hopeful := set id <- g.Keys | nodes[id].status == Pending && !Doomed(g, nodes, id);
    if hopeful != {} {
      var m := MinimalElement(g, hopeful);
      assert NodeInv(g, nodes, m);
      var d := BlockedBy(g, nodes, m);
      assert NodeInv(g, nodes, d) && !IsActive(nodes, d);
      assert d !in hopeful;
      DoomSpreads(g, nodes, m, d);
      assert false;
    }
    forall id <- g.Keys | nodes[id].status == Pending ensures Doomed(g, nodes, id) {
      assert id !in hopeful;
    }
  }

  lemma IdleWithoutFailureIsDone(g: Graph, nodes: Nodes)
    requires nodes.Keys == g.Keys && AllNodesInv(g, nodes) && !HasActive(nodes)
    requires forall id <- g.Keys :: nodes[id].status == Pending ==> Doomed(g, nodes, id)
    ensures !HasFailed(nodes) ==> SuccessfullyComplete(g, nodes)
  {
    forall id | id in g && !HasFailed(nodes) ensures NodeDone(g, nodes, id) {
      assert NodeInv(g, nodes, id) && !IsActive(nodes, id);
    }
  }

  /** What an idle but unfinished workflow looks like: every node settled or is doomed by a failure,
      and something did fail. */
  lemma StallExplained(def: Definition, requests: seq<Request>)
    requires ValidDefinition(def)
    ensures FallbacksResolve(Table(def.nodes))
    ensures var g, e := Table(def.nodes), Run(Initial(def), requests);
            e.status == InProgress && !HasActive(e.nodes) ==>
              && HasFailed(e.nodes)
              && forall id <- g.Keys ::
                   id in e.nodes && (e.nodes[id].status.Settled() || Doomed(g, e.nodes, id))
  {
    InvAlways(def, requests);
    ValidMeansResolved(def);
    var g, e := Table(def.nodes), Run(Initial(def), requests);
    if e.status == InProgress && !HasActive(e.nodes) {
      PendingIsDoomed(g, e.nodes);
      forall id <- g.Keys ensures e.nodes[id].status.Settled() || Doomed(g, e.nodes, id) {
        assert NodeInv(g, e.nodes, id) && !IsActive(e.nodes, id);
      }
      IdleWithoutFailureIsDone(g, e.nodes);
    }
  }

  /** No stall without a failure: in every reachable running state without a failed node, some node is
      ready, running or waiting for approval. */
  lemma NoStall(def: Definition, requests: seq<Request>)
    requires ValidDefinition(def)
    ensures FallbacksResolve(Table(def.nodes))
    ensures var e := Run(Initial(def), requests);
            e.status == InProgress && !HasFailed(e.nodes) ==> HasActive(e.nodes)
  {
    StallExplained(def, requests);
    InvAlways(def, requests);
  }

  // ----- Termination measure -----------------------------------------------------------------------------------

  /** How many more requests a node can still absorb. */
  function Weight(n: NodeDef, s: NodeRun): int {
    if s.status.Settled() then 0
    else 2 * (n.maxAttempts - s.attempts) + (if s.status == Running then 1 else 0)
  }

  function WeightIn(n: NodeDef, nodes: Nodes): int {
    if n.id in nodes then Weight(n, nodes[n.id]) else 0
  }

  function Potential(defs: seq<NodeDef>, nodes: Nodes): int {
    if defs == [] then 0
    else Potential(defs[..|defs| - 1], nodes) + WeightIn(defs[|defs| - 1], nodes)
  }

  function TotalAttempts(defs: seq<NodeDef>): nat {
    if defs == [] then 0
    else TotalAttempts(defs[..|defs| - 1]) + defs[|defs| - 1].maxAttempts
  }

  /** If no node gains weight and the one at `k` loses some, the potential falls. */
  lemma {:induction false} PotentialFalls(defs: seq<NodeDef>, a: Nodes, b: Nodes, k: int)
    requires forall i :: 0 <= i < |defs| ==> WeightIn(defs[i], b) <= WeightIn(defs[i], a)
    requires 0 <= k < |defs| ==> WeightIn(defs[k], b) < WeightIn(defs[k], a)
    ensures Potential(defs, b) <= Potential(defs, a)
    ensures 0 <= k < |defs| ==> Potential(defs, b) < Potential(defs, a)
  {
    if defs == [] {
    } else {
      PotentialFalls(defs[..|defs| - 1], a, b, k);
    }
  }

  lemma {:induction false} PotentialBounds(defs: seq<NodeDef>, nodes: Nodes)
    requires forall i :: 0 <= i < |defs| ==> defs[i].id in nodes && AttemptsOk(defs[i], nodes[defs[i].id])
    ensures 0 <= Potential(defs, nodes)
  {
    if defs == [] {
    } else {
      PotentialBounds(defs[..|defs| - 1], nodes);
      assert AttemptsOk(defs[|defs| - 1], nodes[defs[|defs| - 1].id]);
    }
  }

  lemma {:induction false} PotentialAtStart(defs: seq<NodeDef>, nodes: Nodes)
    requires forall i :: 0 <= i < |defs| ==>
               defs[i].id in nodes && nodes[defs[i].id].attempts == 0 &&
               !nodes[defs[i].id].status.Settled() && nodes[defs[i].id].status != Running
    ensures Potential(defs, nodes) == 2 * TotalAttempts(defs)
  {
    if defs == [] {
    } else {
      PotentialAtStart(defs[..|defs| - 1], nodes);
    }
  }

  /** A transition that only lets nodes lose weight, and the node `id` strictly. */
  ghost predicate Lightens(g: Graph, a: Nodes, b: Nodes, id: string) {
    && a.Keys == b.Keys == g.Keys && id in g
    && (forall x {:trigger Weight(g[x], b[x])} :: x in g ==> Weight(g[x], b[x]) <= Weight(g[x], a[x]))
    && Weight(g[id], b[id]) < Weight(g[id], a[id])
  }

  lemma LighteningFalls(defs: seq<NodeDef>, a: Nodes, b: Nodes, id: string)
    requires UniqueIds(defs) && Lightens(Table(defs), a, b, id)
    ensures Potential(defs, b) < Potential(defs, a)
  {
    var n :| n in defs && n.id == id;
    var k :| 0 <= k < |defs| && defs[k] == n;
    forall i | 0 <= i < |defs| ensures WeightIn(defs[i], b) <= WeightIn(defs[i], a) {
      TableAt(defs, i);
      assert Weight(defs[i], b[defs[i].id]) <= Weight(defs[i], a[defs[i].id]);
    }
    TableAt(defs, k);
    PotentialFalls(defs, a, b, k);
  }

  lemma RefreshKeepsWeight(g: Graph, nodes: Nodes, x: string)
    requires nodes.Keys == g.Keys && x in g
    ensures Weight(g[x], Refresh(g, nodes)[x]) == Weight(g[x], nodes[x])
  {
    assert Refresh(g, nodes)[x] == RefreshNode(g, nodes, x);
  }

  lemma SettlingLightens(g: Graph, a: Nodes, b: Nodes, id: string)
    requires Lightens(g, a, b, id)
    ensures Lightens(g, a, Refresh(g, b), id)
  {
    forall x | x in g ensures Weight(g[x], Refresh(g, b)[x]) <= Weight(g[x], a[x]) {
      RefreshKeepsWeight(g, b, x);
      assert Weight(g[x], b[x]) <= Weight(g[x], a[x]);
    }
    RefreshKeepsWeight(g, b, id);
  }

  lemma UseUpLightens(e: Execution, id: string, error: string)
    requires Inv(e) && id in e.nodes && e.nodes[id].status == Running
    ensures Lightens(Table(e.def.nodes), e.nodes, UseUpNode(e, id, error).0.nodes, id)
  {
    var g := Table(e.def.nodes);
    assert NodeInv(g, e.nodes, id);
    var failed := e.nodes[id].(status := Failed, owner := None, lastError := Some(error));
    SettlingLightens(g, e.nodes, ActivateFallback(e.nodes[id := failed], FallbackOf(g, id)), id);
  }

  lemma CompleteLightens(e: Execution, id: string)
    requires Inv(e) && CompleteNode(e, id).Ok?
    ensures Lightens(Table(e.def.nodes), e.nodes, CompleteNode(e, id).value.0.nodes, id)
  {
    var g := Table(e.def.nodes);
    assert NodeInv(g, e.nodes, id);
    SettlingLightens(g, e.nodes, e.nodes[id := e.nodes[id].(status := Succeeded, owner := None)], id);
  }

  lemma DecideLightens(e: Execution, id: string, approved: bool)
    requires Inv(e) && DecideApproval(e, id, approved).Ok?
    ensures Lightens(Table(e.def.nodes), e.nodes, DecideApproval(e, id, approved).value.0.nodes, id)
  {
    var g := Table(e.def.nodes);
    assert NodeInv(g, e.nodes, id);
    SettlingLightens(g, e.nodes,
      e.nodes[id := e.nodes[id].(status := if approved then Succeeded else Failed)], id);
  }

  lemma ShiftLightens(e: Execution, id: string, s: NodeRun)
    requires Inv(e) && id in e.nodes
    requires Weight(Table(e.def.nodes)[id], s) < Weight(Table(e.def.nodes)[id], e.nodes[id])
    ensures Lightens(Table(e.def.nodes), e.nodes, e.nodes[id := s], id)
  {
  }

  lemma StartLightens(e: Execution, id: string, owner: string)
    requires Inv(e) && StartNode(e, id, owner).Ok?
    ensures Lightens(Table(e.def.nodes), e.nodes, StartNode(e, id, owner).value.0.nodes, id)
  {
    NodeBounds(e, id);
    ShiftLightens(e, id, StartNode(e, id, owner).value.0.nodes[id]);
  }

  lemma FailLightens(e: Execution, id: string, error: string)
    requires Inv(e) && FailNode(e, id, error).Ok?
    ensures Lightens(Table(e.def.nodes), e.nodes, FailNode(e, id, error).value.0.nodes, id)
  {
    if e.nodes[id].attempts < Table(e.def.nodes)[id].maxAttempts {
      ShiftLightens(e, id, FailNode(e, id, error).value.0.nodes[id]);
    } else {
      UseUpLightens(e, id, error);
    }
  }

  /** Every accepted request takes weight off its node and adds none anywhere. */
  lemma StepLightens(e: Execution, expected: nat, a: Action)
    requires Inv(e)
    ensures var r := Apply(e, expected, a);
            r.Ok? ==> Lightens(Table(e.def.nodes), e.nodes, r.value.0.nodes, a.node)
  {
    var r := Apply(e, expected, a);
    if r.Ok? {
      match a
      case Start(id, owner) => StartLightens(e, id, owner);
      case Complete(id) => CompleteLightens(e, id);
      case Fail(id, error) => FailLightens(e, id, error);
      case Decide(id, approved) => DecideLightens(e, id, approved);
    }
  }

  /** Requests that were accepted along a run. */
  function Accepted(e: Execution, requests: seq<Request>): nat
    requires WellFormed(e)
  {
    if requests == [] then 0
    else
      var init, q := requests[..|requests| - 1], requests[|requests| - 1];
      Accepted(e, init) + if Apply(Run(e, init), q.expected, q.action).Ok? then 1 else 0
  }

  lemma PotentialInv(e: Execution)
    requires Inv(e)
    ensures 0 <= Potential(e.def.nodes, e.nodes)
  {
    var g := Table(e.def.nodes);
    forall i | 0 <= i < |e.def.nodes|
      ensures e.def.nodes[i].id in e.nodes && AttemptsOk(e.def.nodes[i], e.nodes[e.def.nodes[i].id])
    {
      TableAt(e.def.nodes, i);
      assert NodeInv(g, e.nodes, e.def.nodes[i].id);
    }
    PotentialBounds(e.def.nodes, e.nodes);
  }

  lemma {:induction false} AcceptedIsBounded(def: Definition, requests: seq<Request>)
    requires ValidDefinition(def)
    ensures FallbacksResolve(Table(def.nodes))
    ensures var e := Run(Initial(def), requests);
            Accepted(Initial(def), requests) + Potential(def.nodes, e.nodes) <= 2 * TotalAttempts(def.nodes)
  {
    InvInitial(def);
    if requests == [] {
      ValidMeansResolved(def);
      InitialWeights(def);
    } else {
      var init, q := requests[..|requests| - 1], requests[|requests| - 1];
      AcceptedIsBounded(def, init);
      InvAlways(def, init);
      var mid := Run(Initial(def), init);
      StepLightens(mid, q.expected, q.action);
      if Apply(mid, q.expected, q.action).Ok? {
        LighteningFalls(def.nodes, mid.nodes, Run(Initial(def), requests).nodes, q.action.node);
      }
    }
  }

  lemma InitialWeights(def: Definition)
    requires UniqueIds(def.nodes) && FallbacksResolve(Table(def.nodes))
    ensures Potential(def.nodes, Initial(def).nodes) == 2 * TotalAttempts(def.nodes)
  {
    var g := Table(def.nodes);
    var pristine: Nodes := map id <- g :: FRESH_NODE;
    forall i | 0 <= i < |def.nodes|
      ensures var id := def.nodes[i].id;
              id in Initial(def).nodes && Initial(def).nodes[id].attempts == 0 &&
              !Initial(def).nodes[id].status.Settled() && Initial(def).nodes[id].status != Running
    {
      TableAt(def.nodes, i);
      assert Initial(def).nodes[def.nodes[i].id] == RefreshNode(g, pristine, def.nodes[i].id);
    }
    PotentialAtStart(def.nodes, Initial(def).nodes);
  }

  /** Every run accepts at most twice the total of allowed attempts, so it ends; the version counts
      the accepted requests exactly, as long as that total fits the 64-bit counter (which then never
      saturates). */
  lemma {:induction false} RunsAreBounded(def: Definition, requests: seq<Request>)
    requires ValidDefinition(def)
    ensures FallbacksResolve(Table(def.nodes))
    ensures Accepted(Initial(def), requests) <= 2 * TotalAttempts(def.nodes)
    ensures 2 * TotalAttempts(def.nodes) <= U64_MAX ==>
              Run(Initial(def), requests).version == Accepted(Initial(def), requests)
    ensures Run(Initial(def), requests).version <= 2 * TotalAttempts(def.nodes)
  {
    AcceptedIsBounded(def, requests);
    InvAlways(def, requests);
    PotentialInv(Run(Initial(def), requests));
    if requests == [] {
    } else {
      var init, q := requests[..|requests| - 1], requests[|requests| - 1];
      RunsAreBounded(def, init);
      VersionStep(Run(Initial(def), init), q.expected, q.action);
      VersionCounts(def, requests);
    }
  }

  lemma VersionStep(e: Execution, expected: nat, a: Action)
    requires WellFormed(e)
    ensures var r := Apply(e, expected, a); r.Ok? ==> r.value.0.version == Bump(e.version)
  {
  }

  lemma {:induction false} VersionCounts(def: Definition, requests: seq<Request>)
    requires UniqueIds(def.nodes) && FallbacksResolve(Table(def.nodes))
    ensures Run(Initial(def), requests).version <= Accepted(Initial(def), requests)
  {
    if requests == [] {
    } else {
      var init, q := requests[..|requests| - 1], requests[|requests| - 1];
      VersionCounts(def, init);
      VersionStep(Run(Initial(def), init), q.expected, q.action);
    }
  }
}
