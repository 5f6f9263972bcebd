/** Exactly which requests leave a workflow in progress with nothing active: a condition that can be read off
    the execution and the request before the call. */
module WorkflowStall {
  import opened Prelude
  import opened WorkflowDefinition
  import opened WorkflowExecution
  import opened WorkflowSafety

  /** In progress, but no node is ready, running or waiting for approval. */
  predicate Stalled(e: Execution) {
    e.status == InProgress && !HasActive(e.nodes)
  }

  // ----- The condition -----------------------------------------------------------------------------------

  ghost predicate OnlyActive(nodes: Nodes, n: string) {
    forall x {:trigger IsActive(nodes, x)} :: x in nodes && IsActive(nodes, x) ==> x == n
  }

  /** `x` waits for some node other than `n`. */
  predicate WaitsElsewhere(g: Graph, nodes: Nodes, n: string, x: string)
    requires x in g && nodes.Keys == g.Keys
  {
    exists d <- g[x].dependencies :: d != n && d in g && !NodeDone(g, nodes, d)
  }

  /** Settling `n` would make no pending node ready. */
  ghost predicate FreesNobody(g: Graph, nodes: Nodes, n: string)
    requires nodes.Keys == g.Keys
  {
    forall x {:trigger WaitsElsewhere(g, nodes, n, x)} ::
      x in g && nodes[x].status == Pending ==> WaitsElsewhere(g, nodes, n, x)
  }

  ghost predicate SomeOtherUndone(g: Graph, nodes: Nodes, n: string)
    requires nodes.Keys == g.Keys
  {
    exists x {:trigger NodeDone(g, nodes, x)} :: x in g && x != n && !NodeDone(g, nodes, x)
  }

  predicate PendingFallback(g: Graph, nodes: Nodes, n: string)
    requires n in g
  {
    FallbackOf(g, n).Some? && FallbackOf(g, n).value in nodes && nodes[FallbackOf(g, n).value].status == Pending
  }

  /** The request settles the last active node, frees nobody and does not finish the workflow: a completion or
      an approval with other nodes still undone, or a last failure that is tolerated and has no fallback
      waiting. Starting a node and rejecting an approval never qualify. */
  ghost predicate WillStall(e: Execution, a: Action)
    requires WellFormed(e) && a.node in e.nodes
  {
    var g := Table(e.def.nodes);
    && OnlyActive(e.nodes, a.node) && FreesNobody(g, e.nodes, a.node)
    && match a
       case Start(_, _) => false
       case Complete(n) => SomeOtherUndone(g, e.nodes, n)
       case Decide(n, approved) => approved && SomeOtherUndone(g, e.nodes, n)
       case Fail(n, _) =>
         && e.nodes[n].attempts >= g[n].maxAttempts && g[n].continueOnFailure && !PendingFallback(g, e.nodes, n)
  }

  // ----- Settling one node --------------------------------------------------------------------------------

  /** Once `n` counts as done, a node is ready exactly if it waits for nobody else. */
  lemma ReadyUnlessWaiting(g: Graph, before: Nodes, after: Nodes, n: string, x: string)
    requires Closed(g) && before.Keys == after.Keys == g.Keys && n in g && x in g
    requires forall y <- g.Keys :: y != n ==> after[y] == before[y]
    requires NodeDone(g, after, n)
    ensures DependenciesSatisfied(g, after, x) <==> !WaitsElsewhere(g, before, n, x)
  {
    forall d <- g[x].dependencies
      ensures d in g && (after[d].status.Satisfies(g[d].continueOnFailure) <==> d == n || NodeDone(g, before, d))
    {
    }
  }

  lemma RefreshedActive(g: Graph, nodes: Nodes, x: string)
    requires nodes.Keys == g.Keys && x in g
    ensures x in Refresh(g, nodes)
    ensures IsActive(Refresh(g, nodes), x) <==>
            IsActive(nodes, x) || (nodes[x].status == Pending && DependenciesSatisfied(g, nodes, x))
    ensures NodeDone(g, Refresh(g, nodes), x) <==> NodeDone(g, nodes, x)
  {
    assert Refresh(g, nodes)[x] == RefreshNode(g, nodes, x);
  }

  lemma SettlingIdles(g: Graph, before: Nodes, after: Nodes, n: string)
    requires Closed(g) && before.Keys == after.Keys == g.Keys && n in g
    requires forall y <- g.Keys :: y != n ==> after[y] == before[y]
    requires NodeDone(g, after, n) && after[n].status.Settled()
    requires before[n].status != Pending
    ensures !HasActive(Refresh(g, after)) <==> OnlyActive(before, n) && FreesNobody(g, before, n)
  {
    forall x | x in g
      ensures x in Refresh(g, after)
      ensures IsActive(Refresh(g, after), x) <==>
              x != n && (IsActive(before, x) || (before[x].status == Pending && !WaitsElsewhere(g, before, n, x)))
    {
      RefreshedActive(g, after, x);
      ReadyUnlessWaiting(g, before, after, n, x);
    }
    IdleMeans(g, before, Refresh(g, after), n);
  }

  lemma IdleMeans(g: Graph, before: Nodes, later: Nodes, n: string)
    requires before.Keys == later.Keys == g.Keys && n in g && before[n].status != Pending
    requires forall x {:trigger IsActive(later, x)} :: x in g ==>
      (IsActive(later, x) <==>
       x != n && (IsActive(before, x) || (before[x].status == Pending && !WaitsElsewhere(g, before, n, x))))
    ensures !HasActive(later) <==> OnlyActive(before, n) && FreesNobody(g, before, n)
  {
    if !HasActive(later) {
      forall x | x in before && IsActive(before, x) ensures x == n {
        assert !IsActive(later, x);
      }
      forall x | x in g && before[x].status == Pending ensures WaitsElsewhere(g, before, n, x) {
        assert !IsActive(later, x);
      }
    }
    if OnlyActive(before, n) && FreesNobody(g, before, n) {
      forall x | x in later ensures !IsActive(later, x) {
        assert x != n ==> !IsActive(before, x);
        assert before[x].status == Pending ==> WaitsElsewhere(g, before, n, x);
      }
    }
  }

  /** Settling a node completes the workflow unless some other node is undone. */
  lemma SettlingCompletes(g: Graph, before: Nodes, after: Nodes, n: string)
    requires before.Keys == after.Keys == g.Keys && n in g
    requires forall y <- g.Keys :: y != n ==> after[y] == before[y]
    requires NodeDone(g, after, n)
    ensures SuccessfullyComplete(g, Refresh(g, after)) <==> !SomeOtherUndone(g, before, n)
  {
    forall x | x in g
      ensures NodeDone(g, Refresh(g, after), x) <==> x == n || NodeDone(g, before, x)
    {
      RefreshedActive(g, after, x);
    }
    DoneMeans(g, before, Refresh(g, after), n);
  }

  lemma DoneMeans(g: Graph, before: Nodes, later: Nodes, n: string)
    requires before.Keys == later.Keys == g.Keys
    requires forall x {:trigger NodeDone(g, later, x)} :: x in g ==>
      (NodeDone(g, later, x) <==> x == n || NodeDone(g, before, x))
    ensures SuccessfullyComplete(g, later) <==> !SomeOtherUndone(g, before, n)
  {
    if !SomeOtherUndone(g, before, n) {
      forall x | x in g ensures NodeDone(g, later, x) {
        assert x != n ==> NodeDone(g, before, x);
      }
    } else {
      var x :| x in g && x != n && !NodeDone(g, before, x);
      assert !NodeDone(g, later, x);
    }
  }

  // ----- The transitions -------------------------------------------------------------------------------------

  lemma CompleteStalls(e: Execution, n: string)
    requires Inv(e) && Closed(Table(e.def.nodes)) && e.status == InProgress && CompleteNode(e, n).Ok?
    ensures Stalled(CompleteNode(e, n).value.0) <==> WillStall(e, Complete(n))
  {
    var g, after := Table(e.def.nodes), e.nodes[n := e.nodes[n].(status := Succeeded, owner := None)];
    SettlingIdles(g, e.nodes, after, n);
    SettlingCompletes(g, e.nodes, after, n);
  }

  lemma ApprovalStalls(e: Execution, n: string, approved: bool)
    requires Inv(e) && Closed(Table(e.def.nodes)) && e.status == InProgress && DecideApproval(e, n, approved).Ok?
    ensures Stalled(DecideApproval(e, n, approved).value.0) <==> WillStall(e, Decide(n, approved))
  {
    if approved {
      GrantStalls(e, n);
    } else {
      assert DecideApproval(e, n, false).value.0.status == Aborted;
    }
  }

  lemma GrantStalls(e: Execution, n: string)
    requires Inv(e) && Closed(Table(e.def.nodes)) && e.status == InProgress && DecideApproval(e, n, true).Ok?
    ensures Stalled(DecideApproval(e, n, true).value.0) <==> WillStall(e, Decide(n, true))
  {
    var g, after := Table(e.def.nodes), e.nodes[n := e.nodes[n].(status := Succeeded)];
    SettlingIdles(g, e.nodes, after, n);
    SettlingCompletes(g, e.nodes, after, n);
  }

  lemma WaitingFallbackKeepsBusy(g: Graph, nodes: Nodes, f: string)
    requires nodes.Keys == g.Keys && f in g && nodes[f].status == Ready
    ensures HasActive(Refresh(g, nodes))
  {
    RefreshedActive(g, nodes, f);
  }

  lemma UseUpStalls(e: Execution, n: string, error: string)
    requires Inv(e) && Closed(Table(e.def.nodes)) && e.status == InProgress
    requires n in e.nodes && e.nodes[n].status == Running && e.nodes[n].attempts >= Table(e.def.nodes)[n].maxAttempts
    ensures Stalled(UseUpNode(e, n, error).0) <==> WillStall(e, Fail(n, error))
  {
    var g := Table(e.def.nodes);
    var after := e.nodes[n := e.nodes[n].(status := Failed, owner := None, lastError := Some(error))];
    if PendingFallback(g, e.nodes, n) {
      var f := FallbackOf(g, n).value;
      WaitingFallbackKeepsBusy(g, ActivateFallback(after, FallbackOf(g, n)), f);
    } else {
      assert ActivateFallback(after, FallbackOf(g, n)) == after;
      if g[n].continueOnFailure {
        SettlingIdles(g, e.nodes, after, n);
      }
    }
  }

  lemma OngoingIsActive(e: Execution, n: string)
    requires n in e.nodes && IsActive(e.nodes, n)
    ensures !Stalled(e)
  {
  }

  lemma FailStalls(e: Execution, n: string, error: string)
    requires Inv(e) && Closed(Table(e.def.nodes)) && e.status == InProgress && FailNode(e, n, error).Ok?
    ensures Stalled(FailNode(e, n, error).value.0) <==> WillStall(e, Fail(n, error))
  {
    if e.nodes[n].attempts < Table(e.def.nodes)[n].maxAttempts {
      OngoingIsActive(FailNode(e, n, error).value.0, n);
    } else {
      UseUpStalls(e, n, error);
    }
  }

  /** An accepted request stalls the workflow if and only if the condition holds before it. */
  lemma StallsIff(e: Execution, expected: nat, a: Action)
    requires Inv(e) && Closed(Table(e.def.nodes)) && Apply(e, expected, a).Ok?
    ensures a.node in e.nodes
    ensures Stalled(Apply(e, expected, a).value.0) <==> WillStall(e, a)
  {
    match a
    case Start(n, owner) => OngoingIsActive(StartNode(e, n, owner).value.0, n);
    case Complete(n) => CompleteStalls(e, n);
    case Fail(n, error) => FailStalls(e, n, error);
    case Decide(n, approved) => ApprovalStalls(e, n, approved);
  }

  // ----- Runs --------------------------------------------------------------------------------------------------

  /** A run of a valid definition ends stalled exactly if it did so before its last request, which then was
      refused, or the last request was accepted in a state it had to stall. */
  lemma RunStallsIff(def: Definition, requests: seq<Request>, q: Request)
    requires ValidDefinition(def)
    ensures FallbacksResolve(Table(def.nodes))
    ensures var e := Run(Initial(def), requests);
            Stalled(Run(Initial(def), requests + [q])) <==>
            match Apply(e, q.expected, q.action)
            case Err(_) => Stalled(e)
            case Ok(_) => q.action.node in e.nodes && WillStall(e, q.action)
  {
    ValidMeansResolved(def);
    InvAlways(def, requests);
    var e := Run(Initial(def), requests);
    assert (requests + [q])[..|requests|] == requests;
    if Apply(e, q.expected, q.action).Ok? {
      StallsIff(e, q.expected, q.action);
    }
  }

  /** No valid workflow starts out stalled. */
  lemma NeverStalledAtFirst(def: Definition)
    requires ValidDefinition(def)
    ensures FallbacksResolve(Table(def.nodes)) && !Stalled(Initial(def))
  {
    NoStall(def, []);
    InitialNodes(def);
  }

  lemma RunTwo(e: Execution, a: Request, b: Request)
    requires WellFormed(e)
    ensures Run(e, [a, b]) == After(After(e, a), b)
  {
    assert [a, b][..1] == [a] && [a][..0] == [];
    assert Run(e, [a]) == After(Run(e, []), a);
  }

  /** A workflow of one task whose only attempt may fail without harm. */
  ghost predicate LoneTolerant(e: Execution, id: string, run: NodeRun) {
    && e.def.nodes == [NodeDef(id, Task, [], 1, true, None)] && e.nodes == map[id := run]
    && e.status == InProgress && WellFormed(e)
  }

  lemma LoneInitial(def: Definition, id: string)
    requires def.nodes == [NodeDef(id, Task, [], 1, true, None)] && FallbacksResolve(Table(def.nodes))
    ensures LoneTolerant(Initial(def), id, NodeRun(Ready, 0, None, None)) && Initial(def).version == 0
  {
    var g := Table(def.nodes);
    TableAt(def.nodes, 0);
    assert Initial(def).nodes[id] == RefreshNode(g, map x <- g :: FRESH_NODE, id);
  }

  lemma LoneStarts(e: Execution, id: string, owner: string)
    requires LoneTolerant(e, id, NodeRun(Ready, 0, None, None)) && e.version == 0
    ensures LoneTolerant(After(e, Request(0, Start(id, owner))), id, NodeRun(Running, 1, Some(owner), None))
    ensures After(e, Request(0, Start(id, owner))).version == 1
  {
    var e' := After(e, Request(0, Start(id, owner)));
    assert e'.nodes == e.nodes[id := NodeRun(Running, 1, Some(owner), None)];
  }

  lemma LoneFails(e: Execution, id: string, owner: string, error: string)
    requires LoneTolerant(e, id, NodeRun(Running, 1, Some(owner), None)) && e.version == 1
    ensures LoneTolerant(After(e, Request(1, Fail(id, error))), id, NodeRun(Failed, 1, None, Some(error)))
    ensures After(e, Request(1, Fail(id, error))).version == 2
  {
    var g := Table(e.def.nodes);
    TableAt(e.def.nodes, 0);
    assert g[id] == e.def.nodes[0];
    assert Apply(e, 1, Fail(id, error)) == Ok(UseUpNode(e, id, error));
    var failed := e.nodes[id := NodeRun(Failed, 1, None, Some(error))];
    assert Refresh(g, failed)[id] == RefreshNode(g, failed, id);
    assert Refresh(g, failed) == map[id := NodeRun(Failed, 1, None, Some(error))];
  }

  /** The condition on failures is needed: one node whose only attempt fails, and whose failure is
      tolerated, leaves the workflow in progress with nothing left to do. */
  lemma ToleratedFailureStalls(def: Definition, id: string, owner: string, error: string)
    requires ValidDefinition(def) && def.nodes == [NodeDef(id, Task, [], 1, true, None)]
    ensures FallbacksResolve(Table(def.nodes))
    ensures var e := Run(Initial(def), [Request(0, Start(id, owner)), Request(1, Fail(id, error))]);
            e.status == InProgress && e.version == 2 && HasFailed(e.nodes) && !HasActive(e.nodes)
  {
    ValidMeansResolved(def);
    var e0 := Initial(def);
    LoneInitial(def, id);
    LoneStarts(e0, id, owner);
    LoneFails(After(e0, Request(0, Start(id, owner))), id, owner, error);
    RunTwo(e0, Request(0, Start(id, owner)), Request(1, Fail(id, error)));
  }
}
