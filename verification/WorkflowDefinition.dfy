/** Workflow definitions as a multigraph of named nodes, and the validation that accepts
    exactly the well-formed acyclic ones (Kahn's worklist algorithm). */
module WorkflowDefinition {
  import opened Prelude

  datatype NodeKind = Task | Approval

  datatype NodeDef = NodeDef(
    id: string,
    kind: NodeKind,
    dependencies: seq<string>,
    maxAttempts: nat,
    continueOnFailure: bool,
    fallback: Option<string>
  )

  datatype Definition = Definition(name: string, nodes: seq<NodeDef>)

  datatype ValidationError =
    | EmptyName
    | NoNodes
    | EmptyNodeId
    | NodeIdTooLong(id: string)
    | AttemptsOutOfRange(id: string)
    | DuplicateNode(id: string)
    | SelfDependency(id: string)
    | MissingDependency(id: string, dependency: string)
    | MissingFallback(id: string, target: string)
    | Cyclic

  const MAX_ID_LENGTH: nat := 128
  const MAX_ATTEMPTS: nat := 100

  // ----- Structure ---------------------------------------------------------------------------

  predicate ValidNode(n: NodeDef) {
    !Blank(n.id) && ByteLength(n.id) <= MAX_ID_LENGTH && 1 <= n.maxAttempts <= MAX_ATTEMPTS
  }

  ghost predicate UniqueIds(nodes: seq<NodeDef>) {
    forall i, j :: 0 <= i < j < |nodes| ==> nodes[i].id != nodes[j].id
  }

  /** The node table: node identifiers to node definitions. */
  type Graph = map<string, NodeDef>

  function Table(nodes: seq<NodeDef>): Graph
    requires UniqueIds(nodes)
  {
    map n <- nodes :: n.id := n
  }

  ghost predicate LinksResolve(n: NodeDef, ids: set<string>) {
    (forall d <- n.dependencies :: d != n.id && d in ids) &&
    (n.fallback.Some? ==> n.fallback.value in ids)
  }

  ghost function IdsOf(nodes: seq<NodeDef>): set<string> {
    set n <- nodes :: n.id
  }

  /** Everything `validate` demands except the absence of cycles. */
  ghost predicate Structured(def: Definition) {
    !Blank(def.name) && def.nodes != [] && UniqueIds(def.nodes) &&
    forall n <- def.nodes :: ValidNode(n) && LinksResolve(n, IdsOf(def.nodes))
  }

  // ----- Cycles ------------------------------------------------------------------------------

  /** A walk that follows dependency edges: each node depends on the next one. */
  ghost predicate IsWalk(g: Graph, w: seq<string>) {
    forall i :: 0 <= i < |w| - 1 ==> w[i] in g && w[i + 1] in g[w[i]].dependencies
  }

  ghost predicate IsCycle(g: Graph, w: seq<string>) {
    2 <= |w| && IsWalk(g, w) && w[0] == w[|w| - 1]
  }

  ghost predicate Acyclic(g: Graph) {
    forall w :: !IsCycle(g, w)
  }

  ghost predicate ValidDefinition(def: Definition) {
    Structured(def) && Acyclic(Table(def.nodes))
  }

  /** Every nonempty set of nodes of an acyclic graph has a node that depends on nothing in it. */
  lemma MinimalElement(g: Graph, s: set<string>) returns (m: string)
    requires Acyclic(g) && s != {} && s <= g.Keys
    ensures m in s
    ensures forall d <- g[m].dependencies :: d !in s
  {
    m :| m in s;
    var w := [m];
    while exists d :: d in g[m].dependencies && d in s
      invariant 1 <= |w| && w[|w| - 1] == m
      invariant forall x <- w :: x in s
      invariant IsWalk(g, w) && NoDup(w)
      decreases |s| - |w|
    {
      var d :| d in g[m].dependencies && d in s;
      if d in w {
        var i :| 0 <= i < |w| && w[i] == d;
        assert IsCycle(g, w[i..] + [d]);
        assert false;
      }
      NoDupFits(w + [d], s);
      w, m := w + [d], d;
    }
  }

  /** `order` lists nodes so that each one's dependencies come earlier in the list. */
  ghost predicate Topological(g: Graph, order: seq<string>) {
    NoDup(order) &&
    forall i :: 0 <= i < |order| ==>
      order[i] in g && forall d <- g[order[i]].dependencies :: d in order[..i]
  }

  ghost function Position(order: seq<string>, x: string): (i: nat)
    requires x in order
    ensures i < |order| && order[i] == x
  {
    var i :| 0 <= i < |order| && order[i] == x; i
  }

  lemma DependencyIsEarlier(g: Graph, order: seq<string>, x: string, d: string)
    requires Topological(g, order) && x in order && d in g[x].dependencies
    ensures d in order && Position(order, d) < Position(order, x)
  {
    var i := Position(order, x);
    assert d in order[..i];
    var j :| 0 <= j < i && order[j] == d;
  }

  /** Along a walk the position in a topological order strictly falls. */
  lemma {:induction false} WalkDescends(g: Graph, order: seq<string>, w: seq<string>)
    requires Topological(g, order) && IsWalk(g, w) && 2 <= |w| && w[0] in order
    ensures w[|w| - 1] in order && Position(order, w[|w| - 1]) < Position(order, w[0])
  {
    DependencyIsEarlier(g, order, w[0], w[1]);
    if |w| > 2 {
      WalkDescends(g, order, w[1..]);
    }
  }

  lemma TopologicalIsAcyclic(g: Graph, order: seq<string>)
    requires Topological(g, order) && forall x <- g.Keys :: x in order
    ensures Acyclic(g)
  {
    forall w ensures !IsCycle(g, w) {
      if IsCycle(g, w) {
        WalkDescends(g, order, w);
      }
    }
  }

  // ----- Counting dependencies that are still open ---------------------------------------------

  /** How many entries of a dependency list, repetitions included, are outside `done`. */
  ghost function Open(deps: seq<string>, done: set<string>): nat {
    if deps == [] then 0
    else (if deps[0] in done then 0 else 1) + Open(deps[1..], done)
  }

  lemma {:induction false} OpenNone(deps: seq<string>)
    ensures Open(deps, {}) == |deps|
  {
    if deps == [] {
    } else {
      OpenNone(deps[1..]);
    }
  }

  lemma {:induction false} OpenZero(deps: seq<string>, done: set<string>)
    ensures Open(deps, done) == 0 <==> forall d <- deps :: d in done
  {
    if deps == [] {
    } else {
      OpenZero(deps[1..], done);
      assert deps == [deps[0]] + deps[1..];
    }
  }

  /** Finishing `v` closes exactly as many entries as `v` occurs in the list. */
  lemma {:induction false} OpenClose(deps: seq<string>, done: set<string>, v: string)
    requires v !in done
    ensures Open(deps, done) == Open(deps, done + {v}) + multiset(deps)[v]
  {
    if deps == [] {
    } else {
      OpenClose(deps[1..], done, v);
      assert deps == [deps[0]] + deps[1..];
    }
  }

  // ----- Kahn's algorithm ------------------------------------------------------------------------

  function Children(dependents: map<string, seq<string>>, v: string): seq<string> {
    if v in dependents then dependents[v] else []
  }

  lemma TableSnoc(init: seq<NodeDef>, n: NodeDef)
    requires UniqueIds(init + [n])
    ensures UniqueIds(init) && n.id !in Table(init)
    ensures Table(init + [n]) == Table(init)[n.id := n]
  {
    var nodes := init + [n];
    assert forall i :: 0 <= i < |init| ==> nodes[i] == init[i];
    assert nodes[|init|] == n;
    forall k <- Table(init).Keys ensures k != n.id {
      var m :| m in init && m.id == k;
      var i :| 0 <= i < |init| && init[i] == m;
      assert nodes[i].id != nodes[|init|].id;
    }
  }

  /** `children` lists each node as often as it mentions `v` among its dependencies. */
  ghost predicate ChildrenOf(g: Graph, v: string, children: seq<string>) {
    forall x :: multiset(children)[x] == if x in g then multiset(g[x].dependencies)[v] else 0
  }

  /** How often a node list mentions `v` as a dependency of `x`. */
  ghost function Mentions(nodes: seq<NodeDef>, v: string, x: string): nat {
    if nodes == [] then 0
    else
      var n := nodes[|nodes| - 1];
      Mentions(nodes[..|nodes| - 1], v, x) + (if n.id == x then multiset(n.dependencies)[v] else 0)
  }

  lemma {:induction false} MentionsAreMultiplicity(nodes: seq<NodeDef>, v: string, x: string)
    requires UniqueIds(nodes)
    ensures Mentions(nodes, v, x) ==
            if x in Table(nodes) then multiset(Table(nodes)[x].dependencies)[v] else 0
  {
    if nodes == [] {
    } else {
      var init, n := nodes[..|nodes| - 1], nodes[|nodes| - 1];
      MentionsAreMultiplicity(init, v, x);
      TableSnoc(init, n);
      assert nodes == init + [n];
      assert Table(nodes) == Table(init)[n.id := n] && n.id !in Table(init);
      assert x != n.id ==> (x in Table(nodes) <==> x in Table(init));
    }
  }

  /** Registers one node with each of its dependencies, once per mention. */
  method AddDependent(dependents: map<string, seq<string>>, n: NodeDef)
    returns (r: map<string, seq<string>>)
    ensures forall v, x :: multiset(Children(r, v))[x] ==
              multiset(Children(dependents, v))[x] +
              (if n.id == x then multiset(n.dependencies)[v] else 0)
  {
    r := dependents;
    for j := 0 to |n.dependencies|
      invariant forall v, x :: multiset(Children(r, v))[x] ==
                  multiset(Children(dependents, v))[x] +
                  (if n.id == x then multiset(n.dependencies[..j])[v] else 0)
    {
      assert n.dependencies[..j + 1] == n.dependencies[..j] + [n.dependencies[j]];
      r := r[n.dependencies[j] := Children(r, n.dependencies[j]) + [n.id]];
    }
    assert n.dependencies[..|n.dependencies|] == n.dependencies;
  }

  method BuildDependents(nodes: seq<NodeDef>) returns (dependents: map<string, seq<string>>)
    requires UniqueIds(nodes)
    ensures forall v :: ChildrenOf(Table(nodes), v, Children(dependents, v))
  {
    dependents := map[];
    for i := 0 to |nodes|
      invariant forall v, x :: multiset(Children(dependents, v))[x] == Mentions(nodes[..i], v, x)
    {
      assert nodes[..i + 1][..i] == nodes[..i];
      dependents := AddDependent(dependents, nodes[i]);
    }
    assert nodes[..|nodes|] == nodes;
    forall v ensures ChildrenOf(Table(nodes), v, Children(dependents, v)) {
      forall x { MentionsAreMultiplicity(nodes, v, x); }
    }
  }

  /** The worklist state between two visits: `order` has been visited, `queue` is waiting, and
      `indegree` counts the dependency mentions that are still open. */
  ghost predicate WorklistInv(g: Graph, order: seq<string>, queue: seq<string>,
                              indegree: map<string, nat>)
  {
    && indegree.Keys == g.Keys
    && NoDup(order + queue)
    && (forall x <- g.Keys :: indegree[x] == Open(g[x].dependencies, Elements(order)))
    && (forall x :: x in order + queue <==> x in g && indegree[x] == 0)
    && Topological(g, order)
  }

  /** The state while the children of `v` are being counted down. */
  ghost predicate CountdownInv(g: Graph, order: seq<string>, v: string, seen: seq<string>,
                               queue: seq<string>, indegree: map<string, nat>)
  {
    && indegree.Keys == g.Keys
    && NoDup(order + [v] + queue)
    && (forall x <- g.Keys ::
          indegree[x] + multiset(seen)[x] == Open(g[x].dependencies, Elements(order)))
    && (forall x :: x in order + [v] + queue <==> x in g && indegree[x] == 0)
  }

  lemma StartCountdown(g: Graph, order: seq<string>, v: string, queue: seq<string>,
                       indegree: map<string, nat>)
    requires WorklistInv(g, order, [v] + queue, indegree)
    ensures CountdownInv(g, order, v, [], queue, indegree)
    ensures v !in Elements(order)
  {
    assert order + ([v] + queue) == order + [v] + queue;
    assert (order + ([v] + queue))[|order|] == v;
    assert forall k :: 0 <= k < |order| ==> (order + ([v] + queue))[k] == order[k];
  }

  lemma OneMoreMention(children: seq<string>, j: nat)
    requires j < |children|
    ensures children[j] in children
    ensures multiset(children)[children[j]] >= multiset(children[..j])[children[j]] + 1
  {
    assert children == children[..j] + [children[j]] + children[j + 1..];
  }

  /** Before a child is counted down its count is positive, and it was never queued. */
  lemma ChildIsOpen(g: Graph, order: seq<string>, v: string, children: seq<string>, j: nat,
                    queue: seq<string>, indegree: map<string, nat>)
    requires j < |children| && v !in Elements(order)
    requires CountdownInv(g, order, v, children[..j], queue, indegree)
    requires ChildrenOf(g, v, children)
    ensures children[j] in g && indegree[children[j]] >= 1
    ensures children[j] !in order + [v] + queue
  {
    var child := children[j];
    OneMoreMention(children, j);
    OpenClose(g[child].dependencies, Elements(order), v);
  }

  /** One decrement keeps the countdown invariant; at zero the child joins the queue. */
  lemma CountdownStep(g: Graph, order: seq<string>, v: string, seen: seq<string>, child: string,
                      queue: seq<string>, indegree: map<string, nat>)
    requires CountdownInv(g, order, v, seen, queue, indegree)
    requires child in g && indegree[child] >= 1 && child !in order + [v] + queue
    ensures var n := SatSub(indegree[child], 1);
            CountdownInv(g, order, v, seen + [child],
                         if n == 0 then queue + [child] else queue, indegree[child := n])
  {
    var waiting := order + [v] + queue;
    NoDupAppend(waiting, child);
    assert order + [v] + (queue + [child]) == waiting + [child];
  }

  lemma FinishCountdown(g: Graph, order: seq<string>, v: string, children: seq<string>,
                        queue: seq<string>, indegree: map<string, nat>)
    requires CountdownInv(g, order, v, children, queue, indegree)
    requires v !in Elements(order) && Topological(g, order + [v])
    requires ChildrenOf(g, v, children)
    ensures WorklistInv(g, order + [v], queue, indegree)
  {
    assert Elements(order + [v]) == Elements(order) + {v};
    forall x <- g.Keys ensures indegree[x] == Open(g[x].dependencies, Elements(order + [v])) {
      OpenClose(g[x].dependencies, Elements(order), v);
    }
  }

  /** Counts one child down. The count is positive beforehand, so the saturating subtraction never
      saturates; the child joins the queue exactly when its last open dependency closes. */
  method CountDownChild(ghost g: Graph, ghost order: seq<string>, ghost v: string,
                        children: seq<string>, j: nat,
                        queue0: seq<string>, indegree0: map<string, nat>)
    returns (queue: seq<string>, indegree: map<string, nat>)
    requires j < |children| && v !in Elements(order)
    requires CountdownInv(g, order, v, children[..j], queue0, indegree0)
    requires ChildrenOf(g, v, children)
    ensures CountdownInv(g, order, v, children[..j + 1], queue, indegree)
  {
    var child := children[j];
    ChildIsOpen(g, order, v, children, j, queue0, indegree0);
    CountdownStep(g, order, v, children[..j], child, queue0, indegree0);
    assert children[..j + 1] == children[..j] + [child];
    assert indegree0[child] >= 1;
    indegree := indegree0[child := SatSub(indegree0[child], 1)];
    queue := queue0;
    if indegree[child] == 0 {
      queue := queue + [child];
    }
  }

  /** Visiting `v` counts every one of its children down, once per mention. */
  method Visit(ghost g: Graph, dependents: map<string, seq<string>>, ghost order: seq<string>,
               v: string, queue0: seq<string>, indegree0: map<string, nat>)
    returns (queue: seq<string>, indegree: map<string, nat>)
    requires WorklistInv(g, order, [v] + queue0, indegree0)
    requires ChildrenOf(g, v, Children(dependents, v))
    ensures WorklistInv(g, order + [v], queue, indegree)
  {
    queue, indegree := queue0, indegree0;
    var children := Children(dependents, v);
    StartCountdown(g, order, v, queue0, indegree0);
    VisitKeepsOrder(g, order, v, [v] + queue0, indegree0);
    for j := 0 to |children|
      invariant CountdownInv(g, order, v, children[..j], queue, indegree)
    {
      queue, indegree := CountDownChild(g, order, v, children, j, queue, indegree);
    }
    assert children[..|children|] == children;
    FinishCountdown(g, order, v, children, queue, indegree);
  }

  lemma VisitKeepsOrder(g: Graph, order: seq<string>, v: string, queue: seq<string>,
                        indegree: map<string, nat>)
    requires WorklistInv(g, order, queue, indegree) && queue != [] && queue[0] == v
    ensures Topological(g, order + [v])
  {
    assert v in order + queue;
    OpenZero(g[v].dependencies, Elements(order));
    forall i | 0 <= i < |order + [v]|
      ensures (order + [v])[i] in g && forall d <- g[(order + [v])[i]].dependencies :: d in (order + [v])[..i]
    {
      if i < |order| {
        assert (order + [v])[..i] == order[..i];
      } else {
        assert (order + [v])[..i] == order;
      }
    }
    assert NoDup(order + [v]) by {
      assert forall k :: 0 <= k <= |order| ==> (order + [v])[k] == (order + queue)[k];
    }
  }

  ghost predicate AllVisited(g: Graph, order: seq<string>, x: string)
    requires x in g
  {
    forall d <- g[x].dependencies :: d in order
  }

  /** What is left when the queue has run dry: a node all of whose dependencies were visited was
      visited itself. */
  ghost predicate DryQueue(g: Graph, order: seq<string>) {
    && Topological(g, order)
    && (forall x <- order :: x in g)
    && (forall x {:trigger AllVisited(g, order, x)} :: x in g && AllVisited(g, order, x) ==> x in order)
  }

  lemma DryQueueReached(g: Graph, order: seq<string>, indegree: map<string, nat>)
    requires WorklistInv(g, order, [], indegree)
    ensures DryQueue(g, order)
  {
    assert order + [] == order;
    forall x | x in g && AllVisited(g, order, x) ensures x in order {
      OpenZero(g[x].dependencies, Elements(order));
    }
  }

  ghost predicate Closed(g: Graph) {
    forall x, d :: x in g && d in g[x].dependencies ==> d in g
  }

  /** When the queue runs dry, everything was visited exactly if the graph has no cycle: if a node
      were left in an acyclic graph, some leftover node would wait for visited nodes only. */
  lemma DryQueueDecides(g: Graph, order: seq<string>)
    requires DryQueue(g, order) && Closed(g)
    ensures |order| == |g| <==> Acyclic(g)
  {
    assert |g| == |g.Keys|;
    NoDupFits(order, g.Keys);
    if |order| == |g| {
      TopologicalIsAcyclic(g, order);
    }
    if Acyclic(g) {
      var rest := g.Keys - Elements(order);
      if rest != {} {
        var m := MinimalElement(g, rest);
        assert AllVisited(g, order, m);
        assert false;
      }
      assert g.Keys <= Elements(order) by {
        assert forall x <- g.Keys :: x !in rest;
      }
      NoDupSize(order);
      SubsetSize(g.Keys, Elements(order));
    }
  }

  /** The worklist starts with the nodes that depend on nothing, each once. */
  method InitialQueue(nodes: seq<NodeDef>, indegree: map<string, nat>) returns (queue: seq<string>)
    requires UniqueIds(nodes) && indegree.Keys == IdsOf(nodes)
    ensures NoDup(queue)
    ensures forall x :: x in queue <==> x in indegree && indegree[x] == 0
  {
    queue := [];
    for i := 0 to |nodes|
      invariant NoDup(queue)
      invariant forall x :: x in queue <==> x in IdsOf(nodes[..i]) && x in indegree && indegree[x] == 0
    {
      assert nodes[..i + 1] == nodes[..i] + [nodes[i]];
      assert nodes[i].id !in IdsOf(nodes[..i]);
      if indegree[nodes[i].id] == 0 {
        queue := queue + [nodes[i].id];
      }
    }
    assert nodes[..|nodes|] == nodes;
  }

  lemma InitialWorklist(g: Graph, queue: seq<string>, indegree: map<string, nat>)
    requires indegree.Keys == g.Keys && NoDup(queue)
    requires forall x <- g.Keys :: indegree[x] == |g[x].dependencies|
    requires forall x :: x in queue <==> x in indegree && indegree[x] == 0
    ensures WorklistInv(g, [], queue, indegree)
  {
    assert [] + queue == queue;
    forall x <- g.Keys ensures indegree[x] == Open(g[x].dependencies, Elements([])) {
      OpenNone(g[x].dependencies);
      assert Elements<string>([]) == {};
    }
  }

  /** The loop of the algorithm, on the counts and the child lists of a closed graph. */
  method DrainWorklist(ghost g: Graph, dependents: map<string, seq<string>>, queue0: seq<string>,
                       indegree0: map<string, nat>)
    returns (visited: nat, ghost order: seq<string>)
    requires WorklistInv(g, [], queue0, indegree0)
    requires forall u :: ChildrenOf(g, u, Children(dependents, u))
    ensures visited == |order| <= |g| && DryQueue(g, order)
  {
    var queue, indegree := queue0, indegree0;
    visited, order := 0, [];
    while queue != []
      invariant WorklistInv(g, order, queue, indegree)
      invariant visited == |order| <= |g|
      decreases |g| - visited
    {
      var v := queue[0];
      assert queue == [v] + queue[1..];
      queue, indegree := Visit(g, dependents, order, v, queue[1..], indegree);
      order := order + [v];
      visited := visited + 1;
      VisitedFit(g, order, queue, indegree);
    }
    DryQueueReached(g, order, indegree);
  }

  lemma VisitedFit(g: Graph, order: seq<string>, queue: seq<string>, indegree: map<string, nat>)
    requires WorklistInv(g, order, queue, indegree)
    ensures |order| <= |g|
  {
    assert |g| == |g.Keys|;
    NoDupFits(order, g.Keys);
  }

  method StartWorklist(nodes: seq<NodeDef>) returns (indegree: map<string, nat>, queue: seq<string>)
    requires UniqueIds(nodes)
    ensures WorklistInv(Table(nodes), [], queue, indegree)
  {
    indegree := map n <- nodes :: n.id := |n.dependencies|;
    queue := InitialQueue(nodes, indegree);
    InitialWorklist(Table(nodes), queue, indegree);
  }

  /** Kahn's worklist. Every node is queued at most once, the visits form a topological order,
      and all nodes are visited exactly when the multigraph has no cycle. */
  method CountVisited(nodes: seq<NodeDef>) returns (visited: nat, ghost order: seq<string>)
    requires UniqueIds(nodes)
    requires Closed(Table(nodes))
    ensures visited == |order| <= |nodes|
    ensures Topological(Table(nodes), order)
    ensures visited == |nodes| <==> Acyclic(Table(nodes))
  {
    ghost var g := Table(nodes);
    TableSize(nodes);
    var dependents := BuildDependents(nodes);
    var indegree, queue := StartWorklist(nodes);
    visited, order := DrainWorklist(g, dependents, queue, indegree);
    DryQueueDecides(g, order);
  }

  lemma {:induction false} TableSize(nodes: seq<NodeDef>)
    requires UniqueIds(nodes)
    ensures |Table(nodes)| == |nodes|
  {
    if nodes == [] {
    } else {
      var init, n := nodes[..|nodes| - 1], nodes[|nodes| - 1];
      TableSize(init);
      TableSnoc(init, n);
      assert nodes == init + [n];
    }
  }

  // ----- validate ----------------------------------------------------------------------------------

  /** What each reported error says about the definition. */
  ghost predicate ErrorHolds(def: Definition, e: ValidationError) {
    match e
    case EmptyName => Blank(def.name)
    case NoNodes => def.nodes == []
    case EmptyNodeId => exists n <- def.nodes :: Blank(n.id)
    case NodeIdTooLong(id) => exists n <- def.nodes :: n.id == id && ByteLength(id) > MAX_ID_LENGTH
    case AttemptsOutOfRange(id) =>
      exists n <- def.nodes :: n.id == id && !(1 <= n.maxAttempts <= MAX_ATTEMPTS)
    case DuplicateNode(id) =>
      exists i, j :: 0 <= i < j < |def.nodes| && def.nodes[i].id == id == def.nodes[j].id
    case SelfDependency(id) => exists n <- def.nodes :: n.id == id && id in n.dependencies
    case MissingDependency(id, d) =>
      d !in IdsOf(def.nodes) && exists n <- def.nodes :: n.id == id && d in n.dependencies
    case MissingFallback(id, f) =>
      f !in IdsOf(def.nodes) && exists n <- def.nodes :: n.id == id && n.fallback == Some(f)
    case Cyclic => Structured(def) && !Acyclic(Table(def.nodes))
  }

  method ValidateNode(n: NodeDef) returns (r: Result<(), ValidationError>)
    ensures r.Ok? <==> ValidNode(n)
    ensures r.Err? ==> r.error in {EmptyNodeId, NodeIdTooLong(n.id), AttemptsOutOfRange(n.id)}
    ensures r.Err? ==> ErrorHolds(Definition("", [n]), r.error)
  {
    assert n in [n];
    if Blank(n.id) { return Err(EmptyNodeId); }
    if ByteLength(n.id) > MAX_ID_LENGTH { return Err(NodeIdTooLong(n.id)); }
    if n.maxAttempts == 0 || n.maxAttempts > MAX_ATTEMPTS { return Err(AttemptsOutOfRange(n.id)); }
    return Ok(());
  }

  method CheckLinks(n: NodeDef, ids: set<string>) returns (r: Result<(), ValidationError>)
    ensures r.Ok? <==> LinksResolve(n, ids)
    ensures r.Err? ==>
              || (r.error == SelfDependency(n.id) && n.id in n.dependencies)
              || (exists d :: r.error == MissingDependency(n.id, d) && d in n.dependencies && d !in ids)
              || (exists f :: r.error == MissingFallback(n.id, f) && n.fallback == Some(f) && f !in ids)
  {
    for j := 0 to |n.dependencies|
      invariant forall d <- n.dependencies[..j] :: d != n.id && d in ids
    {
      var d := n.dependencies[j];
      assert d in n.dependencies;
      if d == n.id { return Err(SelfDependency(n.id)); }
      if d !in ids { return Err(MissingDependency(n.id, d)); }
      assert n.dependencies[..j + 1] == n.dependencies[..j] + [d];
    }
    assert n.dependencies[..|n.dependencies|] == n.dependencies;
    if n.fallback.Some? && n.fallback.value !in ids {
      return Err(MissingFallback(n.id, n.fallback.value));
    }
    return Ok(());
  }

  /** Validation accepts exactly the structured acyclic definitions, and the error it reports
      is true of the definition. */
  method Validate(def: Definition) returns (r: Result<(), ValidationError>)
    ensures r.Ok? <==> ValidDefinition(def)
    ensures r.Err? ==> ErrorHolds(def, r.error)
    ensures r == Err(Cyclic) <==> Structured(def) && !Acyclic(Table(def.nodes))
  {
    var nodes := def.nodes;
    if Blank(def.name) { return Err(EmptyName); }
    if nodes == [] { return Err(NoNodes); }
    var ids: set<string> := {};
    for i := 0 to |nodes|
      invariant ids == IdsOf(nodes[..i])
      invariant UniqueIds(nodes[..i])
      invariant forall n <- nodes[..i] :: ValidNode(n)
    {
      assert nodes[..i + 1] == nodes[..i] + [nodes[i]];
      var checked := ValidateNode(nodes[i]);
      if checked.Err? {
        assert nodes[i] in nodes;
        return Err(checked.error);
      }
      if nodes[i].id in ids {
        assert exists k :: 0 <= k < i && nodes[k].id == nodes[i].id;
        return Err(DuplicateNode(nodes[i].id));
      }
      ids := ids + {nodes[i].id};
    }
    assert nodes[..|nodes|] == nodes;
    for i := 0 to |nodes|
      invariant forall n <- nodes[..i] :: LinksResolve(n, ids)
    {
      assert nodes[..i + 1] == nodes[..i] + [nodes[i]];
      var links := CheckLinks(nodes[i], ids);
      if links.Err? {
        assert nodes[i] in nodes;
        return Err(links.error);
      }
    }
    assert nodes[..|nodes|] == nodes;
    assert Closed(Table(nodes));
    var visited, order := CountVisited(nodes);
    if visited != |nodes| { return Err(Cyclic); }
    return Ok(());
  }
}
