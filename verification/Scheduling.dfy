/**
 Choosing the next node to run, and what holds in every state a run can reach
 when nodes are claimed that way.
 */
module Scheduling {
  import opened Values
  import opened Wrappers
  import opened Plans
  import opened PlanAdmission
  import PlanOrder

  datatype NodeStatus = Pending | Claimed | Running | Succeeded | Failed | Canceled | NodeReconciliation

  datatype RunStatus = Queued | RunRunning | Canceling | RunCanceled | RunSucceeded | RunFailed | RunReconciliation

  datatype LoadedRun = LoadedRun(
    runId: Text, plan: Plan, status: RunStatus, cancellationRequested: bool, leased: bool,
    onKernel: bool, generated: bool, nodes: map<Id, NodeStatus>)

  datatype ReadyNode = ReadyNode(runId: Text, node: PlanNode)

  // ---------------------------------------------------------------- the search

  /** A plan that was constructed, and one status for each of its nodes. */
  ghost predicate Loaded(run: LoadedRun) {
    ValidPlan(run.plan) && run.nodes.Keys == ById(run.plan.nodes).Keys
  }

  /** A run is passed over that is not queued or running, that somebody asked to cancel, holds or runs elsewhere. */
  predicate PassedOver(run: LoadedRun) {
    || run.status !in {Queued, RunRunning} || run.cancellationRequested || run.leased || run.onKernel || run.generated
  }

  ghost predicate ReadyIn(graph: NodeMap, nodes: map<Id, NodeStatus>, n: Id) {
    && n in graph && n in nodes && nodes[n] == Pending
    && forall d :: DependsOn(graph, n, d) ==> d in nodes && nodes[d] == Succeeded
  }

  ghost predicate NothingReady(run: LoadedRun) {
    PassedOver(run) || forall n :: !ReadyIn(ById(run.plan.nodes), run.nodes, n)
  }

  /** `n` is ready, and no node before it in the plan's order is. */
  ghost predicate FirstInOrder(graph: NodeMap, nodes: map<Id, NodeStatus>, n: Id) {
    exists order, k :: Topological(graph, order) && Greedy(graph, order) && FirstAt(graph, nodes, order, k, n)
  }

  ghost predicate FirstAt(graph: NodeMap, nodes: map<Id, NodeStatus>, order: seq<Id>, k: int, n: Id) {
    && 0 <= k < |order| && order[k] == n && ReadyIn(graph, nodes, n)
    && forall j :: 0 <= j < k ==> !ReadyIn(graph, nodes, order[j])
  }

  /** The first ready node of `order`, if it has one. */
  method FirstReady(graph: NodeMap, order: seq<Id>, nodes: map<Id, NodeStatus>) returns (r: Option<Id>)
    requires Topological(graph, order) && nodes.Keys == graph.Keys
    ensures r.Some? ==> exists k :: FirstAt(graph, nodes, order, k, r.value)
    ensures r.None? ==> forall n :: !ReadyIn(graph, nodes, n)
  {
    for k := 0 to |order|
      invariant forall j :: 0 <= j < k ==> !ReadyIn(graph, nodes, order[j])
    {
      var n := order[k];
      assert n in order;
      OrderHoldsDependencies(graph, order, n);
      ReadyTest(graph, nodes, n);
      if nodes[n] == Pending && forall d :: d in graph[n].dependsOn ==> nodes[d] == Succeeded {
        assert FirstAt(graph, nodes, order, k, n);
        return Some(n);
      }
    }
    forall n ensures !ReadyIn(graph, nodes, n) {
      if n in graph {
        assert n in order;
      }
    }
    return None;
  }

  lemma ReadyTest(graph: NodeMap, nodes: map<Id, NodeStatus>, n: Id)
    requires n in graph && n in nodes && forall d :: d in graph[n].dependsOn ==> d in nodes
    ensures ReadyIn(graph, nodes, n)
            <==> nodes[n] == Pending && forall d :: d in graph[n].dependsOn ==> nodes[d] == Succeeded
  {
    assert forall d :: DependsOn(graph, n, d) <==> d in graph[n].dependsOn;
  }

  lemma OrderHoldsDependencies(graph: NodeMap, order: seq<Id>, n: Id)
    requires Topological(graph, order) && n in graph
    ensures forall d :: d in graph[n].dependsOn ==> d in graph
  {
    forall d | d in graph[n].dependsOn ensures d in graph {
      assert DependsOn(graph, n, d);
      PlanOrder.OrderHoldsDependency(graph, order, n, d);
    }
  }

  /**
   `next_ready_node`: of the first eligible run that has a ready node, the first ready
   one in the plan's order; nothing only when no eligible run has any.
   */
  method NextReadyNode(runs: seq<LoadedRun>) returns (r: Option<ReadyNode>)
    requires forall i :: 0 <= i < |runs| ==> Loaded(runs[i])
    ensures r.None? ==> forall i :: 0 <= i < |runs| ==> NothingReady(runs[i])
    ensures r.Some? ==> exists i :: 0 <= i < |runs| && !PassedOver(runs[i]) && runs[i].runId == r.value.runId
                                    && r.value.node in runs[i].plan.nodes
                                    && FirstInOrder(ById(runs[i].plan.nodes), runs[i].nodes, r.value.node.id)
                                    && forall j :: 0 <= j < i ==> NothingReady(runs[j])
  {
    for i := 0 to |runs|
      invariant forall j :: 0 <= j < i ==> NothingReady(runs[j])
    {
      var run := runs[i];
      if (run.status == Queued || run.status == RunRunning) && !run.cancellationRequested && !run.leased
         && !run.onKernel && !run.generated {
        var ordered := PlanOrder.PlanTopologicalOrder(run.plan.nodes);
        var graph := ById(run.plan.nodes);
        var found := FirstReady(graph, ordered.value, run.nodes);
        if found.Some? {
          assert FirstInOrder(graph, run.nodes, found.value);
          NodeListed(run.plan, found.value);
          return Some(ReadyNode(run.runId, graph[found.value]));
        }
      }
    }
    return None;
  }

  lemma NodeListed(plan: Plan, n: Id)
    requires ValidPlan(plan) && n in ById(plan.nodes)
    ensures ById(plan.nodes)[n] in plan.nodes && ById(plan.nodes)[n].id == n
  {
    ByIdMeaning(plan.nodes);
    assert n in Ids(plan.nodes);
    var i :| 0 <= i < |plan.nodes| && Ids(plan.nodes)[i] == n;
  }

  /** No deadlock: with every node pending or succeeded and one pending, some node is ready. */
  lemma NoDeadlock(run: LoadedRun)
    requires Loaded(run)
    requires forall n :: n in run.nodes ==> run.nodes[n] == Pending || run.nodes[n] == Succeeded
    requires exists n :: n in run.nodes && run.nodes[n] == Pending
    ensures exists n :: ReadyIn(ById(run.plan.nodes), run.nodes, n)
  {
    var graph := ById(run.plan.nodes);
    var order :| Topological(graph, order);
    var n :| n in run.nodes && run.nodes[n] == Pending;
    var k :| 0 <= k < |order| && order[k] == n;
    var i := 0;
    while run.nodes[order[i]] != Pending
      invariant i <= k
      invariant forall j :: 0 <= j <= i ==> order[j] in run.nodes
      invariant forall j :: 0 <= j < i ==> run.nodes[order[j]] == Succeeded
      decreases k - i
    {
      i := i + 1;
      assert order[i] in order;
    }
    forall d | DependsOn(graph, order[i], d) ensures d in run.nodes && run.nodes[d] == Succeeded {
      assert d in order[..i];
    }
    assert ReadyIn(graph, run.nodes, order[i]);
  }

  // ---------------------------------------------------------------- reachable runs

  /** The nodes of one run: their status, the base each was claimed on, and the head each produced. */
  datatype Progress = Progress(nodes: map<Id, NodeStatus>, bases: map<Id, Text>, heads: map<Id, Text>)

  /** What the run lifecycle admits next. */
  datatype Move =
    | Claim(n: Id, base: Text)
    | Prepare(n: Id)
    | Succeed(n: Id, head: Text)
    | Requeue(n: Id)
    | Stop(n: Id, outcome: NodeStatus)

  ghost predicate Allowed(plan: Plan, s: Progress, m: Move) {
    match m
    case Claim(n, base) =>
      && ReadyIn(ById(plan.nodes), s.nodes, n) && IsBase(plan, s.heads, n, base)
      && forall x :: x in s.nodes ==> s.nodes[x] != Claimed && s.nodes[x] != Running
    case Prepare(n) => n in s.nodes && s.nodes[n] == Claimed
    case Succeed(n, head) => n in s.nodes && s.nodes[n] == Running && IsCommit(head)
    case Requeue(n) => n in s.nodes && (s.nodes[n] == Claimed || s.nodes[n] == Running)
    case Stop(n, outcome) =>
      && n in s.nodes && (s.nodes[n] == Claimed || s.nodes[n] == Running || s.nodes[n] == Pending)
      && (outcome == Failed || outcome == Canceled || outcome == NodeReconciliation)
  }

  function Moved(s: Progress, m: Move): Progress {
    match m
    case Claim(n, base) => s.(nodes := s.nodes[n := Claimed], bases := s.bases[n := base])
    case Prepare(n) => s.(nodes := s.nodes[n := Running])
    case Succeed(n, head) => s.(nodes := s.nodes[n := Succeeded], heads := s.heads[n := head])
    case Requeue(n) => s.(nodes := s.nodes[n := Pending])
    case Stop(n, outcome) => s.(nodes := s.nodes[n := outcome])
  }

  function Initially(plan: Plan): Progress {
    var graph := ById(plan.nodes);
    Progress(map n | n in graph :: Pending, map[], map[])
  }

  /** `moves` is a run of the plan; `contains` relates a head to the base of the worktree it was made in. */
  ghost predicate IsRun(plan: Plan, contains: (Text, Text) -> bool, moves: seq<Move>)
    decreases |moves|
  {
    moves == []
    || (var before, m := moves[..|moves| - 1], moves[|moves| - 1];
        && IsRun(plan, contains, before)
        && Allowed(plan, After(plan, before), m)
        && (m.Succeed? && m.n in After(plan, before).bases ==> contains(m.head, After(plan, before).bases[m.n])))
  }

  function After(plan: Plan, moves: seq<Move>): Progress
    decreases |moves|
  {
    if moves == [] then Initially(plan)
    else Moved(After(plan, moves[..|moves| - 1]), moves[|moves| - 1])
  }

  /** The dependencies of a node that is past pending, or done, have succeeded. */
  ghost predicate InDependencyOrder(plan: Plan, s: Progress) {
    forall n, d :: n in s.nodes && (s.nodes[n] == Claimed || s.nodes[n] == Running || s.nodes[n] == Succeeded)
                   && DependsOn(ById(plan.nodes), n, d) ==>
      d in s.nodes && s.nodes[d] == Succeeded
  }

  ghost predicate HeadsRecorded(plan: Plan, s: Progress) {
    && s.nodes.Keys == ById(plan.nodes).Keys
    && (forall n :: n in s.nodes && (s.nodes[n] == Claimed || s.nodes[n] == Running) ==> n in s.bases)
    && (forall n :: n in s.heads <==> n in s.nodes && s.nodes[n] == Succeeded)
    && (forall n :: n in s.heads ==> IsCommit(s.heads[n]) && n in s.bases)
  }

  /** A head contains the base it was made on, which is the base its node has. */
  ghost predicate HeadsGrow(plan: Plan, contains: (Text, Text) -> bool, s: Progress) {
    && (forall n :: n in s.heads && n in s.bases ==> contains(s.heads[n], s.bases[n]))
    && (forall n :: BasedRight(plan, s, n))
  }

  ghost predicate BasedRight(plan: Plan, s: Progress, n: Id) {
    n in s.bases && n in s.nodes && (s.nodes[n] == Claimed || s.nodes[n] == Running || s.nodes[n] == Succeeded) ==>
      IsBase(plan, s.heads, n, s.bases[n])
  }

  lemma InitialHolds(plan: Plan, contains: (Text, Text) -> bool)
    ensures InDependencyOrder(plan, Initially(plan)) && HeadsRecorded(plan, Initially(plan))
    ensures HeadsGrow(plan, contains, Initially(plan))
  {
  }

  lemma MoveKeepsOrder(plan: Plan, s: Progress, m: Move)
    requires InDependencyOrder(plan, s) && HeadsRecorded(plan, s) && Allowed(plan, s, m)
    ensures InDependencyOrder(plan, Moved(s, m)) && HeadsRecorded(plan, Moved(s, m))
  {
    MoveKeepsDependencies(plan, s, m);
    MoveKeepsRecords(plan, s, m);
  }

  lemma MoveKeepsDependencies(plan: Plan, s: Progress, m: Move)
    requires InDependencyOrder(plan, s) && Allowed(plan, s, m)
    ensures InDependencyOrder(plan, Moved(s, m))
  {
  }

  lemma MoveKeepsRecords(plan: Plan, s: Progress, m: Move)
    requires HeadsRecorded(plan, s) && Allowed(plan, s, m)
    ensures HeadsRecorded(plan, Moved(s, m))
  {
  }

  /** Recording one more head does not change the base of any other node, nor its own. */
  lemma BaseStable(plan: Plan, s: Progress, n: Id, head: Text, x: Id, base: Text)
    requires ValidPlan(plan) && HeadsRecorded(plan, s) && n !in s.heads
    requires IsBase(plan, s.heads, x, base)
    ensures IsBase(plan, s.heads[n := head], x, base)
  {
    var graph := ById(plan.nodes);
    if HasWriter(graph, x) {
      var w :| LatestWriter(graph, x, w) && w in s.heads && IsCommit(s.heads[w]) && s.heads[w] == base;
      assert s.heads[n := head][w] == base;
    }
  }

  lemma MoveKeepsHeads(plan: Plan, contains: (Text, Text) -> bool, s: Progress, m: Move)
    requires ValidPlan(plan) && HeadsRecorded(plan, s) && HeadsGrow(plan, contains, s) && Allowed(plan, s, m)
    requires m.Succeed? && m.n in s.bases ==> contains(m.head, s.bases[m.n])
    ensures HeadsGrow(plan, contains, Moved(s, m))
  {
    var t := Moved(s, m);
    forall x ensures BasedRight(plan, t, x) {
      assert BasedRight(plan, s, x);
      if m.Succeed? && x in s.bases && IsBase(plan, s.heads, x, s.bases[x]) {
        BaseStable(plan, s, m.n, m.head, x, s.bases[x]);
      }
    }
    if m.Claim? {
      assert m.n !in s.heads;
    }
  }

  lemma {:induction false} RunInvariant(plan: Plan, contains: (Text, Text) -> bool, moves: seq<Move>)
    requires ValidPlan(plan) && IsRun(plan, contains, moves)
    ensures InDependencyOrder(plan, After(plan, moves)) && HeadsRecorded(plan, After(plan, moves))
    ensures HeadsGrow(plan, contains, After(plan, moves))
    decreases |moves|
  {
    if moves == [] {
      InitialHolds(plan, contains);
    } else {
      var before, m := moves[..|moves| - 1], moves[|moves| - 1];
      RunInvariant(plan, contains, before);
      MoveKeepsOrder(plan, After(plan, before), m);
      MoveKeepsHeads(plan, contains, After(plan, before), m);
    }
  }

  /** In a reachable state every ancestor of a ready node has succeeded. */
  lemma {:induction false} AncestorsSucceeded(plan: Plan, s: Progress, order: seq<Id>, k: nat, a: Id)
    requires Topological(ById(plan.nodes), order) && k < |order|
    requires InDependencyOrder(plan, s) && s.nodes.Keys == ById(plan.nodes).Keys
    requires ReadyIn(ById(plan.nodes), s.nodes, order[k]) || (order[k] in s.nodes && s.nodes[order[k]] == Succeeded)
    requires Ancestor(ById(plan.nodes), order[k], a)
    ensures a in s.nodes && s.nodes[a] == Succeeded
    decreases k
  {
    var graph := ById(plan.nodes);
    AncestorUnfold(graph, order[k], a);
    if !DependsOn(graph, order[k], a) {
      var d :| DependsOn(graph, order[k], d) && Ancestor(graph, d, a);
      assert d in order[..k];
      var j :| 0 <= j < k && order[j] == d;
      AncestorsSucceeded(plan, s, order, j, a);
    }
  }

  /**
   Scheduling over a whole run. A ready node of a reachable state always has a base
   commit, and whatever base it is given contains the plan's base and the head of
   every ancestor that writes.
   */
  lemma {:induction false} ReadyNodeHasBase(plan: Plan, contains: (Text, Text) -> bool, moves: seq<Move>, n: Id)
    requires ValidPlan(plan) && IsRun(plan, contains, moves)
    requires forall c :: contains(c, c)
    requires forall a, b, c :: contains(a, b) && contains(b, c) ==> contains(a, c)
    requires ReadyIn(ById(plan.nodes), After(plan, moves).nodes, n)
    ensures exists base :: IsBase(plan, After(plan, moves).heads, n, base)
    ensures forall base, a :: IsBase(plan, After(plan, moves).heads, n, base)
                              && Ancestor(ById(plan.nodes), n, a) && Writes(ById(plan.nodes), a) ==>
              a in After(plan, moves).heads && contains(base, After(plan, moves).heads[a])
  {
    var graph, s := ById(plan.nodes), After(plan, moves);
    RunInvariant(plan, contains, moves);
    var order := Ordered(plan);
    var k :| 0 <= k < |order| && order[k] == n;
    forall a | Ancestor(graph, n, a) ensures a in s.heads {
      AncestorsSucceeded(plan, s, order, k, a);
    }
    BaseExists(plan, s, order, k);
    forall base, a | IsBase(plan, s.heads, n, base) && Ancestor(graph, n, a) && Writes(graph, a)
      ensures a in s.heads && contains(base, s.heads[a])
    {
      HeadsHaveBases(plan, contains, s);
      BaseContainsAncestors(plan, s.heads, contains, order, k, base);
    }
  }

  lemma Ordered(plan: Plan) returns (order: seq<Id>)
    requires ValidPlan(plan)
    ensures Topological(ById(plan.nodes), order)
  {
    order :| Topological(ById(plan.nodes), order);
  }

  lemma BaseExists(plan: Plan, s: Progress, order: seq<Id>, k: nat)
    requires ValidPlan(plan) && Topological(ById(plan.nodes), order) && k < |order|
    requires HeadsRecorded(plan, s)
    requires forall a :: Ancestor(ById(plan.nodes), order[k], a) ==> a in s.heads
    ensures exists base :: IsBase(plan, s.heads, order[k], base)
  {
    var graph, n := ById(plan.nodes), order[k];
    assert n in order;
    if HasWriter(graph, n) {
      LatestExists(plan, order, n);
      var w :| LatestWriter(graph, n, w);
      assert IsBase(plan, s.heads, n, s.heads[w]);
    } else {
      assert IsBase(plan, s.heads, n, plan.baseCommit);
    }
  }

  lemma LatestExists(plan: Plan, order: seq<Id>, n: Id)
    requires ValidPlan(plan) && Topological(ById(plan.nodes), order)
    requires HasWriter(ById(plan.nodes), n)
    ensures exists w :: LatestWriter(ById(plan.nodes), n, w)
  {
    var graph := ById(plan.nodes);
    var ancestors := set a | a in graph && Ancestor(graph, n, a);
    forall a | Ancestor(graph, n, a) ensures a in ancestors {
      AncestorsAcyclic(graph, order, n, a);
    }
    LastIsLatest(plan, order, n, ancestors);
  }

  lemma HeadsHaveBases(plan: Plan, contains: (Text, Text) -> bool, s: Progress)
    requires ValidPlan(plan) && HeadsRecorded(plan, s) && HeadsGrow(plan, contains, s)
    ensures forall w, b :: w in s.heads && IsBase(plan, s.heads, w, b) ==> contains(s.heads[w], b)
    ensures forall w :: w in s.heads ==> exists b :: IsBase(plan, s.heads, w, b)
  {
    forall w, b | w in s.heads && IsBase(plan, s.heads, w, b) ensures contains(s.heads[w], b) {
      assert BasedRight(plan, s, w);
      OneBase(plan, s.heads, w, b, s.bases[w]);
    }
    forall w | w in s.heads ensures exists b :: IsBase(plan, s.heads, w, b) {
      assert BasedRight(plan, s, w);
      assert IsBase(plan, s.heads, w, s.bases[w]);
    }
  }

  lemma OneBase(plan: Plan, heads: map<Id, Text>, n: Id, b: Text, c: Text)
    requires ValidPlan(plan) && IsBase(plan, heads, n, b) && IsBase(plan, heads, n, c)
    ensures b == c
  {
    var graph := ById(plan.nodes);
    if HasWriter(graph, n) {
      var w :| LatestWriter(graph, n, w) && w in heads && heads[w] == b;
      var v :| LatestWriter(graph, n, v) && v in heads && heads[v] == c;
      LatestWriterUnique(plan, n, w, v);
    }
  }
}
