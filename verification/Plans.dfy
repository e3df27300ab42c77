/**
 Plans: a dependency graph of nodes, what an order of its nodes is, what the
 ancestors of a node are, and the laws that tie the two together.
 */
module Plans {
  import opened Sequences
  import opened Values

  /** Node identifiers are only compared and sorted; each stands as its rank in string order. */
  type Id = int

  datatype Effect = ReadEffect | WriteEffect | ProcessEffect | NetworkEffect

  datatype PlanNode = PlanNode(id: Id, dependsOn: seq<Id>, effects: seq<Effect>)

  datatype Plan = Plan(
    planId: Text, projectId: Text, intentId: Text, idempotencyKey: Text,
    baseCommit: Text, allowedEffects: seq<Effect>, nodes: seq<PlanNode>)

  const MAX_PLAN_NODES := 64

  predicate Unique(s: seq<Id>) {
    forall i, j :: 0 <= i < j < |s| ==> s[i] != s[j]
  }

  /** `_unique_values(effects, maximum=4)` */
  predicate EffectsUnique(effects: seq<Effect>) {
    |effects| <= 4 && forall i, j :: 0 <= i < j < |effects| ==> effects[i] != effects[j]
  }

  const MAX_ID_CHARS := 120

  /** The identifiers of the wire: letters, digits, `-`, `.` and `_`, in any order. */
  predicate IsWireIdentifier(t: Text) {
    && t.Raw? && 1 <= |t.chars| <= MAX_ID_CHARS
    && forall i :: 0 <= i < |t.chars| ==> IsAlphanumeric(t.chars[i]) || t.chars[i] in "-._"
  }

  /** What constructing a `PlanNode` guarantees. */
  predicate NodeValid(n: PlanNode) {
    Unique(n.dependsOn) && |n.dependsOn| <= MAX_PLAN_NODES && n.id !in n.dependsOn
    && EffectsUnique(n.effects) && ReadEffect in n.effects && ProcessEffect in n.effects
  }

  predicate NodesValid(nodes: seq<PlanNode>) {
    forall i :: 0 <= i < |nodes| ==> NodeValid(nodes[i])
  }

  function Ids(nodes: seq<PlanNode>): seq<Id> {
    seq(|nodes|, i requires 0 <= i < |nodes| => nodes[i].id)
  }

  type NodeMap = map<Id, PlanNode>

  /** `{node.node_id: node for node in nodes}`: the last node of an id wins. */
  function ById(nodes: seq<PlanNode>): NodeMap {
    if nodes == [] then map[]
    else ById(nodes[..|nodes| - 1])[nodes[|nodes| - 1].id := nodes[|nodes| - 1]]
  }

  predicate DependsOn(graph: NodeMap, n: Id, d: Id) {
    n in graph && d in graph[n].dependsOn
  }

  predicate Writes(graph: NodeMap, n: Id) {
    n in graph && WriteEffect in graph[n].effects
  }

  lemma {:induction false} ByIdMeaning(nodes: seq<PlanNode>)
    requires Unique(Ids(nodes))
    ensures forall x :: x in ById(nodes) <==> x in Ids(nodes)
    ensures forall i :: 0 <= i < |nodes| ==> nodes[i].id in ById(nodes) && ById(nodes)[nodes[i].id] == nodes[i]
    ensures |ById(nodes)| == |nodes|
  {
    if nodes != [] {
      var front, last := nodes[..|nodes| - 1], nodes[|nodes| - 1];
      IdsPush(front, last);
      SplitLast(nodes);
      UniquePush(Ids(front), last.id);
      ByIdMeaning(front);
      assert ById(nodes).Keys == ById(front).Keys + {last.id};
      forall i | 0 <= i < |front| ensures nodes[i].id in ById(front) && nodes[i].id != last.id {
        assert front[i] == nodes[i] && Ids(front)[i] == nodes[i].id;
      }
    }
  }

  lemma IdsPush(front: seq<PlanNode>, last: PlanNode)
    ensures Ids(front + [last]) == Ids(front) + [last.id]
  {
  }

  lemma UniquePush(front: seq<Id>, last: Id)
    requires Unique(front + [last])
    ensures Unique(front) && last !in front
  {
    var all := front + [last];
    assert forall i :: 0 <= i < |front| ==> all[i] == front[i];
    assert all[|front|] == last;
  }

  // ---------------------------------------------------------------- orders

  /** `order` lists every node once, each after everything it depends on. */
  ghost predicate Topological(graph: NodeMap, order: seq<Id>) {
    && Unique(order)
    && (forall x :: x in order <==> x in graph)
    && forall i, d :: 0 <= i < |order| && DependsOn(graph, order[i], d) ==> d in order[..i]
  }

  ghost predicate HasOrder(graph: NodeMap) {
    exists order :: Topological(graph, order)
  }

  /** `x` may come next after `placed`. */
  ghost predicate IsReady(graph: NodeMap, placed: seq<Id>, x: Id) {
    x in graph && x !in placed && forall d :: DependsOn(graph, x, d) ==> d in placed
  }

  ghost predicate IsLeastReady(graph: NodeMap, placed: seq<Id>, x: Id) {
    IsReady(graph, placed, x) && forall y :: IsReady(graph, placed, y) ==> x <= y
  }

  /** Each position holds the least id that may stand there. */
  ghost predicate Greedy(graph: NodeMap, order: seq<Id>) {
    forall i :: 0 <= i < |order| ==> IsLeastReady(graph, order[..i], order[i])
  }

  /** A greedy order comes before every other topological order, lexicographically. */
  lemma GreedyIsLeast(graph: NodeMap, order: seq<Id>, other: seq<Id>)
    requires Topological(graph, order) && Greedy(graph, order) && Topological(graph, other)
    ensures order == other
            || exists k :: 0 <= k < |order| && k < |other| && order[..k] == other[..k] && order[k] < other[k]
  {
    SameLength(graph, order, other);
    var k := 0;
    while k < |order| && order[k] == other[k]
      invariant k <= |order| && order[..k] == other[..k]
    {
      PrefixPush(order, k);
      PrefixPush(other, k);
      k := k + 1;
    }
    if k < |order| {
      assert other[k] in other;
      assert other[k] !in other[..k];
      assert IsReady(graph, other[..k], other[k]);
      assert IsLeastReady(graph, order[..k], order[k]);
      assert order[..k] == other[..k] && order[k] < other[k];
    } else {
      assert order[..k] == order && other[..k] == other;
    }
  }

  lemma SameLength(graph: NodeMap, order: seq<Id>, other: seq<Id>)
    requires Topological(graph, order) && Topological(graph, other)
    ensures |order| == |other|
  {
    UniqueSize(order);
    UniqueSize(other);
    assert (set x | x in order) == graph.Keys == (set x | x in other);
  }

  lemma {:induction false} UniqueSize(s: seq<Id>)
    requires Unique(s)
    ensures |set x | x in s| == |s|
  {
    if s == [] {
      assert (set x | x in s) == {};
    } else {
      var front, last := s[..|s| - 1], s[|s| - 1];
      UniqueSize(front);
      assert s == front + [last];
      assert (set x | x in s) == (set x | x in front) + {last};
    }
  }

  lemma SubsetSize(a: set<Id>, b: set<Id>)
    requires a <= b
    ensures |a| <= |b|
    ensures |a| == |b| ==> a == b
  {
    assert b == a + (b - a);
    assert |b| == |a| + |b - a|;
  }

  // ---------------------------------------------------------------- ancestors

  ghost predicate IsPath(graph: NodeMap, p: seq<Id>) {
    forall i :: 0 <= i < |p| - 1 ==> DependsOn(graph, p[i], p[i + 1])
  }

  ghost predicate PathFromTo(graph: NodeMap, p: seq<Id>, n: Id, a: Id) {
    |p| >= 2 && IsPath(graph, p) && p[0] == n && p[|p| - 1] == a
  }

  /** `n` depends on `a`, directly or through other nodes. */
  ghost predicate Ancestor(graph: NodeMap, n: Id, a: Id) {
    exists p :: PathFromTo(graph, p, n, a)
  }

  lemma DirectAncestor(graph: NodeMap, n: Id, a: Id)
    requires DependsOn(graph, n, a)
    ensures Ancestor(graph, n, a)
  {
    assert PathFromTo(graph, [n, a], n, a);
  }

  lemma AncestorTransitive(graph: NodeMap, n: Id, m: Id, a: Id)
    requires Ancestor(graph, n, m) && Ancestor(graph, m, a)
    ensures Ancestor(graph, n, a)
  {
    var p :| PathFromTo(graph, p, n, m);
    var q :| PathFromTo(graph, q, m, a);
    var r := p + q[1..];
    forall i | 0 <= i < |r| - 1 ensures DependsOn(graph, r[i], r[i + 1]) {
      if i < |p| - 1 {
        assert DependsOn(graph, p[i], p[i + 1]);
      } else {
        assert DependsOn(graph, q[i - |p| + 1], q[i - |p| + 2]);
      }
    }
    assert PathFromTo(graph, r, n, a);
  }

  /** The ancestors of a node are its dependencies and their ancestors. */
  lemma AncestorUnfold(graph: NodeMap, n: Id, a: Id)
    ensures Ancestor(graph, n, a) <==>
      DependsOn(graph, n, a) || exists d :: DependsOn(graph, n, d) && Ancestor(graph, d, a)
  {
    if Ancestor(graph, n, a) {
      var p :| PathFromTo(graph, p, n, a);
      assert DependsOn(graph, p[0], p[1]);
      if |p| > 2 {
        var q := p[1..];
        forall i | 0 <= i < |q| - 1 ensures DependsOn(graph, q[i], q[i + 1]) {
          assert DependsOn(graph, p[i + 1], p[i + 2]);
        }
        assert PathFromTo(graph, q, p[1], a);
      }
    }
    if DependsOn(graph, n, a) {
      DirectAncestor(graph, n, a);
    }
    if exists d :: DependsOn(graph, n, d) && Ancestor(graph, d, a) {
      var d :| DependsOn(graph, n, d) && Ancestor(graph, d, a);
      DirectAncestor(graph, n, d);
      AncestorTransitive(graph, n, d, a);
    }
  }

  /** A region that holds the dependencies of `n` and is closed under dependencies holds every ancestor. */
  lemma {:induction false} ClosedHoldsAncestors(graph: NodeMap, region: set<Id>, p: seq<Id>)
    requires |p| >= 2 && IsPath(graph, p)
    requires forall d :: DependsOn(graph, p[0], d) ==> d in region
    requires forall x, d :: x in region && DependsOn(graph, x, d) ==> d in region
    ensures p[|p| - 1] in region
    decreases |p|
  {
    assert DependsOn(graph, p[0], p[1]);
    if |p| > 2 {
      var q := p[1..];
      forall i | 0 <= i < |q| - 1 ensures DependsOn(graph, q[i], q[i + 1]) {
        assert DependsOn(graph, p[i + 1], p[i + 2]);
      }
      ClosedHoldsAncestors(graph, region, q);
    }
  }

  /** In a topological order every ancestor stands earlier. */
  lemma AncestorEarlier(graph: NodeMap, order: seq<Id>, i: nat, a: Id)
    requires Topological(graph, order) && i < |order| && Ancestor(graph, order[i], a)
    ensures a in order[..i]
  {
    var p :| PathFromTo(graph, p, order[i], a);
    var region := set x | x in order[..i];
    forall x, d | x in region && DependsOn(graph, x, d) ensures d in region {
      var j :| 0 <= j < i && order[j] == x;
      assert DependsOn(graph, order[j], d);
    }
    ClosedHoldsAncestors(graph, region, p);
  }

  lemma AncestorsAcyclic(graph: NodeMap, order: seq<Id>, n: Id, a: Id)
    requires Topological(graph, order) && Ancestor(graph, n, a)
    ensures a in graph && n in graph && a != n && !Ancestor(graph, a, n)
  {
    var p :| PathFromTo(graph, p, n, a);
    assert DependsOn(graph, p[0], p[1]);
    var i :| 0 <= i < |order| && order[i] == n;
    AncestorEarlier(graph, order, i, a);
    if Ancestor(graph, a, n) {
      AncestorTransitive(graph, n, a, n);
      AncestorEarlier(graph, order, i, n);
    }
  }

  // ---------------------------------------------------------------- valid plans

  /** Of any two writers, one depends on the other. */
  ghost predicate WritersChained(graph: NodeMap) {
    forall a, b :: Writes(graph, a) && Writes(graph, b) && a != b ==> Ancestor(graph, a, b) || Ancestor(graph, b, a)
  }

  predicate EffectsAllowed(plan: Plan) {
    forall i, e :: 0 <= i < |plan.nodes| && e in plan.nodes[i].effects ==> e in plan.allowedEffects
  }

  /** The fields of a plan beside its nodes. */
  predicate HeaderValid(plan: Plan) {
    && IsWireIdentifier(plan.planId) && IsWireIdentifier(plan.projectId) && IsWireIdentifier(plan.intentId)
    && IsWireIdentifier(plan.idempotencyKey) && IsCommit(plan.baseCommit) && EffectsUnique(plan.allowedEffects)
  }

  /** What constructing a `PlanRequest` is meant to guarantee. */
  ghost predicate ValidPlan(plan: Plan) {
    && HeaderValid(plan) && NodesValid(plan.nodes)
    && 0 < |plan.nodes| <= MAX_PLAN_NODES
    && Unique(Ids(plan.nodes))
    && EffectsAllowed(plan)
    && HasOrder(ById(plan.nodes))
    && WritersChained(ById(plan.nodes))
  }
}
