/**
 What constructing a plan request checks, and the base commit a node of a
 constructed plan starts from.
 */
module PlanAdmission {
  import opened Sequences
  import opened Values
  import opened Wrappers
  import opened Plans
  import PlanOrder

  datatype PlanError = ContractViolation | LifecycleViolation

  // ---------------------------------------------------------------- admission

  type AncestorTable = map<Id, set<Id>>

  function UnionOf(table: AncestorTable, ds: seq<Id>): set<Id>
    requires forall d :: d in ds ==> d in table
  {
    set d, a | d in ds && a in table[d] :: a
  }

  /** The rows of the first `k` nodes of the order are their exact ancestors. */
  ghost predicate ExactUpTo(graph: NodeMap, order: seq<Id>, k: nat, table: AncestorTable)
    requires k <= |order|
  {
    && (forall x :: x in table <==> x in order[..k])
    && forall x, a :: x in table ==> (a in table[x] <==> Ancestor(graph, x, a))
  }

  lemma ExactStep(graph: NodeMap, order: seq<Id>, k: nat, table: AncestorTable)
    requires Topological(graph, order) && k < |order| && ExactUpTo(graph, order, k, table)
    ensures order[k] in order && order[k] in graph
    ensures forall d :: d in graph[order[k]].dependsOn ==> d in table
    ensures ExactUpTo(graph, order, k + 1,
              table[order[k] := (set d | d in graph[order[k]].dependsOn) + UnionOf(table, graph[order[k]].dependsOn)])
  {
    var n := order[k];
    assert n in order;
    var deps := graph[n].dependsOn;
    forall d | d in deps ensures d in table {
      assert DependsOn(graph, order[k], d);
    }
    var row := (set d | d in deps) + UnionOf(table, deps);
    forall a ensures a in row <==> Ancestor(graph, n, a) {
      AncestorUnfold(graph, n, a);
      if exists d :: DependsOn(graph, n, d) && Ancestor(graph, d, a) {
        var d :| DependsOn(graph, n, d) && Ancestor(graph, d, a);
        assert d in deps && a in table[d];
      }
      if a in UnionOf(table, deps) {
        var d :| d in deps && a in table[d];
        assert DependsOn(graph, n, d) && Ancestor(graph, d, a);
      }
    }
    assert order[..k + 1] == order[..k] + [n];
    assert n !in table;
  }

  method BuildAncestors(graph: NodeMap, order: seq<Id>) returns (table: AncestorTable)
    requires Topological(graph, order)
    ensures forall x :: x in table <==> x in graph
    ensures forall x, a :: x in table ==> (a in table[x] <==> Ancestor(graph, x, a))
  {
    table := map[];
    for k := 0 to |order|
      invariant ExactUpTo(graph, order, k, table)
    {
      ExactStep(graph, order, k, table);
      var deps := graph[order[k]].dependsOn;
      table := table[order[k] := (set d | d in deps) + UnionOf(table, deps)];
    }
    WholePrefix(order);
  }

  /** The nodes of `order` that write, in order. */
  function WritersIn(graph: NodeMap, order: seq<Id>): seq<Id> {
    if order == [] then []
    else
      var before, last := WritersIn(graph, order[..|order| - 1]), order[|order| - 1];
      if Writes(graph, last) then before + [last] else before
  }

  /** Where each writer of `order` stands in it: in the same order. */
  lemma {:induction false} WritersInMeaning(graph: NodeMap, order: seq<Id>)
    ensures forall x :: x in WritersIn(graph, order) <==> x in order && Writes(graph, x)
  {
    if order != [] {
      WritersInMeaning(graph, order[..|order| - 1]);
      SplitLast(order);
    }
  }

  /** No later writer is an ancestor of an earlier one. */
  lemma {:induction false} WritersNeverBackwards(graph: NodeMap, order: seq<Id>, k: nat, i: nat, j: nat)
    requires Topological(graph, order) && k <= |order|
    requires i < j < |WritersIn(graph, order[..k])|
    ensures !Ancestor(graph, WritersIn(graph, order[..k])[i], WritersIn(graph, order[..k])[j])
    decreases k
  {
    var writers := WritersIn(graph, order[..k]);
    if k > 0 {
      assert order[..k][..k - 1] == order[..k - 1];
      if !Writes(graph, order[k - 1]) || j < |writers| - 1 {
        WritersNeverBackwards(graph, order, k - 1, i, j);
      } else if Ancestor(graph, writers[i], writers[j]) {
        WritersInMeaning(graph, order[..k - 1]);
        assert writers[i] in WritersIn(graph, order[..k - 1]);
        var m :| 0 <= m < k - 1 && order[m] == writers[i];
        AncestorEarlier(graph, order, m, order[k - 1]);
        assert false;
      }
    }
  }

  /** `previous in ancestors[current]` for every two neighbours. */
  ghost predicate NeighboursChained(graph: NodeMap, writers: seq<Id>) {
    forall i :: 0 <= i < |writers| - 1 ==> Ancestor(graph, writers[i + 1], writers[i])
  }

  lemma {:induction false} ChainReaches(graph: NodeMap, writers: seq<Id>, i: nat, j: nat)
    requires NeighboursChained(graph, writers) && i < j < |writers|
    ensures Ancestor(graph, writers[j], writers[i])
    decreases j
  {
    assert Ancestor(graph, writers[j - 1 + 1], writers[j - 1]);
    if i < j - 1 {
      ChainReaches(graph, writers, i, j - 1);
      AncestorTransitive(graph, writers[j], writers[j - 1], writers[i]);
    }
  }

  lemma {:induction false} WritersDistinct(graph: NodeMap, order: seq<Id>)
    requires Unique(order)
    ensures Unique(WritersIn(graph, order))
  {
    if order != [] {
      var front := order[..|order| - 1];
      WritersDistinct(graph, front);
      WritersInMeaning(graph, front);
      assert forall x :: x in front ==> x != order[|order| - 1];
    }
  }

  /** Checking neighbours in an order is checking all pairs. */
  lemma {:induction false} NeighboursSuffice(graph: NodeMap, order: seq<Id>)
    requires Topological(graph, order)
    ensures NeighboursChained(graph, WritersIn(graph, order)) <==> WritersChained(graph)
  {
    if NeighboursChained(graph, WritersIn(graph, order)) {
      NeighboursReachAll(graph, order);
    }
    if WritersChained(graph) {
      AllReachNeighbours(graph, order);
    }
  }

  lemma {:induction false} NeighboursReachAll(graph: NodeMap, order: seq<Id>)
    requires Topological(graph, order) && NeighboursChained(graph, WritersIn(graph, order))
    ensures WritersChained(graph)
  {
    var writers := WritersIn(graph, order);
    WritersInMeaning(graph, order);
    forall a, b | Writes(graph, a) && Writes(graph, b) && a != b
      ensures Ancestor(graph, a, b) || Ancestor(graph, b, a) {
      assert a in order && b in order;
      var i :| 0 <= i < |writers| && writers[i] == a;
      var j :| 0 <= j < |writers| && writers[j] == b;
      if i < j { ChainReaches(graph, writers, i, j); } else { ChainReaches(graph, writers, j, i); }
    }
  }

  lemma {:induction false} AllReachNeighbours(graph: NodeMap, order: seq<Id>)
    requires Topological(graph, order) && WritersChained(graph)
    ensures NeighboursChained(graph, WritersIn(graph, order))
  {
    var writers := WritersIn(graph, order);
    WritersInMeaning(graph, order);
    WritersDistinct(graph, order);
    WholePrefix(order);
    forall i | 0 <= i < |writers| - 1 ensures Ancestor(graph, writers[i + 1], writers[i]) {
      assert writers[i] in writers && writers[i + 1] in writers;
      WritersNeverBackwards(graph, order, |order|, i, i + 1);
    }
  }

  /**
   The constructor of a plan request, for nodes that are themselves valid: it accepts
   exactly the plans whose graph has an order and whose writers form one chain.
   */
  method AdmitPlan(plan: Plan) returns (accepted: bool)
    requires NodesValid(plan.nodes)
    ensures accepted <==> ValidPlan(plan)
  {
    if !HeaderValid(plan) {
      return false;
    }
    if plan.nodes == [] || |plan.nodes| > MAX_PLAN_NODES || !Unique(Ids(plan.nodes)) {
      return false;
    }
    if exists i, d :: 0 <= i < |plan.nodes| && d in plan.nodes[i].dependsOn && d !in Ids(plan.nodes) {
      ghost var i, d :| 0 <= i < |plan.nodes| && d in plan.nodes[i].dependsOn && d !in Ids(plan.nodes);
      ghost var j :| 0 <= j < |plan.nodes[i].dependsOn| && plan.nodes[i].dependsOn[j] == d;
      ByIdMeaning(plan.nodes);
      PlanOrder.UnknownBlocksOrder(plan.nodes, i, j);
      return false;
    }
    if !EffectsAllowed(plan) {
      return false;
    }
    var ordered := PlanOrder.PlanTopologicalOrder(plan.nodes);
    if ordered.None? {
      return false;
    }
    var order := ordered.value;
    var graph := ById(plan.nodes);
    var ancestors := BuildAncestors(graph, order);
    var writers := WritersIn(graph, order);
    WritersInMeaning(graph, order);
    assert forall i :: 0 <= i < |writers| ==> writers[i] in writers;
    NeighboursSuffice(graph, order);
    if exists i :: 0 <= i < |writers| - 1 && writers[i] !in ancestors[writers[i + 1]] {
      return false;
    }
    return true;
  }

  /** Letters, digits, `-`, `.` and `_`, between one and 120 of them. */
  predicate Named(t: Text) {
    && t.Raw? && 1 <= |t.chars| <= 120
    && forall i :: 0 <= i < |t.chars| ==>
         var c := t.chars[i];
         'a' <= c <= 'z' || 'A' <= c <= 'Z' || '0' <= c <= '9' || c == '-' || c == '.' || c == '_'
  }

  lemma NamedExactly(t: Text)
    ensures Named(t) <==> IsWireIdentifier(t)
  {
  }

  ghost predicate Distinct<T>(xs: seq<T>) {
    forall i, j :: 0 <= i < j < |xs| ==> xs[i] != xs[j]
  }

  /** A node's own fields: at most 64 dependencies, none twice and none on itself, and effects the plan allows. */
  ghost predicate NodeFits(n: PlanNode, allowed: seq<Effect>) {
    && |n.dependsOn| <= 64 && Distinct(n.dependsOn) && n.id !in n.dependsOn
    && Distinct(n.effects) && ReadEffect in n.effects && ProcessEffect in n.effects
    && forall e :: e in n.effects ==> e in allowed
  }

  /** Exactly which plans are valid, field by field, down to the two properties of the graph. */
  lemma ValidExactly(plan: Plan)
    ensures ValidPlan(plan)
            <==> && (forall t :: t in [plan.planId, plan.projectId, plan.intentId, plan.idempotencyKey] ==> Named(t))
                 && plan.baseCommit.Raw? && |plan.baseCommit.chars| == 40
                 && (forall c :: c in plan.baseCommit.chars ==> 'a' <= c <= 'f' || '0' <= c <= '9')
                 && Distinct(plan.allowedEffects)
                 && 1 <= |plan.nodes| <= 64
                 && (forall i, j :: 0 <= i < j < |plan.nodes| ==> plan.nodes[i].id != plan.nodes[j].id)
                 && (forall n :: n in plan.nodes ==> NodeFits(n, plan.allowedEffects))
                 && HasOrder(ById(plan.nodes))
                 && (forall a, b :: a in plan.nodes && b in plan.nodes && a.id != b.id
                                    && WriteEffect in a.effects && WriteEffect in b.effects ==>
                       Ancestor(ById(plan.nodes), a.id, b.id) || Ancestor(ById(plan.nodes), b.id, a.id))
  {
    if Unique(Ids(plan.nodes)) {
      ChainExactly(plan.nodes);
    }
    var texts := [plan.planId, plan.projectId, plan.intentId, plan.idempotencyKey];
    assert texts[0] in texts && texts[1] in texts && texts[2] in texts && texts[3] in texts;
    NamedExactly(plan.planId);
    NamedExactly(plan.projectId);
    NamedExactly(plan.intentId);
    NamedExactly(plan.idempotencyKey);
    CommitExactly(plan.baseCommit);
    FourEffects(plan.allowedEffects);
    IdsExactly(plan.nodes);
    NodesExactly(plan);
  }

  lemma {:induction false} ChainExactly(nodes: seq<PlanNode>)
    requires Unique(Ids(nodes))
    ensures WritersChained(ById(nodes)) <==>
              forall a, b :: a in nodes && b in nodes && a.id != b.id
                             && WriteEffect in a.effects && WriteEffect in b.effects ==>
                Ancestor(ById(nodes), a.id, b.id) || Ancestor(ById(nodes), b.id, a.id)
  {
    var graph := ById(nodes);
    ByIdMeaning(nodes);
    forall n | n in nodes ensures n.id in graph && graph[n.id] == n {
      var i :| 0 <= i < |nodes| && nodes[i] == n;
      assert Ids(nodes)[i] == n.id;
    }
    forall x | x in graph ensures graph[x] in nodes && graph[x].id == x {
      var i :| 0 <= i < |nodes| && Ids(nodes)[i] == x;
      assert nodes[i].id == x;
    }
  }

  lemma CommitExactly(t: Text)
    ensures IsCommit(t) <==>
              t.Raw? && |t.chars| == 40 && forall c :: c in t.chars ==> 'a' <= c <= 'f' || '0' <= c <= '9'
  {
    if t.Raw? {
      assert forall i :: 0 <= i < |t.chars| ==> t.chars[i] in t.chars;
    }
  }

  lemma IdsExactly(nodes: seq<PlanNode>)
    ensures Unique(Ids(nodes)) <==> forall i, j :: 0 <= i < j < |nodes| ==> nodes[i].id != nodes[j].id
  {
    assert forall i :: 0 <= i < |nodes| ==> Ids(nodes)[i] == nodes[i].id;
    if Unique(Ids(nodes)) {
      forall i, j | 0 <= i < j < |nodes| ensures nodes[i].id != nodes[j].id {
        assert Ids(nodes)[i] != Ids(nodes)[j];
      }
    }
  }

  /** There are only four effects. */
  lemma FourEffects(effects: seq<Effect>)
    ensures Distinct(effects) <==> EffectsUnique(effects)
  {
    if |effects| > 4 {
      var a, b, c, d, e := effects[0], effects[1], effects[2], effects[3], effects[4];
      assert a == b || a == c || a == d || a == e || b == c || b == d || b == e || c == d || c == e || d == e;
    }
  }

  lemma NodesExactly(plan: Plan)
    ensures NodesValid(plan.nodes) && EffectsAllowed(plan)
            <==> forall n :: n in plan.nodes ==> NodeFits(n, plan.allowedEffects)
  {
    forall n | n in plan.nodes
      ensures NodeFits(n, plan.allowedEffects)
              <==> NodeValid(n) && forall e :: e in n.effects ==> e in plan.allowedEffects {
      FourEffects(n.effects);
    }
    if forall n :: n in plan.nodes ==> NodeFits(n, plan.allowedEffects) {
      forall i | 0 <= i < |plan.nodes| ensures NodeFits(plan.nodes[i], plan.allowedEffects) {
        assert plan.nodes[i] in plan.nodes;
      }
    }
  }

  // ---------------------------------------------------------------- base commits

  /** Of the ancestors of `n` that write, the one that depends on all the others. */
  ghost predicate LatestWriter(graph: NodeMap, n: Id, w: Id) {
    && Ancestor(graph, n, w) && Writes(graph, w)
    && forall a :: Ancestor(graph, n, a) && Writes(graph, a) && a != w ==> Ancestor(graph, w, a)
  }

  ghost predicate HasWriter(graph: NodeMap, n: Id) {
    exists a :: Ancestor(graph, n, a) && Writes(graph, a)
  }

  lemma LatestWriterUnique(plan: Plan, n: Id, w: Id, v: Id)
    requires ValidPlan(plan)
    requires LatestWriter(ById(plan.nodes), n, w) && LatestWriter(ById(plan.nodes), n, v)
    ensures w == v
  {
    var order :| Topological(ById(plan.nodes), order);
    if w != v {
      AncestorsAcyclic(ById(plan.nodes), order, w, v);
    }
  }

  /** The base of `n`: the plan's when no ancestor writes, else the head of the latest writer. */
  ghost predicate IsBase(plan: Plan, heads: map<Id, Text>, n: Id, base: Text) {
    var graph := ById(plan.nodes);
    && n in graph
    && (!HasWriter(graph, n) ==> base == plan.baseCommit)
    && (HasWriter(graph, n) ==>
          exists w :: LatestWriter(graph, n, w) && w in heads && IsCommit(heads[w]) && heads[w] == base)
  }

  /** The worklist: everything found is an ancestor, and whatever is missing is still pending. */
  ghost predicate Closing(graph: NodeMap, n: Id, ancestors: set<Id>, pending: seq<Id>) {
    && (forall a :: a in ancestors || a in pending ==> Ancestor(graph, n, a))
    && (forall d :: DependsOn(graph, n, d) ==> d in ancestors || d in pending)
    && forall x, d :: x in ancestors && DependsOn(graph, x, d) ==> d in ancestors || d in pending
  }

  lemma ClosingStep(graph: NodeMap, n: Id, ancestors: set<Id>, pending: seq<Id>)
    requires Closing(graph, n, ancestors, pending) && pending != []
    requires pending[|pending| - 1] in graph
    ensures var d := pending[|pending| - 1];
            Closing(graph, n, ancestors + {d}, pending[..|pending| - 1] + graph[d].dependsOn)
    ensures pending[|pending| - 1] in ancestors ==> Closing(graph, n, ancestors, pending[..|pending| - 1])
  {
    var rest, d := pending[..|pending| - 1], pending[|pending| - 1];
    assert pending == rest + [d];
    assert d in pending;
    forall a | a in graph[d].dependsOn ensures Ancestor(graph, n, a) {
      DirectAncestor(graph, d, a);
      AncestorTransitive(graph, n, d, a);
    }
  }

  lemma ClosingStart(graph: NodeMap, n: Id)
    requires n in graph
    ensures Closing(graph, n, {}, graph[n].dependsOn)
  {
    forall a | a in graph[n].dependsOn ensures Ancestor(graph, n, a) {
      DirectAncestor(graph, n, a);
    }
  }

  lemma ClosingDone(graph: NodeMap, n: Id, ancestors: set<Id>)
    requires Closing(graph, n, ancestors, [])
    ensures forall a :: a in ancestors <==> Ancestor(graph, n, a)
  {
    forall a | Ancestor(graph, n, a) ensures a in ancestors {
      var p :| PathFromTo(graph, p, n, a);
      ClosedHoldsAncestors(graph, ancestors, p);
    }
  }

  /** The worklist loop: the exact transitive dependencies of `n`. */
  method CollectAncestors(graph: NodeMap, n: Id) returns (ancestors: set<Id>)
    requires n in graph && forall x, a :: Ancestor(graph, x, a) ==> a in graph
    ensures forall a :: a in ancestors <==> Ancestor(graph, n, a)
  {
    ancestors := {};
    var pending := graph[n].dependsOn;
    ClosingStart(graph, n);
    while pending != []
      invariant Closing(graph, n, ancestors, pending)
      invariant ancestors <= graph.Keys
      decreases graph.Keys - ancestors, |pending|
    {
      var dependency := pending[|pending| - 1];
      assert dependency in pending;
      ClosingStep(graph, n, ancestors, pending);
      pending := pending[..|pending| - 1];
      if dependency !in ancestors {
        ancestors := ancestors + {dependency};
        pending := pending + graph[dependency].dependsOn;
      }
    }
    ClosingDone(graph, n, ancestors);
  }

  /** The ancestor writers in plan order. */
  function AncestorWriters(graph: NodeMap, order: seq<Id>, ancestors: set<Id>): seq<Id> {
    if order == [] then []
    else
      var before, last := AncestorWriters(graph, order[..|order| - 1], ancestors), order[|order| - 1];
      if last in ancestors && Writes(graph, last) then before + [last] else before
  }

  lemma {:induction false} AncestorWritersMeaning(graph: NodeMap, order: seq<Id>, ancestors: set<Id>)
    ensures forall x :: x in AncestorWriters(graph, order, ancestors) <==>
      x in order && x in ancestors && Writes(graph, x)
  {
    if order != [] {
      AncestorWritersMeaning(graph, order[..|order| - 1], ancestors);
      SplitLast(order);
    }
  }

  /** The last of the writers found so far has none of the others after it. */
  lemma {:induction false} LastFound(graph: NodeMap, order: seq<Id>, k: nat, ancestors: set<Id>, a: Id)
    requires Topological(graph, order) && k <= |order|
    requires var found := AncestorWriters(graph, order[..k], ancestors);
             a in found && a != found[|found| - 1]
    ensures var found := AncestorWriters(graph, order[..k], ancestors);
            !Ancestor(graph, a, found[|found| - 1])
    decreases k
  {
    if k > 0 {
      assert order[..k][..k - 1] == order[..k - 1];
      var last := order[k - 1];
      if last in ancestors && Writes(graph, last) {
        AncestorWritersMeaning(graph, order[..k - 1], ancestors);
        var i :| 0 <= i < k - 1 && order[i] == a;
        LaterIsNoAncestor(graph, order, i, k - 1);
      } else {
        LastFound(graph, order, k - 1, ancestors, a);
      }
    }
  }

  lemma LaterIsNoAncestor(graph: NodeMap, order: seq<Id>, i: nat, j: nat)
    requires Topological(graph, order) && i < j < |order|
    ensures !Ancestor(graph, order[i], order[j])
  {
    if Ancestor(graph, order[i], order[j]) {
      AncestorEarlier(graph, order, i, order[j]);
    }
  }

  lemma {:induction false} LastIsLatest(plan: Plan, order: seq<Id>, n: Id, ancestors: set<Id>)
    requires ValidPlan(plan) && Topological(ById(plan.nodes), order)
    requires forall a :: a in ancestors <==> Ancestor(ById(plan.nodes), n, a)
    ensures var found := AncestorWriters(ById(plan.nodes), order, ancestors);
            && (found == [] <==> !HasWriter(ById(plan.nodes), n))
            && (found != [] ==> LatestWriter(ById(plan.nodes), n, found[|found| - 1]))
  {
    var graph := ById(plan.nodes);
    var found := AncestorWriters(graph, order, ancestors);
    FoundAreWriters(graph, order, n, ancestors);
    if HasWriter(graph, n) {
      var a :| Ancestor(graph, n, a) && Writes(graph, a);
      assert a in found;
    }
    if found != [] {
      var w := found[|found| - 1];
      assert w in found;
      forall a | Ancestor(graph, n, a) && Writes(graph, a) && a != w ensures Ancestor(graph, w, a) {
        assert a in found;
        LastBeforeNone(graph, order, ancestors, a);
        assert Ancestor(graph, a, w) || Ancestor(graph, w, a);
      }
    }
  }

  /** In an order that holds every node, the writers found are exactly those among the node's ancestors. */
  lemma {:induction false} FoundAreWriters(graph: NodeMap, order: seq<Id>, n: Id, ancestors: set<Id>)
    requires Topological(graph, order) && forall a :: a in ancestors <==> Ancestor(graph, n, a)
    ensures forall a :: a in AncestorWriters(graph, order, ancestors) <==> Ancestor(graph, n, a) && Writes(graph, a)
  {
    AncestorWritersMeaning(graph, order, ancestors);
  }

  lemma {:induction false} LastBeforeNone(graph: NodeMap, order: seq<Id>, ancestors: set<Id>, a: Id)
    requires Topological(graph, order)
    requires var found := AncestorWriters(graph, order, ancestors);
             a in found && a != found[|found| - 1]
    ensures var found := AncestorWriters(graph, order, ancestors);
            !Ancestor(graph, a, found[|found| - 1])
  {
    WholePrefix(order);
    LastFound(graph, order, |order|, ancestors, a);
  }

  /** `_node_base_commit`. Every dependency of a constructed plan is known, so its second lookup cannot fail. */
  method NodeBaseCommit(plan: Plan, n: Id, heads: map<Id, Text>) returns (r: Result<Text, PlanError>)
    requires ValidPlan(plan)
    ensures r.Ok? ==> IsBase(plan, heads, n, r.value)
    ensures r.Err? ==> !exists base :: IsBase(plan, heads, n, base)
  {
    var graph := ById(plan.nodes);
    if n !in graph {
      return Err(LifecycleViolation);
    }
    forall x, a | Ancestor(graph, x, a) ensures a in graph {
      ghost var o :| Topological(graph, o);
      AncestorsAcyclic(graph, o, x, a);
    }
    var ancestors := CollectAncestors(graph, n);
    var ordered := PlanOrder.PlanTopologicalOrder(plan.nodes);
    var writers := AncestorWriters(graph, ordered.value, ancestors);
    LastIsLatest(plan, ordered.value, n, ancestors);
    if writers == [] {
      return Ok(plan.baseCommit);
    }
    var w := writers[|writers| - 1];
    if w !in heads || !IsCommit(heads[w]) {
      NoOtherBase(plan, heads, n, w);
      return Err(LifecycleViolation);
    }
    return Ok(heads[w]);
  }

  lemma NoOtherBase(plan: Plan, heads: map<Id, Text>, n: Id, w: Id)
    requires ValidPlan(plan) && LatestWriter(ById(plan.nodes), n, w)
    requires w !in heads || !IsCommit(heads[w])
    ensures !exists base :: IsBase(plan, heads, n, base)
  {
    forall v | LatestWriter(ById(plan.nodes), n, v) ensures v == w {
      LatestWriterUnique(plan, n, v, w);
    }
  }

  /**
   No write is lost. Suppose every recorded head contains the base its node started
   from, for any notion of containment between commits that is reflexive and
   transitive. Then the base of a node contains the plan's base and the head of
   every ancestor that writes.
   */
  lemma {:induction false} BaseContainsAncestors(plan: Plan, heads: map<Id, Text>, contains: (Text, Text) -> bool,
                                                 order: seq<Id>, k: nat, base: Text)
    requires ValidPlan(plan) && Topological(ById(plan.nodes), order) && k < |order|
    requires forall c :: contains(c, c)
    requires forall a, b, c :: contains(a, b) && contains(b, c) ==> contains(a, c)
    requires forall w, b :: w in heads && Writes(ById(plan.nodes), w) && IsBase(plan, heads, w, b) ==>
      contains(heads[w], b)
    requires forall w :: w in heads && Writes(ById(plan.nodes), w) ==> exists b :: IsBase(plan, heads, w, b)
    requires IsBase(plan, heads, order[k], base)
    ensures contains(base, plan.baseCommit)
    ensures forall a :: Ancestor(ById(plan.nodes), order[k], a) && Writes(ById(plan.nodes), a) && a in heads ==>
      contains(base, heads[a])
    decreases k
  {
    var graph, n := ById(plan.nodes), order[k];
    if HasWriter(graph, n) {
      var w :| LatestWriter(graph, n, w) && w in heads && heads[w] == base;
      AncestorEarlier(graph, order, k, w);
      var j :| 0 <= j < k && order[j] == w;
      var b :| IsBase(plan, heads, w, b);
      assert contains(heads[w], b);
      BaseContainsAncestors(plan, heads, contains, order, j, b);
      forall a | Ancestor(graph, n, a) && Writes(graph, a) && a in heads ensures contains(base, heads[a]) {
        if a != w {
          assert Ancestor(graph, w, a);
        }
      }
    }
  }
}
