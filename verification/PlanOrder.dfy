/**
 Kahn's algorithm with a sorted queue of ready nodes, in the form the runtime
 uses it, and what it returns.
 */
module PlanOrder {
  import opened Wrappers
  import opened Sequences
  import opened Plans

  // ---------------------------------------------------------------- sorting

  function Insert(s: seq<Id>, x: Id): seq<Id> {
    if s == [] then [x]
    else if s[|s| - 1] < x then s + [x]
    else Insert(s[..|s| - 1], x) + [s[|s| - 1]]
  }

  /** `sorted` */
  function Sort(s: seq<Id>): seq<Id> {
    if s == [] then [] else Insert(Sort(s[..|s| - 1]), s[|s| - 1])
  }

  predicate Increasing(s: seq<Id>) {
    forall i, j :: 0 <= i < j < |s| ==> s[i] < s[j]
  }

  lemma {:induction false} InsertMembers(s: seq<Id>, x: Id)
    ensures forall y :: y in Insert(s, x) <==> y in s || y == x
    ensures |Insert(s, x)| == |s| + 1
  {
    if s != [] && s[|s| - 1] >= x {
      InsertMembers(s[..|s| - 1], x);
      SplitLast(s);
    }
  }

  lemma {:induction false} InsertIncreasing(s: seq<Id>, x: Id)
    requires Increasing(s) && x !in s
    ensures Increasing(Insert(s, x))
  {
    if s != [] && s[|s| - 1] >= x {
      var front, last := s[..|s| - 1], s[|s| - 1];
      InsertIncreasing(front, x);
      InsertMembers(front, x);
      var t := Insert(front, x);
      forall i | 0 <= i < |t| ensures t[i] < last {
        assert t[i] in t;
        if t[i] in front {
          var j :| 0 <= j < |front| && front[j] == t[i];
          assert s[j] < s[|s| - 1];
        }
      }
    }
  }

  lemma {:induction false} SortMeaning(s: seq<Id>)
    requires Unique(s)
    ensures Increasing(Sort(s)) && |Sort(s)| == |s|
    ensures forall y :: y in Sort(s) <==> y in s
  {
    if s != [] {
      var front, last := s[..|s| - 1], s[|s| - 1];
      SortMeaning(front);
      assert s == front + [last];
      assert last !in front;
      InsertMembers(Sort(front), last);
      InsertIncreasing(Sort(front), last);
    }
  }

  lemma {:induction false} SortMembers(s: seq<Id>)
    ensures forall y :: y in Sort(s) <==> y in s
  {
    if s != [] {
      SortMembers(s[..|s| - 1]);
      SplitLast(s);
      InsertMembers(Sort(s[..|s| - 1]), s[|s| - 1]);
    }
  }

  // ---------------------------------------------------------------- the two tables

  type Dependents = map<Id, seq<Id>>

  /** `dependents[d]` lists the nodes that depend on `d`, each once. */
  ghost predicate Inverse(graph: NodeMap, dependents: Dependents) {
    && dependents.Keys == graph.Keys
    && (forall d :: d in dependents ==> Unique(dependents[d]))
    && forall d, x :: d in dependents ==> (x in dependents[d] <==> DependsOn(graph, x, d))
  }

  function Unplaced(graph: NodeMap, placed: seq<Id>, x: Id): set<Id>
    requires x in graph
  {
    set d | d in graph[x].dependsOn && d !in placed
  }

  /** `remaining[x]` is the number of dependencies of `x` still to be placed. */
  ghost predicate Counts(graph: NodeMap, placed: seq<Id>, remaining: map<Id, int>) {
    && remaining.Keys == graph.Keys
    && forall x :: x in graph ==> remaining[x] == |Unplaced(graph, placed, x)|
  }

  /** `ready` lists, in order, the nodes nothing holds back. */
  ghost predicate Queue(graph: NodeMap, placed: seq<Id>, remaining: map<Id, int>, ready: seq<Id>) {
    && Increasing(ready)
    && forall x :: x in ready <==> x in remaining && remaining[x] == 0 && x !in placed
  }

  /** The order so far. */
  ghost predicate Prefix(graph: NodeMap, placed: seq<Id>) {
    Unique(placed) && Greedy(graph, placed)
  }

  /** `dependents` while node `i` is being entered, its first `j` dependencies done. */
  ghost predicate InverseUpTo(nodes: seq<PlanNode>, i: nat, j: nat, keys: set<Id>, dependents: Dependents)
    requires i <= |nodes| && (i < |nodes| ==> j <= |nodes[i].dependsOn|)
  {
    && dependents.Keys == keys
    && (forall d :: d in dependents ==> Unique(dependents[d]))
    && forall d, x :: d in dependents ==>
         (x in dependents[d] <==>
          DependsOn(ById(nodes[..i]), x, d) || (i < |nodes| && x == nodes[i].id && d in nodes[i].dependsOn[..j]))
  }

  lemma PrefixOfNodes(nodes: seq<PlanNode>, i: nat)
    requires Unique(Ids(nodes)) && i < |nodes|
    ensures Unique(Ids(nodes[..i]))
    ensures nodes[i].id !in ById(nodes[..i])
    ensures ById(nodes[..i + 1]) == ById(nodes[..i])[nodes[i].id := nodes[i]]
  {
    var front := nodes[..i];
    forall a, b | 0 <= a < b < |front| ensures Ids(front)[a] != Ids(front)[b] {
      assert Ids(nodes)[a] != Ids(nodes)[b];
    }
    ByIdMeaning(front);
    forall a | 0 <= a < i ensures Ids(front)[a] != nodes[i].id {
      assert Ids(nodes)[a] != Ids(nodes)[i];
    }
    assert nodes[..i + 1][..i] == front;
  }

  lemma EnterDependency(nodes: seq<PlanNode>, i: nat, j: nat, keys: set<Id>, dependents: Dependents)
    requires Unique(Ids(nodes)) && NodesValid(nodes) && i < |nodes| && j < |nodes[i].dependsOn|
    requires InverseUpTo(nodes, i, j, keys, dependents)
    requires nodes[i].dependsOn[j] in dependents
    ensures var d := nodes[i].dependsOn[j];
            InverseUpTo(nodes, i, j + 1, keys, dependents[d := dependents[d] + [nodes[i].id]])
  {
    PrefixOfNodes(nodes, i);
    var deps := nodes[i].dependsOn;
    var d := deps[j];
    assert d !in deps[..j] by {
      assert NodeValid(nodes[i]);
    }
    assert nodes[i].id !in dependents[d];
    assert deps[..j + 1] == deps[..j] + [d];
  }

  lemma {:induction false} FirstNode(nodes: seq<PlanNode>, dependents: Dependents)
    requires dependents.Keys == ById(nodes).Keys && forall d :: d in dependents ==> dependents[d] == []
    ensures InverseUpTo(nodes, 0, 0, ById(nodes).Keys, dependents)
  {
    assert nodes[..0] == [];
  }

  lemma NextNode(nodes: seq<PlanNode>, i: nat, keys: set<Id>, dependents: Dependents)
    requires Unique(Ids(nodes)) && i < |nodes|
    requires InverseUpTo(nodes, i, |nodes[i].dependsOn|, keys, dependents)
    ensures InverseUpTo(nodes, i + 1, 0, keys, dependents)
  {
    PrefixOfNodes(nodes, i);
    var deps := nodes[i].dependsOn;
    WholePrefix(deps);
    var before := ById(nodes[..i]);
    var after := ById(nodes[..i + 1]);
    forall d, x | d in dependents ensures x in dependents[d] <==> DependsOn(after, x, d) {
      assert DependsOn(after, x, d) <==> DependsOn(before, x, d) || (x == nodes[i].id && d in deps);
    }
  }

  lemma OrderHoldsDependency(graph: NodeMap, order: seq<Id>, x: Id, d: Id)
    requires Topological(graph, order) && DependsOn(graph, x, d)
    ensures d in graph
  {
    var i :| 0 <= i < |order| && order[i] == x;
    assert d in order[..i];
    assert d in order;
  }

  /** Nothing can come after an unknown dependency. */
  lemma {:induction false} UnknownBlocksOrder(nodes: seq<PlanNode>, k: nat, j: nat)
    requires Unique(Ids(nodes)) && k < |nodes| && j < |nodes[k].dependsOn|
    requires nodes[k].dependsOn[j] !in ById(nodes)
    ensures !HasOrder(ById(nodes))
  {
    ByIdMeaning(nodes);
    assert DependsOn(ById(nodes), nodes[k].id, nodes[k].dependsOn[j]);
    forall order ensures !Topological(ById(nodes), order) {
      if Topological(ById(nodes), order) {
        OrderHoldsDependency(ById(nodes), order, nodes[k].id, nodes[k].dependsOn[j]);
      }
    }
  }

  /** Keys and members of the table are identifiers of nodes. */
  ghost predicate Known(graph: NodeMap, dependents: Dependents) {
    dependents.Keys == graph.Keys && forall d, x :: d in dependents && x in dependents[d] ==> x in graph
  }

  lemma {:induction false} ByIdHolds(nodes: seq<PlanNode>)
    ensures forall i :: 0 <= i < |nodes| ==> nodes[i].id in ById(nodes)
    ensures ById(nodes).Keys == set x | x in Ids(nodes)
  {
    if nodes != [] {
      ByIdHolds(nodes[..|nodes| - 1]);
      assert Ids(nodes) == Ids(nodes[..|nodes| - 1]) + [nodes[|nodes| - 1].id];
    }
  }

  /** The first loop: the inverse table, or nothing when a dependency is unknown. */
  method BuildDependents(nodes: seq<PlanNode>) returns (r: Option<Dependents>)
    requires NodesValid(nodes)
    ensures r.Some? ==> Known(ById(nodes), r.value) && (Unique(Ids(nodes)) ==> Inverse(ById(nodes), r.value))
    ensures r.None? ==> !(Unique(Ids(nodes)) && HasOrder(ById(nodes)))
  {
    ByIdHolds(nodes);
    var dependents: Dependents := map x | x in ById(nodes) :: [];
    FirstNode(nodes, dependents);
    for i := 0 to |nodes|
      invariant Entered(nodes, i, 0, dependents)
    {
      var entered := EnterNode(nodes, i, dependents);
      if entered.None? {
        return None;
      }
      dependents := entered.value;
    }
    WholePrefix(nodes);
    return Some(dependents);
  }

  /** The table holds only known nodes, and with distinct identifiers it is the inverse so far. */
  ghost predicate Entered(nodes: seq<PlanNode>, i: nat, j: nat, dependents: Dependents)
    requires i <= |nodes| && (i < |nodes| ==> j <= |nodes[i].dependsOn|)
  {
    && Known(ById(nodes), dependents)
    && (Unique(Ids(nodes)) ==> InverseUpTo(nodes, i, j, ById(nodes).Keys, dependents))
  }

  /** The inner loop: one node under each of its dependencies. */
  method EnterNode(nodes: seq<PlanNode>, i: nat, before: Dependents) returns (r: Option<Dependents>)
    requires NodesValid(nodes) && i < |nodes| && Entered(nodes, i, 0, before)
    ensures r.Some? ==> Entered(nodes, i + 1, 0, r.value)
    ensures r.None? ==> !(Unique(Ids(nodes)) && HasOrder(ById(nodes)))
  {
    ByIdHolds(nodes);
    var dependents, deps := before, nodes[i].dependsOn;
    for j := 0 to |deps|
      invariant Entered(nodes, i, j, dependents)
    {
      if deps[j] !in dependents {
        if Unique(Ids(nodes)) {
          UnknownBlocksOrder(nodes, i, j);
        }
        return None;
      }
      if Unique(Ids(nodes)) {
        EnterDependency(nodes, i, j, ById(nodes).Keys, dependents);
      }
      dependents := dependents[deps[j] := dependents[deps[j]] + [nodes[i].id]];
    }
    if Unique(Ids(nodes)) {
      NextNode(nodes, i, ById(nodes).Keys, dependents);
    }
    return Some(dependents);
  }

  // ---------------------------------------------------------------- one node placed

  lemma PrefixStep(graph: NodeMap, placed: seq<Id>, remaining: map<Id, int>, ready: seq<Id>)
    requires Prefix(graph, placed) && Counts(graph, placed, remaining)
    requires Queue(graph, placed, remaining, ready) && ready != []
    ensures Prefix(graph, placed + [ready[0]])
    ensures ready[0] in graph && ready[0] !in placed && !DependsOn(graph, ready[0], ready[0])
  {
    var n := ready[0];
    assert n in ready;
    forall y ensures IsReady(graph, placed, y) <==> y in ready {
      ReadyMeaning(graph, placed, remaining, ready, y);
    }
    forall y | IsReady(graph, placed, y) ensures n <= y {
      assert y in ready;
    }
    assert IsLeastReady(graph, placed, n);
    var after := placed + [n];
    forall i | 0 <= i < |after| ensures IsLeastReady(graph, after[..i], after[i]) {
      if i < |placed| {
        assert after[..i] == placed[..i];
      } else {
        assert after[..i] == placed;
      }
    }
  }

  lemma ReadyMeaning(graph: NodeMap, placed: seq<Id>, remaining: map<Id, int>, ready: seq<Id>, y: Id)
    requires Counts(graph, placed, remaining) && Queue(graph, placed, remaining, ready)
    ensures IsReady(graph, placed, y) <==> y in ready
  {
    if y in graph {
      var waiting := Unplaced(graph, placed, y);
      if remaining[y] == 0 {
        assert |waiting| == 0;
        forall d | DependsOn(graph, y, d) ensures d in placed {
          assert d !in waiting;
        }
      }
      if forall d :: DependsOn(graph, y, d) ==> d in placed {
        forall d ensures d !in waiting {
          assert d in graph[y].dependsOn ==> DependsOn(graph, y, d);
        }
        assert waiting == {};
      }
    }
  }

  /** The tables while the dependents of `n`, just placed, are counted down; `done` are finished. */
  ghost predicate CountsMid(graph: NodeMap, placed: seq<Id>, n: Id, finished: seq<Id>, remaining: map<Id, int>) {
    && remaining.Keys == graph.Keys
    && forall x :: x in graph ==>
         remaining[x] == |Unplaced(graph, placed, x)| - (if x in finished then 1 else 0)
  }

  lemma CountsEnd(graph: NodeMap, placed: seq<Id>, n: Id, finished: seq<Id>, remaining: map<Id, int>)
    requires CountsMid(graph, placed, n, finished, remaining) && n !in placed
    requires forall x :: x in finished <==> DependsOn(graph, x, n)
    ensures Counts(graph, placed + [n], remaining)
  {
    forall x | x in graph ensures remaining[x] == |Unplaced(graph, placed + [n], x)| {
      var before, after := Unplaced(graph, placed, x), Unplaced(graph, placed + [n], x);
      if DependsOn(graph, x, n) {
        assert before == after + {n};
      } else {
        assert before == after;
      }
    }
  }

  lemma PlacedIsClosed(graph: NodeMap, placed: seq<Id>, x: Id, d: Id)
    requires Prefix(graph, placed) && x in placed && DependsOn(graph, x, d)
    ensures d in placed
  {
    var i :| 0 <= i < |placed| && placed[i] == x;
    assert IsLeastReady(graph, placed[..i], placed[i]);
    assert d in placed[..i];
  }

  /** The counts and the queue once the first `j` of `sorted` are counted down. */
  ghost predicate Releasing(graph: NodeMap, placed: seq<Id>, n: Id, sorted: seq<Id>, j: nat, remaining: map<Id, int>,
                            ready: seq<Id>)
    requires j <= |sorted|
  {
    CountsMid(graph, placed, n, sorted[..j], remaining) && Queue(graph, placed + [n], remaining, ready)
  }

  /** Counting one dependent down. */
  lemma {:induction false} CountDown(graph: NodeMap, placed: seq<Id>, n: Id, sorted: seq<Id>, j: nat,
                                     remaining: map<Id, int>, ready: seq<Id>)
    requires Prefix(graph, placed) && n !in placed && !DependsOn(graph, n, n)
    requires j < |sorted| && Increasing(sorted) && DependsOn(graph, sorted[j], n)
    requires Releasing(graph, placed, n, sorted, j, remaining, ready)
    ensures sorted[j] in remaining
    ensures var less := remaining[sorted[j] := remaining[sorted[j]] - 1];
            Releasing(graph, placed, n, sorted, j + 1, less, if less[sorted[j]] == 0 then Sort(ready + [sorted[j]])
                      else ready)
  {
    var x, finished := sorted[j], sorted[..j];
    assert x !in finished;
    assert sorted[..j + 1] == finished + [x];
    if x in placed {
      PlacedIsClosed(graph, placed, x, n);
    }
    assert n in Unplaced(graph, placed, x);
    assert remaining[x] >= 1;
    assert x !in ready;
    SortMeaning(ready + [x]);
  }

  /** What holds whether or not identifiers repeat: nothing is queued or placed twice. */
  ghost predicate Once(graph: NodeMap, placed: seq<Id>, remaining: map<Id, int>, ready: seq<Id>) {
    && remaining.Keys == graph.Keys
    && Unique(placed) && Increasing(ready)
    && (forall x :: x in placed ==> x in graph && remaining[x] <= 0 && x !in ready)
    && (forall x :: x in ready ==> x in graph && remaining[x] <= 0)
  }

  lemma {:induction false} OnceDown(graph: NodeMap, placed: seq<Id>, remaining: map<Id, int>, ready: seq<Id>, x: Id)
    requires Once(graph, placed, remaining, ready) && x in graph
    ensures var less := remaining[x := remaining[x] - 1];
            Once(graph, placed, less, if less[x] == 0 then Sort(ready + [x]) else ready)
  {
    if remaining[x] == 1 {
      assert x !in ready && x !in placed;
      SortMeaning(ready + [x]);
    }
  }

  lemma OncePop(graph: NodeMap, placed: seq<Id>, remaining: map<Id, int>, ready: seq<Id>)
    requires Once(graph, placed, remaining, ready) && ready != []
    ensures Once(graph, placed + [ready[0]], remaining, ready[1..])
  {
    assert ready == [ready[0]] + ready[1..];
    assert ready[0] in ready;
    forall x | x in ready[1..] ensures x in ready && x != ready[0] {
      var i :| 0 <= i < |ready| - 1 && ready[1..][i] == x;
      assert ready[0] < ready[i + 1];
    }
  }

  /** The inner loop; `strict` says that identifiers are distinct and the counts exact. */
  method Release(ghost graph: NodeMap, ghost placed: seq<Id>, n: Id, dependents: seq<Id>, remaining0: map<Id, int>,
                 ready0: seq<Id>, ghost strict: bool)
    returns (remaining: map<Id, int>, ready: seq<Id>)
    requires Once(graph, placed + [n], remaining0, ready0) && forall x :: x in dependents ==> x in graph
    requires strict ==> Prefix(graph, placed) && n !in placed && !DependsOn(graph, n, n)
    requires strict ==> Unique(dependents) && forall x :: x in dependents <==> DependsOn(graph, x, n)
    requires strict ==> Counts(graph, placed, remaining0) && Queue(graph, placed + [n], remaining0, ready0)
    ensures Once(graph, placed + [n], remaining, ready)
    ensures strict ==> Counts(graph, placed + [n], remaining) && Queue(graph, placed + [n], remaining, ready)
  {
    remaining, ready := remaining0, ready0;
    var sorted := Sort(dependents);
    SortMembers(dependents);
    if strict {
      SortMeaning(dependents);
      assert sorted[..0] == [];
    }
    for j := 0 to |sorted|
      invariant Once(graph, placed + [n], remaining, ready)
      invariant strict ==> Releasing(graph, placed, n, sorted, j, remaining, ready)
    {
      var x := sorted[j];
      assert x in sorted;
      OnceDown(graph, placed + [n], remaining, ready, x);
      if strict {
        CountDown(graph, placed, n, sorted, j, remaining, ready);
      }
      remaining := remaining[x := remaining[x] - 1];
      if remaining[x] == 0 {
        ready := Sort(ready + [x]);
      }
    }
    if strict {
      WholePrefix(sorted);
      CountsEnd(graph, placed, n, sorted, remaining);
    }
  }

  // ---------------------------------------------------------------- the whole loop

  /** `{node.node_id: len(node.depends_on)}` */
  function Degrees(nodes: seq<PlanNode>): map<Id, int> {
    var graph := ById(nodes);
    map x | x in graph :: |graph[x].dependsOn|
  }

  /** The keys that count zero, each once; the caller sorts them. */
  function Zeros(ids: seq<Id>, remaining: map<Id, int>): seq<Id> {
    if ids == [] then []
    else
      var before, last := Zeros(ids[..|ids| - 1], remaining), ids[|ids| - 1];
      if last in remaining && remaining[last] == 0 && last !in before then before + [last] else before
  }

  lemma {:induction false} ZerosMeaning(ids: seq<Id>, remaining: map<Id, int>)
    ensures Unique(Zeros(ids, remaining))
    ensures forall x :: x in Zeros(ids, remaining) <==> x in ids && x in remaining && remaining[x] == 0
  {
    if ids != [] {
      ZerosMeaning(ids[..|ids| - 1], remaining);
      SplitLast(ids);
    }
  }

  lemma {:induction false} Initial(nodes: seq<PlanNode>)
    requires NodesValid(nodes)
    ensures Once(ById(nodes), [], Degrees(nodes), Sort(Zeros(Ids(nodes), Degrees(nodes))))
    ensures Unique(Ids(nodes)) ==>
              Counts(ById(nodes), [], Degrees(nodes))
              && Queue(ById(nodes), [], Degrees(nodes), Sort(Zeros(Ids(nodes), Degrees(nodes))))
  {
    var graph := ById(nodes);
    ByIdHolds(nodes);
    ZerosMeaning(Ids(nodes), Degrees(nodes));
    SortMeaning(Zeros(Ids(nodes), Degrees(nodes)));
    if Unique(Ids(nodes)) {
      forall x | x in graph ensures |graph[x].dependsOn| == |Unplaced(graph, [], x)| {
        NodeOf(nodes, x);
        UniqueSize(graph[x].dependsOn);
        assert Unplaced(graph, [], x) == set d | d in graph[x].dependsOn;
      }
    }
  }

  /** As many distinct identifiers as nodes means that none repeats. */
  lemma {:induction false} SizeMeansUnique(s: seq<Id>)
    ensures |set x | x in s| <= |s|
    ensures |set x | x in s| == |s| ==> Unique(s)
  {
    if s == [] {
      assert (set x | x in s) == {};
    } else {
      var front, last := s[..|s| - 1], s[|s| - 1];
      SizeMeansUnique(front);
      assert s == front + [last];
      assert (set x | x in s) == (set x | x in front) + {last};
      if last in front {
        assert (set x | x in s) == (set x | x in front);
      }
    }
  }

  lemma OnceSize(graph: NodeMap, placed: seq<Id>, remaining: map<Id, int>, ready: seq<Id>)
    requires Once(graph, placed, remaining, ready)
    ensures |placed| <= |graph|
  {
    UniqueSize(placed);
    SubsetSize((set x | x in placed), graph.Keys);
    assert |graph.Keys| == |graph|;
  }

  lemma {:induction false} NodeOf(nodes: seq<PlanNode>, x: Id)
    requires Unique(Ids(nodes)) && NodesValid(nodes) && x in ById(nodes)
    ensures NodeValid(ById(nodes)[x]) && ById(nodes)[x].id == x
  {
    ByIdMeaning(nodes);
    assert x in Ids(nodes);
    var i :| 0 <= i < |nodes| && Ids(nodes)[i] == x;
  }

  lemma PlacedSize(graph: NodeMap, placed: seq<Id>)
    requires Prefix(graph, placed)
    ensures forall x :: x in placed ==> x in graph
    ensures |placed| <= |graph|
    ensures |placed| == |graph| ==> forall x :: x in graph ==> x in placed
  {
    forall x | x in placed ensures x in graph {
      var i :| 0 <= i < |placed| && placed[i] == x;
      assert IsLeastReady(graph, placed[..i], placed[i]);
    }
    UniqueSize(placed);
    SubsetSize((set x | x in placed), graph.Keys);
    assert |graph.Keys| == |graph|;
    if |placed| == |graph| {
      assert (set x | x in placed) == graph.Keys;
    }
  }

  lemma AllPlaced(graph: NodeMap, placed: seq<Id>)
    requires Prefix(graph, placed) && |placed| == |graph|
    ensures Topological(graph, placed)
  {
    PlacedSize(graph, placed);
    forall i, d | 0 <= i < |placed| && DependsOn(graph, placed[i], d) ensures d in placed[..i] {
      assert IsLeastReady(graph, placed[..i], placed[i]);
    }
  }

  /** While a node is missing from `placed`, the first missing one of any order is ready. */
  lemma SomethingReady(graph: NodeMap, placed: seq<Id>, order: seq<Id>)
    requires Topological(graph, order) && exists x :: x in graph && x !in placed
    ensures exists y :: IsReady(graph, placed, y)
  {
    var x :| x in graph && x !in placed;
    var k :| 0 <= k < |order| && order[k] == x;
    var i := 0;
    while order[i] in placed
      invariant i <= k && forall j :: 0 <= j < i ==> order[j] in placed
      decreases k - i
    {
      i := i + 1;
    }
    forall d | DependsOn(graph, order[i], d) ensures d in placed {
      assert d in order[..i];
    }
    assert order[i] in order;
    assert IsReady(graph, placed, order[i]);
  }

  lemma SomethingMissing(graph: NodeMap, placed: seq<Id>)
    requires Prefix(graph, placed) && |placed| != |graph|
    ensures exists x :: x in graph && x !in placed
  {
    PlacedSize(graph, placed);
    UniqueSize(placed);
    assert (forall x :: x in graph ==> x in placed) ==> graph.Keys == set x | x in placed;
  }

  /** When nothing is ready and something is missing, no order exists. */
  lemma Stuck(graph: NodeMap, placed: seq<Id>, remaining: map<Id, int>)
    requires Prefix(graph, placed) && |placed| != |graph|
    requires Counts(graph, placed, remaining) && Queue(graph, placed, remaining, [])
    ensures !HasOrder(graph)
  {
    SomethingMissing(graph, placed);
    forall y ensures !IsReady(graph, placed, y) {
      ReadyMeaning(graph, placed, remaining, [], y);
    }
    forall order ensures !Topological(graph, order) {
      if Topological(graph, order) {
        SomethingReady(graph, placed, order);
      }
    }
  }

  /**
   `plan_topological_order`: the lexicographically least order of the nodes, or
   nothing when an identifier repeats or there is no order at all.
   */
  method PlanTopologicalOrder(nodes: seq<PlanNode>) returns (r: Option<seq<Id>>)
    requires NodesValid(nodes)
    ensures r.Some? ==> Unique(Ids(nodes)) && Topological(ById(nodes), r.value) && Greedy(ById(nodes), r.value)
    ensures r.None? <==> !(Unique(Ids(nodes)) && HasOrder(ById(nodes)))
  {
    ghost var graph, strict := ById(nodes), Unique(Ids(nodes));
    var dependents := BuildDependents(nodes);
    if dependents.None? {
      return None;
    }
    var remaining := Degrees(nodes);
    var ready := Sort(Zeros(Ids(nodes), remaining));
    Initial(nodes);
    var ordered: seq<Id> := [];
    while ready != []
      invariant Once(graph, ordered, remaining, ready) && |ordered| <= |graph|
      invariant strict ==> Prefix(graph, ordered) && Counts(graph, ordered, remaining)
      invariant strict ==> Queue(graph, ordered, remaining, ready)
      decreases |graph| - |ordered|
    {
      var n := ready[0];
      OncePop(graph, ordered, remaining, ready);
      OnceSize(graph, ordered + [n], remaining, ready[1..]);
      if strict {
        PrefixStep(graph, ordered, remaining, ready);
        PopQueue(graph, ordered, remaining, ready);
      }
      ready := ready[1..];
      remaining, ready := Release(graph, ordered, n, dependents.value[n], remaining, ready, strict);
      ordered := ordered + [n];
    }
    ByIdHolds(nodes);
    SizeMeansUnique(Ids(nodes));
    assert |graph| == |graph.Keys|;
    if |ordered| != |nodes| {
      if strict {
        ByIdMeaning(nodes);
        Stuck(graph, ordered, remaining);
      }
      return None;
    }
    AllPlaced(graph, ordered);
    return Some(ordered);
  }

  lemma PopQueue(graph: NodeMap, placed: seq<Id>, remaining: map<Id, int>, ready: seq<Id>)
    requires Queue(graph, placed, remaining, ready) && ready != []
    ensures Queue(graph, placed + [ready[0]], remaining, ready[1..])
  {
    assert ready == [ready[0]] + ready[1..];
    forall x ensures x in ready[1..] <==> x in ready && x != ready[0] {
      if x in ready[1..] {
        var i :| 0 <= i < |ready| - 1 && ready[1..][i] == x;
        assert ready[0] < ready[i + 1];
      }
    }
  }
}
