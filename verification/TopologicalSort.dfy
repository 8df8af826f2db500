/** Kahn's algorithm as the plan coordinator runs it, from any iteration order of its in-degree map. */
module TopologicalSort {
  import opened Common
  import opened TaskGraph

  /** One entry of one dependency list: `target` waits for `dep`. */
  datatype Edge = Edge(dep: ID, target: ID)

  function EdgesInto(id: ID, deps: seq<ID>): seq<Edge> {
    seq(|deps|, i requires 0 <= i < |deps| => Edge(deps[i], id))
  }

  /** All dependency entries of a plan, repeats included. */
  function EdgesOf(subtasks: seq<Subtask>): seq<Edge> {
    if subtasks == [] then []
    else
      var last := subtasks[|subtasks| - 1];
      EdgesOf(subtasks[..|subtasks| - 1]) + EdgesInto(last.id, last.dependencies)
  }

  /** How many entries of `id` name a dependency outside `done`. */
  function Unmet(edges: seq<Edge>, id: ID, done: set<ID>): nat {
    if edges == [] then 0
    else
      var e := edges[|edges| - 1];
      Unmet(edges[..|edges| - 1], id, done) + if e.target == id && e.dep !in done then 1 else 0
  }

  /** The ids waiting for `dep`, once per entry. */
  function Targets(edges: seq<Edge>, dep: ID): seq<ID> {
    if edges == [] then []
    else
      var e := edges[|edges| - 1];
      Targets(edges[..|edges| - 1], dep) + if e.dep == dep then [e.target] else []
  }

  lemma {:induction false} EdgeMeaning(subtasks: seq<Subtask>, e: Edge)
    ensures e in EdgesOf(subtasks) <==> DependsOn(subtasks, e.target, e.dep)
  {
    if subtasks != [] {
      var n := |subtasks| - 1;
      var last := subtasks[n];
      var front := subtasks[..n];
      var own := EdgesInto(last.id, last.dependencies);
      EdgeMeaning(front, e);
      if last.id == e.target && e.dep in last.dependencies {
        var i :| 0 <= i < |last.dependencies| && last.dependencies[i] == e.dep;
        assert own[i] == e;
      }
      if DependsOn(front, e.target, e.dep) {
        var k :| 0 <= k < |front| && front[k].id == e.target && e.dep in front[k].dependencies;
        assert subtasks[k] == front[k];
      }
      if DependsOn(subtasks, e.target, e.dep) {
        var k :| 0 <= k < |subtasks| && subtasks[k].id == e.target && e.dep in subtasks[k].dependencies;
        assert k < n ==> front[k] == subtasks[k];
      }
    }
  }

  /** Finishing `dep` meets exactly the entries listed for it. */
  lemma {:induction false} UnmetStep(edges: seq<Edge>, id: ID, done: set<ID>, dep: ID)
    requires dep !in done
    ensures Unmet(edges, id, done + {dep}) == Unmet(edges, id, done) - multiset(Targets(edges, dep))[id]
  {
    if edges != [] {
      UnmetStep(edges[..|edges| - 1], id, done, dep);
    }
  }

  lemma {:induction false} UnmetZero(edges: seq<Edge>, id: ID, done: set<ID>)
    ensures Unmet(edges, id, done) == 0 <==> forall e :: e in edges && e.target == id ==> e.dep in done
  {
    if edges != [] {
      var front := edges[..|edges| - 1];
      UnmetZero(front, id, done);
      assert edges == front + [edges[|edges| - 1]];
    }
  }

  lemma {:induction false} TargetsAreTargets(edges: seq<Edge>, dep: ID, id: ID)
    requires id in Targets(edges, dep)
    ensures Edge(dep, id) in edges
  {
    if edges != [] {
      var front := edges[..|edges| - 1];
      if id in Targets(front, dep) {
        TargetsAreTargets(front, dep, id);
      }
    }
  }

  lemma EdgesStayInside(subtasks: seq<Subtask>)
    ensures forall e :: e in EdgesOf(subtasks) ==> e.target in Ids(subtasks)
  {
    forall e | e in EdgesOf(subtasks) ensures e.target in Ids(subtasks) {
      EdgeMeaning(subtasks, e);
      var k :| 0 <= k < |subtasks| && subtasks[k].id == e.target;
      assert Ids(subtasks)[k] == e.target;
    }
  }

  /** The two maps built by the first loop describe exactly the entries in `edges`. */
  ghost predicate Describes(inDegree: map<ID, int>, dependents: map<ID, seq<ID>>, ids: set<ID>, edges: seq<Edge>) {
    && inDegree.Keys == ids
    && (forall id :: id in ids ==> inDegree[id] == Unmet(edges, id, {}))
    && (forall d :: Lookup(dependents, d) == Targets(edges, d))
  }

  /** Reading a missing key of a Go map of slices. */
  function Lookup(dependents: map<ID, seq<ID>>, d: ID): seq<ID> {
    if d in dependents then dependents[d] else []
  }

  lemma {:induction false} UnmetAppend(edges: seq<Edge>, e: Edge)
    ensures forall id, done ::
              Unmet(edges + [e], id, done) == Unmet(edges, id, done) + if e.target == id && e.dep !in done then 1 else 0
    ensures forall d :: Targets(edges + [e], d) == Targets(edges, d) + if e.dep == d then [e.target] else []
  {
    assert (edges + [e])[..|edges|] == edges;
  }

  /** Recording one entry in both maps. */
  lemma DescribesStep(inDegree: map<ID, int>, dependents: map<ID, seq<ID>>, ids: set<ID>, edges: seq<Edge>, e: Edge)
    requires Describes(inDegree, dependents, ids, edges) && e.target in ids
    ensures Describes(inDegree[e.target := inDegree[e.target] + 1],
        dependents[e.dep := Lookup(dependents, e.dep) + [e.target]], ids, edges + [e])
  {
    UnmetAppend(edges, e);
    var dependents' := dependents[e.dep := Lookup(dependents, e.dep) + [e.target]];
    forall d ensures Lookup(dependents', d) == Targets(edges + [e], d) {
      assert Lookup(dependents, d) == Targets(edges, d);
    }
  }

  lemma OwnStep(st: Subtask, i: nat, inDegree: map<ID, int>, dependents: map<ID, seq<ID>>, ids: set<ID>,
      edges: seq<Edge>)
    requires i < |st.dependencies| && st.id in ids
    requires Describes(inDegree, dependents, ids, edges + EdgesInto(st.id, st.dependencies)[..i])
    ensures var dep := st.dependencies[i];
            Describes(inDegree[st.id := inDegree[st.id] + 1], dependents[dep := Lookup(dependents, dep) + [st.id]], ids,
                      edges + EdgesInto(st.id, st.dependencies)[..i + 1])
  {
    var own := EdgesInto(st.id, st.dependencies);
    DescribesStep(inDegree, dependents, ids, edges + own[..i], own[i]);
    assert edges + own[..i + 1] == (edges + own[..i]) + [own[i]];
  }

  method AddDependencies(st: Subtask, inDegree0: map<ID, int>, dependents0: map<ID, seq<ID>>, ghost ids: set<ID>,
      ghost edges: seq<Edge>)
    returns (inDegree: map<ID, int>, dependents: map<ID, seq<ID>>)
    requires Describes(inDegree0, dependents0, ids, edges) && st.id in ids
    ensures Describes(inDegree, dependents, ids, edges + EdgesInto(st.id, st.dependencies))
  {
    inDegree, dependents := inDegree0, dependents0;
    ghost var own := EdgesInto(st.id, st.dependencies);
    assert edges + own[..0] == edges;
    for i := 0 to |st.dependencies|
      invariant Describes(inDegree, dependents, ids, edges + own[..i])
    {
      var dep := st.dependencies[i];
      OwnStep(st, i, inDegree, dependents, ids, edges);
      dependents := dependents[dep := Lookup(dependents, dep) + [st.id]];
      inDegree := inDegree[st.id := inDegree[st.id] + 1];
    }
    assert own[..|own|] == own;
  }

  lemma NoEdgesYet(edges: seq<Edge>, id: ID, ids: set<ID>)
    requires forall e :: e in edges ==> e.target in ids
    requires id !in ids
    ensures Unmet(edges, id, {}) == 0
  {
    UnmetZero(edges, id, {});
  }

  lemma PlanGrows(subtasks: seq<Subtask>, i: nat)
    requires i < |subtasks|
    ensures var st := subtasks[i];
            && Elements(Ids(subtasks[..i + 1])) == Elements(Ids(subtasks[..i])) + {st.id}
            && EdgesOf(subtasks[..i + 1]) == EdgesOf(subtasks[..i]) + EdgesInto(st.id, st.dependencies)
  {
    assert subtasks[..i + 1][..i] == subtasks[..i];
    assert Ids(subtasks[..i + 1]) == Ids(subtasks[..i]) + [subtasks[i].id];
  }

  /** A new id starts at in-degree zero. */
  lemma EntryAdded(subtasks: seq<Subtask>, inDegree: map<ID, int>, dependents: map<ID, seq<ID>>, id: ID)
    requires Describes(inDegree, dependents, Elements(Ids(subtasks)), EdgesOf(subtasks))
    ensures Describes(if id in inDegree then inDegree
        else inDegree[id := 0], dependents, Elements(Ids(subtasks)) + {id}, EdgesOf(subtasks))
  {
    if id !in inDegree {
      EdgesStayInside(subtasks);
      NoEdgesYet(EdgesOf(subtasks), id, Elements(Ids(subtasks)));
    } else {
      assert Elements(Ids(subtasks)) + {id} == Elements(Ids(subtasks));
    }
  }

  method BuildGraph(subtasks: seq<Subtask>) returns (inDegree: map<ID, int>, dependents: map<ID, seq<ID>>)
    ensures Describes(inDegree, dependents, Elements(Ids(subtasks)), EdgesOf(subtasks))
  {
    inDegree, dependents := map[], map[];
    for i := 0 to |subtasks|
      invariant Describes(inDegree, dependents, Elements(Ids(subtasks[..i])), EdgesOf(subtasks[..i]))
    {
      var st := subtasks[i];
      ghost var ids, edges := Elements(Ids(subtasks[..i])), EdgesOf(subtasks[..i]);
      EntryAdded(subtasks[..i], inDegree, dependents, st.id);
      if st.id !in inDegree {
        inDegree := inDegree[st.id := 0];
      }
      PlanGrows(subtasks, i);
      inDegree, dependents := AddDependencies(st, inDegree, dependents, ids + {st.id}, edges);
    }
    assert subtasks[..|subtasks|] == subtasks;
  }

  /** Collects the ids without dependencies, visiting the map's keys in any order. */
  method SeedQueue(inDegree: map<ID, int>) returns (queue: seq<ID>)
    ensures NoDuplicates(queue)
    ensures forall id :: id in queue <==> id in inDegree && inDegree[id] == 0
  {
    queue := [];
    var left := inDegree.Keys;
    while left != {}
      invariant left <= inDegree.Keys
      invariant NoDuplicates(queue)
      invariant forall id :: id in queue <==> id in inDegree.Keys - left && inDegree[id] == 0
      decreases left
    {
      var id :| id in left;
      left := left - {id};
      if inDegree[id] == 0 {
        queue := queue + [id];
      }
    }
  }

  /** The state between two dequeues: in-degrees count what is not yet ordered, and zero means ordered or queued. */
  ghost predicate KahnState(ids: set<ID>, edges: seq<Edge>, inDegree: map<ID, int>, order: seq<ID>, queue: seq<ID>) {
    && inDegree.Keys == ids
    && NoDuplicates(order + queue)
    && (forall id :: id in order + queue ==> id in ids)
    && (forall id :: id in ids ==> inDegree[id] == Unmet(edges, id, Elements(order)))
    && (forall id :: id in ids ==> (inDegree[id] == 0 <==> id in order + queue))
  }

  /** Entries of the order come after everything they wait for. */
  ghost predicate OrderedSoFar(edges: seq<Edge>, order: seq<ID>) {
    forall i, e :: 0 <= i < |order| && e in edges && e.target == order[i] ==> e.dep in order[..i]
  }

  /** The state inside the release loop: the entries still to be released are counted twice. */
  ghost predicate Releasing(ids: set<ID>, edges: seq<Edge>, inDegree: map<ID, int>, order: seq<ID>, queue: seq<ID>,
      left: seq<ID>) {
    && inDegree.Keys == ids
    && NoDuplicates(order + queue)
    && (forall id :: id in order + queue ==> id in ids)
    && (forall id :: id in ids ==> inDegree[id] == Unmet(edges, id, Elements(order)) + multiset(left)[id])
    && (forall id :: id in ids ==> (inDegree[id] == 0 <==> id in order + queue))
  }

  lemma StartReleasing(ids: set<ID>, edges: seq<Edge>, inDegree: map<ID, int>, order: seq<ID>, queue: seq<ID>, id: ID)
    requires KahnState(ids, edges, inDegree, order, [id] + queue)
    ensures Releasing(ids, edges, inDegree, order + [id], queue, Targets(edges, id))
  {
    var all := order + ([id] + queue);
    assert all == (order + [id]) + queue;
    assert all[|order|] == id && forall k :: 0 <= k < |order| ==> all[k] == order[k];
    assert Elements(order + [id]) == Elements(order) + {id};
    forall x | x in ids
      ensures inDegree[x] == Unmet(edges, x, Elements(order + [id])) + multiset(Targets(edges, id))[x]
    {
      UnmetStep(edges, x, Elements(order), id);
    }
  }

  lemma ReleaseStep(ids: set<ID>, edges: seq<Edge>, inDegree: map<ID, int>, order: seq<ID>, queue: seq<ID>, depID: ID,
      left: seq<ID>)
    requires Releasing(ids, edges, inDegree, order, queue, [depID] + left) && depID in ids
    ensures var deg := inDegree[depID] - 1;
            Releasing(ids, edges, inDegree[depID := deg], order, if deg == 0 then queue + [depID] else queue, left)
  {
    assert multiset([depID] + left) == multiset{depID} + multiset(left);
    assert inDegree[depID] >= 1;
    assert order + (queue + [depID]) == (order + queue) + [depID];
  }

  /** Decrements every waiter of `id` and queues those that reach zero. */
  method Release(id: ID, targets: seq<ID>, inDegree0: map<ID, int>, ghost order: seq<ID>, queue0: seq<ID>,
      ghost ids: set<ID>, ghost edges: seq<Edge>)
    returns (inDegree: map<ID, int>, queue: seq<ID>)
    requires KahnState(ids, edges, inDegree0, order, [id] + queue0)
    requires targets == Targets(edges, id)
    requires forall e :: e in edges ==> e.target in ids
    ensures KahnState(ids, edges, inDegree, order + [id], queue)
  {
    inDegree, queue := inDegree0, queue0;
    ghost var ordered := order + [id];
    StartReleasing(ids, edges, inDegree, order, queue, id);
    var left := targets;
    while left != []
      invariant Releasing(ids, edges, inDegree, ordered, queue, left)
      invariant forall x :: x in left ==> x in targets
    {
      var depID := left[0];
      assert left == [depID] + left[1..];
      TargetsAreTargets(edges, id, depID);
      ReleaseStep(ids, edges, inDegree, ordered, queue, depID, left[1..]);
      left := left[1..];
      inDegree := inDegree[depID := inDegree[depID] - 1];
      if inDegree[depID] == 0 {
        queue := queue + [depID];
      }
    }
  }

  method TopologicalSort(subtasks: seq<Subtask>) returns (ok: bool, order: seq<ID>)
    ensures ok <==> Schedulable(subtasks)
    ensures ok ==> IsTopologicalOrder(subtasks, order)
  {
    var inDegree, dependents := BuildGraph(subtasks);
    ghost var ids, edges := Elements(Ids(subtasks)), EdgesOf(subtasks);
    EdgesStayInside(subtasks);
    var queue := SeedQueue(inDegree);
    order := [];
    assert order + queue == queue && Elements(order) == {};
    while |queue| > 0
      invariant KahnState(ids, edges, inDegree, order, queue)
      invariant OrderedSoFar(edges, order)
      decreases |ids| - |order|
    {
      var id := queue[0];
      assert queue == [id] + queue[1..];
      queue := queue[1..];
      HeadIsReady(ids, edges, inDegree, order, id, queue);
      inDegree, queue := Release(id, Lookup(dependents, id), inDegree, order, queue, ids, edges);
      order := order + [id];
      OrderFits(order + queue, ids);
    }
    ok := |order| == |subtasks|;
    KahnVerdict(subtasks, inDegree, order);
    if !ok {
      order := [];
    }
  }

  lemma HeadIsReady(ids: set<ID>, edges: seq<Edge>, inDegree: map<ID, int>, order: seq<ID>, id: ID, rest: seq<ID>)
    requires KahnState(ids, edges, inDegree, order, [id] + rest) && OrderedSoFar(edges, order)
    ensures OrderedSoFar(edges, order + [id])
  {
    assert id in order + ([id] + rest);
    UnmetZero(edges, id, Elements(order));
    forall i, e | 0 <= i < |order + [id]| && e in edges && e.target == (order + [id])[i]
        ensures e.dep in (order + [id])[..i] {
      assert (order + [id])[..i] == order[..i];
      if i == |order| {
        assert e.dep in Elements(order);
        assert order[..i] == order;
      }
    }
  }

  lemma OrderFits(seen: seq<ID>, ids: set<ID>)
    requires NoDuplicates(seen)
    requires forall id :: id in seen ==> id in ids
    ensures |seen| <= |ids|
  {
    DistinctCount(seen);
    SubsetSize(Elements(seen), ids);
  }

  /** With the queue empty, the order covers the plan exactly when the plan is schedulable. */
  lemma KahnVerdict(subtasks: seq<Subtask>, inDegree: map<ID, int>, order: seq<ID>)
    requires KahnState(Elements(Ids(subtasks)), EdgesOf(subtasks), inDegree, order, [])
    requires OrderedSoFar(EdgesOf(subtasks), order)
    ensures |order| == |subtasks| <==> Schedulable(subtasks)
    ensures |order| == |subtasks| ==> IsTopologicalOrder(subtasks, order)
  {
    assert order + [] == order;
    var ids := Elements(Ids(subtasks));
    OrderFits(order, ids);
    ElementsBound(Ids(subtasks));
    DistinctCount(order);
    forall i, k, d | 0 <= i < |order| && 0 <= k < |subtasks| && subtasks[k].id == order[i]
        && d in subtasks[k].dependencies
      ensures d in order[..i]
    {
      EdgeMeaning(subtasks, Edge(d, order[i]));
    }
    if |order| == |subtasks| {
      SubsetOfSameSize(Elements(order), ids);
      OrderedPlanIsSchedulable(subtasks, order);
    } else if Schedulable(subtasks) {
      DistinctCount(Ids(subtasks));
      LeftoversHaveCycle(subtasks, inDegree, order);
      assert false;
    }
  }

  /** Ids Kahn's algorithm leaves over keep waiting for each other. */
  lemma LeftoversHaveCycle(subtasks: seq<Subtask>, inDegree: map<ID, int>, order: seq<ID>)
    requires KahnState(Elements(Ids(subtasks)), EdgesOf(subtasks), inDegree, order, [])
    requires DependenciesKnown(subtasks)
    requires |order| < |Elements(Ids(subtasks))|
    ensures !Acyclic(subtasks)
  {
    assert order + [] == order;
    var ids, done := Elements(Ids(subtasks)), Elements(order);
    var stuck := ids - done;
    DistinctCount(order);
    assert ids == done + stuck;
    forall u | u in stuck ensures WaitsInside(subtasks, stuck, u) {
      UnmetZero(EdgesOf(subtasks), u, done);
      var e :| e in EdgesOf(subtasks) && e.target == u && e.dep !in done;
      EdgeMeaning(subtasks, e);
      assert e.dep in stuck;
    }
    var p := StuckSetHasCycle(subtasks, stuck);
  }
}
