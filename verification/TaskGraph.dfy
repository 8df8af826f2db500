/** Work plans as dependency graphs: what a legal order of the subtasks is, and when one exists. */
module TaskGraph {
  import opened Common

  type ID = string

  datatype Subtask = Subtask(id: ID, description: string, files: seq<string>, dependencies: seq<ID>)

  function Ids(subtasks: seq<Subtask>): seq<ID> {
    seq(|subtasks|, i requires 0 <= i < |subtasks| => subtasks[i].id)
  }

  /** Some subtask called `id` lists `dep` among its dependencies. */
  predicate DependsOn(subtasks: seq<Subtask>, id: ID, dep: ID) {
    exists k :: 0 <= k < |subtasks| && subtasks[k].id == id && dep in subtasks[k].dependencies
  }

  /** Each entry depends on the one after it. */
  predicate IsWalk(subtasks: seq<Subtask>, p: seq<ID>) {
    forall i :: 0 <= i < |p| - 1 ==> DependsOn(subtasks, p[i], p[i + 1])
  }

  predicate IsCycle(subtasks: seq<Subtask>, p: seq<ID>) {
    |p| >= 2 && p[0] == p[|p| - 1] && IsWalk(subtasks, p)
  }

  predicate DependenciesKnown(subtasks: seq<Subtask>) {
    forall k, d :: 0 <= k < |subtasks| && d in subtasks[k].dependencies ==> d in Ids(subtasks)
  }

  ghost predicate Acyclic(subtasks: seq<Subtask>) {
    forall p :: !IsCycle(subtasks, p)
  }

  ghost predicate Schedulable(subtasks: seq<Subtask>) {
    NoDuplicates(Ids(subtasks)) && DependenciesKnown(subtasks) && Acyclic(subtasks)
  }

  /** Every id once, and each dependency of an entry strictly before it. */
  predicate IsTopologicalOrder(subtasks: seq<Subtask>, order: seq<ID>) {
    && |order| == |subtasks|
    && NoDuplicates(order)
    && Elements(order) == Elements(Ids(subtasks))
    && DependenciesFirst(subtasks, order)
  }

  predicate DependenciesFirst(subtasks: seq<Subtask>, order: seq<ID>) {
    forall i, k, d ::
      (0 <= i < |order| && 0 <= k < |subtasks| && subtasks[k].id == order[i] && d in subtasks[k].dependencies) ==>
        d in order[..i]
  }

  function Position(order: seq<ID>, id: ID): (i: nat)
    requires id in order
    ensures i < |order| && order[i] == id
    ensures id !in order[..i]
  {
    if order[0] == id then 0 else 1 + Position(order[1..], id)
  }

  lemma DependencyIsEarlier(subtasks: seq<Subtask>, order: seq<ID>, id: ID, dep: ID)
    requires DependenciesFirst(subtasks, order) && id in order && DependsOn(subtasks, id, dep)
    ensures dep in order && Position(order, dep) < Position(order, id)
  {
    var i := Position(order, id);
    var k :| 0 <= k < |subtasks| && subtasks[k].id == id && dep in subtasks[k].dependencies;
    assert dep in order[..i];
    var j :| 0 <= j < i && order[j] == dep;
    assert dep in order;
    assert dep !in order[..Position(order, dep)];
  }

  /** Walking along dependencies moves strictly towards the front of the order. */
  lemma {:induction false} WalkGoesForward(subtasks: seq<Subtask>, order: seq<ID>, p: seq<ID>)
    requires DependenciesFirst(subtasks, order) && IsWalk(subtasks, p) && p != [] && p[0] in order
    ensures p[|p| - 1] in order
    ensures Position(order, p[|p| - 1]) + |p| - 1 <= Position(order, p[0])
  {
    if |p| > 1 {
      DependencyIsEarlier(subtasks, order, p[0], p[1]);
      WalkGoesForward(subtasks, order, p[1..]);
    }
  }

  /** A plan that has a topological order is schedulable. */
  lemma OrderedPlanIsSchedulable(subtasks: seq<Subtask>, order: seq<ID>)
    requires IsTopologicalOrder(subtasks, order)
    ensures Schedulable(subtasks)
  {
    DistinctCount(order);
    FullCountIsDistinct(Ids(subtasks));
    forall k, d | 0 <= k < |subtasks| && d in subtasks[k].dependencies ensures d in Ids(subtasks) {
      assert Ids(subtasks)[k] in Elements(order);
      var i :| 0 <= i < |order| && order[i] == subtasks[k].id;
      assert d in order[..i];
      assert d in Elements(order);
    }
    forall p ensures !IsCycle(subtasks, p) {
      if IsCycle(subtasks, p) {
        assert DependsOn(subtasks, p[0], p[1]);
        var k :| 0 <= k < |subtasks| && subtasks[k].id == p[0];
        assert Ids(subtasks)[k] in Elements(order);
        WalkGoesForward(subtasks, order, p);
        assert false;
      }
    }
  }

  /** `u` still waits for a member of `stuck`. */
  ghost predicate WaitsInside(subtasks: seq<Subtask>, stuck: set<ID>, u: ID) {
    exists d :: d in stuck && DependsOn(subtasks, u, d)
  }

  ghost predicate AllWaitInside(subtasks: seq<Subtask>, stuck: set<ID>) {
    forall u {:trigger WaitsInside(subtasks, stuck, u)} :: u in stuck ==> WaitsInside(subtasks, stuck, u)
  }

  /** From any member, a walk of any length that stays in a set where everyone still waits for a member. */
  lemma {:induction false} WalkInside(subtasks: seq<Subtask>, stuck: set<ID>, start: ID, n: nat) returns (p: seq<ID>)
    requires start in stuck
    requires AllWaitInside(subtasks, stuck)
    ensures |p| == n + 1 && p[0] == start && IsWalk(subtasks, p)
    ensures forall i :: 0 <= i < |p| ==> p[i] in stuck
    decreases n
  {
    if n == 0 {
      p := [start];
    } else {
      assert WaitsInside(subtasks, stuck, start);
      var d :| d in stuck && DependsOn(subtasks, start, d);
      var rest := WalkInside(subtasks, stuck, d, n - 1);
      p := [start] + rest;
      forall i | 0 <= i < |p| - 1 ensures DependsOn(subtasks, p[i], p[i + 1]) {
        if i > 0 {
          assert p[i] == rest[i - 1] && p[i + 1] == rest[i];
        }
      }
    }
  }

  /** A non-empty set of ids each of which depends on a member holds a cycle. */
  lemma StuckSetHasCycle(subtasks: seq<Subtask>, stuck: set<ID>) returns (p: seq<ID>)
    requires stuck != {}
    requires AllWaitInside(subtasks, stuck)
    ensures IsCycle(subtasks, p)
  {
    var start :| start in stuck;
    var w := WalkInside(subtasks, stuck, start, |stuck|);
    var i, j := Pigeonhole(w, stuck);
    p := w[i..j + 1];
    forall k | 0 <= k < |p| - 1 ensures DependsOn(subtasks, p[k], p[k + 1]) {
      assert p[k] == w[i + k] && p[k + 1] == w[i + k + 1];
    }
  }
}
