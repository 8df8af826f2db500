/** Layering an accepted order into waves: wave k holds the subtasks whose longest dependency chain has length k. */
module Waves {
  import opened Common
  import opened TaskGraph

  /** A chain of `k` dependencies starts at `id`. */
  ghost predicate HasChain(subtasks: seq<Subtask>, id: ID, k: nat) {
    exists p :: IsChain(subtasks, id, k, p)
  }

  predicate IsChain(subtasks: seq<Subtask>, id: ID, k: nat, p: seq<ID>) {
    |p| == k + 1 && p[0] == id && IsWalk(subtasks, p)
  }

  ghost predicate LongestChain(subtasks: seq<Subtask>, id: ID, k: nat) {
    HasChain(subtasks, id, k) && !HasChain(subtasks, id, k + 1)
  }

  lemma ChainStep(subtasks: seq<Subtask>, id: ID, dep: ID, k: nat)
    requires DependsOn(subtasks, id, dep) && HasChain(subtasks, dep, k)
    ensures HasChain(subtasks, id, k + 1)
  {
    var p :| IsChain(subtasks, dep, k, p);
    var q := [id] + p;
    assert IsChain(subtasks, id, k + 1, q) by {
      forall i | 0 <= i < |q| - 1 ensures DependsOn(subtasks, q[i], q[i + 1]) {
        assert i > 0 ==> q[i] == p[i - 1] && q[i + 1] == p[i];
      }
    }
  }

  lemma ChainUnstep(subtasks: seq<Subtask>, id: ID, k: nat) returns (dep: ID)
    requires HasChain(subtasks, id, k + 1)
    ensures DependsOn(subtasks, id, dep) && HasChain(subtasks, dep, k)
  {
    var p :| IsChain(subtasks, id, k + 1, p);
    dep := p[1];
    assert IsChain(subtasks, dep, k, p[1..]);
  }

  lemma TrivialChain(subtasks: seq<Subtask>, id: ID)
    ensures HasChain(subtasks, id, 0)
  {
    assert IsChain(subtasks, id, 0, [id]);
  }

  lemma ShorterChain(subtasks: seq<Subtask>, id: ID, k: nat, n: nat)
    requires HasChain(subtasks, id, n) && k <= n
    ensures HasChain(subtasks, id, k)
  {
    var p :| IsChain(subtasks, id, n, p);
    assert IsChain(subtasks, id, k, p[..k + 1]);
  }

  lemma LongestChainUnique(subtasks: seq<Subtask>, id: ID, k: nat, n: nat)
    requires LongestChain(subtasks, id, k) && LongestChain(subtasks, id, n)
    ensures k == n
  {
    if k < n {
      ShorterChain(subtasks, id, k + 1, n);
    } else if n < k {
      ShorterChain(subtasks, id, n + 1, k);
    }
  }

  /** The entries of the order with longest chain `k`, in order. */
  ghost function Layer(subtasks: seq<Subtask>, order: seq<ID>, k: nat): seq<ID> {
    if order == [] then []
    else
      var id := order[|order| - 1];
      Layer(subtasks, order[..|order| - 1], k) + if LongestChain(subtasks, id, k) then [id] else []
  }

  lemma {:induction false} LayerMembers(subtasks: seq<Subtask>, order: seq<ID>, k: nat)
    ensures forall id :: id in Layer(subtasks, order, k) <==> id in order && LongestChain(subtasks, id, k)
  {
    if order != [] {
      LayerMembers(subtasks, order[..|order| - 1], k);
    }
  }

  lemma {:induction false} LayerDistinct(subtasks: seq<Subtask>, order: seq<ID>, k: nat)
    requires NoDuplicates(order)
    ensures NoDuplicates(Layer(subtasks, order, k))
  {
    if order != [] {
      var front := order[..|order| - 1];
      LayerDistinct(subtasks, front, k);
      LayerMembers(subtasks, front, k);
      assert order[|order| - 1] !in front;
    }
  }

  method IndexSubtasks(subtasks: seq<Subtask>) returns (m: map<ID, Subtask>)
    requires NoDuplicates(Ids(subtasks))
    ensures m.Keys == Elements(Ids(subtasks))
    ensures forall k :: 0 <= k < |subtasks| ==> subtasks[k].id in m && m[subtasks[k].id] == subtasks[k]
  {
    m := map[];
    for i := 0 to |subtasks|
      invariant m.Keys == Elements(Ids(subtasks)[..i])
      invariant forall k :: 0 <= k < i ==> subtasks[k].id in m && m[subtasks[k].id] == subtasks[k]
    {
      forall k | 0 <= k < i ensures subtasks[k].id != subtasks[i].id { assert Ids(subtasks)[k] != Ids(subtasks)[i]; }
      assert Ids(subtasks)[..i + 1] == Ids(subtasks)[..i] + [subtasks[i].id];
      m := m[subtasks[i].id := subtasks[i]];
    }
    assert Ids(subtasks)[..|subtasks|] == Ids(subtasks);
  }

  /** The map from ids to their subtasks that both loops of the layering read. */
  ghost predicate Indexes(m: map<ID, Subtask>, subtasks: seq<Subtask>) {
    && m.Keys == Elements(Ids(subtasks))
    && forall id :: id in m ==>
      && m[id].id == id && m[id] in subtasks
      && forall dep :: dep in m[id].dependencies <==> DependsOn(subtasks, id, dep)
  }

  lemma IndexMeaning(m: map<ID, Subtask>, subtasks: seq<Subtask>)
    requires NoDuplicates(Ids(subtasks)) && m.Keys == Elements(Ids(subtasks))
    requires forall k :: 0 <= k < |subtasks| ==> subtasks[k].id in m && m[subtasks[k].id] == subtasks[k]
    ensures Indexes(m, subtasks)
  {
    forall id | id in m
      ensures m[id].id == id && m[id] in subtasks
      ensures forall dep :: dep in m[id].dependencies <==> DependsOn(subtasks, id, dep)
    {
      var k :| 0 <= k < |subtasks| && Ids(subtasks)[k] == id;
      assert m[id] == subtasks[k];
      forall dep | DependsOn(subtasks, id, dep) ensures dep in m[id].dependencies {
        var j :| 0 <= j < |subtasks| && subtasks[j].id == id && dep in subtasks[j].dependencies;
        assert Ids(subtasks)[j] == Ids(subtasks)[k];
      }
    }
  }

  /** After `w` waves, what is completed is exactly what has no chain of length `w`. */
  ghost predicate DoneBelow(subtasks: seq<Subtask>, order: seq<ID>, completed: set<ID>, w: nat) {
    forall id :: id in completed <==> id in order && !HasChain(subtasks, id, w)
  }

  /** A subtask still waiting is ready exactly when its longest chain has length `w`. */
  lemma ReadyMeansLayer(subtasks: seq<Subtask>, order: seq<ID>, completed: set<ID>, w: nat, id: ID)
    requires IsTopologicalOrder(subtasks, order) && DoneBelow(subtasks, order, completed, w)
    requires id in order && id !in completed
    ensures (forall d :: DependsOn(subtasks, id, d) ==> d in completed) <==> LongestChain(subtasks, id, w)
  {
    if forall d :: DependsOn(subtasks, id, d) ==> d in completed {
      if HasChain(subtasks, id, w + 1) {
        var d := ChainUnstep(subtasks, id, w);
        assert false;
      }
    }
    if LongestChain(subtasks, id, w) {
      forall d | DependsOn(subtasks, id, d) ensures d in completed {
        DependencyIsEarlier(subtasks, order, id, d);
        if HasChain(subtasks, d, w) {
          ChainStep(subtasks, id, d, w);
        }
      }
    }
  }

  method AllCompleted(deps: seq<ID>, completed: set<ID>) returns (ready: bool)
    ensures ready <==> forall d :: d in deps ==> d in completed
  {
    ready := true;
    for i := 0 to |deps|
      invariant ready
      invariant forall j :: 0 <= j < i ==> deps[j] in completed
    {
      if deps[i] !in completed {
        return false;
      }
    }
  }

  method SelectWave(subtasks: seq<Subtask>, m: map<ID, Subtask>, order: seq<ID>, remaining: set<ID>, completed: set<ID>,
      ghost w: nat)
    returns (wave: seq<Subtask>)
    requires IsTopologicalOrder(subtasks, order) && Indexes(m, subtasks)
    requires DoneBelow(subtasks, order, completed, w) && remaining == Elements(order) - completed
    ensures Ids(wave) == Layer(subtasks, order, w)
    ensures forall st :: st in wave ==> st in subtasks
  {
    wave := [];
    for i := 0 to |order|
      invariant Ids(wave) == Layer(subtasks, order[..i], w)
      invariant forall st :: st in wave ==> st in subtasks
    {
      var id := order[i];
      assert id in Elements(order);
      assert order[..i + 1][..i] == order[..i];
      if id !in remaining {
        continue;
      }
      var st := m[id];
      var ready := AllCompleted(st.dependencies, completed);
      ReadyMeansLayer(subtasks, order, completed, w, id);
      assert ready <==> forall d :: DependsOn(subtasks, id, d) ==> d in completed;
      if ready {
        assert Ids(wave + [st]) == Ids(wave) + [id];
        wave := wave + [st];
      }
    }
    assert order[..|order|] == order;
  }

  /** While anything remains, its first entry in the order is ready. */
  lemma NoSafetyBreak(subtasks: seq<Subtask>, order: seq<ID>, completed: set<ID>, w: nat)
    requires IsTopologicalOrder(subtasks, order) && DoneBelow(subtasks, order, completed, w)
    requires Elements(order) - completed != {}
    ensures Layer(subtasks, order, w) != []
  {
    var some :| some in Elements(order) - completed;
    var i := FirstOutside(order, completed, some);
    forall d | DependsOn(subtasks, order[i], d) ensures d in completed {
      var k :| 0 <= k < |subtasks| && subtasks[k].id == order[i] && d in subtasks[k].dependencies;
      assert d in order[..i];
    }
    ReadyMeansLayer(subtasks, order, completed, w, order[i]);
    LayerMembers(subtasks, order, w);
  }

  lemma {:induction false} FirstOutside(order: seq<ID>, completed: set<ID>, some: ID) returns (i: nat)
    requires some in order && some !in completed
    ensures i < |order| && order[i] !in completed && forall j :: 0 <= j < i ==> order[j] in completed
  {
    i := 0;
    while order[i] in completed
      invariant 0 <= i < |order| && some in order[i..]
      invariant forall j :: 0 <= j < i ==> order[j] in completed
      decreases |order| - i
    {
      assert order[i..] == [order[i]] + order[i + 1..];
      i := i + 1;
    }
  }

  lemma NextBoundary(subtasks: seq<Subtask>, order: seq<ID>, completed: set<ID>, layer: seq<ID>, w: nat)
    requires DoneBelow(subtasks, order, completed, w) && layer == Layer(subtasks, order, w)
    ensures DoneBelow(subtasks, order, completed + Elements(layer), w + 1)
  {
    LayerMembers(subtasks, order, w);
    forall id | id in order && !HasChain(subtasks, id, w) ensures !HasChain(subtasks, id, w + 1) {
      if HasChain(subtasks, id, w + 1) {
        ShorterChain(subtasks, id, w, w + 1);
      }
    }
  }

  /** Layers the order. The guard of the source's safety break is returned as `broke`. */
  method BuildWaves(order: seq<ID>, subtasks: seq<Subtask>) returns (waves: seq<seq<Subtask>>, broke: bool)
    requires IsTopologicalOrder(subtasks, order)
    ensures !broke
    ensures IsLayering(subtasks, order, waves)
  {
    OrderedPlanIsSchedulable(subtasks, order);
    var m := IndexSubtasks(subtasks);
    IndexMeaning(m, subtasks);
    var completed: set<ID> := {};
    var remaining := Elements(order);
    waves, broke := [], false;
    NothingDone(subtasks, order);
    while remaining != {}
      invariant !broke
      invariant remaining == Elements(order) - completed
      invariant DoneBelow(subtasks, order, completed, |waves|)
      invariant LayersUpTo(subtasks, order, waves)
      decreases remaining
    {
      var wave := SelectWave(subtasks, m, order, remaining, completed, |waves|);
      NoSafetyBreak(subtasks, order, completed, |waves|);
      if |wave| == 0 {
        broke := true;
        break;
      }
      NextBoundary(subtasks, order, completed, Ids(wave), |waves|);
      FirstIsRemaining(subtasks, order, completed, Ids(wave), |waves|);
      completed := completed + Elements(Ids(wave));
      remaining := remaining - Elements(Ids(wave));
      waves := waves + [wave];
    }
    EverythingLayered(subtasks, order, completed, |waves|);
  }

  lemma NothingDone(subtasks: seq<Subtask>, order: seq<ID>)
    ensures DoneBelow(subtasks, order, {}, 0)
  {
    forall id ensures HasChain(subtasks, id, 0) { TrivialChain(subtasks, id); }
  }

  lemma FirstIsRemaining(subtasks: seq<Subtask>, order: seq<ID>, completed: set<ID>, layer: seq<ID>, w: nat)
    requires DoneBelow(subtasks, order, completed, w) && layer == Layer(subtasks, order, w) && layer != []
    ensures layer[0] in Elements(order) - completed
  {
    LayerMembers(subtasks, order, w);
  }

  lemma EverythingLayered(subtasks: seq<Subtask>, order: seq<ID>, completed: set<ID>, w: nat)
    requires DoneBelow(subtasks, order, completed, w) && Elements(order) - completed == {}
    ensures forall id :: id in order ==> exists k :: 0 <= k < w && LongestChain(subtasks, id, k)
  {
    forall id | id in order ensures exists k :: 0 <= k < w && LongestChain(subtasks, id, k) {
      assert id in Elements(order) && id !in Elements(order) - completed;
      LayerBelow(subtasks, id, w);
    }
  }

  lemma {:induction false} LayerBelow(subtasks: seq<Subtask>, id: ID, n: nat)
    requires !HasChain(subtasks, id, n)
    ensures exists k :: 0 <= k < n && LongestChain(subtasks, id, k)
  {
    if n == 0 {
      TrivialChain(subtasks, id);
    } else if HasChain(subtasks, id, n - 1) {
      assert LongestChain(subtasks, id, n - 1);
    } else {
      LayerBelow(subtasks, id, n - 1);
    }
  }

  ghost predicate LayersUpTo(subtasks: seq<Subtask>, order: seq<ID>, waves: seq<seq<Subtask>>) {
    forall k :: 0 <= k < |waves| ==>
      && waves[k] != []
      && Ids(waves[k]) == Layer(subtasks, order, k)
      && forall st :: st in waves[k] ==> st in subtasks
  }

  /** Wave k is layer k, no wave is empty, and every id of the order is in some layer. */
  ghost predicate IsLayering(subtasks: seq<Subtask>, order: seq<ID>, waves: seq<seq<Subtask>>) {
    && LayersUpTo(subtasks, order, waves)
    && forall id :: id in order ==> exists k :: 0 <= k < |waves| && LongestChain(subtasks, id, k)
  }

  /** Every subtask is in exactly one wave, once, and that wave's number is the length of its longest chain. */
  lemma WavesPartition(subtasks: seq<Subtask>, order: seq<ID>, waves: seq<seq<Subtask>>, id: ID) returns (k: nat)
    requires IsTopologicalOrder(subtasks, order) && IsLayering(subtasks, order, waves) && id in Ids(subtasks)
    ensures k < |waves| && id in Ids(waves[k]) && LongestChain(subtasks, id, k) && NoDuplicates(Ids(waves[k]))
    ensures forall j :: 0 <= j < |waves| && id in Ids(waves[j]) ==> j == k
  {
    assert id in Elements(order);
    k :| 0 <= k < |waves| && LongestChain(subtasks, id, k);
    LayerMembers(subtasks, order, k);
    LayerDistinct(subtasks, order, k);
    forall j | 0 <= j < |waves| && id in Ids(waves[j]) ensures j == k {
      LayerMembers(subtasks, order, j);
      LongestChainUnique(subtasks, id, j, k);
    }
  }

  /** Dependencies lie in strictly earlier waves. */
  lemma DependenciesInEarlierWaves(subtasks: seq<Subtask>, order: seq<ID>, waves: seq<seq<Subtask>>, id: ID, dep: ID,
      k: nat)
    requires IsTopologicalOrder(subtasks, order) && IsLayering(subtasks, order, waves)
    requires k < |waves| && id in Ids(waves[k]) && DependsOn(subtasks, id, dep)
    ensures exists j :: 0 <= j < k && dep in Ids(waves[j])
  {
    LayerMembers(subtasks, order, k);
    DependencyIsEarlier(subtasks, order, id, dep);
    if HasChain(subtasks, dep, k) {
      ChainStep(subtasks, id, dep, k);
    }
    LayerBelow(subtasks, dep, k);
    var j :| 0 <= j < k && LongestChain(subtasks, dep, j);
    LayerMembers(subtasks, order, j);
  }

  /** Any assignment of layers in which dependencies come strictly earlier. */
  ghost predicate LegalLayers(subtasks: seq<Subtask>, layer: map<ID, nat>, n: nat) {
    && (forall id :: id in Ids(subtasks) ==> id in layer && layer[id] < n)
    && (forall id, dep :: DependsOn(subtasks, id, dep) ==> id in layer && dep in layer && layer[dep] < layer[id])
  }

  lemma {:induction false} ChainFitsLayers(subtasks: seq<Subtask>, layer: map<ID, nat>, n: nat, p: seq<ID>)
    requires LegalLayers(subtasks, layer, n) && p != [] && p[0] in layer && IsWalk(subtasks, p)
    ensures layer[p[0]] >= |p| - 1
  {
    if |p| > 1 {
      assert DependsOn(subtasks, p[0], p[1]);
      ChainFitsLayers(subtasks, layer, n, p[1..]);
    }
  }

  /** No legal layering uses fewer layers than there are waves. */
  lemma WavesAreFewest(subtasks: seq<Subtask>, order: seq<ID>, waves: seq<seq<Subtask>>, layer: map<ID, nat>, n: nat)
    requires IsTopologicalOrder(subtasks, order) && IsLayering(subtasks, order, waves)
    requires LegalLayers(subtasks, layer, n)
    ensures |waves| <= n
  {
    if waves != [] {
      var k := |waves| - 1;
      var id := Ids(waves[k])[0];
      LayerMembers(subtasks, order, k);
      assert id in Elements(order);
      var p :| IsChain(subtasks, id, k, p);
      ChainFitsLayers(subtasks, layer, n, p);
    }
  }
}
