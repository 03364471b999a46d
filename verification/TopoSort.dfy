/**
 The publish order of `xtask`: Kahn's algorithm over dependency lists that may repeat a name.

 `TopoSort` is the loop over counters, maps in any iteration order and a queue. `PublishOrder`
 is what it computes, written over dependency sets alone.
 */
module TopoSort {
  import opened Names

  /** Each crate with the names it depends on, in manifest order and possibly repeated. */
  type Graph = map<Name, seq<Name>>

  datatype Outcome =
    | Ordered(order: seq<Name>)
    | Cyclic(remaining: set<Name>)

  // ---------------------------------------------------------------- what the loop computes

  /** Every dependency of `v` is among `done`. */
  ghost predicate Met(deps: seq<Name>, done: seq<Name>) {
    forall d :: d in deps ==> d in done
  }

  /** What holds whenever the queue is looked at. */
  ghost predicate Consistent(g: Graph, order: seq<Name>, queue: seq<Name>) {
    && Distinct(order + queue)
    && (forall v :: v in order + queue ==> v in g)
    && (forall v :: v in g ==> (v in order + queue <==> Met(g[v], order)))
    && (forall i :: 0 <= i < |order| ==> order[i] in g && Met(g[order[i]], order[..i]))
  }

  /** The crates `name` was the last missing dependency of, once it follows `order`. */
  ghost function Unlocked(g: Graph, order: seq<Name>, name: Name): set<Name> {
    set v | v in g && name in g[v] && Met(g[v], order + [name])
  }

  ghost function Roots(g: Graph): set<Name> {
    set v | v in g && g[v] == []
  }

  ghost function Drain(g: Graph, order: seq<Name>, queue: seq<Name>): (r: seq<Name>)
    requires Consistent(g, order, queue)
    ensures Consistent(g, r, [])
    decreases |g| - |order|
  {
    if queue == [] then order
    else
      ConsistentStep(g, order, queue);
      Drain(g, order + [queue[0]], queue[1..] + InOrder(Unlocked(g, order, queue[0])))
  }

  ghost function PublishOrder(g: Graph): Outcome {
    ConsistentStart(g);
    var order := Drain(g, [], InOrder(Roots(g)));
    if |order| == |g| then Ordered(order) else Cyclic(g.Keys - Elements(order))
  }

  lemma ConsistentStart(g: Graph)
    ensures Consistent(g, [], InOrder(Roots(g)))
  {
    var q := InOrder(Roots(g));
    assert [] + q == q;
    forall v | v in g ensures Met(g[v], []) <==> g[v] == [] {
      if g[v] != [] { assert g[v][0] in g[v]; }
    }
  }

  lemma OrderFits(g: Graph, order: seq<Name>, queue: seq<Name>)
    requires Consistent(g, order, queue)
    ensures |order| + |queue| <= |g|
  {
    DistinctSize(order + queue);
    SubsetSize(Elements(order + queue), g.Keys);
  }

  lemma NotBoth(order: seq<Name>, queue: seq<Name>)
    requires queue != [] && Distinct(order + queue)
    ensures queue[0] !in order
  {
    var all := order + queue;
    forall i | 0 <= i < |order| ensures order[i] != queue[0] {
      assert all[i] == order[i] && all[|order|] == queue[0];
    }
  }

  lemma UnlockedIsNew(g: Graph, order: seq<Name>, queue: seq<Name>)
    requires Consistent(g, order, queue) && queue != []
    ensures forall v :: v in Unlocked(g, order, queue[0]) ==> v in g && v !in order + queue
  {
    NotBoth(order, queue);
    forall v | v in Unlocked(g, order, queue[0]) ensures v !in order + queue {
      assert queue[0] in g[v];
      assert !Met(g[v], order);
    }
  }

  lemma StepCoversMet(g: Graph, order: seq<Name>, queue: seq<Name>, v: Name)
    requires Consistent(g, order, queue) && queue != [] && v in g
    ensures Met(g[v], order + [queue[0]]) <==> v in order + queue || v in Unlocked(g, order, queue[0])
  {}

  lemma ConsistentStep(g: Graph, order: seq<Name>, queue: seq<Name>)
    requires Consistent(g, order, queue) && queue != []
    ensures Consistent(g, order + [queue[0]], queue[1..] + InOrder(Unlocked(g, order, queue[0])))
    ensures |order| < |g|
  {
    OrderFits(g, order, queue);
    var name, unlocked := queue[0], Unlocked(g, order, queue[0]);
    var ready, order' := InOrder(unlocked), order + [name];
    var all, all' := order + queue, order' + (queue[1..] + ready);
    UnlockedIsNew(g, order, queue);
    assert all' == all + ready;
    assert forall v :: v in all' <==> v in all || v in unlocked;
    assert Distinct(all') by { assert forall i :: 0 <= i < |ready| ==> ready[i] in unlocked; }
    forall v | v in g ensures v in all' <==> Met(g[v], order') {
      StepCoversMet(g, order, queue, v);
    }
    forall i | 0 <= i < |order'| ensures order'[i] in g && Met(g[order'[i]], order'[..i]) {
      if i < |order| {
        assert order'[..i] == order[..i];
        assert Met(g[order[i]], order[..i]);
      } else {
        assert order'[..i] == order;
        assert all[|order|] == name;
      }
    }
  }

  // ---------------------------------------------------------------- the loop

  /** How many entries of `deps` are not dequeued yet, each repetition counted. */
  ghost function Pending(deps: seq<Name>, done: seq<Name>): nat {
    if deps == [] then 0
    else (if deps[0] in done then 0 else 1) + Pending(deps[1..], done)
  }

  lemma {:induction false} PendingStep(deps: seq<Name>, done: seq<Name>, name: Name)
    requires name !in done
    ensures Pending(deps, done) == Pending(deps, done + [name]) + multiset(deps)[name]
  {
    if deps != [] {
      PendingStep(deps[1..], done, name);
      assert deps == [deps[0]] + deps[1..];
      assert multiset(deps) == multiset{deps[0]} + multiset(deps[1..]);
    }
  }

  lemma {:induction false} PendingZero(deps: seq<Name>, done: seq<Name>)
    ensures Pending(deps, done) == 0 <==> Met(deps, done)
  {
    if deps != [] {
      PendingZero(deps[1..], done);
      assert forall d :: d in deps <==> d == deps[0] || d in deps[1..];
    }
  }

  lemma {:induction false} PendingAll(deps: seq<Name>)
    ensures Pending(deps, []) == |deps|
  {
    if deps != [] { PendingAll(deps[1..]); }
  }

  /** How often `v` names `d`, once the lists of `seen` have been read. */
  ghost function Times(g: Graph, seen: set<Name>, d: Name, v: Name): nat {
    if v in g && v in seen then multiset(g[v])[d] else 0
  }

  /** How often `v` stands among the dependents of `d`. */
  ghost function Listed(dependents: map<Name, seq<Name>>, d: Name, v: Name): nat {
    if d in dependents then multiset(dependents[d])[v] else 0
  }

  ghost predicate Fans(g: Graph, seen: set<Name>, dependents: map<Name, seq<Name>>) {
    g.Keys <= dependents.Keys && forall d, v :: Listed(dependents, d, v) == Times(g, seen, d, v)
  }

  /** The counters the two opening loops fill, whatever order the map yields its entries in. */
  method CountEdges(graph: Graph) returns (inDegree: map<Name, nat>, dependents: map<Name, seq<Name>>)
    ensures inDegree.Keys == graph.Keys
    ensures forall v :: v in graph ==> inDegree[v] == |graph[v]|
    ensures Fans(graph, graph.Keys, dependents)
  {
    inDegree, dependents := SeedCounters(graph);
    var todo := graph.Keys;
    assert graph.Keys - todo == {};
    hide Fans;
    while todo != {}
      invariant todo <= graph.Keys && inDegree.Keys == graph.Keys
      invariant forall v :: v in graph ==> inDegree[v] == if v in todo then 0 else |graph[v]|
      invariant Fans(graph, graph.Keys - todo, dependents)
    {
      var dependent :| dependent in todo;
      ghost var before, seen := dependents, graph.Keys - todo;
      inDegree, dependents := ReadDependencies(dependent, graph[dependent], inDegree, dependents);
      FansGrow(graph, seen, dependent, before, dependents);
      todo := todo - {dependent};
      assert graph.Keys - todo == seen + {dependent};
    }
    assert graph.Keys - todo == graph.Keys;
  }

  method SeedCounters(graph: Graph) returns (inDegree: map<Name, nat>, dependents: map<Name, seq<Name>>)
    ensures inDegree == map v | v in graph :: 0
    ensures Fans(graph, {}, dependents)
  {
    inDegree, dependents := map[], map[];
    var todo := graph.Keys;
    while todo != {}
      invariant todo <= graph.Keys
      invariant inDegree.Keys == dependents.Keys == graph.Keys - todo
      invariant forall v :: v in inDegree ==> inDegree[v] == 0 && dependents[v] == []
    {
      var name :| name in todo;
      inDegree, dependents := inDegree[name := 0], dependents[name := []];
      todo := todo - {name};
    }
  }

  lemma FansGrow(g: Graph, seen: set<Name>, dependent: Name, before: map<Name, seq<Name>>, after: map<Name, seq<Name>>)
    requires Fans(g, seen, before) && dependent in g && dependent !in seen
    requires before.Keys <= after.Keys
    requires forall d, v ::
      Listed(after, d, v) == Listed(before, d, v) + if v == dependent then multiset(g[dependent])[d] else 0
    ensures Fans(g, seen + {dependent}, after)
  {}

  method ReadDependencies(dependent: Name, deps: seq<Name>, inDegree0: map<Name, nat>,
                          dependents0: map<Name, seq<Name>>)
    returns (inDegree: map<Name, nat>, dependents: map<Name, seq<Name>>)
    requires dependent in inDegree0
    ensures inDegree == inDegree0[dependent := inDegree0[dependent] + |deps|]
    ensures dependents0.Keys <= dependents.Keys
    ensures forall d, v ::
      Listed(dependents, d, v) == Listed(dependents0, d, v) + if v == dependent then multiset(deps)[d] else 0
  {
    inDegree, dependents := inDegree0, dependents0;
    var i := 0;
    while i < |deps|
      invariant 0 <= i <= |deps|
      invariant inDegree == inDegree0[dependent := inDegree0[dependent] + i]
      invariant dependents0.Keys <= dependents.Keys
      invariant forall d, v ::
        Listed(dependents, d, v) == Listed(dependents0, d, v) + if v == dependent then multiset(deps[..i])[d] else 0
    {
      var dep := deps[i];
      assert deps[..i + 1] == deps[..i] + [dep];
      var list := if dep in dependents then dependents[dep] else [];
      ListedAppend(dependents, dep, dependent, list);
      dependents := dependents[dep := list + [dependent]];
      inDegree := inDegree[dependent := inDegree[dependent] + 1];
      i := i + 1;
    }
    assert deps[..i] == deps;
  }

  lemma ListedAppend(dependents: map<Name, seq<Name>>, dep: Name, dependent: Name, list: seq<Name>)
    requires list == if dep in dependents then dependents[dep] else []
    ensures forall d, v ::
      Listed(dependents[dep := list + [dependent]], d, v) == Listed(dependents, d, v)
        + if d == dep && v == dependent then 1 else 0
  {}

  /** The filter that decrements: a name is kept at the one occurrence that brings it to zero. */
  method Decrement(inDegree0: map<Name, nat>, deps: seq<Name>) returns (inDegree: map<Name, nat>, ready: seq<Name>)
    requires forall v :: v in deps ==> v in inDegree0 && multiset(deps)[v] <= inDegree0[v]
    ensures inDegree.Keys == inDegree0.Keys
    ensures forall v :: v in inDegree0 ==> inDegree0[v] == inDegree[v] + multiset(deps)[v]
    ensures Distinct(ready)
    ensures forall v :: v in ready <==> v in deps && inDegree[v] == 0
  {
    inDegree, ready := inDegree0, [];
    var i := 0;
    while i < |deps|
      invariant 0 <= i <= |deps|
      invariant inDegree.Keys == inDegree0.Keys
      invariant forall v :: v in inDegree0 ==> inDegree0[v] == inDegree[v] + multiset(deps[..i])[v]
      invariant Distinct(ready)
      invariant forall v :: v in ready <==> v in deps[..i] && inDegree[v] == 0
    {
      var dep := deps[i];
      assert deps == deps[..i] + [dep] + deps[i + 1..];
      assert deps[..i + 1] == deps[..i] + [dep];
      assert multiset(deps)[dep] > multiset(deps[..i])[dep];
      inDegree := inDegree[dep := inDegree[dep] - 1];
      if inDegree[dep] == 0 { ready := ready + [dep]; }
      i := i + 1;
    }
    assert deps[..i] == deps;
  }

  /** At every queue pop the counters hold what is pending, and what is still to come is settled. */
  ghost predicate Counts(g: Graph, order: seq<Name>, inDegree: map<Name, nat>) {
    inDegree.Keys == g.Keys && forall v :: v in g ==> inDegree[v] == Pending(g[v], order)
  }

  method TopoSort(graph: Graph) returns (r: Outcome)
    ensures r == PublishOrder(graph)
  {
    var inDegree, dependents := CountEdges(graph);
    var queue := CollectRoots(graph, inDegree);
    var order: seq<Name> := [];
    ConsistentStart(graph);
    forall v | v in graph { PendingAll(graph[v]); }
    while queue != []
      invariant Consistent(graph, order, queue)
      invariant Counts(graph, order, inDegree)
      invariant Drain(graph, order, queue) == Drain(graph, [], InOrder(Roots(graph)))
      decreases |graph| - |order|
    {
      var name := queue[0];
      ConsistentStep(graph, order, queue);
      ghost var unlocked := Unlocked(graph, order, name);
      ghost var before := order;
      assert name in order + queue by { assert (order + queue)[|order|] == name; }
      assert name !in order by { NotBoth(order, queue); }
      order, queue := order + [name], queue[1..];
      if name in dependents {
        var ready;
        inDegree, ready := Advance(graph, before, name, inDegree, dependents);
        var sorted := Sort(ready);
        SortedIsInOrder(sorted, ready, unlocked);
        queue := queue + sorted;
      }
    }
    if |order| != |graph| {
      r := Cyclic(graph.Keys - Elements(order));
    } else {
      r := Ordered(order);
    }
  }

  /** One pop: the counters move on, and the crates that became ready are the unlocked ones. */
  method Advance(graph: Graph, ghost order: seq<Name>, name: Name, inDegree0: map<Name, nat>,
                 dependents: map<Name, seq<Name>>)
    returns (inDegree: map<Name, nat>, ready: seq<Name>)
    requires name !in order && name in dependents
    requires Counts(graph, order, inDegree0) && Fans(graph, graph.Keys, dependents)
    ensures Counts(graph, order + [name], inDegree)
    ensures Distinct(ready)
    ensures forall v :: v in ready <==> v in Unlocked(graph, order, name)
  {
    var deps := dependents[name];
    forall v ensures v in deps <==> v in graph && name in graph[v] {
      assert v in deps <==> v in multiset(deps);
      assert multiset(deps)[v] == Listed(dependents, name, v) == Times(graph, graph.Keys, name, v);
      if v in graph { assert name in graph[v] <==> name in multiset(graph[v]); }
    }
    forall v | v in graph
      ensures inDegree0[v] == Pending(graph[v], order + [name]) + multiset(deps)[v]
    {
      PendingStep(graph[v], order, name);
      assert multiset(deps)[v] == Listed(dependents, name, v) == Times(graph, graph.Keys, name, v);
    }
    inDegree, ready := Decrement(inDegree0, deps);
    forall v | v in graph ensures inDegree[v] == 0 <==> Met(graph[v], order + [name]) {
      PendingZero(graph[v], order + [name]);
    }
  }

  method CollectRoots(graph: Graph, inDegree: map<Name, nat>) returns (queue: seq<Name>)
    requires inDegree.Keys == graph.Keys
    requires forall v :: v in graph ==> inDegree[v] == |graph[v]|
    ensures queue == InOrder(Roots(graph))
  {
    var roots: seq<Name> := [];
    var todo := inDegree.Keys;
    while todo != {}
      invariant todo <= inDegree.Keys
      invariant Distinct(roots)
      invariant forall v :: v in roots <==> v in inDegree && v !in todo && inDegree[v] == 0
    {
      var name :| name in todo;
      if inDegree[name] == 0 { roots := roots + [name]; }
      todo := todo - {name};
    }
    queue := Sort(roots);
    SortedIsInOrder(queue, roots, Roots(graph));
  }

  // ---------------------------------------------------------------- what the order promises

  /** An accepted order lists every crate once, each after everything it depends on. */
  lemma DependenciesFirst(g: Graph)
    requires PublishOrder(g).Ordered?
    ensures var order := PublishOrder(g).order;
      && Distinct(order)
      && Elements(order) == g.Keys
      && forall i, d :: 0 <= i < |order| && d in g[order[i]] ==> d in order[..i]
  {
    var order := PublishOrder(g).order;
    assert order + [] == order;
    DistinctSize(order);
    SubsetSize(Elements(order), g.Keys);
    forall i, d | 0 <= i < |order| && d in g[order[i]] ensures d in order[..i] {
      assert Met(g[order[i]], order[..i]);
    }
  }

  // ---------------------------------------------------------------- the order among crates that are free to go

  /** The last position in `order` of a name in `deps`, or -1. */
  ghost function LastOf(order: seq<Name>, deps: seq<Name>): (p: int)
    ensures -1 <= p < |order| && (p >= 0 ==> order[p] in deps)
    ensures forall i :: p < i < |order| ==> order[i] !in deps
  {
    if order == [] then -1
    else if order[|order| - 1] in deps then |order| - 1
    else LastOf(order[..|order| - 1], deps)
  }

  /** What is released earlier goes first, and what is released together goes by name. */
  ghost predicate GoesBefore(g: Graph, order: seq<Name>, a: Name, b: Name)
    requires a in g && b in g
  {
    LastOf(order, g[a]) < LastOf(order, g[b]) || (LastOf(order, g[a]) == LastOf(order, g[b]) && a != b && Leq(a, b))
  }

  /** The order and the queue behind it, ranked by the last dependency among the names dequeued. */
  ghost predicate Ranked(g: Graph, order: seq<Name>, all: seq<Name>) {
    && (forall i :: 0 <= i < |all| ==> all[i] in g)
    && (forall i, j :: 0 <= i < j < |all| ==> GoesBefore(g, order, all[i], all[j]))
  }

  lemma LastOfStays(order: seq<Name>, name: Name, deps: seq<Name>)
    ensures LastOf(order + [name], deps) == if name in deps then |order| else LastOf(order, deps)
  {
    assert (order + [name])[..|order|] == order;
  }

  lemma RankedStart(g: Graph)
    ensures Ranked(g, [], [] + InOrder(Roots(g)))
  {
    hide Leq, InOrder;
    var all := [] + InOrder(Roots(g));
    assert all == InOrder(Roots(g));
    forall i | 0 <= i < |all| ensures all[i] in g { assert all[i] in Roots(g); }
  }

  lemma RankedStep(g: Graph, order: seq<Name>, queue: seq<Name>)
    requires Consistent(g, order, queue) && queue != [] && Ranked(g, order, order + queue)
    ensures var order', queue' := order + [queue[0]], queue[1..] + InOrder(Unlocked(g, order, queue[0]));
      Ranked(g, order', order' + queue')
  {
    hide Leq, LastOf;
    var name, ready := queue[0], InOrder(Unlocked(g, order, queue[0]));
    var all, order' := order + queue, order + [queue[0]];
    var all' := order' + (queue[1..] + ready);
    assert all' == all + ready;
    NotBoth(order, queue);
    forall v | v in all ensures LastOf(order', g[v]) == LastOf(order, g[v]) < |order| {
      assert Met(g[v], order);
      LastOfStays(order, name, g[v]);
    }
    forall v | v in ready ensures v in g && LastOf(order', g[v]) == |order| {
      assert v in Unlocked(g, order, name);
      LastOfStays(order, name, g[v]);
    }
    RankedJoins(g, order, order', all, ready);
  }

  lemma RankedJoins(g: Graph, order: seq<Name>, order': seq<Name>, all: seq<Name>, ready: seq<Name>)
    requires Ranked(g, order, all) && Sorted(ready) && Distinct(ready)
    requires forall v :: v in all ==> LastOf(order', g[v]) == LastOf(order, g[v]) < |order|
    requires forall v :: v in ready ==> v in g && LastOf(order', g[v]) == |order|
    ensures Ranked(g, order', all + ready)
  {
    hide Leq, LastOf;
    var all' := all + ready;
    forall i | 0 <= i < |all'| ensures all'[i] in g {
      if i >= |all| { assert all'[i] in ready; }
    }
    forall i, j | 0 <= i < j < |all'| ensures GoesBefore(g, order', all'[i], all'[j]) {
      if j < |all| {
        assert all[i] in all && all[j] in all && GoesBefore(g, order, all[i], all[j]);
      } else {
        assert ready[j - |all|] in ready;
        if i < |all| { assert all[i] in all; } else { assert ready[i - |all|] in ready; }
      }
    }
  }

  lemma {:induction false} DrainRanked(g: Graph, order: seq<Name>, queue: seq<Name>)
    requires Consistent(g, order, queue) && Ranked(g, order, order + queue)
    ensures var r := Drain(g, order, queue); Ranked(g, r, r)
    decreases |g| - |order|
  {
    if queue == [] {
      assert order + queue == order;
    } else {
      ConsistentStep(g, order, queue);
      RankedStep(g, order, queue);
      DrainRanked(g, order + [queue[0]], queue[1..] + InOrder(Unlocked(g, order, queue[0])));
    }
  }

  /**
   Which accepted order it is: crates go by the position of the last of their dependencies, those without
   any first, and crates released by the same one go by name.
   */
  lemma GoesByRelease(g: Graph)
    requires PublishOrder(g).Ordered?
    ensures var order := PublishOrder(g).order;
      && (forall i :: 0 <= i < |order| ==> order[i] in g)
      && forall i, j :: 0 <= i < j < |order| ==> GoesBefore(g, order, order[i], order[j])
  {
    ConsistentStart(g);
    RankedStart(g);
    DrainRanked(g, [], InOrder(Roots(g)));
  }

  /** `p` follows dependencies from `p[0]`. */
  ghost predicate IsWalk(g: Graph, p: seq<Name>) {
    p != [] && forall i :: 0 <= i < |p| - 1 ==> p[i] in g && p[i + 1] in g[p[i]]
  }

  /** Dependencies lead from `v` to a name outside the graph, or back to one already passed. */
  ghost predicate Doomed(g: Graph, v: Name) {
    exists p :: IsWalk(g, p) && p[0] == v && (p[|p| - 1] !in g || p[|p| - 1] in p[..|p| - 1])
  }

  /** A walk that returns to its start. */
  ghost predicate IsCycle(g: Graph, p: seq<Name>) {
    |p| >= 2 && IsWalk(g, p) && p[|p| - 1] == p[0]
  }

  /** From a name of the order, dependencies only lead to earlier names of it. */
  lemma {:induction false} WalkDescends(g: Graph, order: seq<Name>, i: nat, p: seq<Name>)
    requires Consistent(g, order, []) && i < |order|
    requires IsWalk(g, p) && |p| >= 2 && p[0] == order[i]
    ensures p[|p| - 1] in order[..i]
  {
    assert Met(g[order[i]], order[..i]);
    var j :| 0 <= j < i && order[j] == p[1];
    if |p| > 2 {
      assert IsWalk(g, p[1..]) by {
        forall k | 0 <= k < |p[1..]| - 1 ensures p[1..][k] in g && p[1..][k + 1] in g[p[1..][k]] {
          assert p[k + 1] in g && p[k + 2] in g[p[k + 1]];
        }
      }
      WalkDescends(g, order, j, p[1..]);
      assert forall x :: x in order[..j] ==> x in order[..i];
    }
  }

  lemma WalkSlice(g: Graph, p: seq<Name>, k: nat)
    requires IsWalk(g, p) && k < |p|
    ensures IsWalk(g, p[k..])
  {}

  lemma OrderedIsNotDoomed(g: Graph, order: seq<Name>, v: Name)
    requires Consistent(g, order, []) && v in order
    ensures !Doomed(g, v)
  {
    assert order + [] == order;
    if Doomed(g, v) {
      var p :| IsWalk(g, p) && p[0] == v && (p[|p| - 1] !in g || p[|p| - 1] in p[..|p| - 1]);
      var last := p[|p| - 1];
      var i :| 0 <= i < |order| && order[i] == v;
      if |p| >= 2 { WalkDescends(g, order, i, p); }
      assert last in order;
      var k :| 0 <= k < |p| - 1 && p[k] == last;
      WalkSlice(g, p, k);
      var m :| 0 <= m < |order| && order[m] == last;
      WalkDescends(g, order, m, p[k..]);
    }
  }

  lemma LeftOutWaits(g: Graph, order: seq<Name>, v: Name) returns (d: Name)
    requires Consistent(g, order, []) && v in g && v !in order
    ensures d in g[v] && d !in order
  {
    assert order + [] == order;
    assert !Met(g[v], order);
    d :| d in g[v] && d !in order;
  }

  lemma WalkGrows(g: Graph, p: seq<Name>, d: Name)
    requires IsWalk(g, p) && p[|p| - 1] in g && d in g[p[|p| - 1]]
    ensures IsWalk(g, p + [d])
  {}

  /** Pigeonhole: a walk through crates left out of the order can be prolonged until it is doomed. */
  lemma {:induction false} LeftOutIsDoomed(g: Graph, order: seq<Name>, p: seq<Name>)
    requires Consistent(g, order, [])
    requires IsWalk(g, p) && Distinct(p)
    requires forall x :: x in p ==> x in g && x !in order
    ensures Doomed(g, p[0])
    decreases |g| - |p|
  {
    var last := p[|p| - 1];
    assert last in p;
    var d := LeftOutWaits(g, order, last);
    var q := p + [d];
    assert q[..|q| - 1] == p;
    WalkGrows(g, p, d);
    if d in g && d !in p {
      DistinctSize(q);
      SubsetSize(Elements(q), g.Keys);
      LeftOutIsDoomed(g, order, q);
    }
  }

  /** The crates the error names are exactly the doomed ones. */
  lemma RemainingIsDoomed(g: Graph, v: Name)
    requires v in g
    ensures (PublishOrder(g).Cyclic? && v in PublishOrder(g).remaining) <==> Doomed(g, v)
  {
    ConsistentStart(g);
    var order := Drain(g, [], InOrder(Roots(g)));
    assert order + [] == order;
    DistinctSize(order);
    SubsetSize(Elements(order), g.Keys);
    if v in order {
      OrderedIsNotDoomed(g, order, v);
    } else {
      assert Elements(order) != g.Keys;
      LeftOutIsDoomed(g, order, [v]);
    }
  }

  ghost predicate HasCycle(g: Graph) {
    exists p :: IsCycle(g, p)
  }

  /** Some list names a crate the graph does not hold. */
  ghost predicate HasStranger(g: Graph) {
    exists v, d :: v in g && d in g[v] && d !in g
  }

  /**
   The sort refuses a graph exactly when it holds a cycle or a list names a crate outside it; over
   the graphs `resolve_publish_order` builds, whose lists name only keys, exactly on a cycle.
   */
  lemma RefusesExactlyCycles(g: Graph)
    ensures PublishOrder(g).Cyclic? <==> HasCycle(g) || HasStranger(g)
    ensures !HasStranger(g) ==> (PublishOrder(g).Cyclic? <==> HasCycle(g))
  {
    if PublishOrder(g).Cyclic? { RefusalHasReason(g); }
    if HasCycle(g) {
      var p :| IsCycle(g, p);
      CycleIsDoom(g, p);
      RemainingIsDoomed(g, p[0]);
    }
    if HasStranger(g) {
      var v, d :| v in g && d in g[v] && d !in g;
      assert IsWalk(g, [v, d]);
      assert Doomed(g, v);
      RemainingIsDoomed(g, v);
    }
  }

  lemma SomeLeftOut(g: Graph, order: seq<Name>) returns (v: Name)
    requires Consistent(g, order, []) && |order| != |g|
    ensures v in g && v !in order
  {
    assert order + [] == order;
    DistinctSize(order);
    assert |Elements(order)| != |g.Keys|;
    assert Elements(order) <= g.Keys && Elements(order) != g.Keys;
    var w :| w in g.Keys && w !in Elements(order);
    v := w;
  }

  lemma RefusalHasReason(g: Graph)
    requires PublishOrder(g).Cyclic?
    ensures HasCycle(g) || HasStranger(g)
  {
    ConsistentStart(g);
    var v := SomeLeftOut(g, Drain(g, [], InOrder(Roots(g))));
    RemainingIsDoomed(g, v);
    DoomHasReason(g, v);
  }

  lemma CycleIsDoom(g: Graph, p: seq<Name>)
    requires IsCycle(g, p)
    ensures p[0] in g && Doomed(g, p[0])
  {}

  lemma DoomHasReason(g: Graph, v: Name)
    requires v in g && Doomed(g, v)
    ensures HasCycle(g) || HasStranger(g)
  {
    var p :| IsWalk(g, p) && p[0] == v && (p[|p| - 1] !in g || p[|p| - 1] in p[..|p| - 1]);
    var n := |p| - 1;
    if p[n] !in g {
      assert p[n - 1] in g && p[n - 1 + 1] in g[p[n - 1]];
    } else {
      var k :| 0 <= k < n && p[k] == p[n];
      WalkSlice(g, p, k);
      assert IsCycle(g, p[k..]);
    }
  }

  /** Same crates, same dependency sets: repetitions and list order aside. */
  ghost predicate SameDependencies(g: Graph, h: Graph) {
    g.Keys == h.Keys && forall v, d :: v in g ==> (d in g[v] <==> d in h[v])
  }

  lemma ConsistentAlike(g: Graph, h: Graph, order: seq<Name>, queue: seq<Name>)
    requires SameDependencies(g, h) && Consistent(g, order, queue)
    ensures Consistent(h, order, queue)
  {
    assert forall v, done :: v in g ==> (Met(g[v], done) <==> Met(h[v], done));
  }

  lemma UnlockedAlike(g: Graph, h: Graph, order: seq<Name>, name: Name)
    requires SameDependencies(g, h)
    ensures Unlocked(g, order, name) == Unlocked(h, order, name)
  {
    assert forall v, done :: v in g ==> (Met(g[v], done) <==> Met(h[v], done));
  }

  lemma {:induction false} DrainIgnoresLists(g: Graph, h: Graph, order: seq<Name>, queue: seq<Name>)
    requires SameDependencies(g, h) && Consistent(g, order, queue)
    ensures Consistent(h, order, queue)
    ensures Drain(g, order, queue) == Drain(h, order, queue)
    decreases |g| - |order|
  {
    hide Consistent, Unlocked, SameDependencies;
    ConsistentAlike(g, h, order, queue);
    if queue != [] {
      ConsistentStep(g, order, queue);
      UnlockedAlike(g, h, order, queue[0]);
      DrainIgnoresLists(g, h, order + [queue[0]], queue[1..] + InOrder(Unlocked(g, order, queue[0])));
    }
  }

  /** Permuting a dependency list, or repeating a name in it, changes no part of the outcome. */
  lemma OrderIgnoresLists(g: Graph, h: Graph)
    requires SameDependencies(g, h)
    ensures PublishOrder(g) == PublishOrder(h)
  {
    ConsistentStart(g);
    assert Roots(g) == Roots(h) by {
      forall v | v in g ensures g[v] == [] <==> h[v] == [] {
        if g[v] != [] { assert g[v][0] in g[v]; }
        if h[v] != [] { assert h[v][0] in h[v]; }
      }
    }
    DrainIgnoresLists(g, h, [], InOrder(Roots(g)));
  }
}
