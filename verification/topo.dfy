/**
 Topological sorting by coloured depth-first search, with the cycle read back through the parents
 when there is one.
 */
module Topo {
  import opened Digraph
  import opened BuildGraph
  import opened Sequences
  import Reachability

  datatype Color = White | Gray | Black

  // What a sort follows: data flow first, then order-only.
  function Neighbours(g: Graph, u: NodeId): seq<NodeId> {
    Forward(g.edges, u, DATA_FLOW) + Forward(g.edges, u, ORDER_ONLY)
  }

  ghost function Dependence(g: Graph): Edges<NodeId> {
    Relation(g.edges, DATA_FLOW + ORDER_ONLY)
  }

  lemma NeighboursAreDependence(g: Graph, u: NodeId)
    ensures forall v :: v in Neighbours(g, u) <==> (u, v) in Dependence(g)
  {
    ForwardIsRelation(g.edges, u, DATA_FLOW);
    ForwardIsRelation(g.edges, u, ORDER_ONLY);
  }

  // A node, or something one leads to.
  ghost predicate Found(g: Graph, v: NodeId) {
    Reachability.Reached(Dependence(g), g.nodes, v)
  }

  ghost function Universe(g: Graph): set<NodeId> {
    (set v | v in g.nodes) + set e | e in g.edges :: e.to
  }

  lemma FoundStep(g: Graph, u: NodeId, v: NodeId)
    requires Found(g, u) && (u, v) in Dependence(g)
    ensures Found(g, v) && v in Universe(g)
  {
    Reachability.ReachedStep(Dependence(g), g.nodes, u, v);
  }

  function Reverse<T>(s: seq<T>): (r: seq<T>)
    ensures |r| == |s| && forall k :: 0 <= k < |s| ==> r[k] == s[|s| - 1 - k]
  {
    if s == [] then [] else [s[|s| - 1]] + Reverse(s[..|s| - 1])
  }

  // A finished node comes after everything it leads to directly.
  ghost predicate PostOrder(g: Graph, order: seq<NodeId>) {
    forall k :: 0 <= k < |order| ==> SuccessorsBefore(g, order, k)
  }

  ghost predicate SuccessorsBefore(g: Graph, order: seq<NodeId>, k: nat)
    requires k < |order|
  {
    forall v :: (order[k], v) in Dependence(g) ==> v in order[..k]
  }

  // The nodes being visited, from the root of the search down, each the parent of the next.
  ghost predicate Trail(g: Graph, parent: map<NodeId, NodeId>, stack: seq<NodeId>) {
    && Distinct(stack)
    && forall i, j :: 0 <= i < |stack| && 0 <= j < |stack| && j == i + 1 ==> Child(g, parent, stack[i], stack[j])
  }

  ghost predicate Child(g: Graph, parent: map<NodeId, NodeId>, u: NodeId, v: NodeId) {
    (u, v) in Dependence(g) && v in parent && parent[v] == u
  }

  lemma TrailPush(g: Graph, parent: map<NodeId, NodeId>, stack: seq<NodeId>, u: NodeId)
    requires Trail(g, parent, stack) && u !in stack
    requires stack != [] ==> Child(g, parent, stack[|stack| - 1], u)
    ensures Trail(g, parent, stack + [u])
  {
  }

  lemma TrailPop(g: Graph, parent: map<NodeId, NodeId>, stack: seq<NodeId>, u: NodeId)
    requires Trail(g, parent, stack + [u])
    ensures Trail(g, parent, stack) && u !in stack
  {
    var all := stack + [u];
    assert forall k :: 0 <= k < |stack| ==> all[k] == stack[k];
    assert all[|stack|] == u;
  }

  lemma OrderPush(g: Graph, order: seq<NodeId>, u: NodeId)
    requires Distinct(order) && PostOrder(g, order) && u !in order
    requires forall v :: (u, v) in Dependence(g) ==> v in order
    ensures Distinct(order + [u]) && PostOrder(g, order + [u])
  {
    var all := order + [u];
    forall k | 0 <= k < |all| ensures SuccessorsBefore(g, all, k) {
      if k < |order| {
        assert all[..k] == order[..k];
        assert SuccessorsBefore(g, order, k);
      } else {
        assert all[..k] == order;
      }
    }
  }

  lemma PrefixHolds<T>(a: seq<T>, b: seq<T>, x: T)
    requires a <= b && x in a
    ensures x in b
  {
  }

  lemma ReverseCons<T>(x: T, s: seq<T>)
    ensures Reverse([x] + s) == Reverse(s) + [x]
  {
  }

  lemma CycleText<T>(v: T, s: seq<T>)
    ensures Reverse([v] + Reverse(s) + [v]) == [v] + s + [v]
  {
  }

  // The trail from `p` on, closed by an edge back from its last node, is a closed walk.
  lemma TrailLoop(g: Graph, parent: map<NodeId, NodeId>, stack: seq<NodeId>, p: nat)
    requires Trail(g, parent, stack) && p < |stack| && (stack[|stack| - 1], stack[p]) in Dependence(g)
    ensures var w := [stack[p]] + stack[p + 1..] + [stack[p]]; Path(Dependence(g), w, stack[p], stack[p])
  {
    var w := [stack[p]] + stack[p + 1..] + [stack[p]];
    hide Dependence;
    forall k | 0 <= k < |w| - 1 ensures (w[k], w[k + 1]) in Dependence(g) {
      if k < |w| - 2 { assert Child(g, parent, stack[p + k], stack[p + k + 1]); }
    }
  }

  class Dfs {
    const g: Graph
    var color: map<NodeId, Color>
    var parent: map<NodeId, NodeId>
    var order: seq<NodeId>
    var cycle: seq<NodeId>
    var hasCycle: bool

    constructor (g: Graph)
      ensures this.g == g && !hasCycle && cycle == [] && order == [] && color == map[]
    {
      this.g := g;
      color, parent, order, cycle, hasCycle := map[], map[], [], [], false;
    }

    function ColorOf(v: NodeId): Color
      reads this
    {
      if v in color then color[v] else White
    }

    ghost function Whites(): set<NodeId>
      reads this
    {
      set v | v in Universe(g) && ColorOf(v) == White
    }

    // While no cycle has been met: the grey nodes are the trail, the black ones the order.
    ghost predicate Searching(stack: seq<NodeId>)
      reads this
    {
      && !hasCycle && cycle == []
      && Trail(g, parent, stack) && Distinct(order) && PostOrder(g, order)
      && (forall v :: ColorOf(v) == Gray <==> v in stack)
      && (forall v :: ColorOf(v) == Black <==> v in order)
      && (forall v :: v in stack || v in order ==> Found(g, v) && v in Universe(g))
    }

    // Once one has: a closed walk of real edges.
    ghost predicate CycleFound()
      reads this
    {
      hasCycle && |cycle| > 1 && Path(Dependence(g), cycle, cycle[0], cycle[0]) && Found(g, cycle[0])
    }

    method Visit(u: NodeId, ghost stack: seq<NodeId>)
      requires Searching(stack) && ColorOf(u) == White && Found(g, u) && u in Universe(g)
      requires stack != [] ==> Child(g, parent, stack[|stack| - 1], u)
      modifies this
      ensures CycleFound() || (Searching(stack) && old(order) <= order && u in order)
      ensures Whites() <= old(Whites())
      decreases Whites(), 0
    {
      ghost var trail := stack + [u];
      Enter(u, stack);
      assert trail[|trail| - 1] == u;
      ghost var flow, ordering := Forward(g.edges, u, DATA_FLOW), Forward(g.edges, u, ORDER_ONLY);
      NeighboursAreDependence(g, u);
      assert forall v :: (u, v) in Dependence(g) <==> v in flow || v in ordering;
      hide Searching, CycleFound, Dependence, Found, Universe, Neighbours;
      VisitNeighbours(u, Forward(g.edges, u, DATA_FLOW), trail);
      ghost var between := order;
      VisitNeighbours(u, Forward(g.edges, u, ORDER_ONLY), trail);
      NotBoth(trail);
      if !hasCycle {
        forall v | (u, v) in Dependence(g) ensures v in order {
          if v in flow { PrefixHolds(between, order, v); }
        }
        Leave(u, stack);
      }
    }

    lemma NotBoth(stack: seq<NodeId>)
      ensures CycleFound() ==> hasCycle
      ensures Searching(stack) ==> !hasCycle
    {
    }

    method Enter(u: NodeId, ghost stack: seq<NodeId>)
      requires Searching(stack) && ColorOf(u) == White && Found(g, u) && u in Universe(g)
      requires stack != [] ==> Child(g, parent, stack[|stack| - 1], u)
      modifies `color
      ensures Searching(stack + [u]) && Whites() < old(Whites())
    {
      TrailPush(g, parent, stack, u);
      hide Trail, PostOrder, Dependence, Found, Universe;
      color := color[u := Gray];
      assert u !in Whites() && u in old(Whites());
    }

    method Leave(u: NodeId, ghost stack: seq<NodeId>)
      requires Searching(stack + [u]) && forall v :: (u, v) in Dependence(g) ==> v in order
      modifies `color, `order
      ensures Searching(stack) && order == old(order) + [u] && Whites() <= old(Whites())
    {
      TrailPop(g, parent, stack, u);
      assert forall v :: v in stack + [u] <==> v in stack || v == u;
      assert forall v :: v in order + [u] <==> v in order || v == u;
      OrderPush(g, order, u);
      hide Trail, PostOrder, Dependence, Found, Universe;
      color := color[u := Black];
      order := order + [u];
    }

    method VisitNeighbours(u: NodeId, list: seq<NodeId>, ghost stack: seq<NodeId>)
      requires stack != [] && stack[|stack| - 1] == u && (CycleFound() || Searching(stack))
      requires forall v :: v in list ==> (u, v) in Dependence(g)
      modifies this
      ensures CycleFound() || (Searching(stack) && old(order) <= order && forall v :: v in list ==> v in order)
      ensures Whites() <= old(Whites())
      ensures old(CycleFound()) ==> CycleFound()
      decreases Whites(), 1
    {
      for i := 0 to |list|
        invariant CycleFound() ||
          (Searching(stack) && old(order) <= order && forall k :: 0 <= k < i ==> list[k] in order)
        invariant Whites() <= old(Whites())
        invariant old(CycleFound()) ==> CycleFound()
      {
        var v := list[i];
        if !hasCycle {
          FoundStep(g, u, v);
          if ColorOf(v) == White {
            parent := parent[v := u];
            Visit(v, stack);
          } else if ColorOf(v) == Gray {
            ExtractCycle(u, v, stack);
          }
        }
      }
    }

    lemma OnTrail(v: NodeId, stack: seq<NodeId>) returns (p: nat)
      requires Searching(stack) && ColorOf(v) == Gray
      ensures p < |stack| && stack[p] == v && Found(g, v) && Trail(g, parent, stack)
    {
      assert v in stack && Found(g, v);
      p :| 0 <= p < |stack| && stack[p] == v;
    }

    method ExtractCycle(u: NodeId, v: NodeId, ghost stack: seq<NodeId>)
      requires Searching(stack) && stack != [] && stack[|stack| - 1] == u
      requires ColorOf(v) == Gray && (u, v) in Dependence(g)
      modifies `hasCycle, `cycle
      ensures CycleFound()
    {
      hide Searching, Dependence, Found, Universe, Reverse, PostOrder, Trail;
      ghost var p := OnTrail(v, stack);
      hasCycle := true;
      cycle := ReadBack(u, v, stack, p);
      cycle := cycle + [v];
      CycleText(v, stack[p + 1..]);
      cycle := Reverse(cycle);
      TrailLoop(g, parent, stack, p);
    }

    // From `u` up through the parents to the grey node `v`.
    method ReadBack(u: NodeId, v: NodeId, ghost stack: seq<NodeId>, ghost p: nat) returns (walk: seq<NodeId>)
      requires Trail(g, parent, stack) && stack != [] && stack[|stack| - 1] == u && p < |stack| && stack[p] == v
      ensures walk == [v] + Reverse(stack[p + 1..])
    {
      walk := [v];
      var curr := u;
      ghost var q := |stack| - 1;
      hide Dependence, Reverse;
      while curr != v
        invariant p <= q < |stack| && curr == stack[q]
        invariant walk == [v] + Reverse(stack[q + 1..])
        decreases q
      {
        ReverseCons(stack[q], stack[q + 1..]);
        assert stack[q..] == [stack[q]] + stack[q + 1..];
        assert Child(g, parent, stack[q - 1], stack[q]);
        walk := walk + [curr];
        curr := parent[curr];
        q := q - 1;
      }
      assert q == p;
    }
  }

  // ---------------------------------------------------------------- the sort

  // Every edge out of a listed node goes to a later one.
  ghost predicate Sorted(g: Graph, order: seq<NodeId>) {
    forall i, j :: 0 <= i < |order| && 0 <= j < |order| && (order[i], order[j]) in Dependence(g) ==> i < j
  }

  lemma ReversedPostOrder(g: Graph, order: seq<NodeId>)
    requires Distinct(order) && PostOrder(g, order)
    ensures Distinct(Reverse(order)) && Sorted(g, Reverse(order))
  {
    var r, n := Reverse(order), |order|;
    forall i, j | 0 <= i < n && 0 <= j < n && (r[i], r[j]) in Dependence(g) ensures i < j {
      assert SuccessorsBefore(g, order, n - 1 - i);
      assert order[n - 1 - j] in order[..n - 1 - i];
    }
  }

  // What the nodes lead to stays within a list that holds them and everything its members lead to.
  lemma {:induction false} ClosedOrder(g: Graph, order: seq<NodeId>, w: seq<NodeId>)
    requires PostOrder(g, order) && Walk(Dependence(g), w) && w[0] in order
    ensures forall k :: 0 <= k < |w| ==> w[k] in order
    decreases |w|
  {
    if |w| > 1 {
      assert (w[0], w[1]) in Dependence(g);
      var k :| 0 <= k < |order| && order[k] == w[0];
      assert SuccessorsBefore(g, order, k);
      ClosedOrder(g, order, w[1..]);
    }
  }

  lemma {:induction false} PostOrderFalls(g: Graph, order: seq<NodeId>, w: seq<NodeId>, i: nat, j: nat)
    requires Distinct(order) && PostOrder(g, order) && Walk(Dependence(g), w) && |w| > 1
    requires i < |order| && order[i] == w[0] && j < |order| && order[j] == w[|w| - 1]
    ensures j < i
    decreases |w|
  {
    assert (w[0], w[1]) in Dependence(g);
    assert SuccessorsBefore(g, order, i);
    var k :| 0 <= k < i && order[k] == w[1];
    if |w| > 2 { PostOrderFalls(g, order, w[1..], k, j); }
  }

  // A post-order that holds every node leaves no room for a cycle among what they lead to.
  lemma NoCycle(g: Graph, order: seq<NodeId>, v: NodeId)
    requires Distinct(order) && PostOrder(g, order) && (forall n :: n in g.nodes ==> n in order) && Found(g, v)
    ensures !Leads(Dependence(g), v, v)
  {
    if v !in g.nodes {
      var n :| n in g.nodes && Leads(Dependence(g), n, v);
      var w :| Path(Dependence(g), w, n, v);
      ClosedOrder(g, order, w);
    }
    if Leads(Dependence(g), v, v) {
      var w :| Path(Dependence(g), w, v, v);
      var i :| 0 <= i < |order| && order[i] == v;
      PostOrderFalls(g, order, w, i, i);
    }
  }

  datatype SortResult = SortResult(order: seq<NodeId>, hasCycle: bool, cycle: seq<NodeId>)

  // A cycle is reported exactly when the nodes lead to one, and then it is one. Otherwise the list
  // holds each node, and whatever they lead to, once, with every edge pointing forward.
  method TopologicalSort(g: Graph) returns (r: SortResult)
    ensures r.hasCycle <==> exists v :: Found(g, v) && Leads(Dependence(g), v, v)
    ensures r.hasCycle ==> |r.cycle| > 1 && Path(Dependence(g), r.cycle, r.cycle[0], r.cycle[0])
    ensures !r.hasCycle ==>
      && r.cycle == [] && Distinct(r.order) && Sorted(g, r.order)
      && (forall v :: v in g.nodes ==> v in r.order) && (forall v :: v in r.order ==> Found(g, v))
  {
    var state := new Dfs(g);
    for i := 0 to |g.nodes|
      invariant fresh(state) && state.g == g
      invariant state.Searching([]) && forall k :: 0 <= k < i ==> g.nodes[k] in state.order
    {
      var id := g.nodes[i];
      if state.ColorOf(id) == White {
        state.Visit(id, []);
      }
      if state.hasCycle {
        CycleIsLoop(g, state.cycle);
        return SortResult(Reverse(state.order), true, state.cycle);
      }
    }
    forall v | Found(g, v) ensures !Leads(Dependence(g), v, v) {
      NoCycle(g, state.order, v);
    }
    ReversedPostOrder(g, state.order);
    assert forall v :: v in Reverse(state.order) <==> v in state.order by { ReverseHolds(state.order); }
    return SortResult(Reverse(state.order), false, []);
  }

  lemma ReverseHolds<T>(s: seq<T>)
    ensures forall v :: v in Reverse(s) <==> v in s
  {
    forall v | v in s ensures v in Reverse(s) {
      var k :| 0 <= k < |s| && s[k] == v;
      assert Reverse(s)[|s| - 1 - k] == v;
    }
  }

  lemma CycleIsLoop(g: Graph, cycle: seq<NodeId>)
    requires |cycle| > 1 && Path(Dependence(g), cycle, cycle[0], cycle[0]) && Found(g, cycle[0])
    ensures exists v :: Found(g, v) && Leads(Dependence(g), v, v)
  {
    assert Leads(Dependence(g), cycle[0], cycle[0]);
  }

  // Every edge the graph holds has both its ends among the nodes.
  ghost predicate Live(g: Graph) {
    forall e :: e in g.edges ==> e.from in g.nodes && e.to in g.nodes
  }

  // Then the nodes lead to a cycle exactly when there is one.
  lemma LiveCycle(g: Graph)
    requires Live(g)
    ensures Cyclic(Dependence(g)) <==> exists v :: Found(g, v) && Leads(Dependence(g), v, v)
  {
    forall v | Leads(Dependence(g), v, v) ensures Found(g, v) {
      var w :| Path(Dependence(g), w, v, v);
      assert (w[0], w[1]) in Dependence(g);
    }
  }
}
