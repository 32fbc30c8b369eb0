/**
 What sorting the graph guarantees the scheduler. The sort does not follow sticky edges and the
 dependency map does, so a sorted graph may still yield a map with a cycle: exactly when its input
 and order-only edges lead back and forth between two commands.
 */
module SortedGraph {
  import opened Digraph
  import opened BuildGraph
  import opened Schedule
  import opened DependencyMap
  import opened Waiting
  import Topo

  // A sticky source decides what a command is; no command may produce it.
  ghost predicate StickyAreSources(edges: seq<Edge>) {
    forall e :: e in edges && e.link == Sticky ==>
      !e.from.Command? && forall e' :: e' in edges && e'.to == e.from && e'.link in INPUTS ==> !e'.from.Command?
  }

  lemma EdgeIsDependence(g: Graph, u: NodeId, v: NodeId)
    requires StickyAreSources(g.edges)
    requires u in Backward(g.edges, v, INPUTS) &&
      (u.Command? || exists c: NodeId :: c.Command? && c in Backward(g.edges, u, INPUTS))
    ensures (u, v) in Topo.Dependence(g)
  {
    var e :| e in g.edges && e.to == v && e.from == u && e.link in INPUTS;
    if e.link != Sticky { assert (e.from, e.to) in Relation(g.edges, DATA_FLOW + ORDER_ONLY); }
  }

  lemma OrderOnlyIsDependence(g: Graph, u: NodeId, v: NodeId)
    requires u in Backward(g.edges, v, ORDER_ONLY)
    ensures (u, v) in Topo.Dependence(g)
  {
    var e :| e in g.edges && e.to == v && e.from == u && e.link in ORDER_ONLY;
    assert (e.from, e.to) in Relation(g.edges, DATA_FLOW + ORDER_ONLY);
  }

  // One job waits for another only where the graph leads from the one to the other.
  lemma PrecedesLeads(g: Graph, p: Plan, c: NodeId, cmd: NodeId)
    requires p.edges == g.edges && StickyAreSources(g.edges) && c.Command? && Precedes(p, c, cmd)
    ensures Leads(Topo.Dependence(g), c, cmd)
  {
    hide StickyAreSources;
    var d := Topo.Dependence(g);
    if x :| x in Backward(g.edges, cmd, INPUTS) && ViaInput(p, x, c) {
      EdgeIsDependence(g, x, cmd);
      if x.Command? {
        LeadsEdge(d, c, cmd);
      } else {
        EdgeIsDependence(g, c, x);
        LeadsTwice(d, c, x, cmd);
      }
    } else {
      var x :| x in Backward(g.edges, cmd, ORDER_ONLY) && ViaOrderOnly(p, x, c);
      OrderOnlyIsDependence(g, x, cmd);
      var m := x;
      if x in p.groups {
        m :| Into(p, m, x, INPUTS) && Into(p, c, m, INPUTS);
        EdgeIsDependence(g, m, x);
        LeadsTwice(d, m, x, cmd);
      } else {
        LeadsEdge(d, x, cmd);
      }
      EdgeIsDependence(g, c, m);
      LeadsEdge(d, c, m);
      LeadsTrans(d, c, m, cmd);
    }
  }

  lemma {:induction false} WaitingLeads(g: Graph, p: Plan, w: seq<nat>, d: nat, j: nat)
    requires p.edges == g.edges && StickyAreSources(g.edges) && ValidPlan(p)
    requires Path(DepEdges(DepsOf(p, [])), w, d, j)
    ensures d < |p.jobs| && j < |p.jobs| && Leads(Topo.Dependence(g), p.jobs[d], p.jobs[j])
    decreases |w|
  {
    var deps := DepsOf(p, []);
    var u := LeadsLast(DepEdges(deps), w, d, j);
    hide StickyAreSources, Precedes, Topo.Dependence;
    assert Waits(p, [], j, u) && p.jobs[u] in p.jobs;
    PrecedesLeads(g, p, p.jobs[u], p.jobs[j]);
    if u != d {
      WaitingLeads(g, p, w[..|w| - 1], d, u);
      LeadsTrans(Topo.Dependence(g), p.jobs[d], p.jobs[u], p.jobs[j]);
    }
  }

  // Once the graph has been sorted, no cycle can come from it; only an injected ordering can add one.
  lemma SortedMapIsAcyclic(g: Graph, p: Plan)
    requires p.edges == g.edges && StickyAreSources(g.edges) && ValidPlan(p)
    requires !Cyclic(Topo.Dependence(g))
    ensures !Cyclic(DepEdges(DepsOf(p, [])))
  {
    var e := DepEdges(DepsOf(p, []));
    if Cyclic(e) {
      var j, w := CycleWitness(e);
      WaitingLeads(g, p, w, j, j);
    }
  }

  // Two different commands, each leading to the other over the edges the map follows.
  ghost predicate FeedEachOther(g: Graph, a: NodeId, b: NodeId) {
    var r := Relation(g.edges, INPUTS + ORDER_ONLY);
    a.Command? && b.Command? && a != b && Leads(r, a, b) && Leads(r, b, a)
  }

  // Without an injected ordering nothing looks for cycles in the map of a whole graph; there is one
  // exactly when two commands feed each other, sticky edges included.
  lemma WholeMapCyclicIff(g: Graph, p: Plan)
    requires p.edges == g.edges && Shaped(p)
    requires forall e :: e in g.edges ==> Kept(p, e.from) && Kept(p, e.to)
    ensures Cyclic(DepEdges(DepsOf(p, []))) <==> exists a, b :: FeedEachOther(g, a, b)
  {
    var r, ties := Relation(g.edges, INPUTS + ORDER_ONLY), TieEdges(p, []);
    assert ties == r by {
      forall u, v | (u, v) in r ensures (u, v) in ties {
        assert Ties(p, [], u, v);
      }
    }
    MapCyclicIff(p, []);
    if a, b :| Tangled(p, [], a, b) {
      hide Kept;
      assert FeedEachOther(g, a, b);
    }
    if a, b :| FeedEachOther(g, a, b) {
      LeavesKept(g, p, a, b);
      LeavesKept(g, p, b, a);
      assert Tangled(p, [], a, b);
    }
  }

  lemma LeavesKept(g: Graph, p: Plan, a: NodeId, b: NodeId)
    requires p.edges == g.edges && forall e :: e in g.edges ==> Kept(p, e.from) && Kept(p, e.to)
    requires Leads(Relation(g.edges, INPUTS + ORDER_ONLY), a, b)
    ensures Kept(p, a)
  {
    var w :| Path(Relation(g.edges, INPUTS + ORDER_ONLY), w, a, b);
    assert (w[0], w[1]) in Relation(g.edges, INPUTS + ORDER_ONLY);
  }

  // The sort does not follow sticky edges, and the map does: where a command makes the sticky
  // source of one that feeds it, a graph that sorts yields jobs that wait for each other.
  function Loop(): seq<Edge> {
    [Edge(Command(0), File(0), Normal), Edge(File(0), Command(1), Normal),
     Edge(Command(1), File(1), Normal), Edge(File(1), Command(0), Sticky)]
  }

  lemma StickyLoopSorts(g: Graph)
    requires g.edges == Loop()
    ensures !Cyclic(Topo.Dependence(g))
  {
    RankedIsAcyclic(Topo.Dependence(g), map[Command(0) := 0, File(0) := 1, Command(1) := 2, File(1) := 3]);
  }

  lemma StickyLoopWaits(p: Plan)
    requires p == Plan([Command(0), Command(1)], Loop(), {})
    ensures Cyclic(DepEdges(DepsOf(p, [])))
  {
    var deps := DepsOf(p, []);
    assert Loop()[0] in p.edges && Loop()[1] in p.edges && Loop()[2] in p.edges && Loop()[3] in p.edges;
    assert File(0) in Backward(p.edges, Command(1), INPUTS) && Command(0) in Backward(p.edges, File(0), INPUTS);
    assert File(1) in Backward(p.edges, Command(0), INPUTS) && Command(1) in Backward(p.edges, File(1), INPUTS);
    assert ViaInput(p, File(0), Command(0)) && ViaInput(p, File(1), Command(1));
    assert Waits(p, [], 1, 0) && Waits(p, [], 0, 1);
    LeadsTwiceJobs(DepEdges(deps));
  }

  lemma LeadsTwiceJobs(e: Edges<nat>)
    requires (0, 1) in e && (1, 0) in e
    ensures Cyclic(e)
  {
    assert Path(e, [0, 1, 0], 0, 0);
    assert Leads(e, 0, 0);
  }
}
