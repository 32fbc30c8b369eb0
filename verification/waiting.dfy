/**
 Who waits for whom, as walks of the graph: a job depends on another exactly when the graph and the
 injected ordering lead from the one to the other through files and jobs.
 */
module Waiting {
  import opened Digraph
  import opened BuildGraph
  import opened Schedule
  import opened DependencyMap

  // Commands feed files and other commands; files feed, order or identify commands and join groups;
  // groups only order.
  predicate Shape(groups: set<NodeId>, e: Edge) {
    && e.link != Implicit
    && if e.from.Command? then e.link == Normal && e.to !in groups && (e.to.Command? || e.to.File?)
       else e.from.File? &&
            if e.from in groups then e.link == OrderOnly && e.to.Command?
            else if e.link == Group then e.to in groups && e.to.File?
            else e.to.Command?
  }

  ghost predicate Shaped(p: Plan) {
    ValidPlan(p) && forall e :: e in p.edges ==> Shape(p.groups, e)
  }

  // Not a command that is left out of the run.
  predicate Kept(p: Plan, x: NodeId) {
    x.Command? ==> x in p.jobs
  }

  // What holds a job of this run back: edges among files and jobs, and the ordering that binds jobs.
  ghost predicate Ties(p: Plan, ordering: seq<OrderingEdge>, u: NodeId, v: NodeId) {
    || (Kept(p, u) && Kept(p, v) && (u, v) in Relation(p.edges, INPUTS + ORDER_ONLY))
    || (OrderingEdge(u, v) in ordering && Binds(p, OrderingEdge(u, v)))
  }

  ghost function TieEdges(p: Plan, ordering: seq<OrderingEdge>): (r: Edges<NodeId>)
    ensures forall u, v :: (u, v) in r <==> Ties(p, ordering, u, v)
  {
    var all := Relation(p.edges, INPUTS + ORDER_ONLY) + set h | h in ordering :: (h.producer, h.consumer);
    assert forall u, v :: OrderingEdge(u, v) in ordering ==>
      var h := OrderingEdge(u, v); (h.producer, h.consumer) in all;
    set e | e in all && Ties(p, ordering, e.0, e.1)
  }

  ghost function JobOf(p: Plan, c: NodeId): (j: nat)
    requires c in p.jobs
    ensures j < |p.jobs| && p.jobs[j] == c
  {
    var j :| 0 <= j < |p.jobs| && p.jobs[j] == c;
    j
  }

  lemma JobOfIs(p: Plan, j: nat)
    requires Shaped(p) && j < |p.jobs|
    ensures p.jobs[j] in p.jobs && JobOf(p, p.jobs[j]) == j
  {
  }

  // ---------------------------------------------------------------- from the map to the graph

  lemma InputTies(p: Plan, ordering: seq<OrderingEdge>, u: NodeId, v: NodeId, mask: Mask)
    requires u in Backward(p.edges, v, mask) && mask <= INPUTS + ORDER_ONLY && Kept(p, u) && Kept(p, v)
    ensures (u, v) in TieEdges(p, ordering)
  {
    var e :| e in p.edges && e.to == v && e.from == u && e.link in mask;
    assert (e.from, e.to) in Relation(p.edges, INPUTS + ORDER_ONLY);
  }

  lemma LeadsTwice(e: Edges<NodeId>, a: NodeId, b: NodeId, c: NodeId)
    requires (a, b) in e && (b, c) in e
    ensures Leads(e, a, c)
  {
    LeadsEdge(e, a, b);
    LeadsEdge(e, b, c);
    LeadsTrans(e, a, b, c);
  }

  lemma FilesBetween(p: Plan, x: NodeId, to: NodeId, mask: Mask)
    requires Shaped(p) && x in Backward(p.edges, to, mask)
    ensures mask == ORDER_ONLY ==> x.File?
    ensures to in p.groups ==> x.File?
  {
    var e :| e in p.edges && e.to == to && e.from == x && e.link in mask;
    assert Shape(p.groups, e);
  }

  lemma PrecedesTies(p: Plan, ordering: seq<OrderingEdge>, c: NodeId, cmd: NodeId)
    requires Shaped(p) && c in p.jobs && cmd in p.jobs && Precedes(p, c, cmd)
    ensures Leads(TieEdges(p, ordering), c, cmd)
  {
    var ties := TieEdges(p, ordering);
    if x :| x in Backward(p.edges, cmd, INPUTS) && ViaInput(p, x, c) {
      InputTies(p, ordering, x, cmd, INPUTS);
      if x.Command? {
        LeadsEdge(ties, c, cmd);
      } else {
        InputTies(p, ordering, c, x, INPUTS);
        LeadsTwice(ties, c, x, cmd);
      }
    } else {
      var x :| x in Backward(p.edges, cmd, ORDER_ONLY) && ViaOrderOnly(p, x, c);
      FilesBetween(p, x, cmd, ORDER_ONLY);
      InputTies(p, ordering, x, cmd, ORDER_ONLY);
      if x in p.groups {
        var m :| Into(p, m, x, INPUTS) && Into(p, c, m, INPUTS);
        FilesBetween(p, m, x, INPUTS);
        InputTies(p, ordering, m, x, INPUTS);
        InputTies(p, ordering, c, m, INPUTS);
        LeadsTwice(ties, m, x, cmd);
        LeadsEdge(ties, c, m);
        LeadsTrans(ties, c, m, cmd);
      } else {
        InputTies(p, ordering, c, x, INPUTS);
        LeadsTwice(ties, c, x, cmd);
      }
    }
  }

  lemma WaitsTies(p: Plan, ordering: seq<OrderingEdge>, d: nat, j: nat)
    requires Shaped(p) && d < |p.jobs| && j < |p.jobs| && Waits(p, ordering, j, d)
    ensures p.jobs[d] != p.jobs[j] && Leads(TieEdges(p, ordering), p.jobs[d], p.jobs[j])
  {
    hide Precedes;
    var c, cmd := p.jobs[d], p.jobs[j];
    assert c in p.jobs && cmd in p.jobs;
    if Precedes(p, c, cmd) {
      PrecedesTies(p, ordering, c, cmd);
    } else {
      assert Ties(p, ordering, c, cmd);
      LeadsEdge(TieEdges(p, ordering), c, cmd);
    }
  }

  lemma {:induction false} WaitingTies(p: Plan, ordering: seq<OrderingEdge>, w: seq<nat>, d: nat, j: nat)
    requires Shaped(p) && Path(DepEdges(DepsOf(p, ordering)), w, d, j)
    ensures d < |p.jobs| && j < |p.jobs| && Leads(TieEdges(p, ordering), p.jobs[d], p.jobs[j])
    decreases |w|
  {
    hide Shaped, Waits;
    var deps := DepsOf(p, ordering);
    var u := LeadsLast(DepEdges(deps), w, d, j);
    assert Waits(p, ordering, j, u);
    WaitsTies(p, ordering, u, j);
    if u != d {
      WaitingTies(p, ordering, w[..|w| - 1], d, u);
      LeadsTrans(TieEdges(p, ordering), p.jobs[d], p.jobs[u], p.jobs[j]);
    }
  }

  // ---------------------------------------------------------------- from the graph to the map

  // A tie is an edge or a binding pair of the ordering.
  lemma TieKinds(p: Plan, ordering: seq<OrderingEdge>, u: NodeId, v: NodeId) returns (link: LinkType)
    requires Shaped(p) && (u, v) in TieEdges(p, ordering)
    ensures Kept(p, u) && Kept(p, v)
    ensures || (OrderingEdge(u, v) in ordering && u in p.jobs && v in p.jobs && u.Command? && v.Command?)
            || (Edge(u, v, link) in p.edges && Shape(p.groups, Edge(u, v, link)))
  {
    link := Normal;
    if !(OrderingEdge(u, v) in ordering && Binds(p, OrderingEdge(u, v))) {
      var e :| e in p.edges && e.link in INPUTS + ORDER_ONLY && (e.from, e.to) == (u, v);
      link := e.link;
      assert e == Edge(u, v, link);
    }
  }

  // The first command after the start of a walk comes after it.
  lemma NextCommand(p: Plan, ordering: seq<OrderingEdge>, w: seq<NodeId>) returns (m: nat)
    requires Shaped(p) && Walk(TieEdges(p, ordering), w) && |w| > 1 && w[0].Command? && w[|w| - 1].Command?
    ensures 0 < m < |w| && w[m] in p.jobs
    ensures Precedes(p, w[0], w[m]) || OrderingEdge(w[0], w[m]) in ordering
  {
    hide Shaped;
    assert (w[0], w[1]) in TieEdges(p, ordering);
    var l0 := TieKinds(p, ordering, w[0], w[1]);
    if w[1].Command? {
      m := 1;
      if OrderingEdge(w[0], w[1]) !in ordering { ByCommand(p, w[0], w[1]); }
      return;
    }
    assert (w[1], w[2]) in TieEdges(p, ordering);
    var l1 := TieKinds(p, ordering, w[1], w[2]);
    if w[2].Command? {
      m := 2;
      ByFile(p, w[0], w[1], w[2], l1);
      return;
    }
    assert (w[2], w[3]) in TieEdges(p, ordering);
    var l2 := TieKinds(p, ordering, w[2], w[3]);
    m := 3;
    ByGroup(p, w[0], w[1], w[2], w[3]);
  }

  lemma ByCommand(p: Plan, a: NodeId, b: NodeId)
    requires a.Command? && Edge(a, b, Normal) in p.edges
    ensures Precedes(p, a, b)
  {
    var e := Edge(a, b, Normal);
    assert e.from == a && e.link in INPUTS;
    assert a in Backward(p.edges, b, INPUTS) && ViaInput(p, a, a);
  }

  lemma ByFile(p: Plan, a: NodeId, f: NodeId, b: NodeId, link: LinkType)
    requires Edge(a, f, Normal) in p.edges && Edge(f, b, link) in p.edges
    requires f.File? && f !in p.groups && link in INPUTS + ORDER_ONLY
    ensures Precedes(p, a, b)
  {
    var e, e' := Edge(a, f, Normal), Edge(f, b, link);
    assert e.link in INPUTS && Into(p, a, f, INPUTS);
    if link in INPUTS {
      assert e'.link in INPUTS && f in Backward(p.edges, b, INPUTS) && ViaInput(p, f, a);
    } else {
      assert e'.link in ORDER_ONLY && f in Backward(p.edges, b, ORDER_ONLY) && ViaOrderOnly(p, f, a);
    }
  }

  lemma ByGroup(p: Plan, a: NodeId, f: NodeId, g: NodeId, b: NodeId)
    requires Edge(a, f, Normal) in p.edges && Edge(f, g, Group) in p.edges && Edge(g, b, OrderOnly) in p.edges
    requires g in p.groups
    ensures Precedes(p, a, b)
  {
    var e, e', e'' := Edge(a, f, Normal), Edge(f, g, Group), Edge(g, b, OrderOnly);
    assert e.link in INPUTS && Into(p, a, f, INPUTS);
    assert e'.link in INPUTS && Into(p, f, g, INPUTS);
    assert e''.link in ORDER_ONLY && g in Backward(p.edges, b, ORDER_ONLY) && ViaOrderOnly(p, g, a);
  }

  // Along a walk of ties each job waits for the one before.
  lemma {:induction false} TiesWait(p: Plan, ordering: seq<OrderingEdge>, w: seq<NodeId>)
    requires Shaped(p) && Walk(TieEdges(p, ordering), w) && w[0] in p.jobs && w[|w| - 1] in p.jobs
    ensures w[0] != w[|w| - 1] ==> Leads(DepEdges(DepsOf(p, ordering)), JobOf(p, w[0]), JobOf(p, w[|w| - 1]))
    decreases |w|
  {
    if |w| > 1 {
      var m := NextCommand(p, ordering, w);
      hide Precedes;
      var rest := w[m..];
      WalkDrop(TieEdges(p, ordering), w, m);
      TiesWait(p, ordering, rest);
      var i, j, deps := JobOf(p, w[0]), JobOf(p, w[m]), DepsOf(p, ordering);
      if w[0] != w[m] {
        assert Waits(p, ordering, j, i);
        assert (i, j) in DepEdges(deps);
        LeadsEdge(DepEdges(deps), i, j);
        if w[m] != w[|w| - 1] { LeadsTrans(DepEdges(deps), i, j, JobOf(p, w[|w| - 1])); }
      }
    }
  }

  lemma WalkDrop<T>(e: Edges<T>, w: seq<T>, m: nat)
    requires Walk(e, w) && m < |w|
    ensures Walk(e, w[m..]) && forall k :: 0 <= k < |w[m..]| ==> w[m..][k] == w[m + k]
  {
    forall k | 0 <= k < |w[m..]| - 1 ensures (w[m..][k], w[m..][k + 1]) in e {
      assert (w[m + k], w[m + k + 1]) in e;
    }
  }

  // ---------------------------------------------------------------- the two together

  // One job depends on another exactly when ties lead from the other to it.
  lemma DependsIff(p: Plan, ordering: seq<OrderingEdge>, a: NodeId, b: NodeId)
    requires Shaped(p) && a in p.jobs && b in p.jobs && a != b
    ensures Leads(DepEdges(DepsOf(p, ordering)), JobOf(p, a), JobOf(p, b)) <==> Leads(TieEdges(p, ordering), a, b)
  {
    var deps := DepEdges(DepsOf(p, ordering));
    if Leads(deps, JobOf(p, a), JobOf(p, b)) {
      var w :| Path(deps, w, JobOf(p, a), JobOf(p, b));
      WaitingTies(p, ordering, w, JobOf(p, a), JobOf(p, b));
    }
    if Leads(TieEdges(p, ordering), a, b) {
      var w :| Path(TieEdges(p, ordering), w, a, b);
      TiesWait(p, ordering, w);
    }
  }

  // Two different jobs, each leading to the other.
  ghost predicate Tangled(p: Plan, ordering: seq<OrderingEdge>, a: NodeId, b: NodeId) {
    && a in p.jobs && b in p.jobs && a != b
    && Leads(TieEdges(p, ordering), a, b) && Leads(TieEdges(p, ordering), b, a)
  }

  // A job depends on itself exactly when it is tangled with another.
  lemma LoopIff(p: Plan, ordering: seq<OrderingEdge>, a: NodeId)
    requires Shaped(p) && a in p.jobs
    ensures Leads(DepEdges(DepsOf(p, ordering)), JobOf(p, a), JobOf(p, a)) <==> exists b :: Tangled(p, ordering, a, b)
  {
    var deps := DepEdges(DepsOf(p, ordering));
    var i := JobOf(p, a);
    hide Shaped, Waits;
    if Leads(deps, i, i) {
      var w :| Path(deps, w, i, i);
      var j := LeadsLast(deps, w, i, i);
      assert Waits(p, ordering, i, j);
      WaitsTies(p, ordering, j, i);
      var b := p.jobs[j];
      JobOfIs(p, j);
      DependsIff(p, ordering, a, b);
      assert Leads(deps, i, j);
      assert Tangled(p, ordering, a, b);
    }
    if b :| Tangled(p, ordering, a, b) {
      DependsIff(p, ordering, a, b);
      DependsIff(p, ordering, b, a);
      LeadsTrans(deps, i, JobOf(p, b), i);
    }
  }

  // The map has a cycle exactly when two different jobs lead to each other.
  lemma MapCyclicIff(p: Plan, ordering: seq<OrderingEdge>)
    requires Shaped(p)
    ensures Cyclic(DepEdges(DepsOf(p, ordering))) <==> exists a, b :: Tangled(p, ordering, a, b)
  {
    var deps := DepEdges(DepsOf(p, ordering));
    hide Shaped, Waits, Tangled;
    if Cyclic(deps) {
      var j, w := CycleWitness(deps);
      WaitingTies(p, ordering, w, j, j);
      JobOfIs(p, j);
      LoopIff(p, ordering, p.jobs[j]);
    }
    if a, b :| Tangled(p, ordering, a, b) {
      TangledJobs(p, ordering, a, b);
      LoopIff(p, ordering, a);
    }
  }

  lemma TangledJobs(p: Plan, ordering: seq<OrderingEdge>, a: NodeId, b: NodeId)
    requires Tangled(p, ordering, a, b)
    ensures a in p.jobs && b in p.jobs
  {
  }

  // The job waits, however indirectly, for two jobs that wait for each other.
  ghost predicate Stuck(p: Plan, ordering: seq<OrderingEdge>, c: NodeId) {
    exists a, b :: Tangled(p, ordering, a, b) && (a == c || Leads(TieEdges(p, ordering), a, c))
  }

  lemma StuckIff(p: Plan, ordering: seq<OrderingEdge>, c: NodeId)
    requires Shaped(p) && c in p.jobs
    ensures BehindLoop(DepsOf(p, ordering), JobOf(p, c)) <==> Stuck(p, ordering, c)
  {
    var deps, j := DepEdges(DepsOf(p, ordering)), JobOf(p, c);
    hide Shaped, Waits, Tangled;
    if BehindLoop(DepsOf(p, ordering), j) {
      var x: nat :| Leads(deps, x, x) && (x == j || Leads(deps, x, j));
      var w :| Path(deps, w, x, x);
      WaitingTies(p, ordering, w, x, x);
      JobOfIs(p, x);
      var a := p.jobs[x];
      LoopIff(p, ordering, a);
      var b :| Tangled(p, ordering, a, b);
      if a != c { DependsIff(p, ordering, a, c); }
    }
    if a, b :| Tangled(p, ordering, a, b) && (a == c || Leads(TieEdges(p, ordering), a, c)) {
      TangledJobs(p, ordering, a, b);
      LoopIff(p, ordering, a);
      if a != c { DependsIff(p, ordering, a, c); }
    }
  }

  // Whether every run keeps two jobs in order can be read off the graph.
  lemma OrderIsTied(p: Plan, ordering: seq<OrderingEdge>, runs: Runs, a: NodeId, c: NodeId)
    requires Shaped(p) && a in p.jobs && c in p.jobs && a != c && Ample(runs)
    ensures InOrder(DepsOf(p, ordering), runs, JobOf(p, a), JobOf(p, c)) <==>
      Leads(TieEdges(p, ordering), a, c) || Stuck(p, ordering, c)
  {
    hide Shaped, Waits, Tangled, InOrder, BehindLoop, Stuck;
    InOrderIff(DepsOf(p, ordering), runs, JobOf(p, a), JobOf(p, c));
    DependsIff(p, ordering, a, c);
    StuckIff(p, ordering, c);
  }
}
