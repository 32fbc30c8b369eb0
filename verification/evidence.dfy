/**
 Which commands a build selects, and when what the finished build takes as proof of order is one: that
 the walk over recorded edges reaches a consumer from a file's producer is to mean that no run starts
 the consumer before the producer has succeeded.
 */
module Evidence {
  import opened Digraph
  import opened BuildGraph
  import opened Schedule
  import opened DependencyMap
  import opened Reachability
  import opened Waiting

  // ---------------------------------------------------------------- the relations that are walked

  ghost function HopEdges(ordering: seq<OrderingEdge>): Edges<NodeId> {
    set h | h in ordering :: (h.producer, h.consumer)
  }

  // What an affected node affects: graph edges, and the ordering an earlier build discovered.
  ghost function Onward(edges: seq<Edge>, ordering: seq<OrderingEdge>): Edges<NodeId> {
    Relation(edges, DATA_FLOW + ORDER_ONLY) + HopEdges(ordering)
  }

  // What a required node requires.
  ghost function Upstream(edges: seq<Edge>): Edges<NodeId> {
    set e | e in edges && e.link in INPUTS + ORDER_ONLY :: (e.to, e.from)
  }

  // What counts as evidence: the recorded edges the graph also carries, and the enforced ordering.
  ghost function Evident(recorded: seq<Edge>, hops: seq<OrderingEdge>): Edges<NodeId> {
    Relation(recorded, PARSED_CONSUMERS) + HopEdges(hops)
  }

  // The consumers an ordering puts after `id`.
  function Consumers(ordering: seq<OrderingEdge>, id: NodeId): (r: seq<NodeId>)
    ensures forall c :: c in r <==> OrderingEdge(id, c) in ordering
  {
    if ordering == [] then []
    else
      var last := ordering[|ordering| - 1];
      var rest := Consumers(ordering[..|ordering| - 1], id);
      assert forall x :: x in ordering <==> x in ordering[..|ordering| - 1] || x == last;
      if last.producer == id then rest + [last.consumer] else rest
  }

  lemma ConsumersAreHops(ordering: seq<OrderingEdge>, id: NodeId)
    ensures forall c :: c in Consumers(ordering, id) <==> (id, c) in HopEdges(ordering)
  {
    forall c | OrderingEdge(id, c) in ordering ensures (id, c) in HopEdges(ordering) {
      var h := OrderingEdge(id, c);
      assert (h.producer, h.consumer) in HopEdges(ordering);
    }
  }

  function AffectedNext(edges: seq<Edge>, ordering: seq<OrderingEdge>, id: NodeId): seq<NodeId> {
    Forward(edges, id, DATA_FLOW) + Forward(edges, id, ORDER_ONLY) + Consumers(ordering, id)
  }

  lemma AffectedNextIsOnward(edges: seq<Edge>, ordering: seq<OrderingEdge>)
    ensures Enumerates(Onward(edges, ordering), id => AffectedNext(edges, ordering, id))
  {
    forall u, v ensures v in AffectedNext(edges, ordering, u) <==> (u, v) in Onward(edges, ordering) {
      ForwardIsRelation(edges, u, DATA_FLOW);
      ForwardIsRelation(edges, u, ORDER_ONLY);
      ForwardIsRelation(edges, u, DATA_FLOW + ORDER_ONLY);
      ConsumersAreHops(ordering, u);
      hide Relation, HopEdges;
    }
  }

  // ---------------------------------------------------------------- selection

  // The commands of the graph, in order, and which are scans run on behalf of another command.
  datatype Commands = Commands(all: seq<NodeId>, parent: map<NodeId, NodeId>)

  // A scan feeds only the command it is run for, which is no scan itself.
  ghost predicate ScansFeedParents(cs: Commands, onward: Edges<NodeId>) {
    && (forall c :: c in cs.parent ==> c in cs.all && cs.parent[c] !in cs.parent)
    && forall e :: e in onward && e.0 in cs.parent ==> e.1 == cs.parent[e.0]
  }

  // A changed file affects what follows from it; a changed output also the command that makes it.
  ghost predicate Seed(edges: seq<Edge>, changed: seq<NodeId>, generated: set<NodeId>, x: NodeId) {
    x in changed || exists f :: f in changed && f in generated && x in Backward(edges, f, INPUTS)
  }

  method Seeds(edges: seq<Edge>, changed: seq<NodeId>, generated: set<NodeId>) returns (seeds: seq<NodeId>)
    ensures forall x :: x in seeds <==> Seed(edges, changed, generated, x)
  {
    seeds := [];
    for i := 0 to |changed|
      invariant forall x :: x in seeds <==> Seed(edges, changed[..i], generated, x)
    {
      assert forall x :: x in changed[..i + 1] <==> x in changed[..i] || x == changed[i];
      seeds := seeds + [changed[i]] + if changed[i] in generated then Backward(edges, changed[i], INPUTS) else [];
    }
    assert changed[..|changed|] == changed;
  }

  // Named outright by what changed, or forced.
  ghost predicate Direct(onward: Edges<NodeId>, seeds: seq<NodeId>, forced: seq<NodeId>, x: NodeId) {
    Reached(onward, seeds, x) || x in forced
  }

  // And the scans run for it.
  ghost predicate Named(cs: Commands, onward: Edges<NodeId>, seeds: seq<NodeId>, forced: seq<NodeId>, x: NodeId) {
    Direct(onward, seeds, forced, x) || (x in cs.parent && Direct(onward, seeds, forced, cs.parent[x]))
  }

  ghost predicate Affects(cs: Commands, onward: Edges<NodeId>, seeds: seq<NodeId>, forced: seq<NodeId>,
                          affected: set<NodeId>) {
    forall x :: x in affected <==> Named(cs, onward, seeds, forced, x)
  }

  // Forced commands are added last and affect nothing further; a scan follows its command.
  method CollectAffected(edges: seq<Edge>, cs: Commands, changed: seq<NodeId>, generated: set<NodeId>,
                         forced: seq<NodeId>, ordering: seq<OrderingEdge>)
    returns (affected: set<NodeId>, ghost seeds: seq<NodeId>)
    requires ScansFeedParents(cs, Onward(edges, ordering))
    ensures forall x :: x in seeds <==> Seed(edges, changed, generated, x)
    ensures Affects(cs, Onward(edges, ordering), seeds, forced, affected)
  {
    var toProcess := Seeds(edges, changed, generated);
    seeds := toProcess;
    AffectedNextIsOnward(edges, ordering);
    var closure := Spread(id => AffectedNext(edges, ordering, id), Onward(edges, ordering), toProcess);
    affected := closure + set x | x in forced;
    ghost var direct := affected;
    hide Reached, Onward;
    for i := 0 to |cs.all|
      invariant forall x ::
        x in affected <==> x in direct || (x in cs.all[..i] && x in cs.parent && cs.parent[x] in direct)
    {
      assert forall x :: x in cs.all[..i + 1] <==> x in cs.all[..i] || x == cs.all[i];
      if cs.all[i] in cs.parent && cs.parent[cs.all[i]] in affected {
        affected := affected + {cs.all[i]};
      }
    }
    assert cs.all[..|cs.all|] == cs.all;
  }

  // The affected set lets nothing escape exactly when the forced commands do not: with none forced
  // it is closed under graph edges and discovered ordering alike.
  lemma AffectedClosedIff(cs: Commands, onward: Edges<NodeId>, seeds: seq<NodeId>, forced: seq<NodeId>,
                          affected: set<NodeId>)
    requires ScansFeedParents(cs, onward)
    requires Affects(cs, onward, seeds, forced, affected)
    ensures ClosedUnder(onward, affected) <==> forall e :: e in onward && e.0 in forced ==> e.1 in affected
  {
    if forall e :: e in onward && e.0 in forced ==> e.1 in affected {
      forall e | e in onward && e.0 in affected ensures e.1 in affected {
        if Reached(onward, seeds, e.0) { ReachedStep(onward, seeds, e.0, e.1); }
      }
    }
  }

  function RequiredNext(edges: seq<Edge>, id: NodeId): seq<NodeId> {
    Backward(edges, id, INPUTS) + Backward(edges, id, ORDER_ONLY)
  }

  lemma RequiredNextIsUpstream(edges: seq<Edge>)
    ensures Enumerates(Upstream(edges), id => RequiredNext(edges, id))
  {
    forall u, v ensures v in RequiredNext(edges, u) <==> (u, v) in Upstream(edges) {
      if (u, v) in Upstream(edges) {
        var e :| e in edges && e.link in INPUTS + ORDER_ONLY && (e.to, e.from) == (u, v);
      }
      if v in RequiredNext(edges, u) {
        var e :| e in edges && e.link in INPUTS + ORDER_ONLY && e.to == u && e.from == v;
        assert (e.to, e.from) in Upstream(edges);
      }
    }
  }

  // What a target needs, and the commands among it.
  method CollectRequired(edges: seq<Edge>, targets: seq<NodeId>) returns (visited: set<NodeId>, commands: set<NodeId>)
    ensures forall x :: x in visited <==> Reached(Upstream(edges), targets, x)
    ensures commands == set x | x in visited && x.Command?
    ensures ClosedUnder(Upstream(edges), visited)
  {
    RequiredNextIsUpstream(edges);
    visited := Collect(id => RequiredNext(edges, id), Upstream(edges), targets);
    commands := set x | x in visited && x.Command?;
    forall e | e in Upstream(edges) && e.0 in visited ensures e.1 in visited {
      ReachedStep(Upstream(edges), targets, e.0, e.1);
    }
  }

  // ---------------------------------------------------------------- the walk

  // The commands with an edge into `dep`, then `dep`.
  ghost predicate WalkStart(recorded: seq<Edge>, dep: NodeId, x: NodeId) {
    x == dep || (x.Command? && exists e :: e in recorded && e.to == dep && e.from == x)
  }

  const ANY: Mask := {Normal, Sticky, Group, Implicit, OrderOnly}

  method ReachableFromProducers(recorded: seq<Edge>, dep: NodeId, hops: seq<OrderingEdge>)
    returns (seen: set<NodeId>, ghost starts: seq<NodeId>)
    ensures forall x :: x in starts <==> WalkStart(recorded, dep, x)
    ensures forall x :: x in seen <==> Reached(Evident(recorded, hops), starts, x)
  {
    var producers := Backward(recorded, dep, ANY);
    forall e: Edge ensures e.link in ANY {
      assert e.link == Normal || e.link == Sticky || e.link == Group || e.link == Implicit || e.link == OrderOnly;
    }
    var queue: seq<NodeId> := [];
    for i := 0 to |producers|
      invariant forall x :: x in queue <==> x in producers[..i] && x.Command?
    {
      assert forall x :: x in producers[..i + 1] <==> x in producers[..i] || x == producers[i];
      if producers[i].Command? { queue := queue + [producers[i]]; }
    }
    assert producers[..|producers|] == producers;
    queue := queue + [dep];
    starts := queue;
    EvidentNext(recorded, hops);
    seen := Spread(id => Forward(recorded, id, PARSED_CONSUMERS) + Consumers(hops, id), Evident(recorded, hops), queue);
  }

  // Something the walk starts at is the command or leads to it.
  ghost predicate OrderedAfter(recorded: seq<Edge>, hops: seq<OrderingEdge>, dep: NodeId, c: NodeId) {
    exists x :: WalkStart(recorded, dep, x) && (x == c || Leads(Evident(recorded, hops), x, c))
  }

  lemma ReachedIsOrdered(recorded: seq<Edge>, hops: seq<OrderingEdge>, dep: NodeId, starts: seq<NodeId>, c: NodeId)
    requires forall x :: x in starts <==> WalkStart(recorded, dep, x)
    ensures Reached(Evident(recorded, hops), starts, c) <==> OrderedAfter(recorded, hops, dep, c)
  {
    hide Evident, WalkStart;
  }

  // The commands that read a file this build produced without having been put after it. `discovered`
  // pairs each command that ran with the files it was found to have read.
  method MarkRaced(recorded: seq<Edge>, hops: seq<OrderingEdge>, discovered: seq<(NodeId, NodeId)>,
                   produced: set<NodeId>)
    returns (raced: set<NodeId>)
    ensures forall c ::
      c in raced <==> exists dep :: (c, dep) in discovered && dep in produced && !OrderedAfter(recorded, hops, dep, c)
  {
    raced := {};
    hide OrderedAfter, Reached, WalkStart;
    for k := 0 to |discovered|
      invariant forall c :: c in raced <==>
        exists dep :: (c, dep) in discovered[..k] && dep in produced && !OrderedAfter(recorded, hops, dep, c)
    {
      var (c, dep) := discovered[k];
      assert forall x :: x in discovered[..k + 1] <==> x in discovered[..k] || x == discovered[k];
      if dep in produced {
        var seen, starts := ReachableFromProducers(recorded, dep, hops);
        ReachedIsOrdered(recorded, hops, dep, starts, c);
        if c !in seen { raced := raced + {c}; }
      }
    }
    assert discovered[..|discovered|] == discovered;
  }

  lemma EvidentNext(recorded: seq<Edge>, hops: seq<OrderingEdge>)
    ensures Enumerates(Evident(recorded, hops), id => Forward(recorded, id, PARSED_CONSUMERS) + Consumers(hops, id))
  {
    forall u, v ensures v in Forward(recorded, u, PARSED_CONSUMERS) + Consumers(hops, u) <==>
      (u, v) in Evident(recorded, hops) {
      ForwardIsRelation(recorded, u, PARSED_CONSUMERS);
      ConsumersAreHops(hops, u);
      hide Relation, HopEdges;
    }
  }

  // ---------------------------------------------------------------- what the search vouches for

  // The jobs are the commands both affected and required that produce no configuration.
  ghost predicate Selected(p: Plan, all: seq<NodeId>, affected: set<NodeId>, required: set<NodeId>,
                           config: set<NodeId>) {
    && Shaped(p)
    && (forall c :: c in p.jobs <==> c in all && c in affected && c in required && c !in config)
    && forall e :: e in p.edges ==> (e.from.Command? ==> e.from in all) && (e.to.Command? ==> e.to in all)
  }

  // The record says what the graph says, Implicit edges aside, and the hops bound jobs of this run.
  ghost predicate Faithful(p: Plan, applied: seq<OrderingEdge>, recorded: seq<Edge>, hops: seq<OrderingEdge>) {
    && (forall e :: e in recorded && e.link != Implicit ==> e in p.edges)
    && forall h :: h in hops ==> h in applied && Binds(p, h)
  }

  // One job reads a file that another alone produced, and the search takes it for ordered.
  ghost predicate Vouched(p: Plan, recorded: seq<Edge>, hops: seq<OrderingEdge>, producer: NodeId, dep: NodeId,
                          c: NodeId) {
    && producer in p.jobs && c in p.jobs && producer != c
    && Edge(producer, dep, Normal) in recorded
    && (forall e :: e in recorded && e.to == dep && e.from.Command? ==> e.from == producer)
    && OrderedAfter(recorded, hops, dep, c)
  }

  // Whatever the search vouches for, no run starts early.
  ghost predicate Sound(p: Plan, runs: Runs, applied: seq<OrderingEdge>, recorded: seq<Edge>, hops: seq<OrderingEdge>) {
    forall producer, dep, c :: Vouched(p, recorded, hops, producer, dep, c) ==>
      InOrder(DepsOf(p, applied), runs, JobOf(p, producer), JobOf(p, c))
  }

  // The walk may lead from one job to another by way of `x`.
  ghost predicate Between(recorded: seq<Edge>, hops: seq<OrderingEdge>, a: NodeId, x: NodeId, c: NodeId) {
    x.Command? && Leads(Evident(recorded, hops), a, x) && Leads(Evident(recorded, hops), x, c)
  }

  // What the graph says by itself: the one leads to the other through files and jobs, or the other
  // waits for a loop and never runs.
  ghost predicate Held(p: Plan, applied: seq<OrderingEdge>, a: NodeId, c: NodeId) {
    Leads(TieEdges(p, applied), a, c) || Stuck(p, applied, c)
  }

  lemma VouchedLeads(p: Plan, recorded: seq<Edge>, hops: seq<OrderingEdge>, producer: NodeId, dep: NodeId, c: NodeId)
    requires Vouched(p, recorded, hops, producer, dep, c)
    ensures Leads(Evident(recorded, hops), producer, c)
  {
    var ev, first := Evident(recorded, hops), Edge(producer, dep, Normal);
    assert (first.from, first.to) in Relation(recorded, PARSED_CONSUMERS);
    LeadsEdge(ev, producer, dep);
    var x :| WalkStart(recorded, dep, x) && (x == c || Leads(ev, x, c));
    if x != producer && x != c { LeadsTrans(ev, producer, x, c); }
  }

  lemma Around<T(!new)>(e: Edges<T>, w: seq<T>, a: T, b: T, k: nat)
    requires Path(e, w, a, b) && 0 < k < |w| - 1
    ensures Leads(e, a, w[k]) && Leads(e, w[k], b)
  {
    assert Path(e, w[..k + 1], a, w[k]);
    assert Path(e, w[k..], w[k], b);
  }

  // A step of the walk between nodes of the run is a tie.
  lemma EvidentTies(p: Plan, applied: seq<OrderingEdge>, recorded: seq<Edge>, hops: seq<OrderingEdge>, u: NodeId,
                    v: NodeId)
    requires Faithful(p, applied, recorded, hops) && (u, v) in Evident(recorded, hops) && Kept(p, u) && Kept(p, v)
    ensures (u, v) in TieEdges(p, applied)
  {
    if (u, v) in HopEdges(hops) {
      var h :| h in hops && (h.producer, h.consumer) == (u, v);
      assert h == OrderingEdge(u, v);
    } else {
      var e :| e in recorded && e.link in PARSED_CONSUMERS && (e.from, e.to) == (u, v);
      assert (e.from, e.to) in Relation(p.edges, INPUTS + ORDER_ONLY);
    }
    assert Ties(p, applied, u, v);
  }

  // Where the walk passes no command that is left out, the graph says the same.
  lemma NothingBetween(p: Plan, applied: seq<OrderingEdge>, recorded: seq<Edge>, hops: seq<OrderingEdge>, a: NodeId,
                       c: NodeId)
    requires Faithful(p, applied, recorded, hops) && a in p.jobs && c in p.jobs && Leads(Evident(recorded, hops), a, c)
    requires forall x :: Between(recorded, hops, a, x, c) ==> x in p.jobs
    ensures Leads(TieEdges(p, applied), a, c)
  {
    var ev := Evident(recorded, hops);
    var w: seq<NodeId> :| Path(ev, w, a, c);
    hide Faithful, Evident, Ties;
    forall k | 0 <= k < |w| ensures Kept(p, w[k]) {
      if 0 < k < |w| - 1 && w[k].Command? {
        Around(ev, w, a, c, k);
        assert Between(recorded, hops, a, w[k], c);
      }
    }
    forall k | 0 <= k < |w| - 1 ensures (w[k], w[k + 1]) in TieEdges(p, applied) {
      assert (w[k], w[k + 1]) in ev;
      EvidentTies(p, applied, recorded, hops, w[k], w[k + 1]);
    }
    assert Path(TieEdges(p, applied), w, a, c);
  }

  // ---------------------------------------------------------------- when evidence is order

  // With no command left out in between, the consumer depends on the producer.
  lemma EvidenceIsDependence(p: Plan, applied: seq<OrderingEdge>, recorded: seq<Edge>, hops: seq<OrderingEdge>,
                             producer: NodeId, dep: NodeId, c: NodeId)
    requires Shaped(p) && Faithful(p, applied, recorded, hops) && Vouched(p, recorded, hops, producer, dep, c)
    requires forall x :: Between(recorded, hops, producer, x, c) ==> x in p.jobs
    ensures Leads(DepEdges(DepsOf(p, applied)), JobOf(p, producer), JobOf(p, c))
  {
    VouchedLeads(p, recorded, hops, producer, dep, c);
    NothingBetween(p, applied, recorded, hops, producer, c);
    DependsIff(p, applied, producer, c);
  }

  // So no run starts it before the producer has succeeded.
  lemma EvidenceIsOrder(p: Plan, applied: seq<OrderingEdge>, recorded: seq<Edge>, hops: seq<OrderingEdge>,
                        producer: NodeId, dep: NodeId, c: NodeId, st: State, k: nat)
    requires Shaped(p) && Faithful(p, applied, recorded, hops) && Vouched(p, recorded, hops, producer, dep, c)
    requires forall x :: Between(recorded, hops, producer, x, c) ==> x in p.jobs
    requires Inv(DepsOf(p, applied), st) && k < |st.log| && st.log[k] == Started(JobOf(p, c))
    ensures Succeeded(JobOf(p, producer)) in st.log[..k]
  {
    hide Inv;
    EvidenceIsDependence(p, applied, recorded, hops, producer, dep, c);
    DependenciesFirst(DepsOf(p, applied), st, JobOf(p, producer), JobOf(p, c), k);
  }

  // The evidence can be relied upon exactly when every pair it ties together by way of a command that
  // is left out is held in order by the graph all the same.
  lemma EvidenceIsOrderIff(p: Plan, runs: Runs, applied: seq<OrderingEdge>, recorded: seq<Edge>,
                           hops: seq<OrderingEdge>)
    requires Shaped(p) && Faithful(p, applied, recorded, hops) && Ample(runs)
    ensures Sound(p, runs, applied, recorded, hops) <==>
      forall producer, dep, c, x ::
        Vouched(p, recorded, hops, producer, dep, c) && Between(recorded, hops, producer, x, c) ==>
        x in p.jobs || Held(p, applied, producer, c)
  {
    hide Shaped, Faithful, InOrder, Stuck, Between, OrderedAfter, TieEdges, DepsOf, Leads;
    forall producer, dep, c | Vouched(p, recorded, hops, producer, dep, c)
      ensures InOrder(DepsOf(p, applied), runs, JobOf(p, producer), JobOf(p, c)) <==> Held(p, applied, producer, c)
    {
      OrderIsTied(p, applied, runs, producer, c);
    }
    forall producer, dep, c | Vouched(p, recorded, hops, producer, dep, c)
      ensures Held(p, applied, producer, c) || exists x :: Between(recorded, hops, producer, x, c) && x !in p.jobs
    {
      VouchedLeads(p, recorded, hops, producer, dep, c);
      if forall x :: Between(recorded, hops, producer, x, c) ==> x in p.jobs {
        NothingBetween(p, applied, recorded, hops, producer, c);
      }
    }
  }

  // ---------------------------------------------------------------- selected builds

  // Whatever leads to a job is required, and is a command of the graph if it is a command.
  lemma {:induction false} WalkRequired(p: Plan, all: seq<NodeId>, affected: set<NodeId>, required: set<NodeId>,
                                        config: set<NodeId>, applied: seq<OrderingEdge>, recorded: seq<Edge>,
                                        hops: seq<OrderingEdge>, w: seq<NodeId>)
    requires Selected(p, all, affected, required, config) && Faithful(p, applied, recorded, hops)
    requires ClosedUnder(Upstream(p.edges), required)
    requires Walk(Evident(recorded, hops), w) && |w| > 1 && w[|w| - 1] in required
    ensures w[0] in required && (w[0].Command? ==> w[0] in all)
    decreases |w|
  {
    var u, v := w[0], w[1];
    assert (u, v) in Evident(recorded, hops);
    if |w| > 2 { WalkRequired(p, all, affected, required, config, applied, recorded, hops, w[1..]); }
    if (u, v) in HopEdges(hops) {
      var h :| h in hops && (h.producer, h.consumer) == (u, v);
    } else {
      var e :| e in recorded && e.link in PARSED_CONSUMERS && (e.from, e.to) == (u, v);
      assert (e.to, e.from) in Upstream(p.edges);
    }
  }

  // A command between two jobs is left out only for being unaffected or a config command.
  lemma LeftOutIff(p: Plan, all: seq<NodeId>, affected: set<NodeId>, required: set<NodeId>, config: set<NodeId>,
                   applied: seq<OrderingEdge>, recorded: seq<Edge>, hops: seq<OrderingEdge>, a: NodeId, x: NodeId,
                   c: NodeId)
    requires Selected(p, all, affected, required, config) && Faithful(p, applied, recorded, hops)
    requires ClosedUnder(Upstream(p.edges), required) && c in p.jobs && Between(recorded, hops, a, x, c)
    ensures x !in p.jobs <==> x in config || x !in affected
  {
    var w :| Path(Evident(recorded, hops), w, x, c);
    WalkRequired(p, all, affected, required, config, applied, recorded, hops, w);
  }

  // In terms of what a build selects: its evidence can be relied upon exactly when each pair the walk
  // ties together by way of a config command, or of one the changes and forced commands leave alone,
  // is held in order by the graph all the same.
  lemma SelectedEvidenceIff(p: Plan, runs: Runs, cs: Commands, ordering: seq<OrderingEdge>, seeds: seq<NodeId>,
                            forced: seq<NodeId>,
                            affected: set<NodeId>, required: set<NodeId>, config: set<NodeId>,
                            applied: seq<OrderingEdge>, recorded: seq<Edge>, hops: seq<OrderingEdge>)
    requires Selected(p, cs.all, affected, required, config) && Faithful(p, applied, recorded, hops)
    requires Affects(cs, Onward(p.edges, ordering), seeds, forced, affected) && ClosedUnder(Upstream(p.edges), required)
    requires Ample(runs)
    ensures Sound(p, runs, applied, recorded, hops) <==>
      forall producer, dep, c, x ::
        Vouched(p, recorded, hops, producer, dep, c) && Between(recorded, hops, producer, x, c) ==>
        (x !in config && Named(cs, Onward(p.edges, ordering), seeds, forced, x)) || Held(p, applied, producer, c)
  {
    hide Selected, Faithful, ClosedUnder, Upstream, Onward, Direct, Affects, Vouched, Between, Held, Sound;
    SelectedIsShaped(p, cs.all, affected, required, config);
    EvidenceIsOrderIff(p, runs, applied, recorded, hops);
    forall producer, dep, c, x | Vouched(p, recorded, hops, producer, dep, c) && Between(recorded, hops, producer, x, c)
      ensures x in p.jobs <==> x !in config && Named(cs, Onward(p.edges, ordering), seeds, forced, x)
    {
      VouchedJobs(p, recorded, hops, producer, dep, c);
      LeftOutIff(p, cs.all, affected, required, config, applied, recorded, hops, producer, x, c);
      AffectsNamed(cs, Onward(p.edges, ordering), seeds, forced, affected);
    }
  }

  lemma SelectedIsShaped(p: Plan, all: seq<NodeId>, affected: set<NodeId>, required: set<NodeId>, config: set<NodeId>)
    requires Selected(p, all, affected, required, config)
    ensures Shaped(p)
  {
  }

  lemma VouchedJobs(p: Plan, recorded: seq<Edge>, hops: seq<OrderingEdge>, producer: NodeId, dep: NodeId, c: NodeId)
    requires Vouched(p, recorded, hops, producer, dep, c)
    ensures producer in p.jobs && c in p.jobs
  {
  }

  lemma AffectsNamed(cs: Commands, onward: Edges<NodeId>, seeds: seq<NodeId>, forced: seq<NodeId>,
                     affected: set<NodeId>)
    requires Affects(cs, onward, seeds, forced, affected)
    ensures forall x :: x in affected <==> Named(cs, onward, seeds, forced, x)
  {
  }

  lemma {:induction false} WalkAffected(p: Plan, ordering: seq<OrderingEdge>, applied: seq<OrderingEdge>,
                                        recorded: seq<Edge>, hops: seq<OrderingEdge>, affected: set<NodeId>,
                                        w: seq<NodeId>)
    requires Faithful(p, applied, recorded, hops) && (applied == ordering || applied == [])
    requires ClosedUnder(Onward(p.edges, ordering), affected) && Walk(Evident(recorded, hops), w) && w[0] in affected
    ensures w[|w| - 1] in affected
    decreases |w|
  {
    if |w| > 1 {
      var u, v := w[0], w[1];
      assert (u, v) in Evident(recorded, hops);
      if (u, v) in HopEdges(hops) {
        var h :| h in hops && (h.producer, h.consumer) == (u, v);
        assert (h.producer, h.consumer) in HopEdges(ordering);
      } else {
        var e :| e in recorded && e.link in PARSED_CONSUMERS && (e.from, e.to) == (u, v);
        assert (e.from, e.to) in Relation(p.edges, DATA_FLOW + ORDER_ONLY);
      }
      WalkAffected(p, ordering, applied, recorded, hops, affected, w[1..]);
    }
  }

  // With nothing forced, whatever the targets, even when the scheduler withdrew the discovered
  // ordering: only config commands can come between.
  lemma UnforcedEvidenceIsOrder(p: Plan, runs: Runs, cs: Commands, ordering: seq<OrderingEdge>, seeds: seq<NodeId>,
                                affected: set<NodeId>, required: set<NodeId>, config: set<NodeId>,
                                applied: seq<OrderingEdge>, recorded: seq<Edge>, hops: seq<OrderingEdge>)
    requires Selected(p, cs.all, affected, required, config) && Faithful(p, applied, recorded, hops)
    requires applied == ordering || applied == []
    requires ScansFeedParents(cs, Onward(p.edges, ordering)) &&
      Affects(cs, Onward(p.edges, ordering), seeds, [], affected)
    requires ClosedUnder(Upstream(p.edges), required) && Ample(runs)
    ensures Sound(p, runs, applied, recorded, hops) <==>
      forall producer, dep, c, x ::
        Vouched(p, recorded, hops, producer, dep, c) && Between(recorded, hops, producer, x, c) ==>
        x !in config || Held(p, applied, producer, c)
  {
    hide Selected, Faithful, ClosedUnder, Upstream, Onward, Direct, Affects, ScansFeedParents, Vouched, Between, Held,
      Sound;
    SelectedIsShaped(p, cs.all, affected, required, config);
    EvidenceIsOrderIff(p, runs, applied, recorded, hops);
    NothingEscapes(p, cs, ordering, seeds, affected);
    forall producer, dep, c, x | Vouched(p, recorded, hops, producer, dep, c) && Between(recorded, hops, producer, x, c)
      ensures x in p.jobs <==> x !in config
    {
      VouchedJobs(p, recorded, hops, producer, dep, c);
      LeftOutIff(p, cs.all, affected, required, config, applied, recorded, hops, producer, x, c);
      BetweenIsAffected(p, cs.all, affected, required, config, ordering, applied, recorded, hops, producer, x, c);
    }
  }

  lemma NothingEscapes(p: Plan, cs: Commands, ordering: seq<OrderingEdge>, seeds: seq<NodeId>, affected: set<NodeId>)
    requires ScansFeedParents(cs, Onward(p.edges, ordering)) &&
      Affects(cs, Onward(p.edges, ordering), seeds, [], affected)
    ensures ClosedUnder(Onward(p.edges, ordering), affected)
  {
    hide ScansFeedParents, Affects, Onward;
    AffectedClosedIff(cs, Onward(p.edges, ordering), seeds, [], affected);
  }

  lemma BetweenIsAffected(p: Plan, all: seq<NodeId>, affected: set<NodeId>, required: set<NodeId>, config: set<NodeId>,
                          ordering: seq<OrderingEdge>, applied: seq<OrderingEdge>, recorded: seq<Edge>,
                          hops: seq<OrderingEdge>, a: NodeId, x: NodeId, c: NodeId)
    requires Selected(p, all, affected, required, config) && Faithful(p, applied, recorded, hops) &&
      (applied == ordering || applied == [])
    requires ClosedUnder(Onward(p.edges, ordering), affected) && a in p.jobs && Between(recorded, hops, a, x, c)
    ensures x in affected
  {
    hide Shaped, ClosedUnder, Onward, Evident;
    var w :| Path(Evident(recorded, hops), w, a, x);
    WalkAffected(p, ordering, applied, recorded, hops, affected, w);
  }

  // A command writes a file that a second reads, whose own output a third reads; the outer two are
  // the jobs.
  function Chain(): seq<Edge> {
    [Edge(Command(0), File(0), Normal), Edge(File(0), Command(1), Normal),
     Edge(Command(1), File(1), Normal), Edge(File(1), Command(2), Normal)]
  }

  function Gap(): Plan {
    Plan([Command(0), Command(2)], Chain(), {})
  }

  function ChainNodes(): set<NodeId> {
    {File(0), File(1)} + {Command(0), Command(1), Command(2)}
  }

  function ChainCommands(): Commands {
    Commands([Command(0), Command(1), Command(2)], map[])
  }

  lemma ChainStep(k: nat)
    requires k < 4
    ensures var e := Chain()[k];
      && e in Chain() && (e.from, e.to) in Relation(Chain(), PARSED_CONSUMERS)
      && (e.from, e.to) in Onward(Chain(), [])
  {
    var e := Chain()[k];
    assert e in Chain() && e.link == Normal;
    assert (e.from, e.to) in Relation(Chain(), DATA_FLOW + ORDER_ONLY);
  }

  lemma ChainLeads(e: Edges<NodeId>)
    requires forall k: nat :: k < 4 ==> (Chain()[k].from, Chain()[k].to) in e
    ensures forall x :: x in ChainNodes() && x != Command(0) ==> Leads(e, Command(0), x)
  {
    var w := [Command(0), File(0), Command(1), File(1), Command(2)];
    forall k | 0 <= k < |w| - 1 ensures (w[k], w[k + 1]) in e {
      assert (Chain()[k].from, Chain()[k].to) == (w[k], w[k + 1]);
    }
    forall k | 0 < k < |w| ensures Leads(e, Command(0), w[k]) {
      assert Path(e, w[..k + 1], Command(0), w[k]);
    }
    assert w[1] == File(0) && w[2] == Command(1) && w[3] == File(1) && w[4] == Command(2);
  }

  lemma ChainIsEvident()
    ensures Leads(Evident(Chain(), []), Command(0), Command(2))
  {
    forall k: nat | k < 4 ensures (Chain()[k].from, Chain()[k].to) in Evident(Chain(), []) { ChainStep(k); }
    hide Evident;
    ChainLeads(Evident(Chain(), []));
  }

  lemma FirstMakesFile()
    ensures Edge(Command(0), File(0), Normal) in Chain() && WalkStart(Chain(), File(0), Command(0))
    ensures forall e :: e in Chain() && e.to == File(0) ==> e.from == Command(0)
  {
    var e := Chain()[0];
    assert e in Chain() && e.to == File(0) && e.from == Command(0);
  }

  lemma GapIsVouched()
    ensures Vouched(Gap(), Chain(), [], Command(0), File(0), Command(2)) && Faithful(Gap(), [], Chain(), [])
  {
    hide Evident, WalkStart, Chain;
    ChainIsEvident();
    FirstMakesFile();
    assert OrderedAfter(Chain(), [], File(0), Command(2));
  }

  lemma ChainInto(x: NodeId, to: NodeId, mask: Mask)
    requires x in Backward(Chain(), to, mask)
    ensures Normal in mask && to != Command(0)
    ensures (to == Command(2) ==> x == File(1)) && (to == File(1) ==> x == Command(1))
  {
    var e :| e in Chain() && e.to == to && e.from == x && e.link in mask;
  }

  lemma GapIsUnordered()
    ensures DepsOf(Gap(), []) == [{}, {}]
  {
    var p := Gap();
    forall c, cmd | Precedes(p, c, cmd) && cmd in p.jobs ensures c == Command(1) {
      var mask := if AnyInput(p, Backward(p.edges, cmd, INPUTS), c) then INPUTS else ORDER_ONLY;
      var x :| x in Backward(p.edges, cmd, mask) &&
        (if mask == INPUTS then ViaInput(p, x, c) else ViaOrderOnly(p, x, c));
      ChainInto(x, cmd, mask);
      ChainInto(c, x, INPUTS);
    }
    NobodyWaits(p);
  }

  lemma NobodyWaits(p: Plan)
    requires p.jobs == [Command(0), Command(2)]
    requires forall c, cmd :: Precedes(p, c, cmd) && cmd in p.jobs ==> c == Command(1)
    ensures DepsOf(p, []) == [{}, {}]
  {
    hide Precedes;
    var deps := DepsOf(p, []);
    assert p.jobs[0] in p.jobs && p.jobs[1] in p.jobs;
    assert deps[0] == {} && deps[1] == {};
  }

  // A run of the outer two may start the last before the first has succeeded; and whatever the number
  // of slots and the failures allowed, what the walk finds there cannot be relied upon.
  lemma GapRaces() returns (st: State)
    ensures Arises(DepsOf(Gap(), []), 2, st) && st.log == [Started(0), Started(1)] && Gap().jobs[1] == Command(2)
    ensures forall runs :: Ample(runs) ==> !Sound(Gap(), runs, [], Chain(), [])
  {
    GapIsUnordered();
    GapIsVouched();
    hide Vouched, DepsOf, Chain, InOrder, Arises;
    var p := Gap();
    var deps := DepsOf(p, []);
    st := BothStart(deps);
    assert p.jobs[0] == Command(0) && p.jobs[1] == Command(2);
    assert JobOf(p, Command(0)) == 0 && JobOf(p, Command(2)) == 1;
    forall runs | Ample(runs) ensures !InOrder(deps, runs, 0, 1) {
      NothingOrders(deps, runs);
    }
  }

  lemma BothStart(deps: Deps) returns (st: State)
    requires deps == [{}, {}]
    ensures Arises(deps, 2, st) && st.log == [Started(0), Started(1)]
  {
    var start := State([0, 1], {}, {}, {}, {}, []);
    assert Initial(deps, start);
    hide Arises;
    ArisesInitial(deps, 2, start);
    ArisesStart(deps, 2, start);
    ArisesStart(deps, 2, Start(start));
    st := Start(Start(start));
  }

  lemma NothingOrders(deps: Deps, runs: Runs)
    requires deps == [{}, {}] && Ample(runs)
    ensures !InOrder(deps, runs, 0, 1)
  {
    forall a: nat, b: nat ensures !Leads(DepEdges(deps), a, b) {
      if Leads(DepEdges(deps), a, b) { LeadsAnywhere(DepEdges(deps), a, b); }
    }
    InOrderIff(deps, runs, 0, 1);
  }

  lemma GapIsShaped()
    ensures Shaped(Gap()) && ClosedUnder(Upstream(Chain()), ChainNodes()) &&
      ClosedUnder(Onward(Chain(), []), ChainNodes())
  {
    assert forall e :: e in Upstream(Chain()) ==> e.1 in ChainNodes();
    assert forall e :: e in Onward(Chain(), []) ==> e.1 in ChainNodes();
  }

  // With two commands forced and the one between them not selected, the walk takes the outer pair for
  // ordered, and yet a run may start the consumer before the producer has succeeded.
  lemma ForcedEvidenceMayRace() returns (st: State)
    ensures var p, cs, forced := Gap(), ChainCommands(), [Command(0), Command(2)];
      && Selected(p, cs.all, {Command(0), Command(2)}, ChainNodes(), {}) && ClosedUnder(Upstream(p.edges), ChainNodes())
      && Affects(cs, Onward(p.edges, []), [], forced, {Command(0), Command(2)})
      && Faithful(p, [], p.edges, []) && Vouched(p, p.edges, [], Command(0), File(0), Command(2))
      && Arises(DepsOf(p, []), 2, st) && st.log == [Started(0), Started(1)] && p.jobs[1] == Command(2)
      && forall runs :: Ample(runs) ==> !Sound(p, runs, [], p.edges, [])
  {
    GapIsShaped();
    GapIsVouched();
    st := GapRaces();
    hide ClosedUnder, Upstream, Onward, Vouched, Faithful, Sound, DepsOf, Arises, Shaped;
  }

  lemma AllAffected()
    ensures Affects(ChainCommands(), Onward(Chain(), []), [Command(0)], [], ChainNodes())
  {
    GapIsShaped();
    hide ClosedUnder, Upstream, Onward;
    var onward := Onward(Chain(), []);
    forall k: nat | k < 4 ensures (Chain()[k].from, Chain()[k].to) in onward { ChainStep(k); }
    ChainLeads(onward);
    assert Command(0) in [Command(0)];
    ClosureComplete(onward, [Command(0)], ChainNodes());
  }

  // With nothing forced and everything affected, a config command between two jobs does the same.
  lemma ConfigEvidenceMayRace() returns (st: State)
    ensures var p, cs := Gap(), ChainCommands();
      && Selected(p, cs.all, ChainNodes(), ChainNodes(), {Command(1)}) && ClosedUnder(Upstream(p.edges), ChainNodes())
      && Affects(cs, Onward(p.edges, []), [Command(0)], [], ChainNodes())
      && Faithful(p, [], p.edges, []) && Vouched(p, p.edges, [], Command(0), File(0), Command(2))
      && Arises(DepsOf(p, []), 2, st) && st.log == [Started(0), Started(1)] && p.jobs[1] == Command(2)
      && forall runs :: Ample(runs) ==> !Sound(p, runs, [], p.edges, [])
  {
    GapIsShaped();
    GapIsVouched();
    st := GapRaces();
    AllAffected();
    hide ClosedUnder, Upstream, Onward, Vouched, Faithful, Sound, DepsOf, Arises, Shaped, Affects;
  }
}
