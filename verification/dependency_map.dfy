/**
 Which jobs wait for which, read off the graph's edges and an ordering a previous build discovered;
 and the run that follows, with that ordering retracted when it contradicts the graph.
 */
module DependencyMap {
  import opened Digraph
  import opened BuildGraph
  import opened Schedule
  import opened Halting
  import opened Scheduler
  import opened Sequences

  datatype OrderingEdge = OrderingEdge(producer: NodeId, consumer: NodeId)

  // What the map is built from: the commands to run, in order, and the graph around them.
  datatype Plan = Plan(jobs: seq<NodeId>, edges: seq<Edge>, groups: set<NodeId>)

  predicate ValidPlan(p: Plan) {
    Distinct(p.jobs) && forall id :: id in p.jobs ==> id.Command?
  }

  // ---------------------------------------------------------------- what waits for what

  ghost predicate Into(p: Plan, from: NodeId, to: NodeId, mask: Mask) {
    from in Backward(p.edges, to, mask)
  }

  // An input that is a command is waited for itself; any other for the commands that produce it.
  ghost predicate ViaInput(p: Plan, x: NodeId, c: NodeId) {
    if x.Command? then c == x else Into(p, c, x, INPUTS)
  }

  // An order-only group stands for its members.
  ghost predicate ViaOrderOnly(p: Plan, x: NodeId, c: NodeId) {
    if x in p.groups then exists m :: Into(p, m, x, INPUTS) && Into(p, c, m, INPUTS) else Into(p, c, x, INPUTS)
  }

  ghost predicate AnyInput(p: Plan, list: seq<NodeId>, c: NodeId) {
    exists x :: x in list && ViaInput(p, x, c)
  }

  ghost predicate AnyOrderOnly(p: Plan, list: seq<NodeId>, c: NodeId) {
    exists x :: x in list && ViaOrderOnly(p, x, c)
  }

  lemma AnyMore(p: Plan, list: seq<NodeId>, x: NodeId)
    ensures forall c :: AnyInput(p, list + [x], c) <==> AnyInput(p, list, c) || ViaInput(p, x, c)
    ensures forall c :: AnyOrderOnly(p, list + [x], c) <==> AnyOrderOnly(p, list, c) || ViaOrderOnly(p, x, c)
  {
    hide ViaInput, ViaOrderOnly;
    assert forall y :: y in list + [x] <==> y in list || y == x;
  }

  // The graph puts the command `c` before `cmd`.
  ghost predicate Precedes(p: Plan, c: NodeId, cmd: NodeId) {
    || AnyInput(p, Backward(p.edges, cmd, INPUTS), c)
    || AnyOrderOnly(p, Backward(p.edges, cmd, ORDER_ONLY), c)
  }

  ghost predicate Waits(p: Plan, ordering: seq<OrderingEdge>, j: nat, d: nat)
    requires j < |p.jobs| && d < |p.jobs|
  {
    d != j && (Precedes(p, p.jobs[d], p.jobs[j]) || OrderingEdge(p.jobs[d], p.jobs[j]) in ordering)
  }

  ghost function WaitsFor(p: Plan, ordering: seq<OrderingEdge>, j: nat): (r: set<nat>)
    requires j < |p.jobs|
  {
    set d: nat | d < |p.jobs| && Waits(p, ordering, j, d)
  }

  ghost function DepsOf(p: Plan, ordering: seq<OrderingEdge>): (r: Deps)
    ensures |r| == |p.jobs| && ValidDeps(r)
    ensures forall j: nat, d: nat :: j < |p.jobs| ==> (d in r[j] <==> d < |p.jobs| && Waits(p, ordering, j, d))
  {
    seq(|p.jobs|, j requires 0 <= j < |p.jobs| => WaitsFor(p, ordering, j))
  }

  // An ordering edge that ties two different jobs of this build.
  ghost predicate Binds(p: Plan, e: OrderingEdge) {
    e.producer in p.jobs && e.consumer in p.jobs && e.producer != e.consumer
  }

  // ---------------------------------------------------------------- sorted lists without repeats

  function InsertUnique(s: seq<nat>, x: nat): (r: seq<nat>)
    requires Increasing(s)
    ensures Increasing(r) && forall y :: y in r <==> y in s || y == x
  {
    if s == [] then [x]
    else if x < s[0] then [x] + s
    else if x == s[0] then s
    else
      var rest := InsertUnique(s[1..], x);
      assert forall y :: y in s <==> y == s[0] || y in s[1..];
      assert forall j :: 0 <= j < |rest| ==> rest[j] in rest && rest[j] > s[0];
      [s[0]] + rest
  }

  lemma {:induction false} IncreasingCount(s: seq<nat>, all: set<nat>)
    requires Increasing(s) && forall x :: x in s <==> x in all
    ensures |s| == |all|
    decreases |s|
  {
    if s == [] {
      assert all == {};
    } else {
      var front, last := s[..|s| - 1], s[|s| - 1];
      assert last in s;
      forall x | x in front ensures x < last {
        var i :| 0 <= i < |front| && front[i] == x;
      }
      assert forall x :: x in s <==> x in front || x == last;
      IncreasingCount(front, all - {last});
      assert all == (all - {last}) + {last};
    }
  }

  // ---------------------------------------------------------------- building the map

  // Where each command stands among the jobs.
  ghost predicate Indexes(p: Plan, cmdToJob: map<NodeId, nat>) {
    && (forall id :: id in p.jobs <==> id in cmdToJob)
    && forall i :: 0 <= i < |p.jobs| ==> p.jobs[i] in cmdToJob && cmdToJob[p.jobs[i]] == i
  }

  lemma IndexOf(p: Plan, cmdToJob: map<NodeId, nat>, id: NodeId)
    requires Indexes(p, cmdToJob) && id in cmdToJob
    ensures cmdToJob[id] < |p.jobs| && p.jobs[cmdToJob[id]] == id
    ensures forall d: nat :: d < |p.jobs| && p.jobs[d] == id ==> d == cmdToJob[id]
  {
    assert id in p.jobs;
  }

  method NumberJobs(p: Plan) returns (cmdToJob: map<NodeId, nat>)
    requires ValidPlan(p)
    ensures Indexes(p, cmdToJob)
  {
    cmdToJob := map[];
    for i := 0 to |p.jobs|
      invariant forall id :: id in p.jobs[..i] <==> id in cmdToJob
      invariant forall k :: 0 <= k < i ==> p.jobs[k] in cmdToJob && cmdToJob[p.jobs[k]] == k
    {
      cmdToJob := cmdToJob[p.jobs[i] := i];
      assert p.jobs[..i + 1] == p.jobs[..i] + [p.jobs[i]];
    }
    assert p.jobs[..|p.jobs|] == p.jobs;
  }

  // Adds the job of one command, unless it is `j` itself or no job at all.
  method AddJob(p: Plan, cmdToJob: map<NodeId, nat>, id: NodeId, j: nat, dependencies: seq<nat>) returns (r: seq<nat>)
    requires Indexes(p, cmdToJob) && Increasing(dependencies)
    ensures Increasing(r)
    ensures forall d: nat :: d in r <==> d in dependencies || (d < |p.jobs| && d != j && p.jobs[d] == id)
  {
    r := dependencies;
    if id in cmdToJob {
      IndexOf(p, cmdToJob, id);
      if cmdToJob[id] != j { r := InsertUnique(dependencies, cmdToJob[id]); }
    }
  }

  // Adds the commands that produce a node.
  method AddProducers(p: Plan, cmdToJob: map<NodeId, nat>, node: NodeId, j: nat, dependencies: seq<nat>)
    returns (r: seq<nat>)
    requires ValidPlan(p) && Indexes(p, cmdToJob) && Increasing(dependencies)
    ensures Increasing(r)
    ensures forall d: nat ::
      d in r <==> (d in dependencies || (d < |p.jobs| && d != j && Into(p, p.jobs[d], node, INPUTS)))
  {
    var producers := Backward(p.edges, node, INPUTS);
    r := dependencies;
    for k := 0 to |producers|
      invariant Increasing(r)
      invariant forall d: nat ::
        d in r <==> (d in dependencies || (d < |p.jobs| && d != j && p.jobs[d] in producers[..k]))
    {
      assert producers[..k + 1] == producers[..k] + [producers[k]];
      if producers[k].Command? {
        r := AddJob(p, cmdToJob, producers[k], j, r);
      }
    }
    assert producers[..|producers|] == producers;
  }

  method AddInputs(p: Plan, cmdToJob: map<NodeId, nat>, j: nat, dependencies: seq<nat>) returns (r: seq<nat>)
    requires ValidPlan(p) && Indexes(p, cmdToJob) && Increasing(dependencies) && j < |p.jobs|
    ensures Increasing(r)
    ensures forall d: nat ::
      d in r <==> (d in dependencies ||
                   (d < |p.jobs| && d != j && AnyInput(p, Backward(p.edges, p.jobs[j], INPUTS), p.jobs[d])))
  {
    var inputs := Backward(p.edges, p.jobs[j], INPUTS);
    r := dependencies;
    for k := 0 to |inputs|
      invariant Increasing(r)
      invariant forall d: nat ::
        d in r <==> (d in dependencies || (d < |p.jobs| && d != j && AnyInput(p, inputs[..k], p.jobs[d])))
    {
      AnyMore(p, inputs[..k], inputs[k]);
      assert inputs[..k + 1] == inputs[..k] + [inputs[k]];
      if inputs[k].Command? {
        r := AddJob(p, cmdToJob, inputs[k], j, r);
      } else {
        r := AddProducers(p, cmdToJob, inputs[k], j, r);
      }
    }
    assert inputs[..|inputs|] == inputs;
  }

  method AddMembers(p: Plan, cmdToJob: map<NodeId, nat>, group: NodeId, j: nat, dependencies: seq<nat>)
    returns (r: seq<nat>)
    requires ValidPlan(p) && Indexes(p, cmdToJob) && Increasing(dependencies)
    ensures Increasing(r)
    ensures forall d: nat ::
      d in r <==> (d in dependencies ||
                   (d < |p.jobs| && d != j && exists m :: Into(p, m, group, INPUTS) && Into(p, p.jobs[d], m, INPUTS)))
  {
    var members := Backward(p.edges, group, INPUTS);
    r := dependencies;
    for k := 0 to |members|
      invariant Increasing(r)
      invariant forall d: nat ::
        d in r <==> (d in dependencies ||
                     (d < |p.jobs| && d != j && exists m :: m in members[..k] && Into(p, p.jobs[d], m, INPUTS)))
    {
      assert forall x :: x in members[..k + 1] <==> x in members[..k] || x == members[k];
      r := AddProducers(p, cmdToJob, members[k], j, r);
    }
    assert members[..|members|] == members;
  }

  method AddOrderOnly(p: Plan, cmdToJob: map<NodeId, nat>, j: nat, dependencies: seq<nat>) returns (r: seq<nat>)
    requires ValidPlan(p) && Indexes(p, cmdToJob) && Increasing(dependencies) && j < |p.jobs|
    ensures Increasing(r)
    ensures forall d: nat ::
      d in r <==> (d in dependencies ||
                   (d < |p.jobs| && d != j && AnyOrderOnly(p, Backward(p.edges, p.jobs[j], ORDER_ONLY), p.jobs[d])))
  {
    var orderOnly := Backward(p.edges, p.jobs[j], ORDER_ONLY);
    r := dependencies;
    for k := 0 to |orderOnly|
      invariant Increasing(r)
      invariant forall d: nat ::
        d in r <==> (d in dependencies || (d < |p.jobs| && d != j && AnyOrderOnly(p, orderOnly[..k], p.jobs[d])))
    {
      AnyMore(p, orderOnly[..k], orderOnly[k]);
      assert orderOnly[..k + 1] == orderOnly[..k] + [orderOnly[k]];
      if orderOnly[k] in p.groups {
        r := AddMembers(p, cmdToJob, orderOnly[k], j, r);
      } else {
        r := AddProducers(p, cmdToJob, orderOnly[k], j, r);
      }
    }
    assert orderOnly[..|orderOnly|] == orderOnly;
  }

  // For each job, the producers an ordering injects: endpoints that are no job order nothing.
  method Inject(p: Plan, cmdToJob: map<NodeId, nat>, ordering: seq<OrderingEdge>) returns (injected: seq<seq<nat>>)
    requires ValidPlan(p) && Indexes(p, cmdToJob)
    ensures |injected| == |p.jobs| && forall j :: 0 <= j < |p.jobs| ==> Injected(p, ordering, j, injected[j])
  {
    injected := seq(|p.jobs|, _ => []);
    for k := 0 to |ordering|
      invariant |injected| == |p.jobs| && forall j :: 0 <= j < |p.jobs| ==> Injected(p, ordering[..k], j, injected[j])
    {
      var edge := ordering[k];
      assert forall e :: e in ordering[..k + 1] <==> e in ordering[..k] || e == edge;
      if edge.producer in cmdToJob && edge.consumer in cmdToJob {
        var producer, consumer := cmdToJob[edge.producer], cmdToJob[edge.consumer];
        IndexOf(p, cmdToJob, edge.producer);
        IndexOf(p, cmdToJob, edge.consumer);
        if producer != consumer {
          injected := injected[consumer := InsertUnique(injected[consumer], producer)];
        }
      }
    }
    assert ordering[..|ordering|] == ordering;
  }

  ghost predicate Injected(p: Plan, ordering: seq<OrderingEdge>, j: nat, list: seq<nat>)
    requires j < |p.jobs|
  {
    && Increasing(list)
    && forall d: nat :: d in list <==> d < |p.jobs| && d != j && OrderingEdge(p.jobs[d], p.jobs[j]) in ordering
  }

  ghost predicate CountedUpTo(deps: Deps, inDegree: seq<nat>, n: nat) {
    n == |inDegree| <= |deps| && forall k :: 0 <= k < n ==> inDegree[k] == |deps[k] - {}|
  }

  ghost predicate ListedUpTo(deps: Deps, dependents: seq<seq<nat>>, n: nat) {
    n <= |deps| == |dependents| && forall i :: 0 <= i < |deps| ==> ListsUpTo(deps, i, n, dependents[i])
  }

  // The ordering edges into the first `n` jobs that tie two jobs.
  ghost predicate EnforcedUpTo(p: Plan, ordering: seq<OrderingEdge>, enforced: seq<OrderingEdge>, n: nat) {
    n <= |p.jobs| && forall e :: e in enforced <==> e in ordering && Binds(p, e) && e.consumer in p.jobs[..n]
  }

  lemma EnforcedMore(p: Plan, ordering: seq<OrderingEdge>, enforced: seq<OrderingEdge>, n: nat, more: seq<OrderingEdge>)
    requires EnforcedUpTo(p, ordering, enforced, n) && n < |p.jobs|
    requires forall e :: e in more <==> e in ordering && Binds(p, e) && e.consumer == p.jobs[n]
    ensures EnforcedUpTo(p, ordering, enforced + more, n + 1)
  {
    assert forall x :: x in p.jobs[..n + 1] <==> x in p.jobs[..n] || x == p.jobs[n];
  }

  lemma MapComplete(p: Plan, ordering: seq<OrderingEdge>, inDegree: seq<nat>, dependents: seq<seq<nat>>,
                    enforced: seq<OrderingEdge>)
    requires var deps, n := DepsOf(p, ordering), |p.jobs|;
             CountedUpTo(deps, inDegree, n) && ListedUpTo(deps, dependents, n) && EnforcedUpTo(p, ordering, enforced, n)
    ensures Counts(DepsOf(p, ordering), inDegree, {}) && Lists(DepsOf(p, ordering), dependents)
    ensures forall e :: e in enforced <==> e in ordering && Binds(p, e)
  {
    assert p.jobs[..|p.jobs|] == p.jobs;
  }

  // The in-degrees, the lists of dependents and the ordering edges that became dependencies.
  method BuildDependencyMap(p: Plan, ordering: seq<OrderingEdge>)
    returns (inDegree: seq<nat>, dependents: seq<seq<nat>>, enforced: seq<OrderingEdge>)
    requires ValidPlan(p)
    ensures Counts(DepsOf(p, ordering), inDegree, {}) && Lists(DepsOf(p, ordering), dependents)
    ensures forall e :: e in enforced <==> e in ordering && Binds(p, e)
  {
    hide CountedUpTo, ListedUpTo, EnforcedUpTo, Injected, Indexes, Waits, Binds, ValidPlan, Counts, Lists, Increasing;
    var cmdToJob := NumberJobs(p);
    var injected := Inject(p, cmdToJob, ordering);
    ghost var deps := DepsOf(p, ordering);
    inDegree, dependents, enforced := [], seq(|p.jobs|, _ => []), [];
    NothingBuilt(p, ordering, inDegree, dependents, enforced);
    for j := 0 to |p.jobs|
      invariant CountedUpTo(deps, inDegree, j) && ListedUpTo(deps, dependents, j) &&
        EnforcedUpTo(p, ordering, enforced, j)
    {
      var dependencies, more := AddAll(p, cmdToJob, ordering, j, injected[j]);
      EnforcedMore(p, ordering, enforced, j, more);
      enforced := enforced + more;
      CountedMore(deps, inDegree, j, |dependencies|);
      inDegree := inDegree + [|dependencies|];
      dependents := AddDependents(dependents, dependencies, j, deps);
    }
    MapComplete(p, ordering, inDegree, dependents, enforced);
  }

  lemma NothingBuilt(p: Plan, ordering: seq<OrderingEdge>, inDegree: seq<nat>, dependents: seq<seq<nat>>,
                     enforced: seq<OrderingEdge>)
    requires inDegree == [] && enforced == [] && |dependents| == |p.jobs| &&
      forall i :: 0 <= i < |dependents| ==> dependents[i] == []
    ensures var deps := DepsOf(p, ordering);
      CountedUpTo(deps, inDegree, 0) && ListedUpTo(deps, dependents, 0) && EnforcedUpTo(p, ordering, enforced, 0)
  {
    hide Waits, Binds;
  }

  lemma CountedMore(deps: Deps, inDegree: seq<nat>, n: nat, count: nat)
    requires CountedUpTo(deps, inDegree, n) && n < |deps| && count == |deps[n] - {}|
    ensures CountedUpTo(deps, inDegree + [count], n + 1)
  {
  }

  method AddAll(p: Plan, cmdToJob: map<NodeId, nat>, ordering: seq<OrderingEdge>, j: nat, injected: seq<nat>)
    returns (dependencies: seq<nat>, enforced: seq<OrderingEdge>)
    requires ValidPlan(p) && Indexes(p, cmdToJob) && j < |p.jobs| && Injected(p, ordering, j, injected)
    ensures Increasing(dependencies) && |dependencies| == |DepsOf(p, ordering)[j] - {}|
    ensures forall d: nat :: d in dependencies <==> d in DepsOf(p, ordering)[j]
    ensures forall e :: e in enforced <==> e in ordering && Binds(p, e) && e.consumer == p.jobs[j]
  {
    dependencies := AddInputs(p, cmdToJob, j, []);
    dependencies := AddOrderOnly(p, cmdToJob, j, dependencies);
    hide ViaInput, ViaOrderOnly, Into;
    dependencies, enforced := AddInjected(p, ordering, j, injected, dependencies);
    ghost var deps := DepsOf(p, ordering);
    IncreasingCount(dependencies, deps[j]);
    assert deps[j] - {} == deps[j];
  }

  method AddInjected(p: Plan, ordering: seq<OrderingEdge>, j: nat, injected: seq<nat>, dependencies: seq<nat>)
    returns (r: seq<nat>, enforced: seq<OrderingEdge>)
    requires ValidPlan(p) && j < |p.jobs| && Injected(p, ordering, j, injected) && Increasing(dependencies)
    ensures Increasing(r) && forall d: nat :: d in r <==> d in dependencies || d in injected
    ensures forall e :: e in enforced <==> e in ordering && Binds(p, e) && e.consumer == p.jobs[j]
  {
    r, enforced := dependencies, [];
    for k := 0 to |injected|
      invariant Increasing(r) && forall d: nat :: d in r <==> d in dependencies || d in injected[..k]
      invariant forall e :: e in enforced <==> exists i :: 0 <= i < k && e == EdgeTo(p, injected[i], j)
    {
      assert injected[k] in injected;
      assert injected[..k + 1] == injected[..k] + [injected[k]];
      r := InsertUnique(r, injected[k]);
      enforced := enforced + [EdgeTo(p, injected[k], j)];
    }
    assert injected[..|injected|] == injected;
    forall e | e in ordering && Binds(p, e) && e.consumer == p.jobs[j] ensures e in enforced {
      var d: nat :| d < |p.jobs| && p.jobs[d] == e.producer;
      var i :| 0 <= i < |injected| && injected[i] == d;
      assert e == EdgeTo(p, injected[i], j);
    }
    forall e | e in enforced ensures e in ordering && Binds(p, e) && e.consumer == p.jobs[j] {
      var i :| 0 <= i < |injected| && e == EdgeTo(p, injected[i], j);
      assert injected[i] in injected;
    }
  }

  function EdgeTo(p: Plan, d: nat, j: nat): OrderingEdge
    requires j < |p.jobs|
  {
    if d < |p.jobs| then OrderingEdge(p.jobs[d], p.jobs[j]) else OrderingEdge(p.jobs[j], p.jobs[j])
  }

  // The dependents of `i` among the first `n` jobs.
  ghost predicate ListsUpTo(deps: Deps, i: nat, n: nat, list: seq<nat>)
    requires n <= |deps|
  {
    Increasing(list) && forall j: nat :: j in list <==> j < n && i in deps[j]
  }

  method AddDependents(dependents: seq<seq<nat>>, dependencies: seq<nat>, j: nat, ghost deps: Deps)
    returns (r: seq<seq<nat>>)
    requires j < |deps| && ValidDeps(deps) && ListedUpTo(deps, dependents, j)
    requires Increasing(dependencies) && forall d: nat :: d in dependencies <==> d in deps[j]
    ensures ListedUpTo(deps, r, j + 1)
  {
    r := dependents;
    for k := 0 to |dependencies|
      invariant |r| == |deps|
      invariant forall i: nat :: i < |deps| ==> r[i] == dependents[i] + if i in dependencies[..k] then [j] else []
    {
      assert dependencies[k] in dependencies;
      assert dependencies[..k + 1] == dependencies[..k] + [dependencies[k]];
      r := r[dependencies[k] := r[dependencies[k]] + [j]];
    }
    assert dependencies[..|dependencies|] == dependencies;
    forall i | 0 <= i < |deps| ensures ListsUpTo(deps, i, j + 1, r[i]) {
      assert ListsUpTo(deps, i, j, dependents[i]);
      IncreasingPush(dependents[i], j);
    }
  }

  // ---------------------------------------------------------------- the run

  // The map and the run it governs. An injected ordering that makes the map cyclic is withdrawn,
  // all of it.
  method ExecuteParallel(p: Plan, ordering: seq<OrderingEdge>, jobs: nat, keepGoing: bool, dryRun: bool, patience: nat)
    returns (outcome: Outcome, enforced: seq<OrderingEdge>,
             ghost st: State, ghost applied: seq<OrderingEdge>, ghost children: Children)
    requires ValidPlan(p)
    ensures applied == if Cyclic(DepEdges(DepsOf(p, ordering))) then [] else ordering
    ensures forall e :: e in enforced <==> e in applied && Binds(p, e)
    ensures Arises(DepsOf(p, applied), jobs, st) && Inv(DepsOf(p, applied), st)
    ensures ByChildren(st, children, dryRun)
    ensures !keepGoing ==> Halts(st.log, children, SlotsFor(jobs, |p.jobs|))
    ensures outcome == OutOfPatience ==>
      && (jobs > 0 ==> st.running != {}) && (!keepGoing ==> st.failed == {})
      && (st.ready == [] || |st.running| == SlotsFor(jobs, |p.jobs|))
    ensures outcome == Finished ==> st.running == {} && st.ready == [] && st.killed == {}
    ensures outcome == Finished && !Cyclic(DepEdges(DepsOf(p, applied))) ==>
      forall j: nat :: j < |p.jobs| ==> (j !in st.Begun() <==> BehindFailure(DepsOf(p, applied), st, j))
    ensures outcome == Stopped(false) ==> st.failed != {} && !keepGoing
  {
    hide Arises, Inv, Counts, Lists, Occupied, BehindFailure, Binds, Halts, ByChildren;
    var inDegree, dependents, bound := BuildDependencyMap(p, ordering);
    applied, enforced := ordering, bound;
    if ordering != [] {
      var cyclic := HasCycle(inDegree, dependents, DepsOf(p, ordering));
      if cyclic {
        inDegree, dependents, enforced := BuildDependencyMap(p, []);
        applied := [];
      }
    }
    ghost var deps := DepsOf(p, applied);
    var run := new Run(inDegree, dependents, jobs, keepGoing, dryRun, deps);
    if p.jobs == [] {
      outcome := Finished;
      EmptyHoldsNothing(run.st.ready);
      run.Unfailed();
    } else {
      outcome := run.Execute(patience);
    }
    st, children := run.st, run.children;
    ArisesWider(deps, run.slots.Length, jobs, st);
    if outcome == Finished && !Cyclic(DepEdges(deps)) { StalledIsBlocked(deps, st); }
  }

  // An enforced pair is kept by every run: its consumer begins only after its producer has succeeded.
  lemma EnforcedIsRespected(p: Plan, applied: seq<OrderingEdge>, e: OrderingEdge, st: State, d: nat, j: nat, k: nat)
    requires e in applied && d < |p.jobs| && j < |p.jobs| && e == OrderingEdge(p.jobs[d], p.jobs[j]) && d != j
    requires Inv(DepsOf(p, applied), st) && k < |st.log| && st.log[k] == Started(j)
    ensures Succeeded(d) in st.log[..k]
  {
    hide Inv, Precedes;
    var deps := DepsOf(p, applied);
    assert Waits(p, applied, j, d);
    assert (d, j) in DepEdges(deps);
    LeadsEdge(DepEdges(deps), d, j);
    DependenciesFirst(deps, st, d, j, k);
  }
}
