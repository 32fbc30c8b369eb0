/**
 What one build records for the next: which commands must run again because their last run does not
 vouch for their outputs. A record is found again by the outputs its command produces.
 */
module MustRerun {
  import opened Options
  import opened Digraph
  import opened BuildGraph
  import opened DependencyMap
  import opened Reachability
  import opened Evidence

  // What a command answers to: the paths it produces or, if it produces none, its textual key.
  datatype Address = Address(outputs: seq<string>, key: nat)

  datatype Record = Record(address: Address, dir: string, signature: nat, mustRerun: bool)

  type Index = seq<Record>

  // A graph as one build sees it. `config` are the commands that produce a configuration, which no
  // build runs; `resolve` takes an output path to its file node.
  datatype Variant = Variant(
    edges: seq<Edge>, commands: Commands, address: map<NodeId, Address>, dir: map<NodeId, string>,
    signature: map<NodeId, nat>, config: set<NodeId>, resolve: map<string, NodeId>, generated: set<NodeId>)

  ghost predicate ValidVariant(v: Variant) {
    && (forall i, j :: 0 <= i < j < |v.commands.all| ==> v.commands.all[i] != v.commands.all[j])
    && forall c :: c in v.commands.all ==> c in v.address && c in v.dir && c in v.signature && Resolved(v, c)
  }

  // An output path of a command names a generated file the command has an edge to.
  ghost predicate Resolved(v: Variant, c: NodeId)
    requires c in v.address
  {
    forall p :: p in v.address[c].outputs ==>
      p in v.resolve && v.resolve[p] in v.generated && c in Backward(v.edges, v.resolve[p], INPUTS)
  }

  // ---------------------------------------------------------------- joining

  datatype CommandLookup = CommandLookup(byOutput: map<string, nat>, byKey: map<nat, nat>)

  // The lookup answers for every command of the list, and for no other.
  ghost predicate Covers(list: seq<Address>, l: CommandLookup) {
    CoversPaths(list, l.byOutput) && CoversKeys(list, l.byKey)
  }

  ghost predicate CoversPaths(list: seq<Address>, byOutput: map<string, nat>) {
    && (forall p :: p in byOutput ==> byOutput[p] < |list| && p in list[byOutput[p]].outputs)
    && forall i, p :: 0 <= i < |list| && p in list[i].outputs ==> p in byOutput
  }

  ghost predicate CoversKeys(list: seq<Address>, byKey: map<nat, nat>) {
    && (forall k :: k in byKey ==> byKey[k] < |list| && list[byKey[k]].outputs == [] && list[byKey[k]].key == k)
    && forall i :: 0 <= i < |list| && list[i].outputs == [] ==> list[i].key in byKey
  }

  method LookupOf(list: seq<Address>) returns (l: CommandLookup)
    ensures Covers(list, l)
  {
    l := CommandLookup(map[], map[]);
    for i := 0 to |list|
      invariant Covers(list[..i], l)
    {
      assert list[..i + 1] == list[..i] + [list[i]];
      CoversMore(list[..i], l, list[i]);
      hide Covers, WithOutputs;
      l := CommandLookup(WithOutputs(l.byOutput, list[i].outputs, i),
                         if list[i].outputs == [] then l.byKey[list[i].key := i] else l.byKey);
    }
    assert list[..|list|] == list;
  }

  function WithOutputs(byOutput: map<string, nat>, outputs: seq<string>, i: nat): (r: map<string, nat>)
    ensures forall p :: p in r <==> p in byOutput || p in outputs
    ensures forall p :: p in r ==> r[p] == if p in outputs then i else byOutput[p]
  {
    if outputs == [] then byOutput
    else
      var front, last := outputs[..|outputs| - 1], outputs[|outputs| - 1];
      assert forall p :: p in outputs <==> p in front || p == last;
      WithOutputs(byOutput, front, i)[last := i]
  }

  lemma CoversMore(list: seq<Address>, l: CommandLookup, a: Address)
    requires Covers(list, l)
    ensures Covers(list + [a],
                   CommandLookup(WithOutputs(l.byOutput, a.outputs, |list|),
                                 if a.outputs == [] then l.byKey[a.key := |list|] else l.byKey))
  {
    CoversMorePaths(list, l.byOutput, a);
    CoversMoreKeys(list, l.byKey, a);
    hide CoversPaths, CoversKeys, WithOutputs;
  }

  lemma CoversMorePaths(list: seq<Address>, byOutput: map<string, nat>, a: Address)
    requires CoversPaths(list, byOutput)
    ensures CoversPaths(list + [a], WithOutputs(byOutput, a.outputs, |list|))
  {
    hide WithOutputs;
    var list', by' := list + [a], WithOutputs(byOutput, a.outputs, |list|);
    forall p | p in by' ensures by'[p] < |list'| && p in list'[by'[p]].outputs {}
  }

  lemma CoversMoreKeys(list: seq<Address>, byKey: map<nat, nat>, a: Address)
    requires CoversKeys(list, byKey)
    ensures CoversKeys(list + [a], if a.outputs == [] then byKey[a.key := |list|] else byKey)
  {
  }

  function FirstOwner(byOutput: map<string, nat>, outputs: seq<string>): (r: Option<nat>)
    ensures r.Some? ==> exists k ::
      && 0 <= k < |outputs| && outputs[k] in byOutput && byOutput[outputs[k]] == r.value
      && forall e :: 0 <= e < k ==> outputs[e] !in byOutput
    ensures r.None? ==> forall p :: p in outputs ==> p !in byOutput
  {
    if outputs == [] then None
    else if outputs[0] in byOutput then Some(byOutput[outputs[0]])
    else
      assert forall e :: 0 < e < |outputs| ==> outputs[e] == outputs[1..][e - 1];
      FirstOwner(byOutput, outputs[1..])
  }

  // A command that produces files is never looked up by its key.
  function FindJoined(l: CommandLookup, a: Address): Option<nat> {
    if a.outputs != [] then FirstOwner(l.byOutput, a.outputs)
    else if a.key in l.byKey then Some(l.byKey[a.key])
    else None
  }

  predicate SameKey(a: Address, b: Address) {
    a.outputs == b.outputs == [] && a.key == b.key
  }

  // No path and no key names two of them.
  ghost predicate Unambiguous(list: seq<Address>) {
    && (forall i, j, p :: 0 <= i < |list| && 0 <= j < |list| && p in list[i].outputs && p in list[j].outputs ==> i == j)
    && forall i, j :: 0 <= i < |list| && 0 <= j < |list| && SameKey(list[i], list[j]) ==> i == j
  }

  ghost predicate Unclaimed(list: seq<Address>, paths: seq<string>) {
    forall i, p :: 0 <= i < |list| && p in paths ==> p !in list[i].outputs
  }

  // Joining finds the first path that any has in common, or a common key, whatever else about the command
  // has changed; and an unchanged address finds its own record.
  lemma JoinMeans(list: seq<Address>, l: CommandLookup, a: Address)
    requires Covers(list, l)
    ensures FindJoined(l, a).Some? ==>
      var i := FindJoined(l, a).value;
      i < |list| && if a.outputs == [] then list[i].outputs == [] && list[i].key == a.key
                    else exists k ::
                      0 <= k < |a.outputs| && a.outputs[k] in list[i].outputs && Unclaimed(list, a.outputs[..k])
    ensures FindJoined(l, a).None? <==>
      (forall i, p :: 0 <= i < |list| && p in a.outputs ==> p !in list[i].outputs)
      && (a.outputs == [] ==> forall i :: 0 <= i < |list| && list[i].outputs == [] ==> list[i].key != a.key)
    ensures forall i :: Unambiguous(list) && 0 <= i < |list| && list[i] == a ==> FindJoined(l, a) == Some(i)
  {
    if a.outputs != [] {
      assert a.outputs[0] in a.outputs;
      if FindJoined(l, a).Some? {
        var k :| 0 <= k < |a.outputs|
          && a.outputs[k] in l.byOutput && l.byOutput[a.outputs[k]] == FindJoined(l, a).value
          && forall e :: 0 <= e < k ==> a.outputs[e] !in l.byOutput;
        assert a.outputs[k] in a.outputs && a.outputs[k] in list[FindJoined(l, a).value].outputs;
        assert Unclaimed(list, a.outputs[..k]);
      }
    }
  }

  // ---------------------------------------------------------------- what must run

  function AddressesOf(idx: Index): (r: seq<Address>)
    ensures |r| == |idx| && forall i :: 0 <= i < |idx| ==> r[i] == idx[i].address
  {
    seq(|idx|, i requires 0 <= i < |idx| => idx[i].address)
  }

  // The record a command of the graph is joined to.
  ghost function Previous(v: Variant, idx: Index, l: CommandLookup, c: NodeId): Option<nat>
    requires c in v.address
  {
    FindJoined(l, v.address[c])
  }

  ghost predicate Marked(v: Variant, idx: Index, l: CommandLookup, c: NodeId) {
    c in v.address && var i := Previous(v, idx, l, c); i.Some? && i.value < |idx| && idx[i.value].mustRerun
  }

  // New, changed, or marked.
  ghost predicate Pending(v: Variant, idx: Index, l: CommandLookup, c: NodeId) {
    && c in v.address && c in v.signature
    && var i := Previous(v, idx, l, c);
       i.None? || i.value >= |idx| || idx[i.value].mustRerun || idx[i.value].signature != v.signature[c]
  }

  // The outputs of the commands that must run join the changed files; a command without outputs is
  // named outright.
  method DetectNewCommands(v: Variant, idx: Index, l: CommandLookup)
    returns (changedOutputs: seq<string>, forced: seq<NodeId>, mustRerun: set<NodeId>)
    requires ValidVariant(v) && Covers(AddressesOf(idx), l)
    ensures forall p ::
      p in changedOutputs <==> exists c :: c in v.commands.all && Pending(v, idx, l, c) && p in v.address[c].outputs
    ensures forall c :: c in forced <==> c in v.commands.all && Pending(v, idx, l, c) && v.address[c].outputs == []
    ensures forall c :: c in mustRerun <==> c in v.commands.all && Marked(v, idx, l, c)
  {
    changedOutputs, forced, mustRerun := [], [], {};
    var all := v.commands.all;
    hide Covers, ValidVariant, Resolved;
    for k := 0 to |all|
      invariant forall c :: c in all[..k] ==> c in v.address
      invariant forall p :: p in changedOutputs <==> OutputOfPending(v, idx, l, all[..k], p)
      invariant forall c :: c in forced <==> c in all[..k] && Pending(v, idx, l, c) && v.address[c].outputs == []
      invariant forall c :: c in mustRerun <==> c in all[..k] && Marked(v, idx, l, c)
    {
      var c := all[k];
      assert forall x :: x in all[..k + 1] <==> x in all[..k] || x == c;
      VariantHas(v, c);
      JoinMeans(AddressesOf(idx), l, v.address[c]);
      var joined := FindJoined(l, v.address[c]);
      var marked := joined.Some? && idx[joined.value].mustRerun;
      if marked { mustRerun := mustRerun + {c}; }
      if joined.None? || marked || idx[joined.value].signature != v.signature[c] {
        changedOutputs := changedOutputs + v.address[c].outputs;
        if v.address[c].outputs == [] { forced := forced + [c]; }
      }
    }
    assert all[..|all|] == all;
  }

  ghost predicate OutputOfPending(v: Variant, idx: Index, l: CommandLookup, list: seq<NodeId>, p: string) {
    exists c :: c in list && Pending(v, idx, l, c) && p in v.address[c].outputs
  }

  lemma VariantHas(v: Variant, c: NodeId)
    requires ValidVariant(v) && c in v.commands.all
    ensures c in v.address && c in v.dir && c in v.signature
  {
  }

  // ---------------------------------------------------------------- one build

  datatype JobResult = JobResult(id: NodeId, success: bool)

  // Everything about a build but the record it starts from: what else it found changed, what it was
  // asked for, how its commands ended, and what it knows about directories and carried records.
  // `scoped` are the commands in scope when it also takes what those depend on.
  datatype Build = Build(
    v: Variant, changed: seq<NodeId>, forced: seq<NodeId>, ordering: seq<OrderingEdge>,
    targets: Option<set<NodeId>>, scoped: Option<seq<NodeId>>, otherWork: bool, results: seq<JobResult>,
    raced: set<NodeId>, authoritative: set<string>, stale: set<nat>, dryRun: bool, written: bool)

  // What it worked out on the way, and whether it saved a record.
  datatype Facts = Facts(lookup: CommandLookup, newLookup: CommandLookup, selected: set<NodeId>, saved: bool)

  ghost predicate ValidBuild(b: Build) {
    && ValidVariant(b.v) && ScansFeedParents(b.v.commands, Onward(b.v.edges, b.ordering))
    && forall i, j :: 0 <= i < j < |b.results| ==> b.results[i].id != b.results[j].id
  }

  predicate Succeeds(b: Build, c: NodeId) {
    JobResult(c, true) in b.results
  }

  predicate Fails(b: Build, c: NodeId) {
    JobResult(c, false) in b.results
  }

  method ResolveAll(v: Variant, paths: seq<string>) returns (nodes: seq<NodeId>)
    ensures forall n :: n in nodes <==> exists p :: p in paths && p in v.resolve && v.resolve[p] == n
  {
    nodes := [];
    for k := 0 to |paths|
      invariant forall n :: n in nodes <==> exists p :: p in paths[..k] && p in v.resolve && v.resolve[p] == n
    {
      assert forall p :: p in paths[..k + 1] <==> p in paths[..k] || p == paths[k];
      if paths[k] in v.resolve { nodes := nodes + [v.resolve[paths[k]]]; }
    }
    assert paths[..|paths|] == paths;
  }

  // ---------------------------------------------------------------- what a build draws in

  ghost predicate Produces(v: Variant, c: NodeId, n: NodeId) {
    c in v.address && exists p :: p in v.address[c].outputs && p in v.resolve && v.resolve[p] == n
  }

  // Changed, or an output that stands for a new, changed or marked command.
  ghost predicate Touched(b: Build, idx: Index, l: CommandLookup, n: NodeId) {
    n in b.changed || exists c :: c in b.v.commands.all && Pending(b.v, idx, l, c) && Produces(b.v, c, n)
  }

  // A touched node, and for a generated one what makes it.
  ghost predicate Begins(b: Build, idx: Index, l: CommandLookup, x: NodeId) {
    exists n :: Touched(b, idx, l, n) && (x == n || (n in b.v.generated && x in Backward(b.v.edges, n, INPUTS)))
  }

  ghost predicate Outright(b: Build, idx: Index, l: CommandLookup, x: NodeId) {
    x in b.forced || (x in b.v.commands.all && Pending(b.v, idx, l, x) && b.v.address[x].outputs == [])
  }

  ghost predicate Drawn(b: Build, idx: Index, l: CommandLookup, x: NodeId) {
    || Outright(b, idx, l, x)
    || exists s :: Begins(b, idx, l, s) && (s == x || Leads(Onward(b.v.edges, b.ordering), s, x))
  }

  // Drawn in itself, or a scan run for a command that is.
  ghost predicate Affected(b: Build, idx: Index, l: CommandLookup, c: NodeId) {
    Drawn(b, idx, l, c) || (c in b.v.commands.parent && Drawn(b, idx, l, b.v.commands.parent[c]))
  }

  // The lists the loops gather say the same.
  lemma GatheredIsDrawn(b: Build, idx: Index, l: CommandLookup, nodes: seq<NodeId>, forcedNew: seq<NodeId>,
                        seeds: seq<NodeId>)
    requires forall n ::
      n in nodes <==> exists c :: c in b.v.commands.all && Pending(b.v, idx, l, c) && Produces(b.v, c, n)
    requires forall x ::
      x in forcedNew <==> x in b.v.commands.all && Pending(b.v, idx, l, x) && b.v.address[x].outputs == []
    requires forall x :: x in seeds <==> Seed(b.v.edges, b.changed + nodes, b.v.generated, x)
    ensures forall x ::
      Direct(Onward(b.v.edges, b.ordering), seeds, b.forced + forcedNew, x) <==> Drawn(b, idx, l, x)
  {
    hide Pending, Onward, Produces;
    forall n ensures n in b.changed + nodes <==> Touched(b, idx, l, n) {}
    forall x ensures x in seeds <==> Begins(b, idx, l, x) {
      BeginsIs(b, idx, l, b.changed + nodes, x);
    }
    hide Seed, Begins, Touched;
  }

  lemma BeginsIs(b: Build, idx: Index, l: CommandLookup, changed: seq<NodeId>, x: NodeId)
    requires forall n :: n in changed <==> Touched(b, idx, l, n)
    ensures Seed(b.v.edges, changed, b.v.generated, x) <==> Begins(b, idx, l, x)
  {
    hide Touched;
  }

  // A pending command is affected: through the output that stands for it, or outright.
  lemma PendingIsAffected(b: Build, idx: Index, l: CommandLookup, c: NodeId)
    requires ValidVariant(b.v) && c in b.v.commands.all && Pending(b.v, idx, l, c)
    ensures Affected(b, idx, l, c)
  {
    hide Pending, Onward;
    VariantHas(b.v, c);
    var own := b.v.address[c].outputs;
    if own != [] {
      var p := own[0];
      assert p in own && Resolved(b.v, c) && Produces(b.v, c, b.v.resolve[p]);
      assert Touched(b, idx, l, b.v.resolve[p]);
      assert Begins(b, idx, l, c);
    }
  }

  // What the build was asked for: no config command, none but what the targets need and, when there is
  // no record yet, none but what the commands in scope need.
  ghost predicate Wanted(b: Build, prior: Option<Index>, c: NodeId) {
    && c !in b.v.config && (b.targets.Some? ==> c in b.targets.value)
    && (prior.None? && b.scoped.Some? ==> Reached(Upstream(b.v.edges), b.scoped.value, c))
  }

  ghost predicate NothingToDo(b: Build, idx: Index, l: CommandLookup) {
    && b.changed == [] && b.forced == [] && !b.otherWork
    && forall c :: c in b.v.commands.all ==> !Pending(b.v, idx, l, c)
  }

  // The commands this build sets out to run: of those it was asked for all that are affected, or all
  // outright when there is no record.
  method Select(b: Build, prior: Option<Index>, l: CommandLookup)
    returns (selected: set<NodeId>, mustRerun: set<NodeId>, nothing: bool)
    requires ValidBuild(b) && (prior.Some? ==> Covers(AddressesOf(prior.value), l))
    ensures forall c :: c in selected <==>
      c in b.v.commands.all && Wanted(b, prior, c) && (prior.Some? ==> Affected(b, prior.value, l, c))
    ensures forall c ::
      c in mustRerun <==> prior.Some? && c in b.v.commands.all && Marked(b.v, prior.value, l, c) && c !in b.v.config
    ensures nothing <==> prior.Some? && NothingToDo(b, prior.value, l)
  {
    hide Affected, Marked, Onward, Upstream, Reached, NothingToDo, Covers;
    mustRerun, nothing := {}, false;
    selected := set c | c in b.v.commands.all;
    if prior.Some? {
      var affected: set<NodeId>;
      affected, mustRerun, nothing := SelectAffected(b, prior.value, l);
      selected := set c | c in selected && c in affected;
    }
    if b.targets.Some? {
      selected := set c | c in selected && c in b.targets.value;
    }
    if b.scoped.Some? && prior.None? {
      var upstream, _ := CollectRequired(b.v.edges, b.scoped.value);
      selected := set c | c in selected && c in upstream;
    }
    selected := set c | c in selected && c !in b.v.config;
  }

  // What the changes since the record draw in.
  method SelectAffected(b: Build, prior: Index, l: CommandLookup)
    returns (affected: set<NodeId>, mustRerun: set<NodeId>, nothing: bool)
    requires ValidBuild(b) && Covers(AddressesOf(prior), l)
    ensures forall c :: c in affected <==> Affected(b, prior, l, c)
    ensures forall c :: c in mustRerun <==> c in b.v.commands.all && Marked(b.v, prior, l, c) && c !in b.v.config
    ensures nothing <==> NothingToDo(b, prior, l)
  {
    hide Pending, Marked, Covers, Onward, Upstream, Direct, Drawn, Seed, Produces, ScansFeedParents, ValidVariant;
    var outputs, forcedNew, marked := DetectNewCommands(b.v, prior, l);
    var nodes := ResolveAll(b.v, outputs);
    nothing := b.changed == [] && outputs == [] && b.forced == [] && forcedNew == [] && !b.otherWork;
    NothingPending(b, prior, l, outputs, forcedNew);
    mustRerun := set c | c in marked && c !in b.v.config;
    ghost var seeds;
    affected, seeds := CollectAffected(b.v.edges, b.v.commands, b.changed + nodes, b.v.generated, b.forced + forcedNew,
                                       b.ordering);
    NodesAreOutputs(b, prior, l, outputs, nodes);
    GatheredIsDrawn(b, prior, l, nodes, forcedNew, seeds);
  }

  lemma NodesAreOutputs(b: Build, idx: Index, l: CommandLookup, outputs: seq<string>, nodes: seq<NodeId>)
    requires ValidVariant(b.v)
    requires forall p ::
      p in outputs <==> exists c :: c in b.v.commands.all && Pending(b.v, idx, l, c) && p in b.v.address[c].outputs
    requires forall n :: n in nodes <==> exists p :: p in outputs && p in b.v.resolve && b.v.resolve[p] == n
    ensures forall n ::
      n in nodes <==> exists c :: c in b.v.commands.all && Pending(b.v, idx, l, c) && Produces(b.v, c, n)
  {
    hide Pending;
    forall n | n in nodes
      ensures exists c :: c in b.v.commands.all && Pending(b.v, idx, l, c) && Produces(b.v, c, n)
    {
      var p :| p in outputs && p in b.v.resolve && b.v.resolve[p] == n;
      var c :| c in b.v.commands.all && Pending(b.v, idx, l, c) && p in b.v.address[c].outputs;
      VariantHas(b.v, c);
      assert Produces(b.v, c, n);
    }
  }

  lemma NothingPending(b: Build, idx: Index, l: CommandLookup, outputs: seq<string>, forcedNew: seq<NodeId>)
    requires ValidVariant(b.v)
    requires forall p ::
      p in outputs <==> exists c :: c in b.v.commands.all && Pending(b.v, idx, l, c) && p in b.v.address[c].outputs
    requires forall x ::
      x in forcedNew <==> x in b.v.commands.all && Pending(b.v, idx, l, x) && b.v.address[x].outputs == []
    ensures outputs == [] && forcedNew == [] <==> forall c :: c in b.v.commands.all ==> !Pending(b.v, idx, l, c)
  {
    hide Pending;
    forall c | c in b.v.commands.all && Pending(b.v, idx, l, c) ensures outputs != [] || forcedNew != [] {
      VariantHas(b.v, c);
      var own := b.v.address[c].outputs;
      if own == [] { assert c in forcedNew; } else { assert own[0] in own && own[0] in outputs; }
    }
    if outputs != [] { assert outputs[0] in outputs; }
    if forcedNew != [] { assert forcedNew[0] in forcedNew; }
  }

  // Whatever is set out to run is marked beforehand; success clears the mark and failure sets it.
  method RunAll(b: Build, selected: set<NodeId>, mustRerun: set<NodeId>) returns (marks: set<NodeId>)
    requires forall i, j :: 0 <= i < j < |b.results| ==> b.results[i].id != b.results[j].id
    ensures forall c :: c in marks <==> Fails(b, c) || (!Succeeds(b, c) && (c in selected || c in mustRerun))
  {
    marks := mustRerun + selected;
    for k := 0 to |b.results|
      invariant forall c :: c in marks <==>
        (JobResult(c, false) in b.results[..k] ||
         (JobResult(c, true) !in b.results[..k] && (c in selected || c in mustRerun)))
    {
      var r := b.results[k];
      assert forall x :: x in b.results[..k + 1] <==> x in b.results[..k] || x == r;
      marks := if r.success then marks - {r.id} else marks + {r.id};
    }
    assert b.results[..|b.results|] == b.results;
  }

  // ---------------------------------------------------------------- what is recorded

  // What the saved record says of a command of the graph.
  ghost predicate RecordedMark(b: Build, prior: Option<Index>, f: Facts, c: NodeId) {
    || c in b.raced || Fails(b, c)
    || (!Succeeds(b, c) &&
        (c in f.selected || (prior.Some? && Marked(b.v, prior.value, f.lookup, c) && c !in b.v.config)))
  }

  method SerializeCommands(v: Variant, marks: set<NodeId>, raced: set<NodeId>) returns (records: Index)
    requires ValidVariant(v)
    ensures |records| == |v.commands.all|
    ensures forall k :: 0 <= k < |records| ==>
      var c := v.commands.all[k];
      c in v.address && c in v.dir && c in v.signature
      && records[k] == Record(v.address[c], v.dir[c], v.signature[c], c in marks || c in raced)
  {
    hide Resolved;
    records := [];
    for k := 0 to |v.commands.all|
      invariant |records| == k
      invariant forall i :: 0 <= i < k ==>
        var c := v.commands.all[i];
        c in v.address && c in v.dir && c in v.signature
        && records[i] == Record(v.address[c], v.dir[c], v.signature[c], c in marks || c in raced)
    {
      var c := v.commands.all[k];
      records := records + [Record(v.address[c], v.dir[c], v.signature[c], c in marks || c in raced)];
    }
  }

  // A record of a directory this build knows nothing about, and of no command it has, is kept.
  ghost predicate OutOfScope(b: Build, r: Record, newLookup: CommandLookup) {
    r.dir !in b.authoritative && FindJoined(newLookup, r.address).None?
  }

  // What is kept of the first `n` records, in their order; one whose dependencies changed is marked.
  ghost function Kept(b: Build, prior: Index, newLookup: CommandLookup, n: nat): Index
    requires n <= |prior|
  {
    if n == 0 then []
    else
      var r := prior[n - 1];
      Kept(b, prior, newLookup, n - 1)
      + if OutOfScope(b, r, newLookup) then [r.(mustRerun := r.mustRerun || n - 1 in b.stale)] else []
  }

  // A kept record stands behind those kept before it.
  lemma {:induction false} KeptAt(b: Build, prior: Index, newLookup: CommandLookup, i: nat, n: nat)
    requires i < n <= |prior| && OutOfScope(b, prior[i], newLookup)
    ensures var at, kept := |Kept(b, prior, newLookup, i)|, Kept(b, prior, newLookup, n);
            at < |kept| && kept[at] == prior[i].(mustRerun := prior[i].mustRerun || i in b.stale)
    decreases n
  {
    hide OutOfScope;
    if i < n - 1 { KeptAt(b, prior, newLookup, i, n - 1); }
  }

  // Kept records go to the end.
  method MergeOutOfScope(b: Build, prior: Index, newLookup: CommandLookup, records: Index) returns (merged: Index)
    ensures merged == records + Kept(b, prior, newLookup, |prior|)
  {
    merged := records;
    for i := 0 to |prior|
      invariant merged == records + Kept(b, prior, newLookup, i)
    {
      if prior[i].dir !in b.authoritative && FindJoined(newLookup, prior[i].address).None? {
        merged := merged + [prior[i].(mustRerun := prior[i].mustRerun || i in b.stale)];
      }
    }
  }

  // One build, from record to record.
  ghost predicate Step(b: Build, f: Facts, prior: Option<Index>, next: Option<Index>) {
    && ValidBuild(b)
    && (prior.Some? ==> Covers(AddressesOf(prior.value), f.lookup))
    && (forall c :: c in f.selected <==>
          c in b.v.commands.all && Wanted(b, prior, c) && (prior.Some? ==> Affected(b, prior.value, f.lookup, c)))
    && (f.saved <==> !b.dryRun && b.written && !(prior.Some? && NothingToDo(b, prior.value, f.lookup)))
    && if f.saved then next.Some? && Saved(b, f, prior, next.value) else next == prior
  }

  // The graph's commands, and behind them what is kept of the record before.
  ghost predicate Saved(b: Build, f: Facts, prior: Option<Index>, next: Index) {
    var n := |b.v.commands.all|;
    && n <= |next| && Covers(AddressesOf(next[..n]), f.newLookup)
    && (forall k :: 0 <= k < n ==>
          var c := b.v.commands.all[k];
          c in b.v.address && c in b.v.dir && c in b.v.signature
          && next[k] == Record(b.v.address[c], b.v.dir[c], b.v.signature[c], RecordedMark(b, prior, f, c)))
    && next[n..] == if prior.Some? then Kept(b, prior.value, f.newLookup, |prior.value|) else []
  }

  // Whatever a saved build set out to run and did not see succeed, saw fail or saw raced, it marks.
  method BuildVariant(b: Build, prior: Option<Index>) returns (next: Option<Index>, ghost f: Facts)
    requires ValidBuild(b)
    ensures Step(b, f, prior, next)
    ensures f.saved ==> forall k :: 0 <= k < |b.v.commands.all| ==>
      var c := b.v.commands.all[k];
      Fails(b, c) || c in b.raced || (c in f.selected && !Succeeds(b, c)) ==> next.value[k].mustRerun
  {
    hide Pending, Marked, Covers, Onward, ScansFeedParents, Seed, ValidVariant, OutOfScope, Wanted, Kept, Affected;
    var l := LookupOf(if prior.Some? then AddressesOf(prior.value) else []);
    var selected, mustRerun, nothing := Select(b, prior, l);
    f := Facts(l, l, selected, false);
    if nothing || b.dryRun || !b.written { return prior, f; }
    var marks := RunAll(b, selected, mustRerun);
    var records := SerializeCommands(b.v, marks, b.raced);
    var newLookup := LookupOf(AddressesOf(records));
    f := Facts(l, newLookup, selected, true);
    forall k | 0 <= k < |records| ensures records[k].mustRerun <==> RecordedMark(b, prior, f, b.v.commands.all[k]) {
      assert b.v.commands.all[k] in b.v.commands.all;
    }
    var merged := records;
    if prior.Some? { merged := MergeOutOfScope(b, prior.value, newLookup, records); }
    next := Some(merged);
    assert merged[..|records|] == records;
    assert Saved(b, f, prior, merged);
  }

  // ---------------------------------------------------------------- over any sequence of builds

  ghost predicate Joined(b: Build, f: Facts, prior: Index, i: nat, k: nat) {
    && k < |b.v.commands.all| && b.v.commands.all[k] in b.v.address
    && Previous(b.v, prior, f.lookup, b.v.commands.all[k]) == Some(i)
  }

  predicate Done(b: Build, c: NodeId) {
    c in b.v.config || Succeeds(b, c)
  }

  // Where a record goes, by position: it stays where it is when nothing is saved; it becomes that of a
  // command joined to it which is not done; or it is kept, behind those kept before it.
  ghost predicate Link(b: Build, f: Facts, prior: Index, i: nat, i': nat) {
    && i < |prior|
    && if !f.saved then i' == i
       else if i' < |b.v.commands.all| then Joined(b, f, prior, i, i') && !Done(b, b.v.commands.all[i'])
       else OutOfScope(b, prior[i], f.newLookup) && i' == |b.v.commands.all| + |Kept(b, prior, f.newLookup, i)|
  }

  // Every command that is joined to a record in reach has succeeded or is a config command; where there
  // is none, the rule is gone.
  ghost predicate Discharged(b: Build, f: Facts, prior: Index, i: nat) {
    && i < |prior| && f.saved && !OutOfScope(b, prior[i], f.newLookup)
    && forall k: nat :: Joined(b, f, prior, i, k) ==> Done(b, b.v.commands.all[k])
  }

  // A mark goes where its record goes.
  lemma LinkKeepsMark(b: Build, f: Facts, prior: Index, next: Index, i: nat, i': nat)
    requires Step(b, f, Some(prior), Some(next)) && Link(b, f, prior, i, i') && prior[i].mustRerun
    ensures i' < |next| && next[i'].mustRerun
  {
    hide Covers, ValidVariant, ScansFeedParents, Onward, OutOfScope, Pending, Wanted, Kept, Affected;
    if f.saved && i' >= |b.v.commands.all| {
      KeptAt(b, prior, f.newLookup, i, |prior|);
      var n, kept := |b.v.commands.all|, Kept(b, prior, f.newLookup, |prior|);
      assert next[n..][i' - n] == kept[i' - n];
    }
  }

  // A record goes somewhere unless it is discharged.
  lemma LinkExists(b: Build, f: Facts, prior: Index, i: nat)
    requires i < |prior|
    ensures Discharged(b, f, prior, i) <==> !exists i' :: Link(b, f, prior, i, i')
  {
    hide OutOfScope, Kept;
    if !f.saved {
      assert Link(b, f, prior, i, i);
    } else if OutOfScope(b, prior[i], f.newLookup) {
      assert Link(b, f, prior, i, |b.v.commands.all| + |Kept(b, prior, f.newLookup, i)|);
    } else if k: nat :| Joined(b, f, prior, i, k) && !Done(b, b.v.commands.all[k]) {
      assert Link(b, f, prior, i, k);
    }
  }

  ghost predicate History(bs: seq<Build>, fs: seq<Facts>, records: seq<Index>) {
    && |records| == |bs| + 1 == |fs| + 1
    && forall k :: 0 <= k < |bs| ==> Step(bs[k], fs[k], Some(records[k]), Some(records[k + 1]))
  }

  // A record followed through the first builds.
  ghost predicate Trace(bs: seq<Build>, fs: seq<Facts>, records: seq<Index>, at: seq<nat>) {
    && 0 < |at| <= |records| == |bs| + 1 == |fs| + 1
    && forall k :: 0 <= k < |at| - 1 ==> Link(bs[k], fs[k], records[k], at[k], at[k + 1])
  }

  lemma {:induction false} TraceKeepsMark(bs: seq<Build>, fs: seq<Facts>, records: seq<Index>, at: seq<nat>, n: nat)
    requires History(bs, fs, records) && Trace(bs, fs, records, at) && n < |at|
    requires at[0] < |records[0]| && records[0][at[0]].mustRerun
    ensures at[n] < |records[n]| && records[n][at[n]].mustRerun
    decreases n
  {
    hide Step, Link;
    if n > 0 {
      TraceKeepsMark(bs, fs, records, at, n - 1);
      LinkKeepsMark(bs[n - 1], fs[n - 1], records[n - 1], records[n], at[n - 1], at[n]);
    }
  }

  // Through any number of builds, with whatever scopes, targets, failures and kills, a marked record
  // has a marked successor, up to a build that discharges it.
  lemma {:induction false} MarkPersists(bs: seq<Build>, fs: seq<Facts>, records: seq<Index>, i: nat, n: nat)
    returns (at: seq<nat>)
    requires History(bs, fs, records) && n <= |bs| && i < |records[0]| && records[0][i].mustRerun
    ensures Trace(bs, fs, records, at) && at[0] == i && |at| <= n + 1
    ensures forall k :: 0 <= k < |at| ==> at[k] < |records[k]| && records[k][at[k]].mustRerun
    ensures |at| == n + 1 || Discharged(bs[|at| - 1], fs[|at| - 1], records[|at| - 1], at[|at| - 1])
    decreases n
  {
    hide Step, Link, Discharged;
    if n == 0 {
      at := [i];
    } else {
      at := MarkPersists(bs, fs, records, i, n - 1);
      if |at| == n && !Discharged(bs[n - 1], fs[n - 1], records[n - 1], at[n - 1]) {
        LinkExists(bs[n - 1], fs[n - 1], records[n - 1], at[n - 1]);
        var i' :| Link(bs[n - 1], fs[n - 1], records[n - 1], at[n - 1], i');
        LinkKeepsMark(bs[n - 1], fs[n - 1], records[n - 1], records[n], at[n - 1], i');
        at := at + [i'];
      }
    }
  }

  // And the first build without a target filter whose graph has the command sets out to run it.
  lemma MarkIsSelected(bs: seq<Build>, fs: seq<Facts>, records: seq<Index>, at: seq<nat>,
                       b: Build, f: Facts, next: Option<Index>, c: NodeId)
    requires History(bs, fs, records) && Trace(bs, fs, records, at) && |at| == |bs| + 1
    requires at[0] < |records[0]| && records[0][at[0]].mustRerun
    requires Step(b, f, Some(records[|bs|]), next) && b.targets.None? && c in b.v.commands.all && c !in b.v.config &&
      c in b.v.address
    requires Previous(b.v, records[|bs|], f.lookup, c) == Some(at[|bs|])
    ensures c in f.selected
  {
    TraceKeepsMark(bs, fs, records, at, |bs|);
    VariantHas(b.v, c);
    assert Pending(b.v, records[|bs|], f.lookup, c);
    PendingIsAffected(b, records[|bs|], f.lookup, c);
    hide Saved, Covers, ValidVariant, Affected;
  }

  // A new or changed command that is not marked and that this build does not run is still found to be
  // pending by the next build exactly when this one was asked to run it: it is recorded with its signature
  // either way.
  lemma ChangeSurvivesIff(b: Build, f: Facts, prior: Option<Index>, next: Index, k: nat, l: CommandLookup)
    requires Step(b, f, prior, Some(next)) && f.saved && k < |b.v.commands.all|
    requires var c := b.v.commands.all[k];
      && (prior.Some? ==> Pending(b.v, prior.value, f.lookup, c) && !Marked(b.v, prior.value, f.lookup, c))
      && !Succeeds(b, c) && !Fails(b, c) && c !in b.raced && c in b.v.address && Previous(b.v, next, l, c) == Some(k)
    ensures Pending(b.v, next, l, b.v.commands.all[k]) <==> Wanted(b, prior, b.v.commands.all[k])
  {
    if prior.Some? { PendingIsAffected(b, prior.value, f.lookup, b.v.commands.all[k]); }
    hide Covers, ValidVariant, Kept, Reached, Upstream, Affected;
  }

  // A command that reads a changed file is run if the build was asked for it, and stays marked until it
  // succeeds.
  lemma ReaderOfChangeRuns(b: Build, f: Facts, prior: Index, next: Index, file: NodeId, k: nat)
    requires Step(b, f, Some(prior), Some(next)) && k < |b.v.commands.all| && file in b.changed
    requires Wanted(b, Some(prior), b.v.commands.all[k])
    requires exists e ::
      e in b.v.edges && e.from == file && e.to == b.v.commands.all[k] && e.link in DATA_FLOW + ORDER_ONLY
    ensures b.v.commands.all[k] in f.selected
    ensures f.saved && !Succeeds(b, b.v.commands.all[k]) ==> k < |next| && next[k].mustRerun
    ensures f.saved || b.dryRun || !b.written
  {
    var c := b.v.commands.all[k];
    var e :| e in b.v.edges && e.from == file && e.to == c && e.link in DATA_FLOW + ORDER_ONLY;
    assert (e.from, e.to) in Relation(b.v.edges, DATA_FLOW + ORDER_ONLY);
    LeadsEdge(Onward(b.v.edges, b.ordering), file, c);
    assert Touched(b, prior, f.lookup, file) && Begins(b, prior, f.lookup, file);
    assert Affected(b, prior, f.lookup, c);
    hide Affected, Covers, ValidVariant, Onward, Kept;
  }

  // A command that is new, whose signature differs from its record's, or whose record is marked is run if
  // the build was asked for it, and stays marked until it succeeds.
  lemma StaleRuns(b: Build, f: Facts, prior: Index, next: Index, k: nat)
    requires Step(b, f, Some(prior), Some(next)) && k < |b.v.commands.all| && b.v.commands.all[k] in b.v.address
    requires Wanted(b, Some(prior), b.v.commands.all[k]) && b.v.commands.all[k] in b.v.signature
    requires Stale(prior, b.v.address[b.v.commands.all[k]], b.v.signature[b.v.commands.all[k]])
    ensures b.v.commands.all[k] in f.selected
    ensures f.saved && !Succeeds(b, b.v.commands.all[k]) ==> k < |next| && next[k].mustRerun
    ensures f.saved || b.dryRun || !b.written
  {
    var c := b.v.commands.all[k];
    StaleIsPending(b.v, prior, f.lookup, c);
    PendingIsAffected(b, prior, f.lookup, c);
    hide Affected, Covers, ValidVariant, Onward, Kept, Pending, Stale;
    assert !NothingToDo(b, prior, f.lookup);
  }

  // No record shares a path with it, or every one that does says otherwise; and so for the key of a
  // command without outputs.
  ghost predicate Stale(prior: Index, a: Address, signature: nat) {
    forall i :: 0 <= i < |prior| && Meets(prior[i].address, a) ==> prior[i].mustRerun || prior[i].signature != signature
  }

  ghost predicate Meets(a: Address, b: Address) {
    SameKey(a, b) || exists p :: p in a.outputs && p in b.outputs
  }

  lemma StaleIsPending(v: Variant, prior: Index, l: CommandLookup, c: NodeId)
    requires Covers(AddressesOf(prior), l) && c in v.address && c in v.signature
    requires Stale(prior, v.address[c], v.signature[c])
    ensures Pending(v, prior, l, c)
  {
    JoinMeans(AddressesOf(prior), l, v.address[c]);
    hide Covers, FindJoined, AddressesOf;
    var i := Previous(v, prior, l, c);
    if i.Some? { assert Meets(prior[i.value].address, v.address[c]); }
  }

  // One command with one output, and the lookup that answers for it.
  function OneCommand(): Variant {
    Variant([Edge(Command(0), File(0), Normal)], Commands([Command(0)], map[]), map[Command(0) := OneAddress()],
            map[Command(0) := "."], map[Command(0) := 2], {}, map["out" := File(0)], {File(0)})
  }

  function OneAddress(): Address {
    Address(["out"], 0)
  }

  function OneLookup(): CommandLookup {
    CommandLookup(map["out" := 0], map[])
  }

  lemma OneCommandIsValid()
    ensures ValidVariant(OneCommand())
  {
    var v := OneCommand();
    assert Edge(Command(0), File(0), Normal) in v.edges && Command(0) in Backward(v.edges, File(0), INPUTS);
  }

  lemma OneIsCovered(idx: Index)
    requires |idx| == 1 && idx[0].address == OneAddress()
    ensures Covers(AddressesOf(idx), OneLookup()) && FindJoined(OneLookup(), OneAddress()) == Some(0)
  {
    assert OneAddress().outputs[0] in OneAddress().outputs;
    assert AddressesOf(idx) == [OneAddress()];
  }

  // So a build of some targets forgets a change outside of them: this one finds that the signature of
  // a command differs from its record, leaves the command alone, and records the new signature as if
  // the command had run.
  lemma TargetsForgetAChange() returns (b: Build, f: Facts, prior: Index, next: Index)
    ensures Step(b, f, Some(prior), Some(next)) && next != prior && b.v.commands.all == [Command(0)]
    ensures Pending(b.v, prior, f.lookup, Command(0)) && b.targets == Some({}) && b.results == []
    ensures Covers(AddressesOf(next), f.newLookup) && !Pending(b.v, next, f.newLookup, Command(0))
  {
    hide Covers, Onward, ValidVariant, FindJoined, OneLookup, AddressesOf, Saved;
    b := Build(OneCommand(), [], [], [], Some({}), None, false, [], {}, {"."}, {}, false, true);
    f := Facts(OneLookup(), OneLookup(), {}, true);
    prior, next := [Record(OneAddress(), ".", 1, false)], [Record(OneAddress(), ".", 2, false)];
    OneCommandIsValid();
    OneIsCovered(prior);
    OneIsCovered(next);
    ForgottenIsSaved(b, f, prior, next);
    assert Command(0) in b.v.commands.all && Pending(b.v, prior, f.lookup, Command(0));
  }

  lemma ForgottenIsSaved(b: Build, f: Facts, prior: Index, next: Index)
    requires b == Build(OneCommand(), [], [], [], Some({}), None, false, [], {}, {"."}, {}, false, true)
    requires f == Facts(OneLookup(), OneLookup(), {}, true)
    requires prior == [Record(OneAddress(), ".", 1, false)] && next == [Record(OneAddress(), ".", 2, false)]
    ensures Saved(b, f, Some(prior), next)
  {
    hide Covers, FindJoined, OneLookup, AddressesOf;
    OneIsCovered(prior);
    OneIsCovered(next);
    assert next[..1] == next;
    assert !OutOfScope(b, prior[0], OneLookup()) && Kept(b, prior, OneLookup(), 1) == [] == next[1..];
    assert !RecordedMark(b, Some(prior), f, Command(0));
  }
}
