# putup, modelled

putup is a Tupfile build system. This project models the engines its builds rest on and proves what
they promise. Each `.dfy` file is one module; the loops and the mutable objects of the original are
methods and classes here, proved against functions and relations about which the lemmas speak.

- `regex_*.dfy`: a pattern's grammar and denotation, the one-pass compiler to relative-jump code, the
  machine, and the search with one visited table for all start positions.
- `digraph.dfy`, `build_graph.dfy`, `reachability.dfy`, `topo.dfy`, `sorted_graph.dfy`: typed edges,
  worklists, the depth-first sort with its cycle, and what sorting guarantees the scheduler.
- `schedule.dfy`, `halting.dfy`, `scheduler.dfy`, `dependency_map.dfy`, `waiting.dfy`: the run as a
  transition system, what stopping at a failure means, the slot and queue loop that refines it, the map of
  who waits for whom with its withdrawn ordering, and that map read off the graph as walks through files
  and jobs.
- `evidence.dfy`, `must_rerun.dfy`: which commands a build selects, what it takes as proof of order, and
  what it records for the next build.
- `bits.dfy`, `robin_hood.dfy`, `string_pool.dfy`, `arena.dfy`, `adjacency.dfy`: containers that must
  agree with something simple.
- `bytes.dfy`, `string_table.dfy`, `token_list.dfy`, `index_*.dfy`: the saved record, byte by byte, from
  serialising to reading back.
- `guards.dfy`: who owns an output when rules stand under conditionals.
- `text.dfy`, `instruction.dfy`, `instruction_spelling.dfy`: commands as recorded and read back, and what
  every other text means or is refused for.
- `path.dfy`, `path_meaning.dfy`, `source_relative.dfy`: normal and relative paths, and the places they lead to.
- `shell.dfy`, `shell_spelling.dfy`: splitting a command into words, against every way of writing them.

## What the model takes for granted

- A graph in memory: its edges in the order they were added; a node's list is derived from them, as
  `adjacency.dfy` justifies. It holds no Implicit edge; commands lead to commands and files, files to
  commands and groups, groups only order (`Waiting.Shape`). A produced file has one producer.
- A record's ids and the graph's ids are the same; the renumbering between them is one to one.
- What children, polls, clocks and the file system do is chosen freely: exits and launches by
  nondeterministic choice, changed files, known directories and stale records as parameters of a build.
- The checksum is any function from bytes to 32 bytes.
- Text is a sequence of characters that stand for bytes, or of bytes where the record is concerned.
  Field widths of the record are stated (`IndexFormat.Typed`).

## Where the code falls short of a promise

- A build of some targets records the new signature of every command in its graph, also of changed
  commands it leaves out, so the next build takes those for up to date
  (`MustRerun.TargetsForgetAChange`). `MustRerun.ChangeSurvivesIff` says exactly when a change survives.
  `spec/requirements/command-record.ears.md` asks that a changed command be scheduled.
- Forced commands are selected without what follows from them, and config commands are taken out of every
  selection, so the walk over recorded edges can pass a command that does not run and take for ordered what
  raced (`Evidence.ForcedEvidenceMayRace`, `Evidence.ConfigEvidenceMayRace`). `Evidence.EvidenceIsOrderIff`
  is the exact condition, `Evidence.SelectedEvidenceIff` and `Evidence.UnforcedEvidenceIsOrder` say it in
  terms of what is changed, forced and config.
- The sort ignores sticky edges and the dependency map follows them, so a graph in which a command
  produces the sticky source of one that feeds it sorts, and then stalls (`SortedGraph.StickyLoopWaits`).
  `SortedGraph.WholeMapCyclicIff` and, for any jobs and ordering, `Waiting.MapCyclicIff` are the exact
  condition.
- A relative path from a base that climbs past the common part does not lead to the target
  (`Paths.ClimbingBaseMisses`; `Paths.RelativeArrives` is the exact condition).
- Quoting the empty word yields nothing (`Shell.QuotingRoundTrip` is the exact condition).

## Model

| member | source | states |
|---|---|---|
| RegexSearch.SearchPattern | src/parser/regex.cpp:92-429 | a pattern is refused exactly when no tree of the grammar spells it; otherwise the search finds a match exactly when some span of the subject is in the denotation of the tree it spells |
| RegexSearch.Search | src/parser/regex.cpp:359-429 | with one visited table for all start positions, finds a match exactly when the machine can reach one from some start; counting every mark set, at most program length times (subject length + 1) states are expanded; every access is in range |
| RegexSearch.SearchFrom | src/parser/regex.cpp:374-427 | from one start: a match is found, or everything the start reaches is now marked and none of it matches |
| RegexSearch.Run | src/parser/regex.cpp:376-425 | following one thread keeps the marked states closed under the machine's steps, up to those still pending, and expands as many states as it newly marks |
| RegexSearch.Expand | src/parser/regex.cpp:381-424 | one turn of a thread: a known state ends it, any other is marked and counted, and either matches, ends, or leaves its next state in hand and what it forks off pushed |
| RegexSearch.ExhaustedRejects | src/parser/regex.cpp:359-429 | a closed set of marked states that holds every start and no match means the machine accepts nothing |
| RegexMachine.CompiledCorrect | src/parser/regex.cpp:136-261 | running the compiled program accepts exactly the subjects with a span in the tree's denotation, for every tree: starred bodies that match nothing, anchors inside groups |
| RegexMachine.Forward | src/parser/regex.cpp:136-206 | each span of a tree is a path through its code from first instruction to just past the last |
| RegexMachine.Backward | src/parser/regex.cpp:136-206 | each way out of a tree's code leaves just past its last instruction, and the text read on the way is a span of the tree |
| RegexMachine.CompiledWellFormed | src/parser/regex.cpp:119-206 | jumps of compiled code stay inside it, class numbers name classes, and the code is at most twice as long as the pattern, plus one |
| RegexCompiler.Compile | src/parser/regex.cpp:340-357 | the one-pass compiler yields the code and byte classes of the tree the pattern spells, or the offset and reason of the first error |
| RegexCompiler.Compiler.Alternation | src/parser/regex.cpp:136-150 | the fragment emitted is the code of the alternation that begins here, with its relative jumps |
| RegexCompiler.Compiler.Sequence | src/parser/regex.cpp:152-159 | the fragment emitted is the code of the sequence that begins here |
| RegexCompiler.Compiler.QuantifiedAtom | src/parser/regex.cpp:161-206 | the fragment emitted is the code of the quantified item that begins here; a quantifier with nothing to repeat is an error |
| RegexCompiler.Compiler.Atom | src/parser/regex.cpp:208-261 | the fragment emitted is the code of the atom that begins here |
| RegexCompiler.Compiler.BracketClass | src/parser/regex.cpp:287-338 | the byte set collected is the one the bracket expression denotes |
| RegexParser.PatternIffSpelled | src/parser/regex.cpp:136-338 | what is accepted, and as which tree, is exactly the spelling of the grammar's trees |
| RegexParser.SpellingIsUnambiguous | src/parser/regex.cpp:136-338 | no text spells two trees |
| RegexErrors.RefusalIsWarranted | src/parser/regex.cpp:136-338 | a pattern is refused for something that stands at the offset reported: the quantifier without an item, the second quantifier, the unknown escape, the shorthand in a range, the end of the text where a bracket is open |
| Reachability.Spread | src/graph/dag.cpp:1110-1136 | a worklist that marks when it pushes collects exactly what the seeds reach |
| Reachability.Collect | src/graph/dag.cpp:1035-1067 | a worklist that marks when it pops collects exactly what the seeds reach |
| Reachability.HasPath | src/graph/topo.cpp:118-149 | true exactly when source and target are the same or an edge path leads from one to the other |
| Topo.TopologicalSort | src/graph/topo.cpp:81-105 | reports a cycle exactly when the nodes lead to one, and then returns a closed walk of real edges; otherwise each node is listed once with every edge pointing forward |
| Topo.Dfs.Visit | src/graph/topo.cpp:65-79 | visiting a white node leaves it finished after everything it leads to, or a cycle found |
| Topo.Dfs.ReadBack | src/graph/topo.cpp:51-61 | the walk back through the parents ends at the grey node and is the trail in reverse |
| Topo.Dfs.ExtractCycle | src/graph/topo.cpp:50-61 | an edge to a grey node yields a closed walk of real edges |
| Topo.NoCycle | src/graph/topo.cpp:65-105 | a finished order in which each node comes after what it leads to rules out cycles |
| Topo.LiveCycle | src/graph/topo.cpp:81-105 | when edges join listed nodes only, a cycle is reported exactly when the relation has one |
| SortedGraph.SortedMapIsAcyclic | src/exec/scheduler.cpp:387-390 | once the graph has been sorted its dependency map has no cycle, as long as no command produces a sticky source; WholeMapCyclicIff is the exact condition |
| SortedGraph.WholeMapCyclicIff | src/exec/scheduler.cpp:387-416 | with every command a job and no injected ordering, where nothing looks for cycles, the map has one exactly when input and order-only edges, sticky ones included, lead back and forth between two different commands |
| SortedGraph.StickyLoopWaits | src/exec/scheduler.cpp:298-385 | the counterexample to that without the condition: two jobs that wait for each other |
| SortedGraph.StickyLoopSorts | src/graph/topo.cpp:81-105 | the graph of that counterexample has no cycle the sort can see |
| Schedule.StartInv | src/exec/scheduler.cpp:833-914 | starting a ready job keeps the invariant: every job in one place only, released exactly when all it waits for succeeded, no start before that |
| Schedule.SucceedInv | src/exec/scheduler.cpp:1076-1082 | a success, with the release of the jobs it was the last to hold up, keeps the invariant |
| Schedule.FailInv | src/exec/scheduler.cpp:1083-1119 | a failure or a kill keeps the invariant |
| Schedule.DependenciesFirst | src/exec/scheduler.cpp:830-1122 | in every run, a job starts only after everything it depends on, however indirectly, has succeeded |
| Schedule.InOrderIff | src/exec/scheduler.cpp:830-1122 | and that is all there is: no run starts one job before another has succeeded exactly when it depends on the other, or never starts because it waits for a loop of jobs; over the runs that go on after failures, with any number of slots, and over those without failures, with at least two |
| Schedule.RunInv | src/exec/scheduler.cpp:808-1122 | every run of starts from the head of the queue, successes, failures and kills keeps the invariant; the queue begins with the free jobs in order and takes those a success frees in order |
| Schedule.StalledIsBlocked | src/exec/scheduler.cpp:914-918 | when nothing runs and nothing is ready, the jobs never begun are exactly those behind a failed one |
| Schedule.NothingFailed | src/exec/scheduler.cpp:914-918 | with no failure every job has succeeded |
| Schedule.Exhausted | src/exec/scheduler.cpp:830-918 | no more jobs finish than there are, and when all have, none is anywhere else |
| Scheduler.Release | src/exec/scheduler.cpp:1076-1082 | counting dependents down queues exactly the jobs whose last missing dependency this was |
| Scheduler.HasCycle | src/exec/scheduler.cpp:391-416 | the sweep by in-degree is short exactly when the dependency relation has a cycle |
| Scheduler.SlotsBound | src/exec/scheduler.cpp:816-819 | no more jobs run than there are slots |
| Scheduler.Run.Launch | src/exec/scheduler.cpp:831-914 | filling slots from the queue keeps the invariant and stops only for want of jobs or slots, or after a failed launch; if no job finished on the way, for want of jobs or slots; in a run without keep-going nothing is started after a failure but jobs for the later slots of the same pass |
| Scheduler.Run.Fill | src/exec/scheduler.cpp:831-918 | after the launching half of a turn either nothing runs and nothing is ready and the loop is over, or a job has finished, some job runs, or a failure stops the run |
| Scheduler.Run.ReapSlot | src/exec/scheduler.cpp:1034-1093 | a child's exit frees its slot and is exactly the abstract success or failure of its job |
| Scheduler.Run.KillAll | src/exec/scheduler.cpp:1095-1121 | stopping kills exactly what was running |
| Scheduler.Run.Execute | src/exec/scheduler.cpp:830-1122 | the loop is a run with as many slots: it keeps the invariant, its counters count what they name, no more jobs run than there are slots, its own end leaves nothing running or ready, it waits only while a job runs and as many run as there are slots or nothing is ready; without keep-going it never waits after a failure and the log shows that it stopped at the first |
| DependencyMap.BuildDependencyMap | src/exec/scheduler.cpp:298-385 | each in-degree is the number of jobs waited for, each list the jobs that wait, and the enforced pairs are exactly the injected ones that tie two different jobs |
| DependencyMap.AddOrderOnly | src/exec/scheduler.cpp:355-368 | an order-only group stands for the producers of its members, any other order-only input for its own |
| DependencyMap.ExecuteParallel | src/exec/scheduler.cpp:793-1122 | the injected ordering is withdrawn, all of it, exactly when it makes the map cyclic; what follows is a run of that map with as many slots as were asked for; a finished run leaves unbegun exactly the jobs behind a failure; without keep-going nothing is started once a child has failed, and after a launch that failed only the later slots of that pass are filled; a dry run starts no child and any other has a child for every success |
| DependencyMap.EnforcedIsRespected | src/exec/scheduler.cpp:298-385 | in every run an enforced pair's consumer starts after its producer has succeeded |
| Waiting.DependsIff | src/exec/scheduler.cpp:298-385 | one job depends on another exactly when the edges of the graph, among files and jobs, and the ordering that binds jobs lead from the other to it |
| Waiting.MapCyclicIff | src/exec/scheduler.cpp:387-416 | whatever the jobs and the injected ordering, the map has a cycle exactly when such edges lead back and forth between two different jobs |
| Waiting.OrderIsTied | src/exec/scheduler.cpp:298-385 | whether every run keeps two jobs in order can be read off the graph: one leads to the other so, or the other waits for two jobs that lead to each other; over the same runs as InOrderIff |
| Evidence.CollectAffected | src/graph/dag.cpp:1069-1150 | the affected nodes are what changed files and the producers of changed outputs reach, the forced commands, and the scans run for any of those |
| Evidence.AffectedClosedIff | src/graph/dag.cpp:1110-1147 | the affected set is closed under graph edges and discovered ordering exactly when whatever a forced command leads to directly is affected |
| Evidence.CollectRequired | src/graph/dag.cpp:1035-1067 | the required commands are those the targets reach backwards, a backward-closed set |
| Evidence.ReachableFromProducers | src/cli/cmd_build.cpp:866-903 | the walk reaches exactly what the producers of a file, and the file, lead to over parsed consumer edges and enforced hops |
| Evidence.MarkRaced | src/cli/cmd_build.cpp:928-951 | the commands marked are exactly those that read a file produced in this build which the walk does not put before them |
| Evidence.EvidenceIsDependence | src/cli/cmd_build.cpp:857-903 | a job the walk reaches from a produced file depends on the file's producer, when no command left out of the run lies between |
| Evidence.EvidenceIsOrder | src/cli/cmd_build.cpp:857-951 | so no run started it before the producer had succeeded |
| Evidence.EvidenceIsOrderIff | src/cli/cmd_build.cpp:857-951 | for any jobs: what the walk takes for ordered is ordered in every run exactly when each pair of jobs it ties together by way of a command that is no job is tied together in the graph through files and jobs too, or its consumer never runs |
| Evidence.SelectedEvidenceIff | src/cli/cmd_build.cpp:2432-2471 | the same for what a build selects: the commands that can come between are the config commands and those that neither a change nor forcing names |
| Evidence.UnforcedEvidenceIsOrder | src/cli/cmd_build.cpp:2432-2471 | and for a build in which nothing is forced, whatever its targets, even when the ordering was withdrawn: only the config commands can come between |
| Evidence.ForcedEvidenceMayRace | src/graph/dag.cpp:1138-1140 | with two commands forced and the one between them unselected, the walk takes the outer two for ordered and yet a run may start the consumer before the producer has succeeded |
| Evidence.ConfigEvidenceMayRace | src/cli/cmd_build.cpp:2450-2458 | with nothing forced and everything affected, a config command between two jobs is left out of the run, the walk takes the two for ordered and yet a run may start the consumer before the producer has succeeded |
| MustRerun.LookupOf | src/cli/cmd_build.cpp:1017-1048 | the lookup answers for every command by each of its outputs, or by its key if it has none, and for nothing else |
| MustRerun.JoinMeans | src/cli/cmd_build.cpp:1050-1070 | a join is by the first path that any record shares or, between commands without outputs, by the key; there is none exactly when nothing is shared; an unchanged address joins its own record |
| MustRerun.DetectNewCommands | src/cli/cmd_build.cpp:1810-1850 | new, changed and marked commands, and only they, are put forward: by their outputs, or outright when they have none |
| MustRerun.PendingIsAffected | src/graph/dag.cpp:1087-1108 | a command put forward is affected, through the producer of its own output or as forced |
| MustRerun.SelectAffected | src/cli/cmd_build.cpp:2294-2440 | the affected commands are exactly those that changed files, the producers of changed outputs and of the outputs of new, changed or marked commands reach over graph edges and discovered ordering, the forced ones, the pending ones without outputs, and the scans run for any of these; there is nothing to do exactly when nothing is changed, forced or pending and no other work waits |
| MustRerun.Select | src/cli/cmd_build.cpp:2294-2471 | a command is selected exactly when it is no config command, the targets and, in a first build, the scope with what it depends on include it and, if there is a record, it is affected; there is nothing to do exactly when there is a record, nothing is changed, forced or pending and no other work waits |
| MustRerun.RunAll | src/cli/cmd_build.cpp:2344-2365 | after a run a command is marked if it failed, or if it was selected or marked before and did not succeed |
| MustRerun.MergeOutOfScope | src/cli/cmd_build.cpp:1321-1381 | the merged record is the new one followed by exactly the records from directories the build knows nothing about that no command joins, in order, their marks kept or set |
| MustRerun.BuildVariant | src/cli/cmd_build.cpp:2062-2548 | a build leads from record to record by the step the lemmas speak of; it saves one exactly when it is not dry, is able to write and has something to do; every command that failed, raced, or was selected and not seen to succeed is marked in it |
| MustRerun.ReaderOfChangeRuns | src/graph/dag.cpp:1087-1131 | a command that reads a changed file is run if the build was asked for it, and stays marked until it succeeds |
| MustRerun.StaleRuns | src/cli/cmd_build.cpp:1810-1850 | so is a command no record shares a path or key with, and one whose records all are marked or hold another signature |
| MustRerun.LinkKeepsMark | src/cli/cmd_build.cpp:781-821 | in one build a mark follows its record to the position the record goes to: its own, that of a command joined to it, or its place among the records kept |
| MustRerun.MarkPersists | src/cli/cmd_build.cpp:2344-2548 | over any sequence of builds, with any scopes, targets, failures and kills, a marked record has a marked successor after each, up to one that discharges it: its commands succeeded or became config commands, or its rule is gone |
| MustRerun.MarkIsSelected | src/cli/cmd_build.cpp:2432-2469 | and a build without target filter that has the command selects it |
| MustRerun.ChangeSurvivesIff | src/cli/cmd_build.cpp:1824-1842 | a new or changed, unmarked command that was not run is found so by the next build exactly when it is no config command and this one was asked for it, by its targets and, in a first build, its scope |
| MustRerun.TargetsForgetAChange | src/cli/cmd_build.cpp:781-821 | the concrete build in which it is forgotten: a target filter leaves the command out, and the record takes its new signature all the same |
| RobinHood.Table.ProbeInsert | src/core/robin_hood_index.cpp:27-47 | inserting with displacement adds exactly the new entry and keeps each entry at its true distance from home |
| RobinHood.Table.Rebuild | src/core/robin_hood_index.cpp:49-65 | moving to a larger table keeps the multiset of entries |
| RobinHood.Table.Insert | src/core/robin_hood_index.cpp:67-74 | after any insert the table holds the old entries and the new one, never more than four fifths full |
| RobinHood.Table.Reserve | src/core/robin_hood_index.cpp:76-86 | reserving keeps the entries and makes room for the count asked for |
| RobinHood.Table.Find | include/pup/core/robin_hood_index.hpp:48-72 | finds a matching value under the hash exactly when there is one |
| RobinHood.NothingMissed | include/pup/core/robin_hood_index.hpp:59-71 | a probe that stops at an empty slot or a nearer entry has passed every entry of its hash |
| RobinHood.Run | src/core/robin_hood_index.cpp:27-47 | behind a displaced entry every slot back to its home is taken by entries displaced as far as their place in the run |
| RobinHood.Onward | src/core/robin_hood_index.cpp:33-46 | with a free slot left, nothing in hand goes all the way around |
| RobinHood.Ring | src/core/robin_hood_index.cpp:29-31 | with a power of two of slots, masking is the remainder and the step around the ring |
| Bits.AndBelow | src/core/arena.cpp:45-49 | a number and the one below it share a binary digit exactly when it is no power of two |
| StringPool.Pool.Intern | src/core/string_pool.cpp:57-80 | interning adds the string exactly when it is new and hands out the number it stands under; earlier numbers keep their strings |
| StringPool.Pool.Lookup | src/core/string_pool.cpp:65-67 | the index finds a string's number exactly when the string is known |
| StringPool.Pool.Get | src/core/string_pool.cpp:82-95 | an id reads back as its string, an id never handed out as nothing |
| StringPool.Pool.Find | src/core/string_pool.cpp:97-105 | finds the number of a known string, zero for any other |
| StringPool.IdsAgree | src/core/string_pool.cpp:57-80 | whatever is interned before, between and after, two ids are equal exactly when their strings are |
| ArenaStore.Arena.AppendExtend | src/core/arena.cpp:45-63 | an append extends the list by one word, in its own block or in a new one twice as large, and touches no other block |
| ArenaStore.BlockSteps | src/core/arena.cpp:45-58 | a block is full exactly when the length is a power of two, and doubles then |
| Adjacency.EdgeLists.AddEdge | src/graph/dag.cpp:282-306 | after any sequence of added edges every list is the one the edges define |
| Adjacency.EdgeLists.AddValidEdge | src/graph/dag.cpp:284-289 | an edge with an unknown end is refused and changes nothing |
| Adjacency.EdgeLists.BuildEdgeIndices | src/index/entry.cpp:215-229 | building the lists anew from the edges gives the same lists |
| Adjacency.EdgeLists.Lookup | src/index/entry.cpp:189-203 | looking a node up yields its edges in the order they were added |
| Adjacency.ListsOfEdges | src/graph/dag.cpp:299-303 | a node's list holds exactly the positions of its edges, ascending |
| Adjacency.LaidPut | src/core/arena.cpp:48-63 | an append to one list leaves every other list as it was, in a block of its own |
| Adjacency.SpentIsBounded | src/core/arena.cpp:45-63 | the arena stays below eight words an edge |
| Guards.BuildGraph | src/graph/builder.cpp:1878-1993 | a tree of rules and conditionals is accepted exactly when no values of the conditions make two rules produce one output; the commands made are those of the values at hand |
| Guards.NoClashIff | src/graph/builder.cpp:2461-2487 | declarations exclude each other pairwise exactly when no valuation runs two rules with the same output |
| Guards.DeclaredIsRun | src/graph/builder.cpp:1937-1993 | the declarations whose guards hold under a valuation are exactly the outputs of the rules that valuation runs |
| Guards.ExclusiveContradicts | src/graph/builder.cpp:689-709 | guard lists found exclusive are satisfied together by no valuation |
| Guards.NotExclusiveHolds | src/graph/builder.cpp:689-709 | guard lists of one tree not found exclusive are satisfied together by some valuation |
| Guards.AreGuardsMutuallyExclusive | src/graph/builder.cpp:689-709 | the loop finds exactly whether the first difference is over one condition |
| Guards.Builder.ProcessBody | src/graph/builder.cpp:1912-1925 | a body is refused exactly when one of its declarations clashes; otherwise all are recorded and the conditions made |
| Guards.Builder.ProcessConditional | src/graph/builder.cpp:1927-1993 | both branches are processed under the new guard and the guard is taken off again |
| Guards.Builder.DeclareOne | src/graph/builder.cpp:2461-2505 | an output is refused exactly when an active or inactive declaration of it may hold as well; its rule's activity decides which list it joins |
| Instructions.RoundTrip | src/core/instruction.cpp:169-290 | a rendered instruction parses back to itself with literals fused; one from a builder parses back unchanged |
| InstructionSpelling.ReadableIff | src/core/instruction.cpp:215-290 | a text parses exactly when it is made of such pieces: spelled atoms, numbers with zeros in front, percent signs before other letters or at the end, groups never closed |
| InstructionSpelling.PiecesMean | src/core/instruction.cpp:215-290 | and parses as what its pieces mean, literals fused |
| InstructionSpelling.WrongIsRefused | src/core/instruction.cpp:242-264 | a number cut off by the end, before another letter, or outside 1 to 98 is refused for just that, whatever comes before it |
| Instructions.ParseInstruction | src/core/instruction.cpp:215-290 | scanning literal runs reads what reading one character or flag at a time reads, errors included |
| Instructions.RenderInstruction | src/core/instruction.cpp:169-213 | spells each atom, percent signs doubled |
| Instructions.ParsedIsFused | src/core/instruction.cpp:215-290 | whatever parses is an instruction a builder would make: operands in range, group names closed, no empty or adjacent literals |
| Instructions.RecordedFolds | src/index/entry.cpp:453-474 | folding the recorded pattern at any site gives the text that folding the original atoms gives |
| Instructions.GetCommandString | src/index/entry.cpp:453-474 | parsing a recorded pattern and folding it at a site gives what folding the original gives; a pattern that does not parse stands for itself |
| Instructions.FuseIsFused | src/core/instruction.cpp:119-167 | building leaves no empty and no adjacent literals |
| Instructions.InstructionBuilder.AddNth | src/core/instruction.cpp:147-155 | numbered flags are taken for operands 1 to 98 only, and refused without a trace |
| Paths.Normalize | src/core/path.cpp:229-277 | the loop over parts computes the normal form the lemmas are about |
| PathMeaning.NormalLeadsThere | src/core/path.cpp:229-277 | from every directory the normal form leads to the same place |
| PathMeaning.SameNormalIff | src/core/path.cpp:229-277 | two paths have one normal form exactly when they lead to the same place from every directory |
| PathMeaning.NothingSaid | src/core/path.cpp:243-256 | a doubled slash, a dot, a slash at the end and a step into a directory and out again change nothing |
| PathMeaning.RootIsTop | src/core/path.cpp:243-256 | the root is its own parent |
| Paths.NormalIdempotent | src/core/path.cpp:229-277 | normalising twice is normalising once |
| Paths.IsNormalIff | src/core/path.cpp:187-277 | the textual test holds of a non-empty path exactly when normalising leaves it alone |
| Paths.NormalIsCanonical | src/core/path.cpp:229-277 | what is left after normalising is names, after steps up only where there is no root |
| Paths.TestNormal | src/core/path.cpp:187-227 | the test's loop decides exactly that shape |
| Paths.RelativePath | src/core/path.cpp:279-334 | climbs from the base to the common part and descends to the target |
| Paths.RelativeArrives | src/core/path.cpp:82-98 | joining the relative path to the base and normalising gives the target exactly when the base, past the common part, does not begin with a step up |
| PathMeaning.RelativeIsShortest | src/core/path.cpp:279-334 | whatever else leads from the base to the target has at least as many parts as the relative path |
| Paths.ClimbingBaseMisses | src/core/path.cpp:277-334 | a concrete base that fails: from `../b` the relative path to `a` leads elsewhere |
| SourceRelative.ComputeSourceToRoot | src/core/path_utils.cpp:109-127 | one step up for every name of the directory |
| SourceRelative.SpellingResolves | src/core/path_utils.cpp:129-168 | a path spelled for a source directory and resolved from there is the path again |
| Shell.TokenizeShellCommand | src/core/string_utils.cpp:40-121 | scanning runs of plain bytes gives what the automaton that reads one byte at a time gives, on every input |
| ShellSpelling.WordIsText | src/core/string_utils.cpp:40-121 | a word comes out as what it says, whichever of its pieces stand in single quotes, in double quotes with backslashes before quotes and backslashes, behind a backslash, or bare |
| ShellSpelling.LineIsTokens | src/core/string_utils.cpp:40-121 | a line of words set apart by blanks and by any of ; & | && || and newline comes out as those words and operators |
| ShellSpelling.RedirectionIsTokens | src/core/string_utils.cpp:40-121 | a redirection sign, alone, repeated or with & or |, splits off the word before it exactly when that is no number, and stays with the word behind it |
| ShellSpelling.UnclosedIsWord | src/core/string_utils.cpp:40-121 | what is quoted to the end of the line counts, and a backslash at the end says nothing |
| ShellSpelling.BlankSplits | src/core/string_utils.cpp:40-121 | of two lines with every quote closed and a blank between them each is split for itself |
| Shell.QuotingRoundTrip | src/exec/runner.cpp:116-143 | quoted words set apart by spaces split again into themselves, all but the empty ones; unchanged exactly when none is empty |
| Shell.ShellQuote | src/exec/runner.cpp:116-143 | the loops quote as the function does that the laws are about |
| Shell.LeftAloneIff | src/exec/runner.cpp:116-143 | a word is left alone exactly when it holds nothing but letters, digits and _-./:@; any other stands between single quotes |
| StringTables.StringTable.Add | src/index/writer.cpp:66-110 | equal strings get one offset, every offset handed out reads back its string for good, and a string that does not fit is refused |
| TokenLists.Grouped | include/pup/core/token_list.hpp:50-66 | each token owns exactly the operands that came from it, in order, and a token without operands keeps its number |
| TokenLists.FromStarts | include/pup/core/token_list.hpp:71-85 | a recorded grouping is taken exactly when it spans its operands without decreasing |
| IndexSerializer.SerializeIndex | src/index/writer.cpp:156-340 | a success is the bytes of a layout that holds every file, command and operand, the edges sorted, and a checksum; an index is refused exactly when a file name or environment is too long or the whole exceeds what 32 bits can say |
| IndexSerializer.AddOperands | src/index/writer.cpp:204-243 | each command's operand record stands where the table says |
| IndexSerializer.Assemble | src/index/writer.cpp:293-339 | sections copied to their offsets make up the file without gap or overlap |
| IndexReader.ReadIndex | src/index/reader.cpp:75-197 | a record is read, whole, exactly when it is sealed and sound |
| IndexReader.OpenIff | src/index/reader.cpp:68-119 | it opens exactly when mark, version, the ends of its sections and its checksum are right, and each of them has a refusal of its own |
| IndexReader.LoadsIff | src/index/reader.cpp:128-197 | its entries decode exactly when every name and environment lies in the string section, every type, flag and mark is known and every operand belongs to a token |
| IndexReader.LoadedContents | src/index/reader.cpp:128-197 | what is read is what the bytes at the places the header names say, a command text that is not there being shown as unreadable |
| IndexWriter.LoadedIsRecordable | src/index/reader.cpp:128-197 | whatever loads could be saved again, its size aside |
| IndexReader.ReadsAsOne | src/index/reader.cpp:128-197 | what a record reads as is settled by its bytes |
| IndexWriter.WrittenReads | src/index/reader.cpp:68-83 | a written record opens, its layout fits, and every entry decodes |
| IndexWriter.WrittenReadsBack | src/index/reader.cpp:128-197 | whatever a written record opens and reads as is the index that was written, its edges in order, and its commands the same exactly when no text of theirs is too long |
| IndexWriter.OperandsRead | src/index/reader.cpp:370-448 | the operands of each command come back grouped by token |
| IndexFormat.FileDecodes | src/index/entry.cpp:29-66 | a file entry's 64 bytes decode to what was encoded |
| IndexFormat.CommandDecodes | src/index/entry.cpp:68-110 | a command entry's 88 bytes decode to what was encoded |
| IndexFormat.HeaderDecodes | include/pup/index/format.hpp:108-122 | the header's 56 bytes decode to what was encoded |
| IndexPaths.ComputePaths | src/index/entry.cpp:231-306 | ends on every parent map, circles included, and gives each file whose way up ends the path along it |
| IndexRoundTrip.ParentIsAt | src/index/entry.cpp:255-263 | a parent id stands for the file at its position, counted from one, unless it is a command or none |
| IndexPaths.PathIsJoin | src/index/entry.cpp:281-299 | that path is the names down the chain joined by slashes, whatever the first of them is: nothing for the build root of an in-tree build, an absolute path for a file outside |
| IndexPaths.CircleIsNotGrounded | src/index/entry.cpp:264-276 | a file on a circle has no way up that ends |
| IndexRoundTrip.SaveAndLoad | src/index/writer.cpp:156-340 | saving and loading: refused exactly when too long or too large; otherwise the record always loads, with the same files and their paths, the same edges in order and, exactly when no text is too long, the same commands |
| IndexRoundTrip.Load | src/index/reader.cpp:75-197 | a record is loaded, whole and with the path of every file whose way up ends, exactly when it is sealed and sound |

## Left out

- Processes, pipes, polling, timeouts, file access, clocks: nondeterministic outcomes or parameters.
  `Scheduler.Run.Execute` bounds by a parameter the polls at which a child runs and none exits.
- Schedule.InOrderIff: leaves out the builds with one slot that the first failure ends, where the jobs run
  one by one in queue order.
- The bitmap of visited states and the byte sets are arrays and sets; their 64-bit words are not modelled,
  nor is the 32-bit width of jump offsets.
- RobinHood.Table.ProbeInsert: does not model the wrap of the 16-bit displacement; a displacement is
  shown to stay below the number of slots, so tables of up to 65536 slots are not affected.
- Offsets and ids of the string pool and the arena are unbounded, not 32 bits wide; the smallest power of
  two above a number is found by doubling instead of by smearing bits.
- StringTables.StringTable.Add: the interner inside the table is replaced by a map from strings to offsets.
- The sorted vectors behind command lookups are maps; where two commands would share a path the lookup
  may answer with either, as the original may.
- SHA-256, command keys and signatures: opaque values.
- MustRerun.BuildVariant: changed files, input and implicit-dependency deltas, directory authority and
  stale records come from outside.
- Evidence.MarkRaced: the memo of earlier walks, which only saves time, is not modelled.
- IndexReader.ReadIndex: times are taken as 64-bit patterns without sign; older record versions and the
  recovery read of paths are not modelled.
- IndexPaths.ComputePaths: says nothing of the path of a file on, or below, a circle of parents, which only a
  damaged record holds.
- IndexSerializer.SerializeIndex: the sort of edges is a specification function, the library's own
  algorithm is not modelled.
- Instructions.ParseInstruction: error texts are reduced to what they report.
- Windows path roots and separators.
- MustRerun.Select: the commands upstream of a scope are collected by the worklist used for targets.
- Tupfile parsing and evaluation, globs, depfiles, configuration, command-line options, display and export.
- Guards.BuildGraph: variable expansion, macros and includes are taken as already carried out; a
  conditional is reduced to whether it reads configuration and which branch it takes.
