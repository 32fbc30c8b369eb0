/**
 The scheduler as it runs: in-degrees counted down in place, a ready queue, and a fixed number of
 slots that child processes occupy. Each method is a step of schedule.dfy; what children do is
 chosen freely.
 */
module Scheduler {
  import opened Digraph
  import opened Halting
  import opened Schedule
  import opened Sequences

  // ---------------------------------------------------------------- counting down

  // `remaining[j]` is the number of jobs `j` still waits for.
  ghost predicate Counts(deps: Deps, remaining: seq<int>, done: set<nat>) {
    |remaining| == |deps| && forall j :: 0 <= j < |deps| ==> remaining[j] == |deps[j] - done|
  }

  // `dependents[i]` lists, in order, the jobs that wait for `i`.
  ghost predicate Lists(deps: Deps, dependents: seq<seq<nat>>) {
    && |dependents| == |deps|
    && forall i :: 0 <= i < |deps| ==> ListsOne(deps, i, dependents[i])
  }

  ghost predicate ListsOne(deps: Deps, i: nat, list: seq<nat>) {
    Increasing(list) && forall j: nat :: j in list <==> j < |deps| && i in deps[j]
  }

  lemma OneFewer(s: set<nat>, done: set<nat>, i: nat)
    requires i !in done
    ensures |s - (done + {i})| == |s - done| - (if i in s then 1 else 0)
    ensures s - (done + {i}) == {} <==> s <= done + {i}
  {
    if i in s {
      assert s - done == (s - (done + {i})) + {i};
    } else {
      assert s - done == s - (done + {i});
    }
  }

  // Job `i` is done: each job that waits for it counts one fewer, and those that now wait for
  // nothing join the queue.
  method Release(i: nat, list: seq<nat>, remaining: array<int>, queue: seq<nat>, ghost deps: Deps, ghost done: set<nat>)
    returns (queue': seq<nat>, ghost freed: seq<nat>)
    requires Counts(deps, remaining[..], done) && i !in done && ListsOne(deps, i, list)
    modifies remaining
    ensures Counts(deps, remaining[..], done + {i})
    ensures queue' == queue + freed && Increasing(freed)
    ensures forall k: nat :: k in freed <==> k < |deps| && i in deps[k] && deps[k] <= done + {i}
  {
    queue', freed := queue, [];
    ghost var before := remaining[..];
    for k := 0 to |list|
      invariant queue' == queue + freed && Increasing(freed)
      invariant forall j :: 0 <= j < |deps| ==> remaining[j] == before[j] - (if j in list[..k] then 1 else 0)
      invariant forall j: nat :: j in freed <==> j in list[..k] && j < |deps| && before[j] == 1
    {
      var dependent := list[k];
      assert dependent in list;
      assert list[..k + 1] == list[..k] + [dependent];
      assert forall x :: x in list[..k] ==> x < dependent;
      remaining[dependent] := remaining[dependent] - 1;
      if remaining[dependent] == 0 {
        queue' := queue' + [dependent];
        IncreasingPush(freed, dependent);
        freed := freed + [dependent];
      }
    }
    assert list[..|list|] == list;
    forall j: nat | j < |deps| ensures remaining[j] == |deps[j] - (done + {i})| {
      OneFewer(deps[j], done, i);
    }
    forall j: nat | j < |deps| && i in deps[j] ensures before[j] == 1 <==> deps[j] <= done + {i} {
      OneFewer(deps[j], done, i);
    }
  }

  // ---------------------------------------------------------------- the cycle check

  // The jobs swept so far, each ranked after what it waits for.
  ghost predicate Swept(deps: Deps, done: set<nat>, rank: map<nat, nat>) {
    && rank.Keys == done
    && (forall j: nat :: j in done ==> j < |deps| && deps[j] <= done && rank[j] < |done|)
    && forall j: nat, d: nat :: j in done && d in deps[j] ==> rank[d] < rank[j]
  }

  ghost function Unswept(deps: Deps, done: set<nat>): set<nat> {
    set j: nat | j < |deps| && j !in done
  }

  lemma SweptAll(deps: Deps, done: set<nat>, rank: map<nat, nat>)
    requires Swept(deps, done, rank) && forall j: nat :: j < |deps| ==> j in done
    ensures !Cyclic(DepEdges(deps))
  {
    RankedIsAcyclic(DepEdges(deps), rank);
  }

  lemma SweptSome(deps: Deps, done: set<nat>)
    requires ValidDeps(deps) && forall j: nat :: j < |deps| ==> (j in done <==> deps[j] <= done)
    requires exists j: nat :: j < |deps| && j !in done
    ensures Cyclic(DepEdges(deps))
  {
    var left := Unswept(deps, done);
    var one: nat :| one < |deps| && one !in done;
    assert one in left;
    forall j | j in left ensures Follows(DepEdges(deps), left, j) {
      var d :| d in deps[j] && d !in done;
      assert (d, j) in DepEdges(deps) && d in left;
    }
    NoSourceIsCyclic(DepEdges(deps), left);
  }

  // The queue holds, once each, the jobs not yet swept that wait for swept ones only.
  ghost predicate Frontier(deps: Deps, ready: seq<nat>, done: set<nat>) {
    && Distinct(ready) && (forall j :: j in ready ==> j !in done && j < |deps|)
    && forall j: nat :: j < |deps| ==> (j in ready || j in done <==> deps[j] <= done)
  }

  lemma SweepStep(deps: Deps, ready: seq<nat>, done: set<nat>, rank: map<nat, nat>, freed: seq<nat>)
    requires Frontier(deps, ready, done) && Swept(deps, done, rank) && ready != []
    requires Increasing(freed)
    requires forall k: nat :: k in freed <==> k < |deps| && ready[0] in deps[k] && deps[k] <= done + {ready[0]}
    ensures Frontier(deps, ready[1..] + freed, done + {ready[0]})
    ensures Swept(deps, done + {ready[0]}, rank[ready[0] := |done|])
  {
    hide Swept;
    var i, rest := ready[0], ready[1..];
    assert forall j :: j in ready <==> j == i || j in rest;
    forall k | k in freed ensures k !in rest && k !in done && k != i {
      assert i in deps[k] && i !in done;
    }
    DistinctConcat(rest, freed);
    assert forall j :: j in rest + freed <==> j in rest || j in freed;
    SweptMore(deps, done, rank, i);
  }

  lemma SweptMore(deps: Deps, done: set<nat>, rank: map<nat, nat>, i: nat)
    requires Swept(deps, done, rank) && i !in done && i < |deps| && deps[i] <= done
    ensures Swept(deps, done + {i}, rank[i := |done|])
  {
  }

  // Exactly when the jobs cannot all be put in an order.
  method HasCycle(inDegree: seq<int>, dependents: seq<seq<nat>>, ghost deps: Deps) returns (cyclic: bool)
    requires ValidDeps(deps) && Lists(deps, dependents) && Counts(deps, inDegree, {})
    ensures cyclic <==> Cyclic(DepEdges(deps))
  {
    var n := |inDegree|;
    var remaining := new int[n](i requires 0 <= i < n => inDegree[i]);
    assert remaining[..] == inDegree;
    var ready := InitiallyReady(inDegree, deps);
    var reached := 0;
    ghost var done: set<nat>, rank: map<nat, nat> := {}, map[];
    hide Frontier, Swept;
    while ready != []
      invariant Counts(deps, remaining[..], done) && reached == |done|
      invariant Frontier(deps, ready, done) && Swept(deps, done, rank)
      decreases Unswept(deps, done)
    {
      var i := ready[0];
      FrontierHead(deps, ready, done);
      assert i in Unswept(deps, done) && i !in Unswept(deps, done + {i});
      reached := reached + 1;
      ghost var before, freed := ready, [];
      ready, freed := Release(i, dependents[i], remaining, ready[1..], deps, done);
      SweepStep(deps, before, done, rank, freed);
      rank := rank[i := |done|];
      done := done + {i};
    }
    cyclic := reached < n;
    SweepEnd(deps, done, rank);
  }

  lemma FrontierHead(deps: Deps, ready: seq<nat>, done: set<nat>)
    requires Frontier(deps, ready, done) && ready != []
    ensures ready[0] < |deps| && ready[0] !in done
  {
    assert ready[0] in ready;
  }

  lemma SweepEnd(deps: Deps, done: set<nat>, rank: map<nat, nat>)
    requires ValidDeps(deps) && Frontier(deps, [], done) && Swept(deps, done, rank)
    ensures |done| < |deps| <==> Cyclic(DepEdges(deps))
  {
    FullOrNot(|deps|, done);
    if |done| < |deps| { SweptSome(deps, done); } else { SweptAll(deps, done, rank); }
  }

  // The jobs that wait for nothing, in order.
  method InitiallyReady(inDegree: seq<int>, ghost deps: Deps) returns (ready: seq<nat>)
    requires Counts(deps, inDegree, {})
    ensures Increasing(ready) && forall j: nat :: j in ready <==> j < |deps| && deps[j] == {}
    ensures Frontier(deps, ready, {}) && Swept(deps, {}, map[])
  {
    ready := [];
    for i := 0 to |inDegree|
      invariant Increasing(ready) && forall j: nat :: j in ready <==> j < i && deps[j] == {}
    {
      NoneLeft(deps[i], {});
      if inDegree[i] == 0 {
        IncreasingPush(ready, i);
        ready := ready + [i];
      }
    }
  }

  lemma NoneLeft(s: set<nat>, done: set<nat>)
    ensures |s - done| == 0 <==> s <= done
  {
    if s <= done { assert s - done == {}; }
    if x :| x in s && x !in done { assert x in s - done; }
  }

  // ---------------------------------------------------------------- slots

  datatype Slot = Idle | Busy(job: nat)

  // No more slots than jobs.
  function SlotsFor(jobs: nat, n: nat): nat {
    if jobs < n then jobs else n
  }

  // The running jobs occupy the slots, one each.
  ghost predicate Occupied(slots: seq<Slot>, running: set<nat>) {
    && (forall s :: 0 <= s < |slots| && slots[s].Busy? ==> slots[s].job in running)
    && (forall j :: j in running ==> exists s :: 0 <= s < |slots| && slots[s] == Busy(j))
    && forall s, t :: 0 <= s < t < |slots| && slots[s].Busy? ==> slots[s] != slots[t]
  }

  lemma OccupyOne(slots: seq<Slot>, running: set<nat>, s: nat, j: nat)
    requires Occupied(slots, running) && s < |slots| && slots[s].Idle? && j !in running
    ensures Occupied(slots[s := Busy(j)], running + {j})
  {
    var after := slots[s := Busy(j)];
    forall i | i in running + {j} ensures exists t :: 0 <= t < |after| && after[t] == Busy(i) {
      if i == j { assert after[s] == Busy(i); } else {
        var t :| 0 <= t < |slots| && slots[t] == Busy(i);
        assert after[t] == Busy(i);
      }
    }
  }

  predicate AllBusy(slots: seq<Slot>) {
    forall s :: 0 <= s < |slots| ==> slots[s].Busy?
  }

  lemma AllBusyMore(before: seq<Slot>, after: seq<Slot>, s: nat)
    requires s < |before| == |after| && after[..s] == before[..s]
    ensures AllBusy(before[..s]) && after[s].Busy? ==> AllBusy(after[..s + 1])
  {
  }

  lemma InSlot(slots: seq<Slot>, running: set<nat>, s: nat)
    requires Occupied(slots, running) && s < |slots| && slots[s].Busy?
    ensures slots[s].job in running
  {
  }

  lemma AllIdle(slots: seq<Slot>, running: set<nat>)
    requires Occupied(slots, running) && forall s :: 0 <= s < |slots| ==> slots[s].Idle?
    ensures running == {}
  {
  }

  lemma NoneOccupied(slots: seq<Slot>)
    requires forall s :: 0 <= s < |slots| ==> slots[s].Idle?
    ensures Occupied(slots, {})
  {
  }

  lemma CountsLength(deps: Deps, inDegree: seq<int>)
    requires Counts(deps, inDegree, {})
    ensures |inDegree| == |deps|
  {
  }

  lemma VacateOne(slots: seq<Slot>, running: set<nat>, s: nat)
    requires Occupied(slots, running) && s < |slots| && slots[s].Busy?
    ensures Occupied(slots[s := Idle], running - {slots[s].job})
  {
    var after := slots[s := Idle];
    forall i | i in running - {slots[s].job} ensures exists t :: 0 <= t < |after| && after[t] == Busy(i) {
      var t :| 0 <= t < |slots| && slots[t] == Busy(i);
      assert after[t] == Busy(i);
    }
  }

  // No more jobs run than there are slots.
  lemma {:induction false} SlotsBound(slots: seq<Slot>, running: set<nat>)
    requires Occupied(slots, running)
    ensures |running| <= |slots|
    decreases |slots|
  {
    if slots == [] {
      assert running == {};
    } else {
      var last := |slots| - 1;
      if slots[last].Busy? { VacateOne(slots, running, last); }
      var now := if slots[last].Busy? then slots[last := Idle] else slots;
      var rest := if slots[last].Busy? then running - {slots[last].job} else running;
      forall i | i in rest ensures exists t :: 0 <= t < last && now[..last][t] == Busy(i) {
        var t :| 0 <= t < |now| && now[t] == Busy(i);
        assert now[..last][t] == Busy(i);
      }
      SlotsBound(now[..last], rest);
    }
  }

  // With every slot taken as many jobs run as there are slots.
  lemma {:induction false} AllRun(slots: seq<Slot>, running: set<nat>)
    requires Occupied(slots, running) && AllBusy(slots)
    ensures |running| == |slots|
    decreases |slots|
  {
    if slots == [] {
      assert running == {};
    } else {
      var last := |slots| - 1;
      var rest := running - {slots[last].job};
      forall i | i in rest ensures exists t :: 0 <= t < last && slots[..last][t] == Busy(i) {
        var t :| 0 <= t < |slots| && slots[t] == Busy(i);
        assert slots[..last][t] == Busy(i);
      }
      AllRun(slots[..last], rest);
      MinusOne(running, slots[last].job);
    }
  }

  lemma RoomForOne(slots: seq<Slot>, running: set<nat>, s: nat, j: nat)
    requires Occupied(slots, running) && s < |slots| && slots[s].Idle? && j !in running
    ensures |running| < |slots|
  {
    hide Occupied;
    OccupyOne(slots, running, s, j);
    SlotsBound(slots[s := Busy(j)], running + {j});
  }

  // ---------------------------------------------------------------- the loop

  lemma PlusMinus(a: set<nat>, j: nat)
    requires j !in a
    ensures a + {j} - {j} == a && |a + {j}| == |a| + 1
  {
    assert a + {j} - {j} == a;
  }

  lemma MinusOne(a: set<nat>, j: nat)
    requires j in a
    ensures |a - {j}| == |a| - 1
  {
  }

  class Run {
    ghost const deps: Deps
    const dependents: seq<seq<nat>>
    const keepGoing: bool
    const dryRun: bool
    const inDegree: array<int>
    const slots: array<Slot>
    var readyQueue: seq<nat>
    var running: nat
    var finished: nat
    var completedJobs: nat
    var failedJobs: nat
    var failed: bool
    ghost var st: State
    ghost var children: Children

    ghost predicate Valid()
      reads this, inDegree, slots
    {
      && ValidDeps(deps) && Lists(deps, dependents) && Arises(deps, slots.Length, st) && Inv(deps, st) &&
        st.ready == readyQueue
      && Counts(deps, inDegree[..], st.succeeded) && Occupied(slots[..], st.running)
      && Tallied() && ByChildren(st, children, dryRun)
    }

    // The counters count what they are named after.
    ghost predicate Tallied()
      reads this
    {
      && running == |st.running| && completedJobs == |st.succeeded| && failedJobs == |st.failed|
      && finished == completedJobs + failedJobs && (failed <==> st.failed != {})
    }

    constructor (inDegree: seq<int>, dependents: seq<seq<nat>>, jobs: nat, keepGoing: bool, dryRun: bool,
                 ghost deps: Deps)
      requires ValidDeps(deps) && Lists(deps, dependents) && Counts(deps, inDegree, {})
      ensures Valid() && fresh(this.inDegree) && fresh(slots) && Initial(deps, st)
      ensures this.deps == deps && this.keepGoing == keepGoing && this.dryRun == dryRun
      ensures slots.Length == SlotsFor(jobs, |deps|)
    {
      hide Arises, Inv, Counts, Lists, Occupied;
      this.deps, this.dependents, this.keepGoing, this.dryRun := deps, dependents, keepGoing, dryRun;
      var n := |inDegree|;
      var remaining := new int[n](i requires 0 <= i < n => inDegree[i]);
      this.inDegree := remaining;
      this.slots := new Slot[SlotsFor(jobs, n)](_ => Idle);
      var ready := InitiallyReady(inDegree, deps);
      readyQueue, running, finished, completedJobs, failedJobs, failed := ready, 0, 0, 0, 0, false;
      st, children := State(ready, {}, {}, {}, {}, []), Children({}, map[]);
      new;
      assert remaining[..] == inDegree;
      CountsLength(deps, inDegree);
      NoneOccupied(slots[..]);
      InitialInv(deps, st);
      ArisesInitial(deps, slots.Length, st);
    }

    // A job that a slot's child has finished, or that needed no child.
    method Complete(job: nat)
      requires ValidDeps(deps) && Lists(deps, dependents) && Arises(deps, slots.Length, st) && Inv(deps, st) &&
        st.ready == readyQueue
      requires Counts(deps, inDegree[..], st.succeeded) && job in st.running
      modifies this, inDegree
      ensures exists freed :: Frees(deps, old(st), job, freed) && st == Succeed(old(st), job, freed)
      ensures Arises(deps, slots.Length, st) && Inv(deps, st) && st.ready == readyQueue &&
        Counts(deps, inDegree[..], st.succeeded)
      ensures completedJobs == old(completedJobs) + 1 && finished == old(finished) + 1
      ensures running == old(running) && failed == old(failed) && failedJobs == old(failedJobs)
      ensures children == old(children)
    {
      hide Arises, Inv, Counts, Lists, Frees;
      JobInRange(deps, st, job);
      ListedOne(deps, dependents, job);
      completedJobs := completedJobs + 1;
      finished := finished + 1;
      ghost var freed;
      readyQueue, freed := Release(job, dependents[job], inDegree, readyQueue, deps, st.succeeded);
      FreedIs(deps, st, job, freed);
      SucceedInv(deps, st, job, freed);
      ArisesSucceed(deps, slots.Length, st, job, freed);
      st := Succeed(st, job, freed);
    }

    lemma ListedOne(deps: Deps, dependents: seq<seq<nat>>, job: nat)
      requires Lists(deps, dependents) && job < |deps|
      ensures |dependents| == |deps| && ListsOne(deps, job, dependents[job])
    {
    }

    lemma FreedIs(deps: Deps, st: State, job: nat, freed: seq<nat>)
      requires Increasing(freed)
      requires forall k: nat :: k in freed <==> k < |deps| && job in deps[k] && deps[k] <= st.succeeded + {job}
      ensures Frees(deps, st, job, freed)
    {
    }

    lemma JobInRange(deps: Deps, st: State, job: nat)
      requires Inv(deps, st) && (job in st.running || job in st.ready)
      ensures job < |deps| && job !in st.succeeded && job !in st.failed && job !in st.killed
      ensures job in st.ready ==> job !in st.running
    {
      assert job in st.running ==> job in st.Begun();
    }

    // Launch: each free slot takes the job at the head of the queue. A dry run only says it
    // succeeded; a child that cannot be started is a failure.
    method Launch()
      requires Valid() && (keepGoing || !failed)
      modifies this, inDegree, slots
      ensures Valid() && Grew(old(st), st) && st.killed == old(st).killed
      ensures !keepGoing ==> Halts(st.log, children, slots.Length)
      ensures finished >= old(finished) &&
        (dryRun && old(readyQueue) != [] && !AllBusy(old(slots[..])) ==> finished > old(finished))
      ensures dryRun || readyQueue == [] || AllBusy(slots[..]) || old(st).failed < st.failed
      ensures finished == old(finished) ==> readyQueue == [] || AllBusy(slots[..])
    {
      hide Arises, Inv, Counts, Lists, Occupied, Tallied, ByChildren, Passed, Halts;
      ghost var from := |st.log|;
      if !keepGoing { Unfailed(); }
      for s := 0 to slots.Length
        invariant Valid() && Grew(old(st), st) && st.killed == old(st).killed
        invariant !keepGoing && !dryRun ==> from <= |st.log| && Passed(st.log, children, from, s)
        invariant finished >= old(finished) && (dryRun ==> slots[..] == old(slots[..]))
        invariant !dryRun ==> readyQueue == [] || AllBusy(slots[..s]) || old(st).failed < st.failed
        invariant finished == old(finished) ==> readyQueue == [] || AllBusy(slots[..s])
        invariant dryRun && finished == old(finished) ==> readyQueue == old(readyQueue)
      {
        ghost var before := slots[..];
        if !keepGoing && !dryRun { NextInPass(from, s); }
        if slots[s].Idle? && readyQueue != [] {
          JobInRange(deps, st, readyQueue[0]);
          if dryRun {
            Pretend(s);
          } else {
            var launched: bool := *;
            if launched { Occupy(s); } else { LaunchFailed(s); }
          }
        }
        AllBusyMore(before, slots[..], s);
      }
      if dryRun {
        Unfailed();
      } else if !keepGoing {
        PassedHalts(st.log, children, from, slots.Length);
      }
    }

    lemma Unfailed()
      requires Valid() && (dryRun || !failed)
      ensures Passed(st.log, children, |st.log|, 0) && Halts(st.log, children, slots.Length)
    {
      hide Arises, Inv, Counts, Lists, Occupied, Passed, Halts;
      NoFailureLogged(deps, st);
      PassedStart(st.log, children);
    }

    lemma NextInPass(from: nat, s: nat)
      requires Valid() && from <= |st.log| && Passed(st.log, children, from, s)
      ensures Passed(st.log, children, from, s + 1)
      ensures readyQueue != [] ==>
        var job, slot' := readyQueue[0], children.slot[readyQueue[0] := s];
        && Passed(st.log + [Started(job)], Children(children.launched + {job}, slot'), from, s + 1)
        && Passed(st.log + [Started(job)] + [Failed(job)], Children(children.launched, slot'), from, s + 1)
    {
      hide Arises, Inv, Counts, Lists, Occupied, Passed;
      PassedNone(st.log, children, from, s);
      if readyQueue != [] {
        JobInRange(deps, st, readyQueue[0]);
        Unheard(deps, st, readyQueue[0]);
        PassedOne(st.log, children, from, s, readyQueue[0]);
      }
    }

    method Pretend(s: nat)
      requires Valid() && dryRun && readyQueue != [] && s < slots.Length && slots[s].Idle?
      modifies this, inDegree
      ensures Valid() && finished == old(finished) + 1
      ensures var job := old(readyQueue)[0];
              exists freed :: Frees(deps, Start(old(st)), job, freed) && st == Succeed(Start(old(st)), job, freed)
    {
      hide Arises, Inv, Counts, Lists, Occupied, Frees, ByChildren;
      var job := readyQueue[0];
      JobInRange(deps, st, job);
      StartInv(deps, st);
      RoomForOne(slots[..], st.running, s, job);
      ArisesStart(deps, slots.Length, st);
      PlusMinus(st.running, job);
      PlusMinus(st.succeeded, job);
      forall freed ensures ByChildren(Succeed(Start(st), job, freed), children, dryRun) {
        ChildPretended(st, children, freed);
      }
      readyQueue := readyQueue[1..];
      st := Start(st);
      Complete(job);
    }

    method LaunchFailed(s: nat)
      requires Valid() && !dryRun && readyQueue != [] && s < slots.Length && slots[s].Idle?
      modifies this
      ensures Valid() && finished == old(finished) + 1 && st == Fail(Start(old(st)), old(readyQueue)[0])
      ensures children == old(children).(slot := old(children).slot[old(readyQueue)[0] := s])
    {
      hide Arises, Inv, Counts, Lists, Occupied, Frees, ByChildren;
      var job := readyQueue[0];
      JobInRange(deps, st, job);
      RoomForOne(slots[..], st.running, s, job);
      RefusedStep(st);
      ChildRefused(st, children, children.slot[job := s]);
      readyQueue := readyQueue[1..];
      failedJobs := failedJobs + 1;
      finished := finished + 1;
      failed := true;
      st := Fail(Start(st), job);
      children := children.(slot := children.slot[job := s]);
    }

    // A job that begins and fails at once leaves what runs as it was.
    lemma RefusedStep(st: State)
      requires Inv(deps, st) && Arises(deps, slots.Length, st) && st.ready != [] && |st.running| < slots.Length
      ensures var st' := Fail(Start(st), st.ready[0]);
              && Inv(deps, st') && Arises(deps, slots.Length, st') && st'.running == st.running
              && |st'.failed| == |st.failed| + 1
    {
      hide Arises, Inv;
      var job := st.ready[0];
      JobInRange(deps, st, job);
      StartInv(deps, st);
      ArisesStart(deps, slots.Length, st);
      FailInv(deps, Start(st), job);
      ArisesFail(deps, slots.Length, Start(st), job);
      PlusMinus(st.running, job);
      PlusMinus(st.failed, job);
    }

    method Occupy(s: nat)
      requires Valid() && !dryRun && readyQueue != [] && s < slots.Length && slots[s].Idle?
      modifies this, slots
      ensures Valid() && finished == old(finished) && st == Start(old(st))
      ensures var job := old(readyQueue)[0];
              children == Children(old(children).launched + {job}, old(children).slot[job := s])
      ensures slots[..] == old(slots[..])[s := Busy(old(readyQueue)[0])]
    {
      hide Arises, Inv, Counts, Lists, Occupied, Frees, ByChildren;
      var job := readyQueue[0];
      JobInRange(deps, st, job);
      StartInv(deps, st);
      RoomForOne(slots[..], st.running, s, job);
      ArisesStart(deps, slots.Length, st);
      PlusMinus(st.running, job);
      OccupyOne(slots[..], st.running, s, job);
      ChildStarts(st, children, children.slot[job := s]);
      slots[s] := Busy(job);
      readyQueue := readyQueue[1..];
      running := running + 1;
      st := Start(st);
      children := Children(children.launched + {job}, children.slot[job := s]);
    }

    // Reap: any of the children may have exited, well or badly.
    method Reap()
      requires Valid()
      modifies this, inDegree, slots
      ensures Valid() && Grew(old(st), st) && st.killed == old(st).killed
      ensures finished >= old(finished) && (finished == old(finished) ==> slots[..] == old(slots[..]) && st == old(st))
      ensures Quiet(old(st).log, st.log) && children == old(children)
    {
      hide Arises, Inv, Counts, Lists, Occupied, Tallied, ByChildren;
      for s := 0 to slots.Length
        invariant Valid() && Grew(old(st), st) && st.killed == old(st).killed && finished >= old(finished)
        invariant finished == old(finished) ==> slots[..] == old(slots[..]) && st == old(st)
        invariant Quiet(old(st).log, st.log) && children == old(children)
      {
        var exited: bool := *;
        if slots[s].Busy? && exited {
          var success: bool := *;
          ReapSlot(s, success);
        }
      }
    }

    method ReapSlot(s: nat, success: bool)
      requires Valid() && s < slots.Length && slots[s].Busy?
      modifies this, inDegree, slots
      ensures Valid() && finished == old(finished) + 1 && slots[..] == old(slots[..])[s := Idle]
      ensures children == old(children)
      ensures var job := old(slots[s].job);
              if success then exists freed :: Frees(deps, old(st), job, freed) && st == Succeed(old(st), job, freed)
              else st == Fail(old(st), job)
    {
      hide Arises, Inv, Counts, Lists, Occupied, Frees, ByChildren;
      var job := Vacate(s);
      ChildEnds(st, children, dryRun, job);
      MinusOne(st.running, job);
      PlusMinus(st.succeeded, job);
      PlusMinus(st.failed, job);
      if success {
        Complete(job);
      } else {
        FailInv(deps, st, job);
        ArisesFail(deps, slots.Length, st, job);
        failedJobs := failedJobs + 1;
        finished := finished + 1;
        failed := true;
        st := Fail(st, job);
      }
    }

    // The child in a slot is gone.
    method Vacate(s: nat) returns (job: nat)
      requires Valid() && s < slots.Length && slots[s].Busy?
      modifies this`running, slots
      ensures job == old(slots[s].job) && job in st.running && job < |deps| && running == old(running) - 1
      ensures job !in st.succeeded && job !in st.failed
      ensures slots[..] == old(slots[..])[s := Idle] && Occupied(slots[..], st.running - {job})
    {
      hide Arises, Inv, Counts, Lists, Occupied;
      job := slots[s].job;
      InSlot(slots[..], st.running, s);
      JobInRange(deps, st, job);
      VacateOne(slots[..], st.running, s);
      slots[s] := Idle;
      running := running - 1;
    }

    // Everything still running is killed.
    method KillAll()
      requires Valid()
      modifies this, slots
      ensures Valid() && st.running == {} && st.killed == old(st).killed + old(st).running
      ensures st.succeeded == old(st).succeeded && st.failed == old(st).failed && st.ready == old(st).ready
      ensures Quiet(old(st).log, st.log) && children == old(children)
    {
      hide Arises, Inv, Counts, Lists, Occupied, Tallied, ByChildren;
      for s := 0 to slots.Length
        invariant Valid() && st.killed + st.running == old(st).killed + old(st).running
        invariant st.succeeded == old(st).succeeded && st.failed == old(st).failed && st.ready == old(st).ready
        invariant forall t :: 0 <= t < s ==> slots[..][t].Idle?
        invariant Quiet(old(st).log, st.log) && children == old(children)
      {
        if slots[s].Busy? {
          InSlot(slots[..], st.running, s);
          KillSlot(s);
        }
      }
      AllIdle(slots[..], st.running);
    }

    method KillSlot(s: nat)
      requires Valid() && s < slots.Length && slots[s].Busy?
      modifies this, slots
      ensures Valid() && st == Kill(old(st), old(slots[s].job)) && children == old(children)
      ensures slots[..] == old(slots[..])[s := Idle]
    {
      hide Arises, Inv, Counts, Lists, Occupied, Frees, ByChildren;
      var job := slots[s].job;
      InSlot(slots[..], st.running, s);
      JobInRange(deps, st, job);
      FailInv(deps, st, job);
      ArisesFail(deps, slots.Length, st, job);
      VacateOne(slots[..], st.running, s);
      ChildEnds(st, children, dryRun, job);
      MinusOne(st.running, job);
      slots[s] := Idle;
      assert slots[..] == old(slots[..])[s := Idle];
      running := running - 1;
      st := Kill(st, job);
    }

    // At most as many jobs run as there are slots.
    lemma RunningFits()
      requires Valid()
      ensures running <= slots.Length
    {
      hide Arises, Inv, Counts, Lists, Occupied;
      SlotsBound(slots[..], st.running);
    }

    // No more can finish than there are jobs, and then none is left over.
    lemma FinishedBound()
      requires Valid()
      ensures finished <= |deps|
      ensures finished == |deps| ==> st.running == {} && st.ready == [] && st.killed == {}
    {
      hide Arises, Inv, Counts, Lists, Occupied;
      Exhausted(deps, st);
    }

    // With every slot taken, or nothing ready and not nothing running, some job runs.
    lemma SomethingRuns()
      requires Valid() && slots.Length > 0
      requires AllBusy(slots[..]) || (readyQueue == [] && running > 0)
      ensures st.running != {}
    {
      hide Arises, Inv, Counts, Lists;
      if AllBusy(slots[..]) {
        assert slots[..][0].Busy?;
        InSlot(slots[..], st.running, 0);
      }
    }

    // Nothing is ready, or as many jobs run as there are slots.
    ghost predicate AtWork()
      reads this
    {
      st.ready == [] || |st.running| == slots.Length
    }

    lemma BusyIsAtWork()
      requires Valid() && (readyQueue == [] || AllBusy(slots[..]))
      ensures AtWork()
    {
      hide Arises, Inv, Counts, Lists;
      if AllBusy(slots[..]) { AllRun(slots[..], st.running); }
    }

    // The first half of a turn: more jobs are launched unless a failure is to stop the run, and the
    // run is over when that leaves nothing running and nothing ready.
    method Fill() returns (over: bool)
      requires Valid() && (!keepGoing ==> Halts(st.log, children, slots.Length))
      modifies this, inDegree, slots
      ensures Valid() && Grew(old(st), st) && st.killed == old(st).killed
      ensures old(finished) <= finished <= |deps|
      ensures over <==> st.running == {} && st.ready == []
      ensures !over && finished == old(finished) && slots.Length > 0 ==> st.running != {} || (failed && !keepGoing)
      ensures !keepGoing ==> Halts(st.log, children, slots.Length)
      ensures finished == old(finished) && (keepGoing || !failed) ==> AtWork()
    {
      hide Arises, Inv, Counts, Lists, Occupied, Halts, ByChildren, AtWork;
      var halting := failed && !keepGoing;
      if !halting {
        Launch();
        if finished == old(finished) { BusyIsAtWork(); }
      }
      FinishedBound();
      over := running == 0 && readyQueue == [];
      if !over && !halting && finished == old(finished) && slots.Length > 0 { SomethingRuns(); }
    }

    // The loop. Between two polls any children may exit and the run may be cancelled; `patience`
    // bounds the polls at which children run and none has exited: with a slot to run in, the loop never
    // turns without a child to wait for. `Finished` is the loop's own end.
    method Execute(patience: nat) returns (outcome: Outcome)
      requires Valid() && st.failed == st.killed == {}
      modifies this, inDegree, slots
      ensures Valid() && Grew(old(st), st) && running <= slots.Length
      ensures outcome == Finished ==> st.running == {} && st.ready == [] && st.killed == {}
      ensures outcome == Stopped(false) ==> st.failed != {} && !keepGoing
      ensures outcome.Stopped? ==> st.running == {}
      ensures outcome == OutOfPatience ==>
        && st.killed == {} && finished < |deps| && (slots.Length > 0 ==> st.running != {}) && AtWork()
        && (!keepGoing ==> st.failed == {})
      ensures !keepGoing ==> Halts(st.log, children, slots.Length)
    {
      hide Arises, Inv, Counts, Lists, Occupied, AllBusy, Halts, Quiet, ByChildren;
      var n := |dependents|;
      JobCount();
      RunningFits();
      Unfailed();
      var idle := 0;
      while finished < n
        invariant Valid() && Grew(old(st), st) && running <= slots.Length
        invariant !keepGoing ==> !failed && Halts(st.log, children, slots.Length)
        invariant st.killed == {} && idle <= patience && finished <= n
        decreases n - finished + patience - idle
      {
        var before := finished;
        var over := Fill();
        if over {
          return Finished;
        }
        ghost var filled := st;
        Reap();
        if !keepGoing { HaltsOn(filled.log, st.log, children, slots.Length); }
        FinishedBound();
        RunningFits();
        var cancelled: bool := *;
        if cancelled || (failed && !keepGoing) {
          ghost var reaped := st;
          KillAll();
          if !keepGoing { HaltsOn(reaped.log, st.log, children, slots.Length); }
          RunningFits();
          return Stopped(cancelled);
        }
        if finished == before {
          if idle == patience {
            return OutOfPatience;
          }
          idle := idle + 1;
        }
      }
      FinishedBound();
      return Finished;
    }

    lemma JobCount()
      requires Valid()
      ensures |dependents| == |deps| && finished <= |deps|
    {
      FinishedBound();
    }
  }

  datatype Outcome = Finished | Stopped(cancelled: bool) | OutOfPatience

  // What has succeeded or failed stays so.
  ghost predicate Grew(a: State, b: State) {
    a.succeeded <= b.succeeded && a.failed <= b.failed && a.killed <= b.killed
  }
}
