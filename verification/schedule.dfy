/**
 What a run of the scheduler may do, as steps on an abstract state, and what every run keeps. Jobs
 are numbered; `deps[j]` are the jobs that `j` waits for.
 */
module Schedule {
  import opened Digraph
  import opened Sequences

  type Deps = seq<set<nat>>

  datatype Event = Started(job: nat) | Succeeded(job: nat) | Failed(job: nat) | Killed(job: nat)

  // A job that is in none of these is waiting.
  datatype State = State(
    ready: seq<nat>, running: set<nat>, succeeded: set<nat>, failed: set<nat>, killed: set<nat>, log: seq<Event>)
  {
    function Begun(): set<nat> {
      running + succeeded + failed + killed
    }
  }

  ghost predicate ValidDeps(deps: Deps) {
    forall j, d :: 0 <= j < |deps| && d in deps[j] ==> d < |deps|
  }

  ghost function DepEdges(deps: Deps): Edges<nat> {
    set j: nat, d: nat | j < |deps| && d in deps[j] :: (d, j)
  }

  // ---------------------------------------------------------------- the invariant

  // Each job is in at most one place.
  ghost predicate Apart(st: State) {
    && st.running !! st.succeeded !! st.failed !! st.killed
    && Distinct(st.ready) && forall j :: j in st.ready ==> j !in st.Begun()
  }

  // A job has left the waiting ones exactly when all it waits for has succeeded.
  ghost predicate Released(deps: Deps, st: State) {
    && (forall j: nat :: j in st.ready || j in st.Begun() ==> j < |deps|)
    && forall j: nat :: j < |deps| ==> (j in st.ready || j in st.Begun() <==> deps[j] <= st.succeeded)
  }

  // The log tells when each job began and how it ended, and no job began before all it waits for had
  // succeeded.
  ghost predicate Logged(deps: Deps, st: State) {
    && (forall j :: Started(j) in st.log <==> j in st.Begun())
    && (forall j :: Succeeded(j) in st.log <==> j in st.succeeded)
    && (forall j :: Failed(j) in st.log <==> j in st.failed)
    && (forall j :: Killed(j) in st.log <==> j in st.killed)
    && (forall k: nat, l: nat :: k < l < |st.log| && st.log[k].Started? ==> st.log[k] != st.log[l])
    && (forall k: nat :: k < |st.log| ==> Timely(deps, st.log, k))
  }

  ghost predicate Timely(deps: Deps, log: seq<Event>, k: nat)
    requires k < |log|
  {
    match log[k]
    case Started(j) => j < |deps| && forall d :: d in deps[j] ==> Succeeded(d) in log[..k]
    case Succeeded(j) => Started(j) in log[..k]
    case _ => true
  }

  ghost predicate Inv(deps: Deps, st: State) {
    Apart(st) && Released(deps, st) && Logged(deps, st)
  }

  // ---------------------------------------------------------------- steps

  // `ready` holds the jobs that wait for nothing, in order.
  ghost predicate Initial(deps: Deps, st: State) {
    && st == State(st.ready, {}, {}, {}, {}, [])
    && Increasing(st.ready) && forall j: nat :: j in st.ready <==> j < |deps| && deps[j] == {}
  }

  function Start(st: State): State
    requires st.ready != []
  {
    st.(ready := st.ready[1..], running := st.running + {st.ready[0]}, log := st.log + [Started(st.ready[0])])
  }

  // `freed` are the jobs whose last missing dependency is `j`, in order.
  ghost predicate Frees(deps: Deps, st: State, j: nat, freed: seq<nat>) {
    && Increasing(freed)
    && forall k: nat :: k in freed <==> k < |deps| && j in deps[k] && deps[k] <= st.succeeded + {j}
  }

  function Succeed(st: State, j: nat, freed: seq<nat>): State {
    st.(ready := st.ready + freed, running := st.running - {j}, succeeded := st.succeeded + {j},
        log := st.log + [Succeeded(j)])
  }

  function Fail(st: State, j: nat): State {
    st.(running := st.running - {j}, failed := st.failed + {j}, log := st.log + [Failed(j)])
  }

  function Kill(st: State, j: nat): State {
    st.(running := st.running - {j}, killed := st.killed + {j}, log := st.log + [Killed(j)])
  }

  lemma TimelyGrows(deps: Deps, log: seq<Event>, e: Event)
    requires forall k: nat :: k < |log| ==> Timely(deps, log, k)
    requires Timely(deps, log + [e], |log|)
    ensures forall k: nat :: k < |log + [e]| ==> Timely(deps, log + [e], k)
  {
    forall k: nat | k < |log| ensures Timely(deps, log + [e], k) {
      assert Timely(deps, log, k);
      assert (log + [e])[..k] == log[..k] && (log + [e])[k] == log[k];
    }
  }

  lemma LogGrows(log: seq<Event>, e: Event)
    ensures forall x :: x in log + [e] <==> x in log || x == e
    ensures (log + [e])[..|log|] == log
  {
  }

  lemma DistinctConcat<T>(a: seq<T>, b: seq<T>)
    requires Distinct(a) && Distinct(b) && forall x :: x in b ==> x !in a
    ensures Distinct(a + b)
  {
    forall i, j | 0 <= i < j < |a + b| ensures (a + b)[i] != (a + b)[j] {
      if i < |a| <= j { assert (a + b)[j] in b; }
    }
  }

  lemma InitialInv(deps: Deps, st: State)
    requires ValidDeps(deps) && Initial(deps, st)
    ensures Inv(deps, st)
  {
  }

  lemma StartInv(deps: Deps, st: State)
    requires Inv(deps, st) && st.ready != []
    ensures Inv(deps, Start(st))
  {
    var j := st.ready[0];
    assert forall k :: k in st.ready <==> k == j || k in st.ready[1..];
    LogGrows(st.log, Started(j));
    TimelyGrows(deps, st.log, Started(j));
    assert Start(st).Begun() == st.Begun() + {j};
    hide Timely;
    assert Apart(Start(st)) && Released(deps, Start(st));
  }

  lemma SucceedInv(deps: Deps, st: State, j: nat, freed: seq<nat>)
    requires Inv(deps, st) && j in st.running && Frees(deps, st, j, freed)
    ensures Inv(deps, Succeed(st, j, freed))
  {
    var s' := Succeed(st, j, freed);
    LogGrows(st.log, Succeeded(j));
    TimelyGrows(deps, st.log, Succeeded(j));
    hide Timely;
    assert s'.Begun() == st.Begun();
    forall k | k in freed ensures k !in st.ready && k !in st.Begun() {
      assert j in deps[k] && j !in st.succeeded;
    }
    assert forall k :: k in s'.ready <==> k in st.ready || k in freed;
    DistinctConcat(st.ready, freed);
    assert Apart(s');
    assert Released(deps, s');
  }

  lemma FailInv(deps: Deps, st: State, j: nat)
    requires Inv(deps, st) && j in st.running
    ensures Inv(deps, Fail(st, j)) && Inv(deps, Kill(st, j))
  {
    hide Inv;
    FailureInv(deps, st, j);
    KillInv(deps, st, j);
  }

  lemma FailureInv(deps: Deps, st: State, j: nat)
    requires Inv(deps, st) && j in st.running
    ensures Inv(deps, Fail(st, j))
  {
    hide Timely;
    LogGrows(st.log, Failed(j));
    UntimedGrows(deps, st.log, Failed(j));
    assert Fail(st, j).Begun() == st.Begun();
    assert Released(deps, Fail(st, j));
  }

  lemma KillInv(deps: Deps, st: State, j: nat)
    requires Inv(deps, st) && j in st.running
    ensures Inv(deps, Kill(st, j))
  {
    hide Timely;
    LogGrows(st.log, Killed(j));
    UntimedGrows(deps, st.log, Killed(j));
    assert Kill(st, j).Begun() == st.Begun();
    assert Released(deps, Kill(st, j));
  }

  lemma UntimedGrows(deps: Deps, log: seq<Event>, e: Event)
    requires forall k: nat :: k < |log| ==> Timely(deps, log, k)
    requires e.Failed? || e.Killed?
    ensures forall k: nat :: k < |log + [e]| ==> Timely(deps, log + [e], k)
  {
    TimelyGrows(deps, log, e);
  }

  lemma FullOrNot(n: nat, done: set<nat>)
    requires forall j :: j in done ==> j < n
    ensures |done| <= n && (|done| == n <==> forall j: nat :: j < n ==> j in done)
    decreases n
  {
    if n == 0 {
      assert done == {};
    } else {
      FullOrNot(n - 1, done - {n - 1});
      if n - 1 in done {
        assert forall j: nat :: j < n - 1 ==> (j in done <==> j in done - {n - 1});
      }
    }
  }

  // No more jobs can have finished than there are, and when all have, none is anywhere else.
  lemma Exhausted(deps: Deps, st: State)
    requires Inv(deps, st)
    ensures |st.succeeded| + |st.failed| <= |deps|
    ensures |st.succeeded| + |st.failed| == |deps| ==> st.running == {} && st.ready == [] && st.killed == {}
  {
    hide Inv;
    BegunInRange(deps, st);
    var both := st.succeeded + st.failed;
    TwoSizes(st.succeeded, st.failed);
    FullOrNot(|deps|, both);
    if |both| == |deps| {
      NoneOutside(|deps|, both, st.running);
      NoneOutside(|deps|, both, st.killed);
      EmptyHoldsNothing(st.ready);
    }
  }

  lemma TwoSizes(a: set<nat>, b: set<nat>)
    requires a !! b
    ensures |a + b| == |a| + |b|
  {
    assert a * b == {};
  }

  lemma NoneOutside(n: nat, all: set<nat>, s: set<nat>)
    requires (forall j: nat :: j < n ==> j in all) && (forall j :: j in s ==> j < n) && s !! all
    ensures s == {}
  {
    assert forall j :: j in s ==> j in all;
  }

  lemma BegunInRange(deps: Deps, st: State)
    requires Inv(deps, st)
    ensures forall j :: j in st.running || j in st.succeeded || j in st.failed || j in st.killed || j in st.ready ==>
      j < |deps|
    ensures st.running !! st.succeeded + st.failed && st.killed !! st.succeeded + st.failed && st.succeeded !! st.failed
    ensures forall j :: j in st.ready ==> j !in st.succeeded + st.failed
  {
    hide Logged;
    assert Apart(st) && Released(deps, st);
    forall j | j in st.running + st.succeeded + st.failed + st.killed || j in st.ready ensures j < |deps| {
      assert j in st.ready || j in st.Begun();
    }
    assert forall j :: j in st.running || j in st.killed ==> j !in st.succeeded && j !in st.failed;
    assert forall j :: j in st.succeeded ==> j !in st.failed;
  }

  lemma EmptyHoldsNothing<T>(s: seq<T>)
    ensures s == [] <==> forall x :: x !in s
  {
    if s != [] { assert s[0] in s; }
  }

  // ---------------------------------------------------------------- what every run guarantees

  // A job never begins before everything it depends on, however indirectly, has succeeded.
  lemma {:induction false} OrderedAlong(deps: Deps, st: State, w: seq<nat>, d: nat, j: nat, k: nat)
    requires Inv(deps, st) && Path(DepEdges(deps), w, d, j) && k < |st.log| && st.log[k] == Started(j)
    ensures Succeeded(d) in st.log[..k]
    decreases |w|
  {
    var u := LeadsLast(DepEdges(deps), w, d, j);
    assert Timely(deps, st.log, k);
    assert Succeeded(u) in st.log[..k];
    if u != d {
      var m :| 0 <= m < k && st.log[m] == Succeeded(u);
      assert Timely(deps, st.log, m);
      var l :| 0 <= l < m && st.log[l] == Started(u);
      OrderedAlong(deps, st, w[..|w| - 1], d, u, l);
      assert st.log[..l] <= st.log[..k];
    }
  }

  lemma DependenciesFirst(deps: Deps, st: State, d: nat, j: nat, k: nat)
    requires Inv(deps, st) && Leads(DepEdges(deps), d, j) && k < |st.log| && st.log[k] == Started(j)
    ensures Succeeded(d) in st.log[..k]
  {
    var w :| Path(DepEdges(deps), w, d, j);
    OrderedAlong(deps, st, w, d, j, k);
  }

  // A job behind one that did not succeed has not begun and is not ready.
  lemma {:induction false} Blocked(deps: Deps, st: State, w: seq<nat>, f: nat, j: nat)
    requires Inv(deps, st) && Path(DepEdges(deps), w, f, j) && f !in st.succeeded
    ensures j !in st.ready && j !in st.Begun()
    decreases |w|
  {
    var u := LeadsLast(DepEdges(deps), w, f, j);
    assert u in deps[j];
    if u != f { Blocked(deps, st, w[..|w| - 1], f, u); }
  }

  ghost predicate BehindFailure(deps: Deps, st: State, j: nat) {
    exists f :: f in st.failed && Leads(DepEdges(deps), f, j)
  }

  // When nothing runs and nothing is ready, the jobs that never began are exactly those that
  // depend on a failed one.
  lemma StalledIsBlocked(deps: Deps, st: State)
    requires ValidDeps(deps) && Inv(deps, st) && !Cyclic(DepEdges(deps))
    requires st.running == {} && st.killed == {} && st.ready == []
    ensures forall j: nat :: j < |deps| ==> (j !in st.Begun() <==> BehindFailure(deps, st, j))
  {
    var e := DepEdges(deps);
    forall j: nat | j < |deps| && BehindFailure(deps, st, j) ensures j !in st.Begun() {
      var f :| f in st.failed && Leads(e, f, j);
      var w :| Path(e, w, f, j);
      Blocked(deps, st, w, f, j);
    }
    var stuck := set j: nat | j < |deps| && j !in st.Begun() && !BehindFailure(deps, st, j);
    forall j | j in stuck ensures Follows(e, stuck, j) {
      var d :| d in deps[j] && d !in st.succeeded;
      assert (d, j) in e;
      LeadsEdge(e, d, j);
      if BehindFailure(deps, st, d) {
        var f :| f in st.failed && Leads(e, f, d);
        LeadsTrans(e, f, d, j);
      }
      assert d in stuck;
    }
    if stuck != {} { NoSourceIsCyclic(e, stuck); }
  }

  // With no failure everything succeeds.
  lemma NothingFailed(deps: Deps, st: State)
    requires ValidDeps(deps) && Inv(deps, st) && !Cyclic(DepEdges(deps))
    requires st.running == {} && st.killed == {} && st.ready == [] && st.failed == {}
    ensures forall j: nat :: j < |deps| ==> j in st.succeeded
  {
    StalledIsBlocked(deps, st);
    forall j: nat | j < |deps| ensures j in st.succeeded {
      assert !BehindFailure(deps, st, j);
    }
  }

  // ---------------------------------------------------------------- runs

  ghost predicate Move(deps: Deps, a: State, b: State) {
    || (a.ready != [] && b == Start(a))
    || (exists j :: j in a.running && (b == Fail(a, j) || b == Kill(a, j)))
    || exists j, freed :: j in a.running && Frees(deps, a, j, freed) && b == Succeed(a, j, freed)
  }

  // A run in which never more jobs run than there are slots.
  ghost predicate IsRun(deps: Deps, slots: nat, run: seq<State>) {
    && |run| > 0 && Initial(deps, run[0])
    && (forall i :: 0 <= i < |run| ==> |run[i].running| <= slots)
    && forall i :: 0 <= i < |run| - 1 ==> Move(deps, run[i], run[i + 1])
  }

  // Some run comes to this state.
  ghost predicate Arises(deps: Deps, slots: nat, st: State) {
    exists run :: IsRun(deps, slots, run) && run[|run| - 1] == st
  }

  lemma ArisesInitial(deps: Deps, slots: nat, st: State)
    requires Initial(deps, st)
    ensures Arises(deps, slots, st)
  {
    assert IsRun(deps, slots, [st]);
  }

  lemma ArisesMove(deps: Deps, slots: nat, a: State, b: State)
    requires Arises(deps, slots, a) && Move(deps, a, b) && |b.running| <= slots
    ensures Arises(deps, slots, b)
  {
    hide Move, Initial;
    var run :| IsRun(deps, slots, run) && run[|run| - 1] == a;
    var longer := run + [b];
    forall i | 0 <= i < |longer| - 1 ensures Move(deps, longer[i], longer[i + 1]) {
      if i < |run| - 1 { assert Move(deps, run[i], run[i + 1]); }
    }
    assert IsRun(deps, slots, longer);
  }

  lemma ArisesStart(deps: Deps, slots: nat, st: State)
    requires Arises(deps, slots, st) && st.ready != [] && |st.running| < slots
    ensures Arises(deps, slots, Start(st))
  {
    hide Arises;
    ArisesMove(deps, slots, st, Start(st));
  }

  lemma ArisesSucceed(deps: Deps, slots: nat, st: State, j: nat, freed: seq<nat>)
    requires Arises(deps, slots, st) && j in st.running && Frees(deps, st, j, freed)
    ensures Arises(deps, slots, Succeed(st, j, freed))
  {
    ArisesWithin(deps, slots, st);
    hide Arises, Frees;
    ArisesMove(deps, slots, st, Succeed(st, j, freed));
  }

  lemma ArisesFail(deps: Deps, slots: nat, st: State, j: nat)
    requires Arises(deps, slots, st) && j in st.running
    ensures Arises(deps, slots, Fail(st, j)) && Arises(deps, slots, Kill(st, j))
  {
    ArisesWithin(deps, slots, st);
    hide Arises;
    ArisesMove(deps, slots, st, Fail(st, j));
    ArisesMove(deps, slots, st, Kill(st, j));
  }

  lemma ArisesWithin(deps: Deps, slots: nat, st: State)
    requires Arises(deps, slots, st)
    ensures |st.running| <= slots
  {
  }

  // What fewer slots allow, more do.
  lemma ArisesWider(deps: Deps, slots: nat, more: nat, st: State)
    requires Arises(deps, slots, st) && slots <= more
    ensures Arises(deps, more, st)
  {
    var run :| IsRun(deps, slots, run) && run[|run| - 1] == st;
    assert IsRun(deps, more, run);
  }

  lemma MoveInv(deps: Deps, a: State, b: State)
    requires Inv(deps, a) && Move(deps, a, b)
    ensures Inv(deps, b)
  {
    hide Inv, Frees;
    if a.ready != [] && b == Start(a) {
      StartInv(deps, a);
    } else if j :| j in a.running && (b == Fail(a, j) || b == Kill(a, j)) {
      FailInv(deps, a, j);
    } else {
      var j, freed :| j in a.running && Frees(deps, a, j, freed) && b == Succeed(a, j, freed);
      SucceedInv(deps, a, j, freed);
    }
  }

  // Every run keeps the invariant.
  lemma {:induction false} RunInv(deps: Deps, slots: nat, run: seq<State>)
    requires ValidDeps(deps) && IsRun(deps, slots, run)
    ensures Inv(deps, run[|run| - 1])
    decreases |run|
  {
    hide Inv, Move;
    if |run| == 1 {
      InitialInv(deps, run[0]);
    } else {
      RunInv(deps, slots, run[..|run| - 1]);
      MoveInv(deps, run[|run| - 2], run[|run| - 1]);
    }
  }

  lemma ArisesInv(deps: Deps, slots: nat, st: State)
    requires ValidDeps(deps) && Arises(deps, slots, st)
    ensures Inv(deps, st)
  {
    var run :| IsRun(deps, slots, run) && run[|run| - 1] == st;
    RunInv(deps, slots, run);
  }

  // ---------------------------------------------------------------- what no run can get around

  // Which runs are meant: how many slots they have, and whether none of their jobs fails or is killed.
  datatype Runs = Runs(slots: nat, calm: bool)

  ghost predicate ComesTo(deps: Deps, runs: Runs, st: State) {
    Arises(deps, runs.slots, st) && (runs.calm ==> st.failed == {} == st.killed)
  }

  // In none of them does `c` begin before `a` has succeeded.
  ghost predicate InOrder(deps: Deps, runs: Runs, a: nat, c: nat) {
    forall st: State, k: nat :: ComesTo(deps, runs, st) && k < |st.log| && st.log[k] == Started(c) ==>
      Succeeded(a) in st.log[..k]
  }

  // There is room for a job to be overtaken: it may fail, or another slot is free while it runs.
  predicate Ample(runs: Runs) {
    runs.slots >= if runs.calm then 2 else 1
  }

  // The job is on a loop of jobs that wait for each other, or behind one.
  ghost predicate BehindLoop(deps: Deps, c: nat) {
    exists x :: Leads(DepEdges(deps), x, x) && (x == c || Leads(DepEdges(deps), x, c))
  }

  lemma NotYetSucceeded(deps: Deps, st: State, x: nat, k: nat)
    requires Inv(deps, st) && k < |st.log| && st.log[k] == Started(x)
    ensures Succeeded(x) !in st.log[..k]
  {
    forall m: nat | m < k ensures st.log[m] != Succeeded(x) {
      assert Timely(deps, st.log, m);
    }
  }

  // A job on a loop never begins, so nothing behind it does.
  lemma LoopNeverBegins(deps: Deps, st: State, x: nat, k: nat)
    requires Inv(deps, st) && Leads(DepEdges(deps), x, x) && k < |st.log|
    ensures st.log[k] != Started(x)
  {
    if st.log[k] == Started(x) {
      NotYetSucceeded(deps, st, x, k);
      DependenciesFirst(deps, st, x, x, k);
    }
  }

  lemma BehindLoopNeverBegins(deps: Deps, st: State, c: nat, k: nat)
    requires Inv(deps, st) && BehindLoop(deps, c) && k < |st.log|
    ensures st.log[k] != Started(c)
  {
    var x :| Leads(DepEdges(deps), x, x) && (x == c || Leads(DepEdges(deps), x, c));
    if st.log[k] == Started(c) {
      if x != c {
        DependenciesFirst(deps, st, x, c, k);
        var m :| 0 <= m < k && st.log[m] == Succeeded(x);
        assert Timely(deps, st.log, m);
        var l :| 0 <= l < m && st.log[l] == Started(x);
        LoopNeverBegins(deps, st, x, l);
      } else {
        LoopNeverBegins(deps, st, c, k);
      }
    }
  }

  lemma {:induction false} Listed(n: nat, s: set<nat>) returns (list: seq<nat>)
    requires forall x :: x in s ==> x < n
    ensures Increasing(list) && forall x :: x in list <==> x in s
    decreases n
  {
    list := [];
    if n > 0 {
      list := Listed(n - 1, s - {n - 1});
      if n - 1 in s {
        IncreasingPush(list, n - 1);
        list := list + [n - 1];
      }
    }
  }

  lemma CanSucceed(deps: Deps, st: State, j: nat) returns (freed: seq<nat>)
    ensures Frees(deps, st, j, freed)
  {
    freed := Listed(|deps|, set k: nat | k < |deps| && j in deps[k] && deps[k] <= st.succeeded + {j});
  }

  // Everything that has begun has succeeded but for `a`, which still runs if the run is to be calm and
  // has failed otherwise; and `c` has not begun.
  ghost predicate AllBut(calm: bool, st: State, a: nat, c: nat) {
    && st.killed == {} && c !in st.Begun() && a !in st.succeeded
    && st.running <= (if calm then {a} else {}) && st.failed <= if calm then {} else {a}
  }

  ghost predicate Ahead(deps: Deps, runs: Runs, st: State, a: nat, c: nat) {
    Arises(deps, runs.slots, st) && AllBut(runs.calm, st, a, c)
  }

  // A job that has not begun lacks one that has not begun either, or `a`.
  lemma Missing(deps: Deps, calm: bool, st: State, a: nat, c: nat, x: nat) returns (d: nat)
    requires Released(deps, st) && AllBut(calm, st, a, c) && st.ready == [] && x < |deps| && x !in st.Begun()
    ensures d in deps[x] && (d !in st.Begun() || d == a)
  {
    d :| d in deps[x] && d !in st.succeeded;
  }

  // Such a run never lacks a job to start.
  lemma AheadHasReady(deps: Deps, calm: bool, st: State, a: nat, c: nat)
    requires ValidDeps(deps) && Inv(deps, st) && AllBut(calm, st, a, c) && c < |deps|
    requires !Leads(DepEdges(deps), a, c) && !BehindLoop(deps, c)
    ensures st.ready != []
  {
    var e := DepEdges(deps);
    if st.ready == [] {
      var s := set x: nat | x < |deps| && x !in st.Begun() && (x == c || Leads(e, x, c));
      assert c in s;
      hide Apart, Logged, Released, Leads, AllBut;
      forall x | x in s ensures Follows(e, s, x) {
        var d := Missing(deps, calm, st, a, c, x);
        assert (d, x) in e;
        LeadsEdge(e, d, x);
        if x != c { LeadsTrans(e, d, x, c); }
        assert d in s;
      }
      NoSourceIsCyclic(e, s);
    }
  }

  lemma HasRoom(runs: Runs, st: State, a: nat, c: nat)
    requires AllBut(runs.calm, st, a, c) && Ample(runs)
    ensures |st.running| < runs.slots
  {
    if st.running != {} { assert st.running == {a}; }
  }

  lemma StillAllBut(calm: bool, st: State, a: nat, c: nat, freed: seq<nat>)
    requires AllBut(calm, st, a, c) && st.ready != [] && st.ready[0] != c && st.ready[0] !in st.Begun()
    ensures var h, next := st.ready[0], Start(st);
      && (h != a ==> AllBut(calm, Succeed(next, h, freed), a, c))
      && (h == a && calm ==> AllBut(calm, next, a, c))
      && (h == a && !calm ==> AllBut(calm, Fail(next, h), a, c))
  {
    var h := st.ready[0];
    assert Start(st).running - {h} == st.running;
  }

  lemma BegunOne(st: State, freed: seq<nat>)
    requires st.ready != []
    ensures var h, next := st.ready[0], Start(st);
      next.Begun() == Succeed(next, h, freed).Begun() == Fail(next, h).Begun() == st.Begun() + {h}
  {
  }

  lemma HeadIsNew(deps: Deps, st: State)
    requires Inv(deps, st) && st.ready != []
    ensures st.ready[0] !in st.Begun() && st.ready[0] < |deps|
  {
    assert st.ready[0] in st.ready;
  }

  lemma AheadStart(deps: Deps, runs: Runs, st: State, a: nat, c: nat) returns (next: State)
    requires ValidDeps(deps) && Ahead(deps, runs, st, a, c) && Ample(runs) && st.ready != [] && st.ready[0] != c
    ensures Ahead(deps, runs, next, a, c) && next.Begun() == st.Begun() + {st.ready[0]}
    ensures st.ready[0] !in st.Begun() && st.ready[0] < |deps|
  {
    var h := st.ready[0];
    ArisesInv(deps, runs.slots, st);
    hide Inv, Arises, Frees, AllBut, State.Begun;
    HasRoom(runs, st, a, c);
    HeadIsNew(deps, st);
    next := Start(st);
    ArisesStart(deps, runs.slots, st);
    var freed := CanSucceed(deps, next, h);
    StillAllBut(runs.calm, st, a, c, freed);
    BegunOne(st, freed);
    if h != a {
      ArisesSucceed(deps, runs.slots, next, h, freed);
      next := Succeed(next, h, freed);
    } else if !runs.calm {
      ArisesFail(deps, runs.slots, next, h);
      next := Fail(next, h);
    }
  }

  ghost function Unbegun(deps: Deps, st: State): set<nat> {
    set x: nat | x < |deps| && x !in st.Begun()
  }

  // So `c` begins, and `a` has not succeeded.
  lemma {:induction false} Overtakes(deps: Deps, runs: Runs, st: State, a: nat, c: nat) returns (late: State, k: nat)
    requires ValidDeps(deps) && Ahead(deps, runs, st, a, c) && Ample(runs) && c < |deps|
    requires !Leads(DepEdges(deps), a, c) && !BehindLoop(deps, c)
    ensures ComesTo(deps, runs, late) && k < |late.log| && late.log[k] == Started(c)
    ensures Succeeded(a) !in late.log[..k]
    decreases Unbegun(deps, st)
  {
    ArisesInv(deps, runs.slots, st);
    AheadHasReady(deps, runs.calm, st, a, c);
    if st.ready[0] == c {
      late, k := Start(st), |st.log|;
      HasRoom(runs, st, a, c);
      ArisesStart(deps, runs.slots, st);
      assert late.log[..k] == st.log;
    } else {
      var next := AheadStart(deps, runs, st, a, c);
      assert st.ready[0] in Unbegun(deps, st) && st.ready[0] !in Unbegun(deps, next);
      hide Ahead, Inv, BehindLoop;
      late, k := Overtakes(deps, runs, next, a, c);
    }
  }

  // No run starts one job before another has succeeded exactly when the one depends on the other, or
  // no run starts it at all because it waits for a loop: be it for runs that go on after a failure, with
  // any number of slots, or for those without failures, with at least two.
  lemma InOrderIff(deps: Deps, runs: Runs, a: nat, c: nat)
    requires ValidDeps(deps) && c < |deps| && Ample(runs)
    ensures InOrder(deps, runs, a, c) <==> Leads(DepEdges(deps), a, c) || BehindLoop(deps, c)
  {
    if Leads(DepEdges(deps), a, c) || BehindLoop(deps, c) {
      forall st: State, k: nat | ComesTo(deps, runs, st) && k < |st.log| && st.log[k] == Started(c)
        ensures Succeeded(a) in st.log[..k]
      {
        ArisesInv(deps, runs.slots, st);
        if BehindLoop(deps, c) {
          BehindLoopNeverBegins(deps, st, c, k);
        } else {
          DependenciesFirst(deps, st, a, c, k);
        }
      }
    } else {
      var ready := Listed(|deps|, set j: nat | j < |deps| && deps[j] == {});
      var start := State(ready, {}, {}, {}, {}, []);
      ArisesInitial(deps, runs.slots, start);
      var late, k := Overtakes(deps, runs, start, a, c);
    }
  }
}
