/**
 Which jobs were given a child process and which slot each was tried in, and what it means, told by
 the log, that a run stops at a failure.
 */
module Halting {
  import opened Schedule

  // `launched` are the jobs a child was started for; `slot[j]` is the slot in which `j` was tried.
  datatype Children = Children(launched: set<nat>, slot: map<nat, nat>)

  // What runs, was killed or succeeded had a child, in a run that is not dry; a dry run starts none
  // and sees no failure.
  ghost predicate ByChildren(st: State, c: Children, dryRun: bool) {
    && st.running + st.killed <= c.launched <= st.Begun()
    && if dryRun then c.launched == {} && st.failed == {} else st.succeeded <= c.launched
  }

  lemma ChildStarts(st: State, c: Children, slot: map<nat, nat>)
    requires ByChildren(st, c, false) && st.ready != []
    ensures ByChildren(Start(st), Children(c.launched + {st.ready[0]}, slot), false)
  {
  }

  lemma ChildRefused(st: State, c: Children, slot: map<nat, nat>)
    requires ByChildren(st, c, false) && st.ready != [] && st.ready[0] !in st.running
    ensures ByChildren(Fail(Start(st), st.ready[0]), Children(c.launched, slot), false)
  {
  }

  lemma ChildPretended(st: State, c: Children, freed: seq<nat>)
    requires ByChildren(st, c, true) && st.ready != []
    ensures ByChildren(Succeed(Start(st), st.ready[0], freed), c, true)
  {
  }

  lemma ChildEnds(st: State, c: Children, dryRun: bool, j: nat)
    requires ByChildren(st, c, dryRun) && j in st.running
    ensures forall freed :: ByChildren(Succeed(st, j, freed), c, dryRun)
    ensures ByChildren(Fail(st, j), c, dryRun) && ByChildren(Kill(st, j), c, dryRun) && !dryRun
  {
  }

  // After a child has failed nothing is started. After a launch has failed only later slots are filled,
  // and before any child exits.
  ghost predicate Halts(log: seq<Event>, c: Children, slots: nat) {
    forall i: nat, k: nat :: i < k < |log| && log[i].Failed? && log[k].Started? ==>
      LaterSlot(log, c, i, k) && c.slot[log[k].job] < slots && forall m: nat :: i <= m <= k ==> OfLaunching(log, c, m)
  }

  ghost predicate LaterSlot(log: seq<Event>, c: Children, i: nat, k: nat) {
    && i < |log| && k < |log| && log[i].job in c.slot && log[k].job in c.slot
    && c.slot[log[i].job] < c.slot[log[k].job]
  }

  // A start, or that a child could not be started.
  ghost predicate OfLaunching(log: seq<Event>, c: Children, m: nat) {
    m < |log| && (log[m].Started? || (log[m].Failed? && log[m].job !in c.launched))
  }

  // Nothing has failed before `from`, and what is logged since is of a pass that has come to slot `s`.
  ghost predicate Passed(log: seq<Event>, c: Children, from: nat, s: nat) {
    && (forall k: nat :: k < from && k < |log| ==> !log[k].Failed?)
    && (forall k: nat :: from <= k < |log| ==>
          OfLaunching(log, c, k) && log[k].job in c.slot && c.slot[log[k].job] < s)
    && forall i: nat, k: nat :: from <= i < k < |log| && log[i].Failed? && log[k].Started? ==> LaterSlot(log, c, i, k)
  }

  lemma PassedHalts(log: seq<Event>, c: Children, from: nat, slots: nat)
    requires Passed(log, c, from, slots)
    ensures Halts(log, c, slots)
  {
    hide LaterSlot, OfLaunching;
  }

  lemma PassedNone(log: seq<Event>, c: Children, from: nat, s: nat)
    requires Passed(log, c, from, s)
    ensures Passed(log, c, from, s + 1)
  {
    hide LaterSlot, OfLaunching;
  }

  lemma PassedStart(log: seq<Event>, c: Children)
    requires forall k: nat :: k < |log| ==> !log[k].Failed?
    ensures Passed(log, c, |log|, 0) && forall slots :: Halts(log, c, slots)
  {
  }

  // The next job, tried in slot `s`.
  lemma PassedOne(log: seq<Event>, c: Children, from: nat, s: nat, j: nat)
    requires Passed(log, c, from, s) && from <= |log|
    requires j !in c.launched && forall k: nat :: k < |log| ==> log[k].job != j
    ensures Passed(log + [Started(j)], Children(c.launched + {j}, c.slot[j := s]), from, s + 1)
    ensures Passed(log + [Started(j)] + [Failed(j)], Children(c.launched, c.slot[j := s]), from, s + 1)
  {
  }

  // Exits and kills: no start is among what is added.
  ghost predicate Quiet(before: seq<Event>, after: seq<Event>) {
    && |before| <= |after| && (forall k: nat :: k < |before| ==> after[k] == before[k])
    && forall k: nat :: |before| <= k < |after| ==> !after[k].Started?
  }

  lemma HaltsOn(before: seq<Event>, after: seq<Event>, c: Children, slots: nat)
    requires Halts(before, c, slots) && Quiet(before, after)
    ensures Halts(after, c, slots)
  {
    forall i: nat, k: nat | i < k < |after| && after[i].Failed? && after[k].Started?
      ensures LaterSlot(after, c, i, k) && c.slot[after[k].job] < slots
      ensures forall m: nat :: i <= m <= k ==> OfLaunching(after, c, m)
    {
      assert k < |before| && LaterSlot(before, c, i, k);
      forall m: nat | i <= m <= k ensures OfLaunching(after, c, m) {
        assert OfLaunching(before, c, m);
      }
    }
  }

  // What has not begun is not in the log.
  lemma Unheard(deps: Deps, st: State, j: nat)
    requires Inv(deps, st) && j !in st.Begun()
    ensures forall k: nat :: k < |st.log| ==> st.log[k].job != j
  {
    forall k: nat | k < |st.log| ensures st.log[k].job != j {
      assert st.log[k] in st.log;
    }
  }

  lemma NoFailureLogged(deps: Deps, st: State)
    requires Inv(deps, st) && st.failed == {}
    ensures forall k: nat :: k < |st.log| ==> !st.log[k].Failed?
  {
    forall k: nat | k < |st.log| ensures !st.log[k].Failed? {
      assert st.log[k] in st.log;
    }
  }
}
