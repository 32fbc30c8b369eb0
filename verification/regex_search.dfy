/**
 The matching machine's search: depth first, with one visited table shared by all start positions.
 */
module RegexSearch {
  import opened RegexSyntax
  import opened RegexParser
  import opened RegexMachine
  import RegexCompiler

  // The slot of a state in the visited table.
  function Flat(pc: nat, pos: nat, positions: nat): (r: nat) {
    pc * positions + pos
  }

  lemma FlatInRange(pc: nat, pos: nat, positions: nat, n: nat)
    requires pc < n && pos < positions
    ensures Flat(pc, pos, positions) < n * positions
  {
    assert (pc + 1) * positions <= n * positions;
  }

  lemma FlatBelow(pc: nat, pos: nat, pc': nat, pos': nat, positions: nat)
    requires pc < pc' && pos < positions
    ensures Flat(pc, pos, positions) < Flat(pc', pos', positions)
  {
    assert (pc + 1) * positions <= pc' * positions;
  }

  lemma FlatInjective(pc: nat, pos: nat, pc': nat, pos': nat, positions: nat)
    requires pos < positions && pos' < positions && Flat(pc, pos, positions) == Flat(pc', pos', positions)
    ensures pc == pc' && pos == pos'
  {
    hide Flat;
    if pc < pc' {
      FlatBelow(pc, pos, pc', pos', positions);
      assert false;
    } else if pc' < pc {
      FlatBelow(pc', pos', pc, pos, positions);
      assert false;
    } else {
      FlatSameRow(pc, pos, pos', positions);
    }
  }

  lemma FlatSameRow(pc: nat, pos: nat, pos': nat, positions: nat)
    requires Flat(pc, pos, positions) == Flat(pc, pos', positions)
    ensures pos == pos'
  {
  }

  predicate InRange(vm: Machine, a: Thread) {
    0 <= a.pc < |vm.p| && a.pos <= |vm.s|
  }

  ghost function States(n: nat, positions: nat): set<Thread> {
    set pc: nat, pos: nat | pc < n && pos < positions :: Thread(pc, pos)
  }

  ghost function Row(pc: nat, positions: nat): set<Thread> {
    set pos: nat | pos < positions :: Thread(pc, pos)
  }

  lemma {:induction false} RowCount(pc: nat, positions: nat)
    ensures |Row(pc, positions)| == positions
  {
    if positions == 0 {
      assert Row(pc, positions) == {};
    } else {
      RowCount(pc, positions - 1);
      assert Row(pc, positions) == Row(pc, positions - 1) + {Thread(pc, positions - 1)};
    }
  }

  lemma {:induction false} StatesCount(n: nat, positions: nat)
    ensures |States(n, positions)| == n * positions
  {
    if n == 0 {
      assert States(n, positions) == {};
    } else {
      StatesCount(n - 1, positions);
      RowCount(n - 1, positions);
      assert States(n, positions) == States(n - 1, positions) + Row(n - 1, positions);
      assert States(n - 1, positions) !! Row(n - 1, positions);
      assert n * positions == (n - 1) * positions + positions;
    }
  }

  // Some start position leads here.
  ghost predicate Started(vm: Machine, a: Thread) {
    exists start: nat :: start <= |vm.s| && Reach(vm, Thread(0, start), a)
  }

  lemma StartedStep(vm: Machine, a: Thread, b: Thread)
    requires Started(vm, a) && Step(vm, a, b)
    ensures Started(vm, b)
  {
    var start: nat :| start <= |vm.s| && Reach(vm, Thread(0, start), a);
    ReachStep(vm, a, b);
    ReachTrans(vm, Thread(0, start), a, b);
  }

  // Every step out of a visited state leads to a visited state or to one still to be looked at.
  ghost predicate Covered(vm: Machine, seen: set<Thread>, todo: set<Thread>) {
    forall a, b :: a in seen && Step(vm, a, b) ==> b in seen || b in todo
  }

  ghost predicate Sound(vm: Machine, threads: set<Thread>) {
    forall a :: a in threads ==> InRange(vm, a) && Started(vm, a)
  }

  // What the search knows about the states it has visited.
  ghost predicate Explored(vm: Machine, seen: set<Thread>, todo: set<Thread>) {
    && Sound(vm, seen) && Sound(vm, todo)
    && Covered(vm, seen, todo)
    && forall a :: a in seen ==> !IsMatch(vm, a)
  }

  ghost function Elements(threads: seq<Thread>): set<Thread> {
    set a | a in threads
  }

  // A closed set of visited states holds everything its members lead to.
  lemma {:induction false} ClosedHolds(vm: Machine, seen: set<Thread>, a: Thread, b: Thread, n: nat)
    requires Covered(vm, seen, {}) && a in seen && ReachIn(vm, a, b, n)
    ensures b in seen
    decreases n
  {
    if n > 0 {
      var c :| Step(vm, a, c) && ReachIn(vm, c, b, n - 1);
      ClosedHolds(vm, seen, c, b, n - 1);
    }
  }

  lemma ExhaustedRejects(vm: Machine, seen: set<Thread>)
    requires Explored(vm, seen, {})
    requires forall k: nat :: k <= |vm.s| ==> Thread(0, k) in seen
    ensures !Accepts(vm)
  {
    if Accepts(vm) {
      var start: nat, b :| start <= |vm.s| && Reach(vm, Thread(0, start), b) && IsMatch(vm, b);
      var n: nat :| ReachIn(vm, Thread(0, start), b, n);
      ClosedHolds(vm, seen, Thread(0, start), b, n);
    }
  }

  // Visiting `a`: it joins the visited states, and the states it steps to are to be looked at.
  lemma Visit(vm: Machine, seen: set<Thread>, rest: set<Thread>, a: Thread, next: set<Thread>)
    requires WellFormed(vm.p, vm.classes) && Explored(vm, seen, rest + {a}) && !IsMatch(vm, a)
    requires forall b :: b in next <==> Step(vm, a, b)
    ensures Explored(vm, seen + {a}, rest + next)
  {
    forall b | b in next ensures InRange(vm, b) && Started(vm, b) {
      StartedStep(vm, a, b);
    }
  }

  // A state already visited need not be looked at again.
  lemma Skip(vm: Machine, seen: set<Thread>, rest: set<Thread>, a: Thread)
    requires Explored(vm, seen, rest + {a}) && a in seen
    ensures Explored(vm, seen, rest)
  {
  }

  lemma Look(vm: Machine, seen: set<Thread>, todo: set<Thread>, a: Thread)
    requires Explored(vm, seen, todo) && a in todo
    ensures InRange(vm, a)
    ensures IsMatch(vm, a) ==> Accepts(vm)
  {
  }

  lemma Begin(vm: Machine, seen: set<Thread>, start: nat)
    requires WellFormed(vm.p, vm.classes) && Explored(vm, seen, {}) && start <= |vm.s|
    ensures Explored(vm, seen, {Thread(0, start)})
  {
    ReachSelf(vm, Thread(0, start));
  }

  // The one state a thread moves on to within its loop, and the one it leaves for later.
  datatype Move = Stop | Go(to: Thread) | Fork(to: Thread, later: Thread)

  function Targets(m: Move): set<Thread> {
    match m
    case Stop => {}
    case Go(to) => {to}
    case Fork(to, later) => {to, later}
  }

  // What the instruction under a thread makes it do.
  method Execute(vm: Machine, thread: Thread) returns (m: Move)
    requires WellFormed(vm.p, vm.classes) && InRange(vm, thread) && !IsMatch(vm, thread)
    ensures forall b :: b in Targets(m) <==> Step(vm, thread, b)
  {
    var atEnd := thread.pos == |vm.s|;
    var advances := false;
    match vm.p[thread.pc] {
    case Char(c) => advances := !atEnd && vm.s[thread.pos] == c;
    case Any => advances := !atEnd && vm.s[thread.pos] != '\n';
    case Class(index) => advances := !atEnd && vm.s[thread.pos] in vm.classes[index];
    case Split(x, y) => return Fork(Thread(thread.pc + x, thread.pos), Thread(thread.pc + y, thread.pos));
    case Jump(x) => return Go(Thread(thread.pc + x, thread.pos));
    case LineStart =>
      if thread.pos != 0 { return Stop; }
      return Go(Thread(thread.pc + 1, thread.pos));
    case LineEnd =>
      if !atEnd && !(thread.pos + 1 == |vm.s| && vm.s[thread.pos] == '\n') { return Stop; }
      return Go(Thread(thread.pc + 1, thread.pos));
    case Match =>
      assert false;
    }
    m := if advances then Go(Thread(thread.pc + 1, thread.pos + 1)) else Stop;
  }

  // The table marks exactly the visited states.
  ghost predicate Marks(visited: array<bool>, n: nat, positions: nat, seen: set<Thread>)
    reads visited
  {
    && visited.Length == n * positions
    && forall pc: nat, pos: nat :: pc < n && pos < positions && Flat(pc, pos, positions) < visited.Length ==>
         (visited[Flat(pc, pos, positions)] <==> Thread(pc, pos) in seen)
  }

  method NewTable(n: nat, positions: nat) returns (visited: array<bool>)
    ensures fresh(visited) && Marks(visited, n, positions, {})
  {
    assert n * positions >= 0;
    visited := new bool[n * positions](_ => false);
  }

  method IsMarked(visited: array<bool>, n: nat, positions: nat, ghost seen: set<Thread>, a: Thread)
    returns (marked: bool)
    requires 0 <= a.pc < n && a.pos < positions && Marks(visited, n, positions, seen)
    ensures marked <==> a in seen
  {
    FlatInRange(a.pc, a.pos, positions, n);
    marked := visited[Flat(a.pc, a.pos, positions)];
  }

  lemma StatesHold(vm: Machine, a: Thread)
    requires InRange(vm, a)
    ensures a in States(|vm.p|, |vm.s| + 1)
  {
  }

  // A state is about to be expanded: it is marked and counted.
  method Mark(visited: array<bool>, n: nat, positions: nat, ghost seen: set<Thread>, a: Thread, ghost count: nat)
    returns (ghost counted: nat)
    requires 0 <= a.pc < n && a.pos < positions && Marks(visited, n, positions, seen) && a !in seen && count == |seen|
    modifies visited
    ensures Marks(visited, n, positions, seen + {a}) && counted == count + 1 == |seen + {a}|
  {
    counted := count + 1;
    FlatInRange(a.pc, a.pos, positions, n);
    visited[Flat(a.pc, a.pos, positions)] := true;
    forall pc: nat, pos: nat | pc < n && pos < positions && Flat(pc, pos, positions) < visited.Length
      ensures visited[Flat(pc, pos, positions)] <==> Thread(pc, pos) in seen + {a}
    {
      if Flat(pc, pos, positions) == Flat(a.pc, a.pos, positions) {
        FlatInjective(pc, pos, a.pc, a.pos, positions);
      }
    }
  }

  // How one turn of a thread ends: at a match, for good, or with a state to go on from.
  datatype Turn = Matched | Over | Onto(next: Thread)

  // One turn: unless the state is known it is marked, counted and expanded, and what it forks off is pushed.
  method Expand(vm: Machine, visited: array<bool>, thread: Thread, waiting: seq<Thread>, ghost before: set<Thread>,
                ghost count: nat)
    returns (turn: Turn, pending: seq<Thread>, ghost seen: set<Thread>, ghost expanded: nat)
    requires WellFormed(vm.p, vm.classes) && Marks(visited, |vm.p|, |vm.s| + 1, before) &&
      before <= States(|vm.p|, |vm.s| + 1)
    requires Explored(vm, before, Elements(waiting) + {thread}) && count == |before|
    modifies visited
    ensures seen == before + {thread} && seen <= States(|vm.p|, |vm.s| + 1) && expanded == |seen|
    ensures turn.Matched? ==> Accepts(vm)
    ensures !turn.Matched? ==> Marks(visited, |vm.p|, |vm.s| + 1, seen) && Elements(waiting) <= Elements(pending)
    ensures thread in before ==> turn == Over && pending == waiting
    ensures turn.Over? ==> Explored(vm, seen, Elements(pending))
    ensures turn.Onto? ==> Explored(vm, seen, Elements(pending) + {turn.next})
  {
    hide Explored, Marks, States, WellFormed, Accepts, Step;
    pending, seen, expanded := waiting, before + {thread}, count;
    Look(vm, before, Elements(waiting) + {thread}, thread);
    StatesHold(vm, thread);
    var known := IsMarked(visited, |vm.p|, |vm.s| + 1, before, thread);
    if known {
      Skip(vm, before, Elements(waiting), thread);
      assert seen == before;
      return Over, pending, seen, expanded;
    }
    expanded := Mark(visited, |vm.p|, |vm.s| + 1, before, thread, expanded);
    if vm.p[thread.pc].Match? {
      return Matched, pending, seen, expanded;
    }
    var move := Execute(vm, thread);
    Visit(vm, before, Elements(waiting), thread, Targets(move));
    match move
    case Stop =>
      assert Elements(pending) + {} == Elements(pending);
      turn := Over;
    case Go(to) =>
      turn := Onto(to);
    case Fork(to, later) =>
      assert Elements(pending) + {to, later} == Elements(pending + [later]) + {to};
      pending := pending + [later];
      turn := Onto(to);
  }

  // One thread taken off the stack, run until it matches, stops or meets a visited state. As many
  // states have been expanded as are marked: none is expanded twice.
  method Run(vm: Machine, visited: array<bool>, first: Thread, waiting: seq<Thread>, ghost before: set<Thread>,
             ghost count: nat)
    returns (matched: bool, pending: seq<Thread>, ghost seen: set<Thread>, ghost expanded: nat)
    requires WellFormed(vm.p, vm.classes) && Marks(visited, |vm.p|, |vm.s| + 1, before) &&
      before <= States(|vm.p|, |vm.s| + 1)
    requires Explored(vm, before, Elements(waiting) + {first}) && count == |before|
    modifies visited
    ensures matched ==> Accepts(vm)
    ensures seen <= States(|vm.p|, |vm.s| + 1) && expanded == |seen|
    ensures !matched ==>
      && Marks(visited, |vm.p|, |vm.s| + 1, seen)
      && before <= seen && first in seen && Elements(waiting) <= Elements(pending)
      && (seen == before ==> pending == waiting)
      && Explored(vm, seen, Elements(pending))
  {
    hide Explored, Marks, States, WellFormed, Accepts, Step, Elements;
    var positions := |vm.s| + 1;
    var thread := first;
    pending, seen, expanded := waiting, before, count;
    while true
      invariant Marks(visited, |vm.p|, positions, seen) && before <= seen <= States(|vm.p|, positions)
      invariant Explored(vm, seen, Elements(pending) + {thread}) && expanded == |seen|
      invariant first in seen || first == thread
      invariant Elements(waiting) <= Elements(pending) && (seen == before ==> pending == waiting)
      decreases States(|vm.p|, positions) - seen
    {
      var turn;
      turn, pending, seen, expanded := Expand(vm, visited, thread, pending, seen, expanded);
      match turn
      case Matched =>
        return true, pending, seen, expanded;
      case Over =>
        return false, pending, seen, expanded;
      case Onto(next) =>
        thread := next;
    }
  }

  // Everything one start position leads to, depth first.
  method SearchFrom(vm: Machine, visited: array<bool>, start: nat, ghost before: set<Thread>, ghost count: nat)
    returns (matched: bool, ghost seen: set<Thread>, ghost expanded: nat)
    requires WellFormed(vm.p, vm.classes) && Marks(visited, |vm.p|, |vm.s| + 1, before) &&
      before <= States(|vm.p|, |vm.s| + 1)
    requires Explored(vm, before, {}) && start <= |vm.s| && count == |before|
    modifies visited
    ensures matched ==> Accepts(vm)
    ensures seen <= States(|vm.p|, |vm.s| + 1) && expanded == |seen|
    ensures !matched ==>
      && Marks(visited, |vm.p|, |vm.s| + 1, seen) && before <= seen && Thread(0, start) in seen
      && Explored(vm, seen, {})
  {
    hide Explored, Marks, States, WellFormed, Accepts;
    var first := Thread(0, start);
    Begin(vm, before, start);
    var pending := [first];
    seen, expanded := before, count;
    assert Elements(pending) == {first};
    while pending != []
      invariant expanded == |seen|
      invariant Marks(visited, |vm.p|, |vm.s| + 1, seen) && before <= seen <= States(|vm.p|, |vm.s| + 1)
      invariant Explored(vm, seen, Elements(pending))
      invariant first in seen || first in Elements(pending)
      decreases States(|vm.p|, |vm.s| + 1) - seen, |pending|
    {
      var thread, rest := pending[|pending| - 1], pending[..|pending| - 1];
      assert pending == rest + [thread];
      assert Elements(pending) == Elements(rest) + {thread};
      matched, pending, seen, expanded := Run(vm, visited, thread, rest, seen, expanded);
      if matched { return; }
    }
    assert Elements(pending) == {};
    matched := false;
  }

  // Found exactly when the machine accepts, after expanding each state at most once.
  method Search(vm: Machine) returns (found: bool, ghost expanded: nat)
    requires WellFormed(vm.p, vm.classes)
    ensures found <==> Accepts(vm)
    ensures expanded <= |vm.p| * (|vm.s| + 1)
  {
    var positions := |vm.s| + 1;
    var visited := NewTable(|vm.p|, positions);
    ghost var seen: set<Thread> := {};
    expanded := 0;
    StatesCount(|vm.p|, positions);
    assert Explored(vm, seen, {});
    hide Explored, Marks, States, WellFormed, Accepts;
    for start := 0 to positions
      invariant Marks(visited, |vm.p|, positions, seen) && seen <= States(|vm.p|, positions)
      invariant Explored(vm, seen, {}) && expanded == |seen|
      invariant forall k: nat :: k < start ==> Thread(0, k) in seen
    {
      var matched;
      matched, seen, expanded := SearchFrom(vm, visited, start, seen, expanded);
      if matched {
        Subset(seen, States(|vm.p|, positions));
        return true, expanded;
      }
    }
    Subset(seen, States(|vm.p|, positions));
    ExhaustedRejects(vm, seen);
    return false, expanded;
  }

  lemma Subset(a: set<Thread>, b: set<Thread>)
    requires a <= b
    ensures |a| <= |b|
  {
    assert b == a + (b - a);
  }

  // ---------------------------------------------------------------- the engine as a whole

  // Compiling a pattern and searching a subject: an error for text outside the grammar, and
  // otherwise whether some span of the subject is in the denotation of the tree the text spells.
  method SearchPattern(pattern: string, subject: string) returns (compiled: bool, found: bool)
    ensures compiled <==> exists t :: IsAlternation(t) && Text(t) == pattern
    ensures compiled ==> forall t :: IsAlternation(t) && Text(t) == pattern ==> (found <==> Matches(t, subject))
  {
    var outcome := RegexCompiler.Compile(pattern);
    forall t ensures ParsePattern(pattern) == Ok(t, |pattern|) <==> IsAlternation(t) && Text(t) == pattern {
      PatternIffSpelled(pattern, t);
    }
    match outcome
    case Rejected(_, _) =>
      return false, false;
    case Compiled(program, classes) =>
      ghost var t := ParsePattern(pattern).value;
      WholePattern(pattern);
      CompiledWellFormed(t);
      CompiledCorrect(t, subject);
      compiled := true;
      ghost var expanded;
      found, expanded := Search(Machine(program, classes, subject));
  }

  lemma WholePattern(pattern: string)
    requires ParsePattern(pattern).Ok?
    ensures ParsePattern(pattern).pos == |pattern|
  {
  }
}
