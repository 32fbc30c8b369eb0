/**
 The instructions a regular expression is compiled to, the steps a thread of the matching machine
 can take, and the fragment of program each tree is translated to. The translation is proved to
 preserve meaning: the threads that can leave a fragment are exactly the spans its tree denotes.
 */
module RegexMachine {
  import opened RegexSyntax
  import opened Sequences

  // Jumps are relative to the instruction itself; a class is an index into the class table.
  datatype Instruction =
    | Char(c: char)
    | Any
    | Class(index: nat)
    | Split(x: int, y: int)
    | Jump(x: int)
    | LineStart
    | LineEnd
    | Match

  type Program = seq<Instruction>
  type ClassTable = seq<set<char>>

  datatype Thread = Thread(pc: int, pos: nat)

  // ---------------------------------------------------------------- the machine

  predicate Consumes(i: Instruction, classes: ClassTable, c: char) {
    match i
    case Char(x) => c == x
    case Any => c != '\n'
    case Class(k) => k < |classes| && c in classes[k]
    case _ => false
  }

  predicate AtLineEnd(s: string, pos: nat) {
    pos == |s| || (pos + 1 == |s| && s[pos] == '\n')
  }

  // A program at work on a subject.
  datatype Machine = Machine(p: Program, classes: ClassTable, s: string)

  // One step of a thread; `Split` is the only instruction with two.
  predicate Step(vm: Machine, a: Thread, b: Thread) {
    && 0 <= a.pc < |vm.p|
    && match vm.p[a.pc]
       case Split(x, y) => b.pos == a.pos && (b.pc == a.pc + x || b.pc == a.pc + y)
       case Jump(x) => b == Thread(a.pc + x, a.pos)
       case LineStart => a.pos == 0 && b == Thread(a.pc + 1, a.pos)
       case LineEnd => AtLineEnd(vm.s, a.pos) && b == Thread(a.pc + 1, a.pos)
       case Match => false
       case i => a.pos < |vm.s| && Consumes(i, vm.classes, vm.s[a.pos]) && b == Thread(a.pc + 1, a.pos + 1)
  }

  ghost predicate ReachIn(vm: Machine, a: Thread, b: Thread, n: nat)
    decreases n
  {
    if n == 0 then a == b
    else exists c :: Step(vm, a, c) && ReachIn(vm, c, b, n - 1)
  }

  ghost predicate Reach(vm: Machine, a: Thread, b: Thread) {
    exists n: nat :: ReachIn(vm, a, b, n)
  }

  predicate IsMatch(vm: Machine, a: Thread) {
    0 <= a.pc < |vm.p| && vm.p[a.pc].Match?
  }

  // Some thread started at the top of the program, anywhere in the subject, arrives at `Match`.
  ghost predicate Accepts(vm: Machine) {
    exists start: nat, b :: start <= |vm.s| && Reach(vm, Thread(0, start), b) && IsMatch(vm, b)
  }

  // Every jump lands inside the program, every class index inside the table, and nothing but
  // `Match` can run off the end.
  predicate WellFormed(p: Program, classes: ClassTable) {
    && |p| > 0
    && forall k :: 0 <= k < |p| ==>
       match p[k]
       case Split(x, y) => 0 <= k + x < |p| && 0 <= k + y < |p|
       case Jump(x) => 0 <= k + x < |p|
       case Class(index) => index < |classes| && k + 1 < |p|
       case Match => true
       case _ => k + 1 < |p|
  }

  // ---------------------------------------------------------------- translation

  function LetterSet(letter: char): (r: set<char>)
    ensures forall c :: c in r <==> LetterHas(letter, c)
  {
    set c: char | LetterHas(letter, c)
  }

  function ClassSet(negated: bool, items: seq<ClassItem>): (r: set<char>)
    ensures forall c :: c in r <==> ClassHas(negated, items, c)
  {
    set c: char | ClassHas(negated, items, c)
  }

  // The class table a tree needs, in the order its classes are read.
  function ClassSets(t: Re): ClassTable {
    match t
    case Shorthand(l) => [LetterSet(l)]
    case Bracket(neg, items) => [ClassSet(neg, items)]
    case Group(inner) => ClassSets(inner)
    case Star(b) => ClassSets(b)
    case Plus(b) => ClassSets(b)
    case Opt(b) => ClassSets(b)
    case Cat(l, r) => ClassSets(l) + ClassSets(r)
    case Alt(l, r) => ClassSets(l) + ClassSets(r)
    case _ => []
  }

  // `base` classes have been read before `t`.
  function Emit(t: Re, base: nat): Program {
    match t
    case Empty => []
    case Lit(c, _) => [Char(c)]
    case Dot => [Any]
    case Shorthand(_) => [Class(base)]
    case Bracket(_, _) => [Class(base)]
    case Begin => [LineStart]
    case End => [LineEnd]
    case Group(inner) => Emit(inner, base)
    case Star(b) => var f := Emit(b, base); [Split(1, |f| + 2)] + f + [Jump(-(|f| + 1))]
    case Plus(b) => var f := Emit(b, base); f + [Split(-|f|, 1)]
    case Opt(b) => var f := Emit(b, base); [Split(1, |f| + 1)] + f
    case Cat(l, r) => Emit(l, base) + Emit(r, base + |ClassSets(l)|)
    case Alt(l, r) =>
      var f, g := Emit(l, base), Emit(r, base + |ClassSets(l)|);
      [Split(1, |f| + 2)] + f + [Jump(|g| + 1)] + g
  }

  function Compiled(t: Re): Program {
    Emit(t, 0) + [Match]
  }

  // A program holds at most two instructions for each character of its pattern, and the `Match`.
  lemma {:induction false} EmitLength(t: Re, base: nat)
    ensures |Emit(t, base)| <= 2 * |Text(t)|
  {
    match t
    case Group(inner) => EmitLength(inner, base);
    case Star(b) => EmitLength(b, base);
    case Plus(b) => EmitLength(b, base);
    case Opt(b) => EmitLength(b, base);
    case Cat(l, r) => EmitLength(l, base); EmitLength(r, base + |ClassSets(l)|);
    case Alt(l, r) => EmitLength(l, base); EmitLength(r, base + |ClassSets(l)|);
    case _ =>
  }

  // ---------------------------------------------------------------- paths

  lemma {:induction false} ReachTransIn(vm: Machine, a: Thread, b: Thread, c: Thread, m: nat, n: nat)
    requires ReachIn(vm, a, b, m) && ReachIn(vm, b, c, n)
    ensures ReachIn(vm, a, c, m + n)
    decreases m
  {
    if m > 0 {
      var d :| Step(vm, a, d) && ReachIn(vm, d, b, m - 1);
      ReachTransIn(vm, d, b, c, m - 1, n);
    }
  }

  lemma ReachTrans(vm: Machine, a: Thread, b: Thread, c: Thread)
    requires Reach(vm, a, b) && Reach(vm, b, c)
    ensures Reach(vm, a, c)
  {
    var m: nat :| ReachIn(vm, a, b, m);
    var n: nat :| ReachIn(vm, b, c, n);
    ReachTransIn(vm, a, b, c, m, n);
  }

  lemma ReachSelf(vm: Machine, a: Thread)
    ensures Reach(vm, a, a)
  {
    assert ReachIn(vm, a, a, 0);
  }

  lemma ReachStep(vm: Machine, a: Thread, b: Thread)
    requires Step(vm, a, b)
    ensures Reach(vm, a, b)
  {
    assert ReachIn(vm, b, b, 0);
    assert ReachIn(vm, a, b, 1);
  }

  // ---------------------------------------------------------------- fragments in place

  // `Emit(t, base)` stands at `o` in the program, and the classes it refers to stand in the table.
  predicate Placed(vm: Machine, o: nat, t: Re, base: nat) {
    At(vm.p, o, Emit(t, base)) && At(vm.classes, base, ClassSets(t))
  }

  lemma PlacedStar(vm: Machine, o: nat, t: Re, base: nat)
    requires t.Star? && Placed(vm, o, t, base)
    ensures var n := |Emit(t.body, base)|;
            && |Emit(t, base)| == n + 2 && o + n + 1 < |vm.p|
            && vm.p[o] == Split(1, n + 2) && Placed(vm, o + 1, t.body, base) && vm.p[o + 1 + n] == Jump(-(n + 1))
  {
    hide At;
    var f := Emit(t.body, base);
    var split, jump := [Split(1, |f| + 2)], [Jump(-(|f| + 1))];
    AtConcat(vm.p, o, split + f, jump);
    AtConcat(vm.p, o, split, f);
    AtStart(vm.p, o, split);
    AtStart(vm.p, o + 1 + |f|, jump);
  }

  lemma PlacedPlus(vm: Machine, o: nat, t: Re, base: nat)
    requires t.Plus? && Placed(vm, o, t, base)
    ensures var n := |Emit(t.body, base)|;
            && |Emit(t, base)| == n + 1 && o + n < |vm.p|
            && Placed(vm, o, t.body, base) && vm.p[o + n] == Split(-n, 1)
  {
    hide At;
    var f := Emit(t.body, base);
    AtConcat(vm.p, o, f, [Split(-|f|, 1)]);
    AtStart(vm.p, o + |f|, [Split(-|f|, 1)]);
  }

  lemma PlacedOpt(vm: Machine, o: nat, t: Re, base: nat)
    requires t.Opt? && Placed(vm, o, t, base)
    ensures var n := |Emit(t.body, base)|;
            && |Emit(t, base)| == n + 1 && o + n < |vm.p|
            && vm.p[o] == Split(1, n + 1) && Placed(vm, o + 1, t.body, base)
  {
    hide At;
    var f := Emit(t.body, base);
    AtConcat(vm.p, o, [Split(1, |f| + 1)], f);
    AtLength(vm.p, o, [Split(1, |f| + 1)] + f);
    AtStart(vm.p, o, [Split(1, |f| + 1)]);
  }

  lemma PlacedCat(vm: Machine, o: nat, t: Re, base: nat)
    requires t.Cat? && Placed(vm, o, t, base)
    ensures |Emit(t, base)| == |Emit(t.left, base)| + |Emit(t.right, base + |ClassSets(t.left)|)|
    ensures Placed(vm, o, t.left, base)
    ensures Placed(vm, o + |Emit(t.left, base)|, t.right, base + |ClassSets(t.left)|)
  {
    hide At;
    AtConcat(vm.p, o, Emit(t.left, base), Emit(t.right, base + |ClassSets(t.left)|));
    AtConcat(vm.classes, base, ClassSets(t.left), ClassSets(t.right));
  }

  lemma AtBranches(p: Program, o: nat, x: Instruction, f: Program, y: Instruction, g: Program)
    requires At(p, o, [x] + f + [y] + g)
    ensures o + |f| + |g| + 2 <= |p| && p[o] == x && p[o + 1 + |f|] == y
    ensures At(p, o + 1, f) && At(p, o + |f| + 2, g)
  {
    hide At;
    AtLength(p, o, [x] + f + [y] + g);
    AtConcat(p, o, [x] + f + [y], g);
    AtConcat(p, o, [x] + f, [y]);
    AtConcat(p, o, [x], f);
    AtStart(p, o, [x]);
    AtStart(p, o + 1 + |f|, [y]);
  }

  lemma PlacedAlt(vm: Machine, o: nat, t: Re, base: nat)
    requires t.Alt? && Placed(vm, o, t, base)
    ensures
      var b' := base + |ClassSets(t.left)|;
      var m, n := |Emit(t.left, base)|, |Emit(t.right, b')|;
      && |Emit(t, base)| == m + n + 2 && o + m + n + 2 <= |vm.p|
      && vm.p[o] == Split(1, m + 2) && Placed(vm, o + 1, t.left, base)
      && vm.p[o + 1 + m] == Jump(n + 1) && Placed(vm, o + m + 2, t.right, b')
  {
    hide At;
    var f, g := Emit(t.left, base), Emit(t.right, base + |ClassSets(t.left)|);
    assert Emit(t, base) == [Split(1, |f| + 2)] + f + [Jump(|g| + 1)] + g;
    assert ClassSets(t) == ClassSets(t.left) + ClassSets(t.right);
    hide Emit, ClassSets;
    AtBranches(vm.p, o, Split(1, |f| + 2), f, Jump(|g| + 1), g);
    AtConcat(vm.classes, base, ClassSets(t.left), ClassSets(t.right));
  }

  lemma PlacedLeaf(vm: Machine, o: nat, t: Re, base: nat)
    requires Placed(vm, o, t, base)
    requires t.Lit? || t.Dot? || t.Shorthand? || t.Bracket? || t.Begin? || t.End?
    ensures |Emit(t, base)| == 1 && o < |vm.p| && vm.p[o] == Emit(t, base)[0]
    ensures t.Shorthand? || t.Bracket? ==> base < |vm.classes| && vm.classes[base] == ClassSets(t)[0]
  {
    hide At;
    AtStart(vm.p, o, Emit(t, base));
    if t.Shorthand? || t.Bracket? { AtStart(vm.classes, base, ClassSets(t)); }
  }

  // ---------------------------------------------------------------- every span can be walked

  lemma {:induction false} Forward(t: Re, base: nat, vm: Machine, o: nat, i: nat, j: nat)
    requires Placed(vm, o, t, base) && Spans(t, vm.s, i, j)
    ensures Reach(vm, Thread(o, i), Thread(o + |Emit(t, base)|, j))
    decreases t, 1
  {
    hide Emit, Placed, ClassSets, Reach;
    if t.Empty? {
      EmitEmpty(t, base);
      ReachSelf(vm, Thread(o, i));
    } else if t.Group? {
      EmitGroup(vm, o, t, base);
      Forward(t.inner, base, vm, o, i, j);
    } else if t.Cat? {
      ForwardCat(t, base, vm, o, i, j);
    } else if t.Alt? {
      ForwardAlt(t, base, vm, o, i, j);
    } else if t.Opt? {
      ForwardOpt(t, base, vm, o, i, j);
    } else if t.Star? {
      var ks := LoopSpans(t, vm.s, i, j);
      ForwardStar(t, base, vm, o, ks);
    } else if t.Plus? {
      var ks := LoopSpans(t, vm.s, i, j);
      ForwardPlus(t, base, vm, o, ks);
    } else {
      ForwardLeaf(t, base, vm, o, i, j);
    }
  }

  lemma EmitEmpty(t: Re, base: nat)
    requires t.Empty?
    ensures Emit(t, base) == []
  {
  }

  lemma EmitGroup(vm: Machine, o: nat, t: Re, base: nat)
    requires t.Group?
    ensures Emit(t, base) == Emit(t.inner, base) && (Placed(vm, o, t, base) <==> Placed(vm, o, t.inner, base))
  {
  }

  lemma ForwardLeaf(t: Re, base: nat, vm: Machine, o: nat, i: nat, j: nat)
    requires t.Lit? || t.Dot? || t.Shorthand? || t.Bracket? || t.Begin? || t.End?
    requires Placed(vm, o, t, base) && Spans(t, vm.s, i, j)
    ensures Reach(vm, Thread(o, i), Thread(o + |Emit(t, base)|, j))
  {
    PlacedLeaf(vm, o, t, base);
    hide Placed;
    ReachStep(vm, Thread(o, i), Thread(o + 1, j));
  }

  lemma {:induction false} ForwardOpt(t: Re, base: nat, vm: Machine, o: nat, i: nat, j: nat)
    requires t.Opt? && Placed(vm, o, t, base) && Spans(t, vm.s, i, j)
    ensures Reach(vm, Thread(o, i), Thread(o + |Emit(t, base)|, j))
    decreases t, 0
  {
    hide Emit, Placed, ClassSets, Reach;
    PlacedOpt(vm, o, t, base);
    var a, z := Thread(o, i), Thread(o + |Emit(t, base)|, j);
    if i == j {
      ReachStep(vm, a, z);
    } else {
      Forward(t.body, base, vm, o + 1, i, j);
      ReachStep(vm, a, Thread(o + 1, i));
      ReachTrans(vm, a, Thread(o + 1, i), z);
    }
  }

  lemma {:induction false} ForwardCat(t: Re, base: nat, vm: Machine, o: nat, i: nat, j: nat)
    requires t.Cat? && Placed(vm, o, t, base) && Spans(t, vm.s, i, j)
    ensures Reach(vm, Thread(o, i), Thread(o + |Emit(t, base)|, j))
    decreases t, 0
  {
    hide Emit, Placed, ClassSets, Reach;
    PlacedCat(vm, o, t, base);
    var k: nat :| Spans(t.left, vm.s, i, k) && Spans(t.right, vm.s, k, j);
    var m := o + |Emit(t.left, base)|;
    Forward(t.left, base, vm, o, i, k);
    Forward(t.right, base + |ClassSets(t.left)|, vm, m, k, j);
    ReachTrans(vm, Thread(o, i), Thread(m, k), Thread(o + |Emit(t, base)|, j));
  }

  lemma {:induction false} ForwardAlt(t: Re, base: nat, vm: Machine, o: nat, i: nat, j: nat)
    requires t.Alt? && Placed(vm, o, t, base) && Spans(t, vm.s, i, j)
    ensures Reach(vm, Thread(o, i), Thread(o + |Emit(t, base)|, j))
    decreases t, 0
  {
    hide Emit, Placed, ClassSets, Reach;
    var a, z := Thread(o, i), Thread(o + |Emit(t, base)|, j);
    PlacedAlt(vm, o, t, base);
    var m := |Emit(t.left, base)|;
    if Spans(t.left, vm.s, i, j) {
      Forward(t.left, base, vm, o + 1, i, j);
      ReachStep(vm, a, Thread(o + 1, i));
      ReachTrans(vm, a, Thread(o + 1, i), Thread(o + 1 + m, j));
      ReachStep(vm, Thread(o + 1 + m, j), z);
      ReachTrans(vm, a, Thread(o + 1 + m, j), z);
    } else {
      Forward(t.right, base + |ClassSets(t.left)|, vm, o + m + 2, i, j);
      ReachStep(vm, a, Thread(o + m + 2, i));
      ReachTrans(vm, a, Thread(o + m + 2, i), z);
    }
  }

  lemma {:induction false} ForwardStar(t: Re, base: nat, vm: Machine, o: nat, ks: seq<nat>)
    requires t.Star? && Placed(vm, o, t, base) && |ks| > 0 && Hops(t.body, vm.s, ks)
    ensures Reach(vm, Thread(o, ks[0]), Thread(o + |Emit(t, base)|, ks[|ks| - 1]))
    decreases t.body, 2, |ks|
  {
    hide Emit, Placed, ClassSets, Reach, Spans;
    PlacedStar(vm, o, t, base);
    var n := |Emit(t.body, base)|;
    var a, z := Thread(o, ks[0]), Thread(o + n + 2, ks[|ks| - 1]);
    if |ks| == 1 {
      ReachStep(vm, a, z);
    } else {
      var inside, back, again := Thread(o + 1, ks[0]), Thread(o + 1 + n, ks[1]), Thread(o, ks[1]);
      Forward(t.body, base, vm, o + 1, ks[0], ks[1]);
      ForwardStar(t, base, vm, o, ks[1..]);
      ReachStep(vm, a, inside);
      ReachTrans(vm, a, inside, back);
      ReachStep(vm, back, again);
      ReachTrans(vm, a, back, again);
      ReachTrans(vm, a, again, z);
    }
  }

  lemma {:induction false} ForwardPlus(t: Re, base: nat, vm: Machine, o: nat, ks: seq<nat>)
    requires t.Plus? && Placed(vm, o, t, base) && |ks| > 1 && Hops(t.body, vm.s, ks)
    ensures Reach(vm, Thread(o, ks[0]), Thread(o + |Emit(t, base)|, ks[|ks| - 1]))
    decreases t.body, 2, |ks|
  {
    hide Emit, Placed, ClassSets, Reach, Spans;
    PlacedPlus(vm, o, t, base);
    var n := |Emit(t.body, base)|;
    var a, split, z := Thread(o, ks[0]), Thread(o + n, ks[1]), Thread(o + n + 1, ks[|ks| - 1]);
    Forward(t.body, base, vm, o, ks[0], ks[1]);
    if |ks| == 2 {
      ReachStep(vm, split, z);
    } else {
      ForwardPlus(t, base, vm, o, ks[1..]);
      ReachStep(vm, split, Thread(o, ks[1]));
      ReachTrans(vm, split, Thread(o, ks[1]), z);
    }
    ReachTrans(vm, a, split, z);
  }

  // ---------------------------------------------------------------- every walk is a span

  predicate Outside(z: Thread, o: nat, n: nat) {
    z.pc < o || z.pc >= o + n
  }

  lemma LeaveSplit(vm: Machine, a: Thread, z: Thread, n: nat)
    requires 0 <= a.pc < |vm.p| && vm.p[a.pc].Split? && a.pc != z.pc && ReachIn(vm, a, z, n)
    ensures n > 0
    ensures
      || ReachIn(vm, Thread(a.pc + vm.p[a.pc].x, a.pos), z, n - 1)
      || ReachIn(vm, Thread(a.pc + vm.p[a.pc].y, a.pos), z, n - 1)
  {
  }

  lemma LeaveJump(vm: Machine, a: Thread, z: Thread, n: nat)
    requires 0 <= a.pc < |vm.p| && vm.p[a.pc].Jump? && a.pc != z.pc && ReachIn(vm, a, z, n)
    ensures n > 0 && ReachIn(vm, Thread(a.pc + vm.p[a.pc].x, a.pos), z, n - 1)
  {
  }

  lemma LeaveLeaf(t: Re, base: nat, vm: Machine, o: nat, i: nat, z: Thread, n: nat)
    returns (j: nat)
    requires Placed(vm, o, t, base) && ReachIn(vm, Thread(o, i), z, n)
    requires Outside(z, o, |Emit(t, base)|)
    requires t.Lit? || t.Dot? || t.Shorthand? || t.Bracket? || t.Begin? || t.End?
    ensures n > 0 && Spans(t, vm.s, i, j) && |Emit(t, base)| == 1
    ensures ReachIn(vm, Thread(o + 1, j), z, n - 1)
  {
    PlacedLeaf(vm, o, t, base);
    var b :| Step(vm, Thread(o, i), b) && ReachIn(vm, b, z, n - 1);
    j := b.pos;
  }

  // A walk from the top of a fragment to somewhere outside it passes its end, and the part inside
  // is a span of the fragment's tree.
  lemma {:induction false} Backward(t: Re, base: nat, vm: Machine, o: nat, i: nat, z: Thread, n: nat)
    returns (j: nat, m: nat)
    requires Placed(vm, o, t, base) && ReachIn(vm, Thread(o, i), z, n)
    requires Outside(z, o, |Emit(t, base)|)
    ensures m <= n && Spans(t, vm.s, i, j)
    ensures ReachIn(vm, Thread(o + |Emit(t, base)|, j), z, m)
    decreases t, n, 1
  {
    hide Emit, Placed, ClassSets, ReachIn;
    if t.Empty? {
      EmitEmpty(t, base);
      j, m := i, n;
    } else if t.Group? {
      EmitGroup(vm, o, t, base);
      j, m := Backward(t.inner, base, vm, o, i, z, n);
    } else if t.Cat? {
      PlacedCat(vm, o, t, base);
      var k, m' := Backward(t.left, base, vm, o, i, z, n);
      j, m := Backward(t.right, base + |ClassSets(t.left)|, vm, o + |Emit(t.left, base)|, k, z, m');
    } else if t.Alt? {
      j, m := BackwardAlt(t, base, vm, o, i, z, n);
    } else if t.Star? {
      j, m := BackwardStar(t, base, vm, o, i, z, n);
    } else if t.Plus? {
      j, m := BackwardPlus(t, base, vm, o, i, z, n);
    } else if t.Opt? {
      j, m := BackwardOpt(t, base, vm, o, i, z, n);
    } else {
      j := LeaveLeaf(t, base, vm, o, i, z, n);
      m := n - 1;
    }
  }

  lemma {:induction false} BackwardOpt(t: Re, base: nat, vm: Machine, o: nat, i: nat, z: Thread, n: nat)
    returns (j: nat, m: nat)
    requires t.Opt? && Placed(vm, o, t, base) && ReachIn(vm, Thread(o, i), z, n)
    requires Outside(z, o, |Emit(t, base)|)
    ensures m <= n && Spans(t, vm.s, i, j)
    ensures ReachIn(vm, Thread(o + |Emit(t, base)|, j), z, m)
    decreases t, n, 0
  {
    hide Emit, Placed, ClassSets, ReachIn;
    PlacedOpt(vm, o, t, base);
    LeaveSplit(vm, Thread(o, i), z, n);
    if ReachIn(vm, Thread(o + 1, i), z, n - 1) {
      j, m := Backward(t.body, base, vm, o + 1, i, z, n - 1);
    } else {
      j, m := i, n - 1;
    }
  }

  lemma SpansBranch(t: Re, s: string, i: nat, j: nat)
    requires t.Alt? && (Spans(t.left, s, i, j) || Spans(t.right, s, i, j))
    ensures Spans(t, s, i, j)
  {
  }

  lemma {:induction false} BackwardAlt(t: Re, base: nat, vm: Machine, o: nat, i: nat, z: Thread, n: nat)
    returns (j: nat, m: nat)
    requires t.Alt? && Placed(vm, o, t, base) && ReachIn(vm, Thread(o, i), z, n)
    requires Outside(z, o, |Emit(t, base)|)
    ensures m <= n && Spans(t, vm.s, i, j)
    ensures ReachIn(vm, Thread(o + |Emit(t, base)|, j), z, m)
    decreases t, n, 0
  {
    hide Emit, Placed, ClassSets, ReachIn, Spans, Chain;
    PlacedAlt(vm, o, t, base);
    var f := |Emit(t.left, base)|;
    LeaveSplit(vm, Thread(o, i), z, n);
    if ReachIn(vm, Thread(o + 1, i), z, n - 1) {
      j, m := BackwardLeft(t, base, vm, o, i, z, n - 1);
    } else {
      j, m := Backward(t.right, base + |ClassSets(t.left)|, vm, o + f + 2, i, z, n - 1);
    }
    SpansBranch(t, vm.s, i, j);
  }

  // Through the left branch and over the right one.
  lemma {:induction false} BackwardLeft(t: Re, base: nat, vm: Machine, o: nat, i: nat, z: Thread, n: nat)
    returns (j: nat, m: nat)
    requires t.Alt? && Placed(vm, o, t, base) && ReachIn(vm, Thread(o + 1, i), z, n)
    requires Outside(z, o, |Emit(t, base)|)
    ensures m <= n && Spans(t.left, vm.s, i, j)
    ensures ReachIn(vm, Thread(o + |Emit(t, base)|, j), z, m)
    decreases t, n, 0
  {
    hide Emit, Placed, ClassSets, ReachIn, Spans, Chain;
    PlacedAlt(vm, o, t, base);
    var f := |Emit(t.left, base)|;
    var k, m' := Backward(t.left, base, vm, o + 1, i, z, n);
    LeaveJump(vm, Thread(o + 1 + f, k), z, m');
    j, m := k, m' - 1;
  }

  lemma SpansLoop(t: Re, s: string, i: nat, j: nat, ks: seq<nat>)
    requires t.Star? || (t.Plus? && |ks| > 1)
    requires Chain(t.body, s, ks, i, j)
    ensures Spans(t, s, i, j)
  {
  }

  lemma LoopSpans(t: Re, s: string, i: nat, j: nat) returns (ks: seq<nat>)
    requires (t.Star? || t.Plus?) && Spans(t, s, i, j)
    ensures Chain(t.body, s, ks, i, j) && (t.Plus? ==> |ks| > 1)
  {
    if t.Star? {
      ks :| Chain(t.body, s, ks, i, j);
    } else {
      ks :| |ks| > 1 && Chain(t.body, s, ks, i, j);
    }
  }

  lemma ChainNil(body: Re, s: string, i: nat)
    ensures Chain(body, s, [i], i, i)
  {
  }

  lemma ChainCons(body: Re, s: string, i: nat, k: nat, ks: seq<nat>, j: nat)
    requires Spans(body, s, i, k) && Chain(body, s, ks, k, j)
    ensures Chain(body, s, [i] + ks, i, j)
  {
    var all := [i] + ks;
    forall m: nat | m + 1 < |all| ensures Spans(body, s, all[m], all[m + 1]) {
      if m > 0 { assert all[m] == ks[m - 1] && all[m + 1] == ks[m]; }
    }
  }

  lemma {:induction false} BackwardStar(t: Re, base: nat, vm: Machine, o: nat, i: nat, z: Thread, n: nat)
    returns (j: nat, m: nat)
    requires t.Star? && Placed(vm, o, t, base) && ReachIn(vm, Thread(o, i), z, n)
    requires Outside(z, o, |Emit(t, base)|)
    ensures m <= n && Spans(t, vm.s, i, j)
    ensures ReachIn(vm, Thread(o + |Emit(t, base)|, j), z, m)
    decreases t, n, 0
  {
    hide Emit, Placed, ClassSets, ReachIn, Spans, Chain;
    PlacedStar(vm, o, t, base);
    var f := |Emit(t.body, base)|;
    LeaveSplit(vm, Thread(o, i), z, n);
    if ReachIn(vm, Thread(o + 1, i), z, n - 1) {
      var k, m' := Backward(t.body, base, vm, o + 1, i, z, n - 1);
      LeaveJump(vm, Thread(o + 1 + f, k), z, m');
      j, m := BackwardStar(t, base, vm, o, k, z, m' - 1);
      var ks := LoopSpans(t, vm.s, k, j);
      ChainCons(t.body, vm.s, i, k, ks, j);
      SpansLoop(t, vm.s, i, j, [i] + ks);
    } else {
      j, m := i, n - 1;
      ChainNil(t.body, vm.s, i);
      SpansLoop(t, vm.s, i, j, [i]);
    }
  }

  lemma {:induction false} BackwardPlus(t: Re, base: nat, vm: Machine, o: nat, i: nat, z: Thread, n: nat)
    returns (j: nat, m: nat)
    requires t.Plus? && Placed(vm, o, t, base) && ReachIn(vm, Thread(o, i), z, n)
    requires Outside(z, o, |Emit(t, base)|)
    ensures m <= n && Spans(t, vm.s, i, j)
    ensures ReachIn(vm, Thread(o + |Emit(t, base)|, j), z, m)
    decreases t, n, 0
  {
    hide Emit, Placed, ClassSets, ReachIn, Spans, Chain;
    PlacedPlus(vm, o, t, base);
    var f := |Emit(t.body, base)|;
    var k, m' := Backward(t.body, base, vm, o, i, z, n);
    LeaveSplit(vm, Thread(o + f, k), z, m');
    if ReachIn(vm, Thread(o, k), z, m' - 1) {
      j, m := BackwardPlus(t, base, vm, o, k, z, m' - 1);
      var ks := LoopSpans(t, vm.s, k, j);
      ChainCons(t.body, vm.s, i, k, ks, j);
      SpansLoop(t, vm.s, i, j, [i] + ks);
    } else {
      j, m := k, m' - 1;
      ChainNil(t.body, vm.s, k);
      ChainCons(t.body, vm.s, i, k, [k], k);
      SpansLoop(t, vm.s, i, j, [i] + [k]);
    }
  }

  // ---------------------------------------------------------------- compiler correctness

  lemma WholePlaced(vm: Machine, t: Re)
    requires vm.p == Compiled(t) && vm.classes == ClassSets(t)
    ensures Placed(vm, 0, t, 0)
    ensures forall a: Thread :: IsMatch(vm, a) <==> a.pc == |Emit(t, 0)|
  {
    EmitNoMatch(t, 0);
  }

  // A compiled program accepts a subject exactly when some span of it is in the denotation.
  lemma CompiledCorrect(t: Re, s: string)
    ensures Accepts(Machine(Compiled(t), ClassSets(t), s)) <==> Matches(t, s)
  {
    var vm := Machine(Compiled(t), ClassSets(t), s);
    var n := |Emit(t, 0)|;
    WholePlaced(vm, t);
    hide Emit, Placed, ClassSets, ReachIn, Spans, Compiled, IsMatch;
    if Matches(t, s) {
      var i: nat, j: nat :| i <= |s| && Spans(t, s, i, j);
      Forward(t, 0, vm, 0, i, j);
      assert IsMatch(vm, Thread(n, j));
    }
    if Accepts(vm) {
      var i: nat, z :| i <= |s| && Reach(vm, Thread(0, i), z) && IsMatch(vm, z);
      var k: nat :| ReachIn(vm, Thread(0, i), z, k);
      var j, m := Backward(t, 0, vm, 0, i, z, k);
    }
  }

  lemma {:induction false} EmitNoMatch(t: Re, base: nat)
    ensures forall k :: 0 <= k < |Emit(t, base)| ==> !Emit(t, base)[k].Match?
  {
    match t
    case Group(inner) => EmitNoMatch(inner, base);
    case Star(b) => EmitNoMatch(b, base);
    case Plus(b) => EmitNoMatch(b, base);
    case Opt(b) => EmitNoMatch(b, base);
    case Cat(l, r) => EmitNoMatch(l, base); EmitNoMatch(r, base + |ClassSets(l)|);
    case Alt(l, r) => EmitNoMatch(l, base); EmitNoMatch(r, base + |ClassSets(l)|);
    case _ =>
  }

  // ---------------------------------------------------------------- jumps stay inside

  // The instructions `f`, standing at `o` in a fragment of length `n`, jump to places in that
  // fragment or just past it, and their classes lie below `limit`.
  predicate Closed(f: Program, o: nat, n: nat, limit: nat) {
    forall k :: 0 <= k < |f| ==> InstructionClosed(f[k], o + k, n, limit)
  }

  predicate InstructionClosed(i: Instruction, k: int, n: int, limit: nat) {
    match i
    case Split(x, y) => 0 <= k + x <= n && 0 <= k + y <= n
    case Jump(x) => 0 <= k + x <= n
    case Class(index) => index < limit
    case Match => false
    case _ => true
  }

  lemma ClosedWiden(f: Program, below: nat, o: nat, n: nat, limit: nat)
    requires Closed(f, 0, |f|, below) && o + |f| <= n && below <= limit
    ensures Closed(f, o, n, limit)
  {
    assert forall k :: 0 <= k < |f| ==> InstructionClosed(f[k], 0 + k, |f|, below);
  }

  lemma ClosedConcat(f: Program, g: Program, o: nat, n: nat, limit: nat)
    requires Closed(f, o, n, limit) && Closed(g, o + |f|, n, limit)
    ensures Closed(f + g, o, n, limit)
  {
    forall k | 0 <= k < |f + g| ensures InstructionClosed((f + g)[k], o + k, n, limit) {
      if k >= |f| { assert InstructionClosed(g[k - |f|], o + |f| + (k - |f|), n, limit); }
    }
  }

  lemma {:induction false} EmitClosed(t: Re, base: nat)
    ensures Closed(Emit(t, base), 0, |Emit(t, base)|, base + |ClassSets(t)|)
  {
    hide Closed, Emit, ClassSets;
    if t.Star? || t.Plus? || t.Opt? {
      EmitClosed(t.body, base);
      ClosedLoop(t, base);
    } else if t.Cat? || t.Alt? {
      EmitClosed(t.left, base);
      EmitClosed(t.right, base + |ClassSets(t.left)|);
      ClosedBoth(t, base);
    } else {
      if t.Group? { EmitClosed(t.inner, base); }
      ClosedLeaf(t, base);
    }
  }

  lemma ClosedLoop(t: Re, base: nat)
    requires t.Star? || t.Plus? || t.Opt?
    requires Closed(Emit(t.body, base), 0, |Emit(t.body, base)|, base + |ClassSets(t.body)|)
    ensures Closed(Emit(t, base), 0, |Emit(t, base)|, base + |ClassSets(t)|)
  {
    var f, n, limit := Emit(t.body, base), |Emit(t, base)|, base + |ClassSets(t)|;
    hide Closed;
    ClosedWiden(f, limit, if t.Plus? then 0 else 1, n, limit);
    if t.Plus? {
      ClosedOne(Split(-|f|, 1), |f|, n, limit);
      ClosedConcat(f, [Split(-|f|, 1)], 0, n, limit);
    } else if t.Opt? {
      ClosedOne(Split(1, |f| + 1), 0, n, limit);
      ClosedConcat([Split(1, |f| + 1)], f, 0, n, limit);
    } else {
      ClosedOne(Split(1, |f| + 2), 0, n, limit);
      ClosedOne(Jump(-(|f| + 1)), |f| + 1, n, limit);
      ClosedConcat([Split(1, |f| + 2)], f, 0, n, limit);
      ClosedConcat([Split(1, |f| + 2)] + f, [Jump(-(|f| + 1))], 0, n, limit);
    }
  }

  lemma ClosedOne(i: Instruction, o: nat, n: nat, limit: nat)
    requires InstructionClosed(i, o, n, limit)
    ensures Closed([i], o, n, limit)
  {
  }

  lemma ClosedLeaf(t: Re, base: nat)
    requires !t.Star? && !t.Plus? && !t.Opt? && !t.Cat? && !t.Alt?
    requires t.Group? ==> Closed(Emit(t.inner, base), 0, |Emit(t.inner, base)|, base + |ClassSets(t.inner)|)
    ensures Closed(Emit(t, base), 0, |Emit(t, base)|, base + |ClassSets(t)|)
  {
    if !t.Group? && !t.Empty? {
      ClosedOne(Emit(t, base)[0], 0, 1, base + |ClassSets(t)|);
    }
  }

  lemma ClosedBoth(t: Re, base: nat)
    requires t.Cat? || t.Alt?
    requires Closed(Emit(t.left, base), 0, |Emit(t.left, base)|, base + |ClassSets(t.left)|)
    requires
      var b' := base + |ClassSets(t.left)|;
      Closed(Emit(t.right, b'), 0, |Emit(t.right, b')|, b' + |ClassSets(t.right)|)
    ensures Closed(Emit(t, base), 0, |Emit(t, base)|, base + |ClassSets(t)|)
  {
    var b' := base + |ClassSets(t.left)|;
    var f, g := Emit(t.left, base), Emit(t.right, b');
    var n, limit := |Emit(t, base)|, base + |ClassSets(t)|;
    assert b' <= limit == b' + |ClassSets(t.right)|;
    hide ClassSets, Closed;
    if t.Cat? {
      ClosedWiden(f, b', 0, n, limit);
      ClosedWiden(g, limit, |f|, n, limit);
      ClosedConcat(f, g, 0, n, limit);
    } else {
      ClosedWiden(f, b', 1, n, limit);
      ClosedWiden(g, limit, |f| + 2, n, limit);
      ClosedGlue(f, g, limit);
    }
  }

  // The two instructions an alternation adds to its branches.
  lemma ClosedGlue(f: Program, g: Program, limit: nat)
    requires var n := |f| + |g| + 2; Closed(f, 1, n, limit) && Closed(g, |f| + 2, n, limit)
    ensures Closed([Split(1, |f| + 2)] + f + [Jump(|g| + 1)] + g, 0, |f| + |g| + 2, limit)
  {
    var n := |f| + |g| + 2;
    var split, jump := [Split(1, |f| + 2)], [Jump(|g| + 1)];
    assert Closed(split, 0, n, limit) && Closed(jump, |f| + 1, n, limit);
    hide Closed;
    ClosedConcat(split, f, 0, n, limit);
    ClosedConcat(split + f, jump, 0, n, limit);
    ClosedConcat(split + f + jump, g, 0, n, limit);
  }

  lemma CompiledWellFormed(t: Re)
    ensures WellFormed(Compiled(t), ClassSets(t))
    ensures |Compiled(t)| <= 2 * |Text(t)| + 1
  {
    EmitClosed(t, 0);
    EmitLength(t, 0);
    var f := Emit(t, 0);
    assert forall k :: 0 <= k < |f| ==> Compiled(t)[k] == f[k] && InstructionClosed(f[k], 0 + k, |f|, |ClassSets(t)|);
  }
}
