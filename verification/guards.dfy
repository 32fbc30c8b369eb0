/**
 Who owns an output when rules stand under conditionals. Both branches of a conditional are
 processed; a rule in a branch not taken still declares its outputs, under the guards it stands under.
 */
module Guards {
  import opened Sequences

  // `fixed` marks a conditional that reads no configuration: only the branch it takes is looked at.
  datatype Statement =
    | Rule(outputs: seq<nat>)
    | Conditional(fixed: bool, value: bool, thenBody: seq<Statement>, elseBody: seq<Statement>)
    | Other

  datatype Guard = Guard(condition: nat, polarity: bool)

  datatype Declaration = Declaration(output: nat, guards: seq<Guard>)

  type Valuation = nat -> bool

  ghost predicate Holds(v: Valuation, guards: seq<Guard>) {
    forall g :: g in guards ==> v(g.condition) == g.polarity
  }

  // ---------------------------------------------------------------- what a valuation would run

  // How many conditions a body makes.
  function Count(body: seq<Statement>): nat {
    if body == [] then 0 else CountOne(body[0]) + Count(body[1..])
  }

  function CountOne(s: Statement): nat {
    match s
    case Conditional(fixed, value, thenBody, elseBody) =>
      if fixed then Count(if value then thenBody else elseBody) else 1 + Count(thenBody) + Count(elseBody)
    case _ => 0
  }

  // The outputs of the rules that run when the conditions have these values. Conditions are numbered
  // as they are met.
  function Run(body: seq<Statement>, v: Valuation, next: nat): seq<nat> {
    if body == [] then [] else RunOne(body[0], v, next) + Run(body[1..], v, next + CountOne(body[0]))
  }

  function RunOne(s: Statement, v: Valuation, next: nat): seq<nat> {
    match s
    case Rule(outputs) => outputs
    case Conditional(fixed, value, thenBody, elseBody) =>
      if fixed then Run(if value then thenBody else elseBody, v, next)
      else if v(next) then Run(thenBody, v, next + 1)
      else Run(elseBody, v, next + 1 + Count(thenBody))
    case Other => []
  }

  // ---------------------------------------------------------------- what is declared

  function Declare(outputs: seq<nat>, stack: seq<Guard>): (r: seq<Declaration>)
    ensures |r| == |outputs| && forall i :: 0 <= i < |r| ==> r[i] == Declaration(outputs[i], stack)
  {
    seq(|outputs|, i requires 0 <= i < |outputs| => Declaration(outputs[i], stack))
  }

  // Every declaration, taken or not, with its guards.
  function Declared(body: seq<Statement>, stack: seq<Guard>, next: nat): seq<Declaration> {
    if body == [] then [] else DeclaredBy(body[0], stack, next) + Declared(body[1..], stack, next + CountOne(body[0]))
  }

  function DeclaredBy(s: Statement, stack: seq<Guard>, next: nat): seq<Declaration> {
    match s
    case Rule(outputs) => Declare(outputs, stack)
    case Conditional(fixed, value, thenBody, elseBody) =>
      if fixed then Declared(if value then thenBody else elseBody, stack, next)
      else Declared(thenBody, stack + [Guard(next, true)], next + 1)
           + Declared(elseBody, stack + [Guard(next, false)], next + 1 + Count(thenBody))
    case Other => []
  }

  // The value each condition has in this build, in the order they are met.
  function Values(body: seq<Statement>): (r: seq<bool>)
    ensures |r| == Count(body)
  {
    if body == [] then [] else ValuesOf(body[0]) + Values(body[1..])
  }

  function ValuesOf(s: Statement): (r: seq<bool>)
    ensures |r| == CountOne(s)
  {
    match s
    case Conditional(fixed, value, thenBody, elseBody) =>
      if fixed then Values(if value then thenBody else elseBody) else [value] + Values(thenBody) + Values(elseBody)
    case _ => []
  }

  // The outputs of the declarations whose guards hold.
  ghost function Satisfied(ds: seq<Declaration>, v: Valuation): seq<nat> {
    if ds == [] then []
    else Satisfied(ds[..|ds| - 1], v) + if Holds(v, ds[|ds| - 1].guards) then [ds[|ds| - 1].output] else []
  }

  lemma {:induction false} SatisfiedConcat(a: seq<Declaration>, b: seq<Declaration>, v: Valuation)
    ensures Satisfied(a + b, v) == Satisfied(a, v) + Satisfied(b, v)
    decreases |b|
  {
    if b == [] {
      assert a + b == a;
    } else {
      assert (a + b)[..|a + b| - 1] == a + b[..|b| - 1];
      SatisfiedConcat(a, b[..|b| - 1], v);
    }
  }

  lemma {:induction false} SatisfiedDeclare(outputs: seq<nat>, stack: seq<Guard>, v: Valuation)
    ensures Satisfied(Declare(outputs, stack), v) == if Holds(v, stack) then outputs else []
    decreases |outputs|
  {
    if outputs != [] {
      var front := outputs[..|outputs| - 1];
      SatisfiedDeclare(front, stack, v);
      assert Declare(outputs, stack)[..|outputs| - 1] == Declare(front, stack);
    }
  }

  lemma HoldsPush(v: Valuation, stack: seq<Guard>, g: Guard)
    ensures Holds(v, stack + [g]) <==> Holds(v, stack) && v(g.condition) == g.polarity
  {
    assert forall x :: x in stack + [g] <==> x in stack || x == g;
  }

  // What is declared and holds is what would run.
  lemma {:induction false} DeclaredIsRun(body: seq<Statement>, stack: seq<Guard>, v: Valuation, next: nat)
    ensures Satisfied(Declared(body, stack, next), v) == if Holds(v, stack) then Run(body, v, next) else []
    decreases body
  {
    hide Holds;
    if body != [] {
      DeclaredByIsRun(body[0], stack, v, next);
      DeclaredIsRun(body[1..], stack, v, next + CountOne(body[0]));
      SatisfiedConcat(DeclaredBy(body[0], stack, next), Declared(body[1..], stack, next + CountOne(body[0])), v);
    }
  }

  lemma {:induction false} DeclaredByIsRun(s: Statement, stack: seq<Guard>, v: Valuation, next: nat)
    ensures Satisfied(DeclaredBy(s, stack, next), v) == if Holds(v, stack) then RunOne(s, v, next) else []
    decreases s
  {
    hide Holds, Declared, Run, Satisfied, Declare, Count;
    if s.Rule? {
      SatisfiedDeclare(s.outputs, stack, v);
    } else if s.Conditional? {
      if s.fixed {
        DeclaredIsRun(if s.value then s.thenBody else s.elseBody, stack, v, next);
      } else {
        var yes, no := stack + [Guard(next, true)], stack + [Guard(next, false)];
        HoldsPush(v, stack, Guard(next, true));
        HoldsPush(v, stack, Guard(next, false));
        DeclaredIsRun(s.thenBody, yes, v, next + 1);
        DeclaredIsRun(s.elseBody, no, v, next + 1 + Count(s.thenBody));
        SatisfiedConcat(Declared(s.thenBody, yes, next + 1), Declared(s.elseBody, no, next + 1 + Count(s.thenBody)), v);
      }
    } else {
      NothingSatisfied(v);
    }
  }

  lemma NothingSatisfied(v: Valuation)
    ensures Satisfied([], v) == []
  {
  }

  // ---------------------------------------------------------------- telling guards apart

  // Where the two lists part for the first time, they part over one condition.
  function Exclusive(a: seq<Guard>, b: seq<Guard>): bool {
    if a == [] || b == [] then false
    else if a[0] != b[0] then a[0].condition == b[0].condition && a[0].polarity != b[0].polarity
    else Exclusive(a[1..], b[1..])
  }

  method AreGuardsMutuallyExclusive(a: seq<Guard>, b: seq<Guard>) returns (r: bool)
    ensures r == Exclusive(a, b)
  {
    if a == [] || b == [] { return false; }
    var n := if |a| < |b| then |a| else |b|;
    for i := 0 to n
      invariant Exclusive(a, b) == Exclusive(a[i..], b[i..])
    {
      if a[i] != b[i] {
        return a[i].condition == b[i].condition && a[i].polarity != b[i].polarity;
      }
      assert a[i..][1..] == a[i + 1..] && b[i..][1..] == b[i + 1..];
    }
    return false;
  }

  // Nothing satisfies both.
  lemma {:induction false} ExclusiveContradicts(a: seq<Guard>, b: seq<Guard>, v: Valuation)
    requires Exclusive(a, b)
    ensures !(Holds(v, a) && Holds(v, b))
    decreases |a|
  {
    if a[0] == b[0] {
      ExclusiveContradicts(a[1..], b[1..], v);
      assert Holds(v, a) ==> Holds(v, a[1..]);
      assert Holds(v, b) ==> Holds(v, b[1..]);
    } else {
      assert a[0] in a && b[0] in b;
    }
  }

  // Each condition stands in one place of the tree: the guards before it are always the same.
  ghost predicate Rooted(origin: seq<seq<Guard>>, guards: seq<Guard>) {
    forall i :: 0 <= i < |guards| ==> guards[i].condition < |origin| && origin[guards[i].condition] == guards[..i]
  }

  lemma {:induction false} SharedPrefix(a: seq<Guard>, b: seq<Guard>, i: nat)
    requires i < |a| && i < |b| && a[..i] == b[..i] && a[i].condition == b[i].condition &&
      a[i].polarity != b[i].polarity
    ensures Exclusive(a, b)
    decreases i
  {
    if i > 0 {
      assert a[0] == a[..i][0] == b[..i][0] == b[0];
      assert a[1..][..i - 1] == a[..i][1..] == b[..i][1..] == b[1..][..i - 1];
      SharedPrefix(a[1..], b[1..], i - 1);
    }
  }

  // Two guard lists from one tree that do not exclude each other can both hold.
  lemma NotExclusiveHolds(origin: seq<seq<Guard>>, a: seq<Guard>, b: seq<Guard>) returns (v: Valuation)
    requires Rooted(origin, a) && Rooted(origin, b) && !Exclusive(a, b)
    ensures Holds(v, a) && Holds(v, b)
  {
    v := (c: nat) => Guard(c, true) in a || Guard(c, true) in b;
    forall i, j | 0 <= i < |a| && 0 <= j < |b| && a[i].condition == b[j].condition
      ensures a[i].polarity == b[j].polarity {
      assert |origin[a[i].condition]| == i == j;
      if a[i].polarity != b[j].polarity { SharedPrefix(a, b, i); }
    }
    OneOfEach(origin, a);
    OneOfEach(origin, b);
    forall g | g in a ensures v(g.condition) == g.polarity {
      var i :| 0 <= i < |a| && a[i] == g;
      if Guard(g.condition, true) in b {
        var j :| 0 <= j < |b| && b[j] == Guard(g.condition, true);
      }
    }
    forall g | g in b ensures v(g.condition) == g.polarity {
      var j :| 0 <= j < |b| && b[j] == g;
      if Guard(g.condition, true) in a {
        var i :| 0 <= i < |a| && a[i] == Guard(g.condition, true);
      }
    }
  }

  lemma OneOfEach(origin: seq<seq<Guard>>, a: seq<Guard>)
    requires Rooted(origin, a)
    ensures forall g, h :: g in a && h in a && g.condition == h.condition ==> g == h
  {
    forall g, h | g in a && h in a && g.condition == h.condition ensures g == h {
      var i :| 0 <= i < |a| && a[i] == g;
      var j :| 0 <= j < |a| && a[j] == h;
      assert |origin[g.condition]| == i == j;
    }
  }

  // The guards under which each condition of a body stands, in the order the conditions are met.
  ghost function Origins(body: seq<Statement>, stack: seq<Guard>, next: nat): (r: seq<seq<Guard>>)
    ensures |r| == Count(body)
  {
    if body == [] then [] else OriginsOf(body[0], stack, next) + Origins(body[1..], stack, next + CountOne(body[0]))
  }

  ghost function OriginsOf(s: Statement, stack: seq<Guard>, next: nat): (r: seq<seq<Guard>>)
    ensures |r| == CountOne(s)
  {
    match s
    case Conditional(fixed, value, thenBody, elseBody) =>
      if fixed then Origins(if value then thenBody else elseBody, stack, next)
      else [stack] + Origins(thenBody, stack + [Guard(next, true)], next + 1)
           + Origins(elseBody, stack + [Guard(next, false)], next + 1 + Count(thenBody))
    case _ => []
  }

  ghost predicate Within(origin: seq<seq<Guard>>, next: nat, part: seq<seq<Guard>>) {
    next + |part| <= |origin| && origin[next..next + |part|] == part
  }

  lemma WithinParts(origin: seq<seq<Guard>>, next: nat, a: seq<seq<Guard>>, b: seq<seq<Guard>>)
    requires Within(origin, next, a + b)
    ensures Within(origin, next, a) && Within(origin, next + |a|, b)
  {
    var all := origin[next..next + |a + b|];
    assert origin[next..next + |a|] == all[..|a|] == a;
    assert origin[next + |a|..next + |a| + |b|] == all[|a|..] == b;
  }

  ghost predicate AllRooted(origin: seq<seq<Guard>>, ds: seq<Declaration>) {
    forall d :: d in ds ==> Rooted(origin, d.guards)
  }

  lemma RootedPush(origin: seq<seq<Guard>>, stack: seq<Guard>, c: nat, polarity: bool)
    requires Rooted(origin, stack) && c < |origin| && origin[c] == stack
    ensures Rooted(origin, stack + [Guard(c, polarity)])
  {
    var all := stack + [Guard(c, polarity)];
    forall i | 0 <= i < |all| ensures all[i].condition < |origin| && origin[all[i].condition] == all[..i] {
      if i < |stack| { assert all[..i] == stack[..i]; } else { assert all[..i] == stack; }
    }
  }

  lemma {:induction false} DeclaredRooted(body: seq<Statement>, stack: seq<Guard>, next: nat, origin: seq<seq<Guard>>)
    requires Rooted(origin, stack) && Within(origin, next, Origins(body, stack, next))
    ensures AllRooted(origin, Declared(body, stack, next))
    decreases body
  {
    hide Rooted, Within;
    if body != [] {
      var n := next + CountOne(body[0]);
      WithinParts(origin, next, OriginsOf(body[0], stack, next), Origins(body[1..], stack, n));
      DeclaredByRooted(body[0], stack, next, origin);
      DeclaredRooted(body[1..], stack, n, origin);
    }
  }

  lemma {:induction false} DeclaredByRooted(s: Statement, stack: seq<Guard>, next: nat, origin: seq<seq<Guard>>)
    requires Rooted(origin, stack) && Within(origin, next, OriginsOf(s, stack, next))
    ensures AllRooted(origin, DeclaredBy(s, stack, next))
    decreases s
  {
    hide Rooted, Within, Declared, Origins, Count;
    if s.Conditional? {
      if s.fixed {
        DeclaredRooted(if s.value then s.thenBody else s.elseBody, stack, next, origin);
      } else {
        var yes, no := stack + [Guard(next, true)], stack + [Guard(next, false)];
        var a, b := Origins(s.thenBody, yes, next + 1), Origins(s.elseBody, no, next + 1 + Count(s.thenBody));
        WithinParts(origin, next, [stack] + a, b);
        WithinParts(origin, next, [stack], a);
        WithinFirst(origin, next, stack);
        RootedPush(origin, stack, next, true);
        RootedPush(origin, stack, next, false);
        DeclaredRooted(s.thenBody, yes, next + 1, origin);
        DeclaredRooted(s.elseBody, no, next + 1 + Count(s.thenBody), origin);
      }
    }
  }

  lemma WithinFirst(origin: seq<seq<Guard>>, next: nat, stack: seq<Guard>)
    requires Within(origin, next, [stack])
    ensures next < |origin| && origin[next] == stack
  {
    assert origin[next..next + 1][0] == origin[next];
  }

  // ---------------------------------------------------------------- one owner for each output

  // Any two declarations of an output exclude each other.
  ghost predicate NoClash(ds: seq<Declaration>) {
    forall i, j :: 0 <= i < j < |ds| && ds[i].output == ds[j].output ==> Exclusive(ds[i].guards, ds[j].guards)
  }

  lemma {:induction false} SatisfiedHas(ds: seq<Declaration>, v: Valuation, o: nat)
    ensures o in Satisfied(ds, v) <==> exists i :: 0 <= i < |ds| && ds[i].output == o && Holds(v, ds[i].guards)
    decreases |ds|
  {
    hide Holds;
    if ds != [] {
      var front := ds[..|ds| - 1];
      SatisfiedHas(front, v, o);
      assert forall i :: 0 <= i < |front| ==> front[i] == ds[i];
    }
  }

  // No output twice among those that hold, exactly when no two that hold declare the same.
  lemma {:induction false} SatisfiedDistinct(ds: seq<Declaration>, v: Valuation)
    ensures Distinct(Satisfied(ds, v)) <==>
      forall i, j :: 0 <= i < j < |ds| && ds[i].output == ds[j].output ==>
        !(Holds(v, ds[i].guards) && Holds(v, ds[j].guards))
    decreases |ds|
  {
    hide Holds;
    if ds != [] {
      var front, last := ds[..|ds| - 1], ds[|ds| - 1];
      SatisfiedDistinct(front, v);
      SatisfiedHas(front, v, last.output);
      assert forall i :: 0 <= i < |front| ==> front[i] == ds[i];
      var before, after := Satisfied(front, v), Satisfied(ds, v);
      assert Distinct(after) <==> Distinct(before) && (Holds(v, last.guards) ==> last.output !in before) by {
        if Holds(v, last.guards) { DistinctLast(before, last.output); } else { assert after == before; }
      }
    }
  }

  lemma DistinctLast(s: seq<nat>, o: nat)
    ensures Distinct(s + [o]) <==> Distinct(s) && o !in s
  {
    var all := s + [o];
    if Distinct(all) {
      forall i, j | 0 <= i < j < |s| ensures s[i] != s[j] { assert all[i] != all[j]; }
      forall i | 0 <= i < |s| ensures s[i] != o { assert all[i] != all[|s|]; }
    }
  }

  // Declarations clash exactly when the conditions could take values that make one output be produced
  // twice: the test on guards is neither too lax nor too strict.
  lemma NoClashIff(body: seq<Statement>)
    ensures NoClash(Declared(body, [], 0)) <==> forall v: Valuation :: Distinct(Run(body, v, 0))
  {
    hide Declared, Run, Origins, NoClash, Distinct, Satisfied, AllRooted;
    var ds, origin := Declared(body, [], 0), Origins(body, [], 0);
    assert origin[0..|origin|] == origin;
    DeclaredRooted(body, [], 0, origin);
    forall v: Valuation ensures Satisfied(ds, v) == Run(body, v, 0) {
      DeclaredIsRun(body, [], v, 0);
    }
    if NoClash(ds) {
      forall v: Valuation ensures Distinct(Run(body, v, 0)) {
        NoClashRuns(ds, v);
      }
    } else {
      var v := ClashRuns(ds, origin);
      assert !Distinct(Run(body, v, 0));
    }
  }

  lemma ClashRuns(ds: seq<Declaration>, origin: seq<seq<Guard>>) returns (v: Valuation)
    requires AllRooted(origin, ds) && !NoClash(ds)
    ensures !Distinct(Satisfied(ds, v))
  {
    hide Exclusive, Rooted, Holds;
    var i, j :| 0 <= i < j < |ds| && ds[i].output == ds[j].output && !Exclusive(ds[i].guards, ds[j].guards);
    assert ds[i] in ds && ds[j] in ds;
    v := NotExclusiveHolds(origin, ds[i].guards, ds[j].guards);
    SatisfiedDistinct(ds, v);
  }

  lemma NoClashRuns(ds: seq<Declaration>, v: Valuation)
    requires NoClash(ds)
    ensures Distinct(Satisfied(ds, v))
  {
    hide Exclusive, Holds;
    forall i, j | 0 <= i < j < |ds| && ds[i].output == ds[j].output
      ensures !(Holds(v, ds[i].guards) && Holds(v, ds[j].guards)) {
      ExclusiveContradicts(ds[i].guards, ds[j].guards, v);
    }
    SatisfiedDistinct(ds, v);
  }

  // ---------------------------------------------------------------- the builder

  ghost function Current(values: seq<bool>): Valuation {
    (c: nat) => c < |values| && values[c]
  }

  // Guards made so far speak of conditions made so far.
  ghost predicate Made(n: nat, guards: seq<Guard>) {
    forall g :: g in guards ==> g.condition < n
  }

  ghost predicate AllMade(n: nat, ds: seq<Declaration>) {
    forall d :: d in ds ==> Made(n, d.guards)
  }

  lemma HoldsStill(values: seq<bool>, more: seq<bool>, guards: seq<Guard>)
    requires Made(|values|, guards)
    ensures Holds(Current(values + more), guards) <==> Holds(Current(values), guards)
  {
    assert forall g :: g in guards ==> Current(values + more)(g.condition) == Current(values)(g.condition);
  }

  lemma {:induction false} SatisfiedStill(values: seq<bool>, more: seq<bool>, ds: seq<Declaration>)
    requires AllMade(|values|, ds)
    ensures Satisfied(ds, Current(values + more)) == Satisfied(ds, Current(values)) && AllMade(|values + more|, ds)
    decreases |ds|
  {
    hide Holds, Current;
    if ds != [] {
      SatisfiedStill(values, more, ds[..|ds| - 1]);
      assert ds[|ds| - 1] in ds;
      HoldsStill(values, more, ds[|ds| - 1].guards);
    }
  }

  function Outputs(ds: seq<Declaration>): (r: seq<nat>)
    ensures |r| == |ds| && forall i :: 0 <= i < |ds| ==> r[i] == ds[i].output
  {
    seq(|ds|, i requires 0 <= i < |ds| => ds[i].output)
  }

  lemma NoClashPrefix(a: seq<Declaration>, b: seq<Declaration>)
    requires NoClash(a + b)
    ensures NoClash(a)
  {
    forall i, j | 0 <= i < j < |a| && a[i].output == a[j].output ensures Exclusive(a[i].guards, a[j].guards) {
      assert (a + b)[i] == a[i] && (a + b)[j] == a[j];
    }
  }

  lemma NoClashPush(ds: seq<Declaration>, d: Declaration)
    requires NoClash(ds)
    ensures NoClash(ds + [d]) <==> forall e :: e in ds && e.output == d.output ==> Exclusive(e.guards, d.guards)
  {
    var all := ds + [d];
    if NoClash(all) {
      forall e | e in ds && e.output == d.output ensures Exclusive(e.guards, d.guards) {
        var i :| 0 <= i < |ds| && ds[i] == e;
        assert all[i] == e && all[|ds|] == d;
      }
    }
  }

  // The declarations so far: those of rules that became commands, and the rest.
  class Builder {
    var conditions: seq<bool>
    var stack: seq<Guard>
    var owned: seq<Declaration>
    var inactive: seq<Declaration>
    ghost var declared: seq<Declaration>

    ghost predicate Valid()
      reads this
    {
      && Made(|conditions|, stack) && AllMade(|conditions|, declared) && NoClash(declared)
      && (forall d :: d in declared <==> d in owned || d in inactive)
      && Outputs(owned) == Satisfied(declared, Current(conditions))
    }

    constructor ()
      ensures Valid() && conditions == [] && stack == [] && declared == []
    {
      conditions, stack, owned, inactive, declared := [], [], [], [], [];
    }

    method IsContextActive() returns (active: bool)
      requires Made(|conditions|, stack)
      ensures active <==> Holds(Current(conditions), stack)
    {
      for i := 0 to |stack|
        invariant forall j :: 0 <= j < i ==> Current(conditions)(stack[j].condition) == stack[j].polarity
      {
        assert stack[i] in stack;
        if conditions[stack[i].condition] != stack[i].polarity { return false; }
      }
      return true;
    }

    // Whether an earlier declaration of the output may hold together with the guards now in force.
    method Owned(list: seq<Declaration>, output: nat) returns (r: bool)
      ensures r <==> exists d :: d in list && d.output == output && !Exclusive(d.guards, stack)
    {
      for i := 0 to |list|
        invariant forall j :: 0 <= j < i && list[j].output == output ==> Exclusive(list[j].guards, stack)
      {
        if list[i].output == output {
          var apart := AreGuardsMutuallyExclusive(list[i].guards, stack);
          if !apart {
            assert list[i] in list;
            return true;
          }
        }
      }
      return false;
    }

    method DeclareOne(output: nat, active: bool) returns (ok: bool)
      requires Valid() && (active <==> Holds(Current(conditions), stack))
      modifies `owned, `inactive, `declared
      ensures ok <==> NoClash(old(declared) + [Declaration(output, stack)])
      ensures ok ==> Valid() && declared == old(declared) + [Declaration(output, stack)]
      ensures !ok ==> Valid() && declared == old(declared)
    {
      hide Holds, Current, Exclusive, NoClash, Made, Outputs;
      var d := Declaration(output, stack);
      NoClashPush(declared, d);
      var taken := Owned(owned, output);
      if taken { return false; }
      taken := Owned(inactive, output);
      if taken { return false; }
      assert (declared + [d])[..|declared|] == declared;
      if active {
        OutputsPush(owned, d);
        owned := owned + [d];
      } else {
        inactive := inactive + [d];
      }
      declared := declared + [d];
      return true;
    }

    method ExpandRule(outputs: seq<nat>) returns (ok: bool)
      requires Valid()
      modifies `owned, `inactive, `declared
      ensures ok <==> NoClash(old(declared) + Declare(outputs, stack))
      ensures ok ==> Valid() && declared == old(declared) + Declare(outputs, stack)
    {
      var active := IsContextActive();
      ghost var was := declared;
      hide Valid, Holds, Current, NoClash, Declare;
      DeclareEnds(was, outputs, stack);
      for i := 0 to |outputs|
        invariant Valid() && declared == was + Declare(outputs[..i], stack)
      {
        var one := Declaration(outputs[i], stack);
        var rest := Declare(outputs[i + 1..], stack);
        DeclareStep(was, outputs, stack, i);
        var ok' := DeclareOne(outputs[i], active);
        if !ok' {
          NotClashPrefix(was, outputs, stack, declared + [one], rest);
          return false;
        }
      }
      ValidNoClash();
      return true;
    }

    method ProcessBody(body: seq<Statement>) returns (ok: bool)
      requires Valid()
      modifies this
      ensures ok <==> NoClash(old(declared) + Declared(body, stack, |old(conditions)|))
      ensures stack == old(stack)
      ensures ok ==> Valid() && conditions == old(conditions) + Values(body)
      ensures ok ==> declared == old(declared) + Declared(body, stack, |old(conditions)|)
      decreases body, 0
    {
      hide Valid, NoClash;
      if body == [] {
        assert declared + [] == declared && conditions + [] == conditions;
        ValidNoClash();
        return true;
      }
      ghost var was, n := declared, |conditions|;
      ghost var first, rest := DeclaredBy(body[0], stack, n), Declared(body[1..], stack, n + CountOne(body[0]));
      assert was + (first + rest) == (was + first) + rest;
      ok := Process(body[0]);
      if !ok {
        if NoClash((was + first) + rest) { NoClashPrefix(was + first, rest); }
        return;
      }
      ok := ProcessBody(body[1..]);
      assert old(conditions) + (ValuesOf(body[0]) + Values(body[1..]))
          == (old(conditions) + ValuesOf(body[0])) + Values(body[1..]);
    }

    method Process(s: Statement) returns (ok: bool)
      requires Valid()
      modifies this
      ensures ok <==> NoClash(old(declared) + DeclaredBy(s, stack, |old(conditions)|))
      ensures stack == old(stack)
      ensures ok ==> Valid() && conditions == old(conditions) + ValuesOf(s)
      ensures ok ==> declared == old(declared) + DeclaredBy(s, stack, |old(conditions)|)
      decreases s, 1
    {
      hide Valid, NoClash, Declared, Declare, Values, Count;
      if s.Rule? {
        ok := ExpandRule(s.outputs);
        assert conditions + [] == conditions;
      } else if s.Conditional? && s.fixed {
        ok := ProcessBody(if s.value then s.thenBody else s.elseBody);
      } else if s.Conditional? {
        ok := ProcessConditional(s);
      } else {
        assert declared + [] == declared && conditions + [] == conditions;
        ValidNoClash();
        ok := true;
      }
    }

    // A new condition, and both branches under it.
    method ProcessConditional(s: Statement) returns (ok: bool)
      requires Valid() && s.Conditional? && !s.fixed
      modifies this
      ensures ok <==> NoClash(old(declared) + DeclaredBy(s, stack, |old(conditions)|))
      ensures stack == old(stack)
      ensures ok ==> Valid() && conditions == old(conditions) + ValuesOf(s)
      ensures ok ==> declared == old(declared) + DeclaredBy(s, stack, |old(conditions)|)
      decreases s, 0
    {
      hide Valid, NoClash, Declared, Declare, Values, Count;
      ghost var was, values, under := declared, conditions, stack;
      var c := |conditions|;
      NewCondition(s.value);
      ghost var yes := Declared(s.thenBody, under + [Guard(c, true)], c + 1);
      ghost var no := Declared(s.elseBody, under + [Guard(c, false)], c + 1 + Count(s.thenBody));
      assert was + (yes + no) == (was + yes) + no;
      ok := ProcessBranch(s.thenBody, c, true);
      if !ok {
        if NoClash((was + yes) + no) { NoClashPrefix(was + yes, no); }
        return;
      }
      ok := ProcessBranch(s.elseBody, c, false);
      assert ((values + [s.value]) + Values(s.thenBody)) + Values(s.elseBody)
          == values + ([s.value] + Values(s.thenBody) + Values(s.elseBody));
    }

    method NewCondition(value: bool)
      requires Valid()
      modifies `conditions
      ensures Valid() && conditions == old(conditions) + [value]
    {
      hide NoClash, Current;
      SatisfiedStill(conditions, [value], declared);
      conditions := conditions + [value];
    }

    method ProcessBranch(body: seq<Statement>, c: nat, polarity: bool) returns (ok: bool)
      requires Valid() && c < |conditions|
      modifies this
      ensures stack == old(stack)
      ensures ok <==> NoClash(old(declared) + Declared(body, stack + [Guard(c, polarity)], |old(conditions)|))
      ensures ok ==> Valid() && conditions == old(conditions) + Values(body)
      ensures ok ==> declared == old(declared) + Declared(body, stack + [Guard(c, polarity)], |old(conditions)|)
      decreases body, 1
    {
      ghost var under := stack;
      Push(Guard(c, polarity));
      hide Valid, NoClash, Declared, Values;
      ok := ProcessBody(body);
      Pop();
    }

    method Push(g: Guard)
      requires Valid() && g.condition < |conditions|
      modifies `stack
      ensures Valid() && stack == old(stack) + [g]
    {
      hide NoClash, Current, Satisfied;
      stack := stack + [g];
    }

    method Pop()
      requires stack != []
      modifies `stack
      ensures stack == old(stack)[..|old(stack)| - 1] && (old(Valid()) ==> Valid())
    {
      hide NoClash, Current, Satisfied;
      ghost var was := stack;
      stack := stack[..|stack| - 1];
      assert forall g :: g in stack ==> g in was;
    }

    lemma ValidNoClash()
      requires Valid()
      ensures NoClash(declared)
    {
    }
  }

  lemma DeclareStep(was: seq<Declaration>, outputs: seq<nat>, stack: seq<Guard>, i: nat)
    requires i < |outputs|
    ensures var now := was + Declare(outputs[..i], stack) + [Declaration(outputs[i], stack)];
      was + Declare(outputs[..i + 1], stack) == now &&
        was + Declare(outputs, stack) == now + Declare(outputs[i + 1..], stack)
  {
  }

  lemma DeclareEnds(was: seq<Declaration>, outputs: seq<nat>, stack: seq<Guard>)
    ensures was + Declare(outputs[..0], stack) == was && outputs[..|outputs|] == outputs
  {
  }

  lemma NotClashPrefix(was: seq<Declaration>, outputs: seq<nat>, stack: seq<Guard>, a: seq<Declaration>,
                       b: seq<Declaration>)
    requires !NoClash(a) && was + Declare(outputs, stack) == a + b
    ensures !NoClash(was + Declare(outputs, stack))
  {
    if NoClash(a + b) { NoClashPrefix(a, b); }
  }

  lemma OutputsPush(ds: seq<Declaration>, d: Declaration)
    ensures Outputs(ds + [d]) == Outputs(ds) + [d.output]
  {
  }

  // A tree of statements is accepted exactly when no values of its conditions make two rules produce
  // one output; and then the commands made are those of the values the conditions have.
  method BuildGraph(body: seq<Statement>) returns (ok: bool, owned: seq<Declaration>)
    ensures ok <==> forall v: Valuation :: Distinct(Run(body, v, 0))
    ensures ok ==> Outputs(owned) == Run(body, Current(Values(body)), 0)
  {
    var b := new Builder();
    ghost var ds := Declared(body, [], 0);
    assert [] + ds == ds && [] + Values(body) == Values(body);
    NoClashIff(body);
    DeclaredIsRun(body, [], Current(Values(body)), 0);
    hide Declared, Run, NoClash, Values, Satisfied, Distinct;
    ok := b.ProcessBody(body);
    owned := b.owned;
  }
}
