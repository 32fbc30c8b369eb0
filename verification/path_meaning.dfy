/**
 Where a path leads. Seen from a directory, a path is a sequence of moves; normalising it changes no
 move's outcome, and two paths have the same normal form exactly when they lead to the same place from
 every directory.
 */
module PathMeaning {
  import opened Text
  import opened Paths

  // A directory is the names on the way to it from the root.
  type Directory = seq<string>

  function Move(dir: Directory, part: string): Directory {
    if part == "" || part == "." then dir
    else if part != ".." then dir + [part]
    else if dir == [] then []
    else dir[..|dir| - 1]
  }

  function Go(dir: Directory, parts: seq<string>): Directory {
    if parts == [] then dir else Move(Go(dir, parts[..|parts| - 1]), parts[|parts| - 1])
  }

  function Resolve(dir: Directory, p: string): Directory {
    Go(if IsAbsolute(p) then [] else dir, Split(Body(p)))
  }

  lemma GoPush(dir: Directory, parts: seq<string>, part: string)
    ensures Go(dir, parts + [part]) == Move(Go(dir, parts), part)
  {
    assert (parts + [part])[..|parts|] == parts;
  }

  lemma {:induction false} GoConcat(dir: Directory, a: seq<string>, b: seq<string>)
    ensures Go(dir, a + b) == Go(Go(dir, a), b)
    decreases |b|
  {
    if b == [] {
      assert a + b == a;
    } else {
      var front, last := b[..|b| - 1], b[|b| - 1];
      assert a + b == (a + front) + [last];
      GoPush(dir, a + front, last);
      GoConcat(dir, a, front);
    }
  }

  // ---------------------------------------------------------------- normalising keeps the way

  lemma EnterMoves(dir: Directory, stack: seq<string>, part: string, absolute: bool)
    requires Canonical(stack, absolute) && (absolute ==> dir == [])
    ensures Go(dir, Enter(stack, part, absolute)) == Move(Go(dir, stack), part)
  {
    GoPush(dir, stack, part);
    if part == ".." && stack != [] && stack[|stack| - 1] != ".." {
      var front, last := stack[..|stack| - 1], stack[|stack| - 1];
      assert stack == front + [last] && IsPart(last) && last != ".";
      GoPush(dir, front, last);
      var there := Go(dir, front);
      assert (there + [last])[..|there|] == there;
    } else if part == ".." && absolute {
      assert stack == [];
    }
  }

  lemma {:induction false} WalkGoes(dir: Directory, stack: seq<string>, parts: seq<string>, absolute: bool)
    requires Canonical(stack, absolute) && (absolute ==> dir == []) && forall k :: 0 <= k < |parts| ==> '/' !in parts[k]
    ensures Go(dir, Walk(stack, parts, absolute)) == Go(Go(dir, stack), parts)
    decreases |parts|
  {
    hide Canonical, Enter, Move, Go;
    if parts == [] {
      GoNowhere(Go(dir, stack));
    } else {
      var next := Enter(stack, parts[0], absolute);
      EnterMoves(dir, stack, parts[0], absolute);
      EnterCanonical(stack, parts[0], absolute);
      WalkGoes(dir, next, parts[1..], absolute);
      assert parts == [parts[0]] + parts[1..];
      GoConcat(Go(dir, stack), [parts[0]], parts[1..]);
      GoOne(Go(dir, stack), parts[0]);
    }
  }

  lemma GoNowhere(dir: Directory)
    ensures Go(dir, []) == dir
  {
  }

  function PartsOf(p: string): seq<string> {
    Walk([], Split(Body(p)), IsAbsolute(p))
  }

  // A path leads where the parts of its normal form do.
  lemma PartsLeadThere(dir: Directory, p: string)
    ensures Canonical(PartsOf(p), IsAbsolute(p))
    ensures Resolve(dir, p) == Go(if IsAbsolute(p) then [] else dir, PartsOf(p))
  {
    hide Canonical, Walk, Split;
    NormalIsCanonical(p);
    NothingIsCanonical(IsAbsolute(p));
    WalkGoes(if IsAbsolute(p) then [] else dir, [], Split(Body(p)), IsAbsolute(p));
  }

  lemma NothingIsCanonical(absolute: bool)
    ensures Canonical([], absolute)
  {
  }

  // The normal form leads to the same place, from wherever one starts.
  lemma NormalLeadsThere(dir: Directory, p: string)
    ensures Resolve(dir, Normal(p)) == Resolve(dir, p)
  {
    hide Canonical, Walk, Split, PathOf, Body;
    PartsLeadThere(dir, p);
    PathOfParts(PartsOf(p), IsAbsolute(p));
    if Normal(p) == "." { DotStays(dir); }
  }

  lemma DotStays(dir: Directory)
    ensures Resolve(dir, ".") == dir
  {
    SplitCons(".", "");
    assert Body(".") == ".";
    assert [] + ["."] == ["."];
    GoPush(dir, [], ".");
  }

  // ---------------------------------------------------------------- and nothing else does

  // How many steps up a canonical path begins with.
  function Climb(parts: seq<string>): (n: nat)
    ensures n <= |parts| && forall i :: 0 <= i < n ==> parts[i] == ".."
    ensures n < |parts| ==> parts[n] != ".."
  {
    if parts == [] || parts[0] != ".." then 0
    else
      var n := Climb(parts[1..]);
      assert forall i :: 0 < i < n + 1 ==> parts[i] == parts[1..][i - 1];
      n + 1
  }

  lemma {:induction false} GoDown(dir: Directory, names: seq<string>)
    requires forall k :: 0 <= k < |names| ==> names[k] != "" && names[k] != "." && names[k] != ".."
    ensures Go(dir, names) == dir + names
    decreases |names|
  {
    if names == [] {
      assert dir + names == dir;
    } else {
      var front := names[..|names| - 1];
      GoDown(dir, front);
      assert (dir + front) + [names[|names| - 1]] == dir + names;
    }
  }

  lemma {:induction false} GoUp(dir: Directory, ups: seq<string>)
    requires |ups| <= |dir| && forall k :: 0 <= k < |ups| ==> ups[k] == ".."
    ensures Go(dir, ups) == dir[..|dir| - |ups|]
    decreases |ups|
  {
    if ups != [] { GoUp(dir, ups[..|ups| - 1]); }
  }

  lemma CanonicalSplits(parts: seq<string>, absolute: bool)
    requires Canonical(parts, absolute)
    ensures absolute ==> Climb(parts) == 0
    ensures forall k :: Climb(parts) <= k < |parts| ==> IsPart(parts[k]) && parts[k] != "." && parts[k] != ".."
  {
    var n := Climb(parts);
    assert n < |parts| ==> parts[n] != "..";
  }

  lemma CanonicalGoes(dir: Directory, parts: seq<string>, absolute: bool)
    requires Canonical(parts, absolute) && Climb(parts) <= |dir|
    ensures Go(dir, parts) == dir[..|dir| - Climb(parts)] + parts[Climb(parts)..]
  {
    hide Canonical, Climb, Go;
    CanonicalSplits(parts, absolute);
    var n := Climb(parts);
    assert parts == parts[..n] + parts[n..];
    GoConcat(dir, parts[..n], parts[n..]);
    GoUp(dir, parts[..n]);
    GoDown(dir[..|dir| - n], parts[n..]);
  }

  function Longest(parts: seq<string>): (n: nat)
    ensures forall k :: 0 <= k < |parts| ==> |parts[k]| <= n
  {
    if parts == [] then 0
    else
      var n := Longest(parts[1..]);
      assert forall k :: 0 < k < |parts| ==> parts[k] == parts[1..][k - 1];
      if |parts[0]| > n then |parts[0]| else n
  }

  // A directory deep enough for both, under names that neither has.
  function DeepFrom(a: seq<string>, b: seq<string>): (dir: Directory)
    ensures |dir| == |a| + |b| + 1 && forall k :: 0 <= k < |dir| ==> dir[k] !in a && dir[k] !in b
  {
    var name := seq(Longest(a) + Longest(b) + 1, _ => 'x');
    assert |name| > Longest(a) && |name| > Longest(b);
    seq(|a| + |b| + 1, _ => name)
  }

  lemma ShorterWay(dir: Directory, a: seq<string>, b: seq<string>)
    requires Canonical(a, false) && Canonical(b, false) && dir == DeepFrom(a, b) && Climb(a) < Climb(b)
    ensures Go(dir, a) != Go(dir, b)
  {
    CanonicalGoes(dir, a, false);
    CanonicalGoes(dir, b, false);
    var k := |dir| - Climb(b);
    assert k < |Go(dir, a)| && Go(dir, a)[k] == dir[k];
    if k < |Go(dir, b)| { assert Go(dir, b)[k] == b[Climb(b)]; }
  }

  lemma RelativeDiffer(a: seq<string>, b: seq<string>)
    requires Canonical(a, false) && Canonical(b, false) && a != b
    ensures Go(DeepFrom(a, b), a) != Go(DeepFrom(a, b), b)
  {
    var dir := DeepFrom(a, b);
    if Climb(a) < Climb(b) {
      ShorterWay(dir, a, b);
    } else if Climb(b) < Climb(a) {
      assert dir == DeepFrom(b, a) by { assert |dir| == |DeepFrom(b, a)|; }
      ShorterWay(dir, b, a);
    } else {
      SameWayUp(dir, a, b);
    }
  }

  lemma SameWayUp(dir: Directory, a: seq<string>, b: seq<string>)
    requires Canonical(a, false) && Canonical(b, false) && a != b && Climb(a) == Climb(b) <= |dir|
    ensures Go(dir, a) != Go(dir, b)
  {
    hide Canonical, Go, Climb;
    CanonicalGoes(dir, a, false);
    CanonicalGoes(dir, b, false);
    SameStart(a, b);
    TailsDiffer(a, b, Climb(a));
    FrontCancels(dir[..|dir| - Climb(a)], a[Climb(a)..], b[Climb(a)..]);
  }

  lemma SameStart(a: seq<string>, b: seq<string>)
    requires Climb(a) == Climb(b)
    ensures a[..Climb(a)] == b[..Climb(b)]
  {
    hide Climb;
  }

  lemma TailsDiffer(a: seq<string>, b: seq<string>, n: nat)
    requires a != b && n <= |a| && n <= |b| && a[..n] == b[..n]
    ensures a[n..] != b[n..]
  {
    assert a == a[..n] + a[n..] && b == b[..n] + b[n..];
  }

  lemma FrontCancels(front: seq<string>, a: seq<string>, b: seq<string>)
    requires a != b
    ensures front + a != front + b
  {
    assert (front + a)[|front|..] == a && (front + b)[|front|..] == b;
  }

  lemma AbsoluteGoes(a: seq<string>)
    requires Canonical(a, true)
    ensures Go([], a) == a
  {
    CanonicalSplits(a, true);
    CanonicalGoes([], a, true);
    assert a[0..] == a;
  }

  lemma KindsDiffer(a: seq<string>, b: seq<string>)
    requires Canonical(a, true) && Canonical(b, false)
    ensures Go([], a) != Go(DeepFrom(a, b), b)
  {
    var dir := DeepFrom(a, b);
    AbsoluteGoes(a);
    CanonicalGoes(dir, b, false);
    assert Go(dir, b)[0] == dir[0];
    assert a != [] ==> a[0] in a;
  }

  // Paths with different normal forms part ways somewhere.
  lemma DifferentPlaces(p: string, q: string) returns (dir: Directory)
    requires Normal(p) != Normal(q)
    ensures Resolve(dir, p) != Resolve(dir, q)
  {
    hide Canonical, PathOf, Resolve, Normal;
    var a, b := PartsOf(p), PartsOf(q);
    NormalOfParts(p);
    NormalOfParts(q);
    dir := DeepFrom(a, b);
    if !IsAbsolute(p) && IsAbsolute(q) { dir := DeepFrom(b, a); }
    hide PartsOf, DeepFrom;
    PartsLeadThere(dir, p);
    PartsLeadThere(dir, q);
    if IsAbsolute(p) && IsAbsolute(q) {
      AbsoluteGoes(a);
      AbsoluteGoes(b);
    } else if IsAbsolute(p) {
      KindsDiffer(a, b);
    } else if IsAbsolute(q) {
      KindsDiffer(b, a);
    } else {
      RelativeDiffer(a, b);
    }
  }

  lemma NormalOfParts(p: string)
    ensures Normal(p) == PathOf(PartsOf(p), IsAbsolute(p))
  {
  }

  // Two paths have one normal form exactly when they lead to the same place from every directory.
  lemma SameNormalIff(p: string, q: string)
    ensures Normal(p) == Normal(q) <==> forall dir :: Resolve(dir, p) == Resolve(dir, q)
  {
    hide Normal, Resolve;
    forall dir | Normal(p) == Normal(q) ensures Resolve(dir, p) == Resolve(dir, q) {
      NormalLeadsThere(dir, p);
      NormalLeadsThere(dir, q);
    }
    if Normal(p) != Normal(q) {
      var dir := DifferentPlaces(p, q);
    }
  }

  // ---------------------------------------------------------------- ways of writing a path

  lemma FurtherOn(dir: Directory, a: string, b: string)
    requires a != "" && a[|a| - 1] != '/'
    ensures Resolve(dir, a + "/" + b) == Go(Resolve(dir, a), Split(b))
  {
    hide Split, Go;
    var from := if IsAbsolute(a) then [] else dir;
    assert Body(a + "/" + b) == Body(a) + "/" + b && Body(a) != "" && Body(a)[|Body(a)| - 1] != '/';
    SplitConcat(Body(a), b);
    GoConcat(from, Split(Body(a)), Split(b));
  }

  lemma MiddleResolves(dir: Directory, a: string, middle: string, b: string)
    requires a != "" && a[|a| - 1] != '/' && '/' !in middle
    ensures Resolve(dir, a + "/" + (middle + "/" + b)) == Go(Move(Resolve(dir, a), middle), Split(b))
    ensures Resolve(dir, a + "/" + b) == Go(Resolve(dir, a), Split(b))
  {
    hide Split, Go, Resolve, Move;
    FurtherOn(dir, a, b);
    FurtherOn(dir, a, middle + "/" + b);
    SplitCons(middle, b);
    GoConcat(Resolve(dir, a), [middle], Split(b));
    GoOne(Resolve(dir, a), middle);
  }

  lemma SkipMiddle(a: string, middle: string, b: string)
    requires a != "" && a[|a| - 1] != '/' && (middle == "" || middle == ".")
    ensures Normal(a + "/" + (middle + "/" + b)) == Normal(a + "/" + b)
  {
    hide Resolve, Normal, Go, Split;
    forall dir ensures Resolve(dir, a + "/" + (middle + "/" + b)) == Resolve(dir, a + "/" + b) {
      MiddleResolves(dir, a, middle, b);
    }
    SameNormalIff(a + "/" + (middle + "/" + b), a + "/" + b);
  }

  lemma SlashAtEnd(a: string)
    requires a != "" && a[|a| - 1] != '/'
    ensures Normal(a + "/") == Normal(a)
  {
    hide Resolve, Normal;
    forall dir ensures Resolve(dir, a + "/") == Resolve(dir, a) {
      assert a + "/" + "" == a + "/";
      FurtherOn(dir, a, "");
      GoNowhere(Resolve(dir, a));
    }
    SameNormalIff(a + "/", a);
  }

  // A slash more, or a step to where one is, says nothing; nor does a step into a directory and out again.
  lemma NothingSaid(a: string, name: string, b: string)
    requires a != "" && a[|a| - 1] != '/' && IsPart(name) && name != "." && name != ".."
    ensures Normal(a + "//" + b) == Normal(a + "/./" + b) == Normal(a + "/" + b)
    ensures Normal(a + "/" + name + "/../" + b) == Normal(a + "/" + b)
    ensures Normal(a + "/") == Normal(a)
  {
    hide Resolve, Normal;
    assert a + "//" + b == a + "/" + ("" + "/" + b);
    SkipMiddle(a, "", b);
    assert a + "/./" + b == a + "/" + ("." + "/" + b);
    SkipMiddle(a, ".", b);
    forall dir ensures Resolve(dir, a + "/" + name + "/../" + b) == Resolve(dir, a + "/" + b) {
      InAndOut(dir, a, name, b);
    }
    SameNormalIff(a + "/" + name + "/../" + b, a + "/" + b);
    SlashAtEnd(a);
  }

  lemma InAndOut(dir: Directory, a: string, name: string, b: string)
    requires a != "" && a[|a| - 1] != '/' && IsPart(name) && name != "." && name != ".."
    ensures Resolve(dir, a + "/" + name + "/../" + b) == Resolve(dir, a + "/" + b)
  {
    hide Resolve;
    var there := a + "/" + name;
    assert there[|there| - 1] == name[|name| - 1];
    assert there + "/" + (".." + "/" + b) == a + "/" + name + "/../" + b;
    MiddleResolves(dir, there, "..", b);
    MiddleResolves(dir, a, "", name);
    SplitCons(name, "");
    var here := Resolve(dir, a);
    assert [] + [name] == [name];
    GoPush(here, [], name);
    assert (here + [name])[..|here|] == here;
    MiddleResolves(dir, a, "", b);
  }

  lemma RootMiddle(dir: Directory, middle: string, b: string)
    requires '/' !in middle
    ensures Resolve(dir, "/" + (middle + "/" + b)) == Go(Move([], middle), Split(b))
    ensures Resolve(dir, "/" + b) == Go([], Split(b))
  {
    hide Split, Go, Move;
    assert Body("/" + (middle + "/" + b)) == middle + "/" + b && Body("/" + b) == b;
    SplitCons(middle, b);
    GoConcat([], [middle], Split(b));
    GoOne([], middle);
  }

  lemma GoOne(dir: Directory, part: string)
    ensures Go(dir, [part]) == Move(dir, part)
  {
    assert [] + [part] == [part];
    GoPush(dir, [], part);
  }

  // The root is its own parent, and has no other spelling.
  lemma RootIsTop(b: string)
    ensures Normal("/../" + b) == Normal("//" + b) == Normal("/./" + b) == Normal("/" + b)
  {
    assert "/../" + b == "/" + (".." + "/" + b);
    assert "//" + b == "/" + ("" + "/" + b) && "/./" + b == "/" + ("." + "/" + b);
    hide Resolve, Go, Split, Normal;
    forall dir
      ensures Resolve(dir, "/../" + b) == Resolve(dir, "//" + b) == Resolve(dir, "/./" + b) == Resolve(dir, "/" + b)
    {
      RootMiddle(dir, "..", b);
      RootMiddle(dir, "", b);
      RootMiddle(dir, ".", b);
    }
    SameNormalIff("/../" + b, "/" + b);
    SameNormalIff("//" + b, "/" + b);
    SameNormalIff("/./" + b, "/" + b);
  }

  // ---------------------------------------------------------------- no shorter way

  // How many parts have to go and to come for one list of parts to become another, at its end.
  function Apart(a: seq<string>, b: seq<string>): nat {
    |a| + |b| - 2 * CommonLength(a, b)
  }

  lemma PushApart(stack: seq<string>, part: string, goal: seq<string>)
    ensures Apart(stack, goal) <= Apart(stack + [part], goal) + 1
  {
    hide CommonLength;
    var n, more := CommonLength(stack, goal), stack + [part];
    if n == |stack| < |goal| && goal[n] == part {
      assert goal[..n + 1] == goal[..n] + [part] && more[..n + 1] == more;
      CommonIs(more, goal, n + 1);
    } else {
      assert more[..n] == stack[..n];
      CommonIs(more, goal, n);
    }
  }

  lemma PopApart(stack: seq<string>, goal: seq<string>)
    requires stack != []
    ensures Apart(stack, goal) <= Apart(stack[..|stack| - 1], goal) + 1
  {
    hide CommonLength;
    var less, n := stack[..|stack| - 1], CommonLength(stack, goal);
    var m := if n == |stack| then n - 1 else n;
    assert less[..m] == stack[..m] == stack[..n][..m] == goal[..n][..m] == goal[..m];
    CommonIs(less, goal, m);
  }

  lemma {:induction false} NoShorterWay(stack: seq<string>, parts: seq<string>, absolute: bool)
    ensures Apart(stack, Walk(stack, parts, absolute)) <= |parts|
    decreases |parts|
  {
    hide CommonLength;
    var goal := Walk(stack, parts, absolute);
    if parts == [] {
      CommonIs(stack, stack, |stack|);
    } else {
      var next := Enter(stack, parts[0], absolute);
      NoShorterWay(next, parts[1..], absolute);
      if next == stack + [parts[0]] {
        PushApart(stack, parts[0], goal);
      } else if next != stack {
        PopApart(stack, goal);
      }
    }
  }

  // Whatever else leads from the base to the target has at least as many parts as the relative path.
  lemma RelativeIsShortest(target: string, base: string, way: string)
    requires IsNormal(target) && IsNormal(base) && target != "" && IsAbsolute(target) == IsAbsolute(base)
    requires way != "" && !IsAbsolute(way) && Normal(Join(base, way)) == target
    ensures |Split(Relative(target, base))| <= |Split(way)|
  {
    hide Walk, Names, Canonical, CommonLength, PathOf, IsNormal, JoinParts;
    var absolute := IsAbsolute(base);
    var t, b := Names(target), Names(base);
    NormalNames(target);
    NormalNames(base);
    BaseShape(base);
    JoinWalks(base, way);
    NormalIsCanonical(Join(base, way));
    var arrived := Walk(b, Split(way), absolute);
    if arrived != t { PathOfInjective(arrived, t, absolute); }
    NoShorterWay(b, Split(way), absolute);
    WayLength(target, base);
  }

  lemma WayLength(target: string, base: string)
    ensures |Split(Relative(target, base))| <= Apart(Names(base), Names(target)) || Relative(target, base) == "."
  {
    hide Names, CommonLength, Split, JoinParts, Ups;
    var t, b := Names(target), Names(base);
    var n, way := CommonLength(t, b), Way(target, base);
    CommonIs(b, t, n);
    if Relative(target, base) != "." {
      WayParts(target, base);
      SplitJoin(way);
    }
  }
}
