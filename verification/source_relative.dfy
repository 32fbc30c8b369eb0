/** How a command run in its source directory spells a path given from the project's root. */
module SourceRelative {
  import opened Paths
  import opened Text

  const UP := "../"

  // One step up for every name of the directory.
  function Climb(n: nat): string {
    if n == 0 then "" else UP + Climb(n - 1)
  }

  function ToRoot(dir: string): string {
    Climb(|Names(dir)|)
  }

  method ComputeSourceToRoot(dir: string) returns (text: string)
    ensures text == ToRoot(dir)
  {
    hide Rest, Split, Find, Kept, Climb;
    text := "";
    var pos := 0;
    RestFromStart(dir);
    ClimbSum(0, |Kept(Rest(dir, 0))|);
    while pos < |dir|
      invariant text + Climb(|Kept(Rest(dir, pos))|) == ToRoot(dir)
      decreases |dir| - pos
    {
      var slash := Find(dir, '/', pos);
      var segment := dir[pos..slash];
      RestStep(dir, pos, slash);
      KeptStep(segment, Rest(dir, slash + 1));
      var n: nat := |Kept(Rest(dir, slash + 1))|;
      if segment != "" && segment != "." {
        ClimbSum(1, n);
        assert text + (UP + Climb(n)) == (text + UP) + Climb(n);
        text := text + UP;
      }
      pos := if slash == |dir| then |dir| else slash + 1;
      RestAll(dir);
    }
    RestAll(dir);
    KeptStep("", []);
    ClimbSum(0, 0);
    assert text + "" == text;
  }

  lemma ClimbSum(a: nat, n: nat)
    ensures a == 0 ==> "" + Climb(n) == Climb(n) && Climb(0) == ""
    ensures a == 1 ==> Climb(1 + n) == UP + Climb(n)
  {
  }

  function MakeSourceRelative(p: string, toRoot: string, dir: string): string {
    if p == "" || IsAbsolute(p) then p
    else if |p| >= 2 && p[0] == '.' && p[1] == '.' then (if toRoot != "" && dir != "" then toRoot + p else p)
    else if toRoot == "" then p
    else if dir + "/" <= p then p[|dir| + 1..]
    else if p == dir then "."
    else toRoot + p
  }

  // ---------------------------------------------------------------- resolving it again

  lemma {:induction false} SplitClimb(n: nat, p: string)
    ensures Split(Climb(n) + p) == Ups(n) + Split(p)
    decreases n
  {
    hide Split;
    if n == 0 {
      assert "" + p == p && Ups(0) + Split(p) == Split(p);
    } else {
      SplitClimb(n - 1, p);
      SplitCons("..", Climb(n - 1) + p);
      assert Climb(n) + p == ".." + "/" + (Climb(n - 1) + p);
      assert [".."] + (Ups(n - 1) + Split(p)) == Ups(n) + Split(p);
    }
  }

  // A directory the source may be in.
  predicate IsSourceDir(dir: string) {
    IsNormal(dir) && !IsAbsolute(dir) && ".." !in Names(dir)
  }

  // Straight up to the root and down again.
  lemma ViaRoot(p: string, dir: string)
    requires IsNormal(p) && p != "" && !IsAbsolute(p) && IsSourceDir(dir)
    ensures Normal(Join(dir, ToRoot(dir) + p)) == p
  {
    hide Walk, Split, Names, Canonical, PathOf, IsNormal, Climb;
    var names, r := Names(dir), ToRoot(dir) + p;
    ClimbIsRelative(|names|, p);
    BaseShape(dir);
    NormalNames(dir);
    NormalNames(p);
    RelativeBody(p);
    JoinWalks(dir, r);
    SplitClimb(|names|, p);
    WalkConcat(names, Ups(|names|), Split(p), false);
    UpsLeave(names, 0, false);
    assert names[..0] == [];
  }

  lemma ClimbIsRelative(n: nat, p: string)
    requires p != "" && !IsAbsolute(p)
    ensures Climb(n) + p != "" && !IsAbsolute(Climb(n) + p)
  {
    if n == 0 { assert "" + p == p; } else { assert (Climb(n) + p)[0] == '.'; }
  }

  lemma RelativeBody(p: string)
    requires !IsAbsolute(p)
    ensures Body(p) == p
  {
  }

  // What is left of a normal path after a directory prefix can be resolved from the directory.
  lemma BelowDirectory(p: string, dir: string)
    requires IsNormal(p) && p != "" && !IsAbsolute(p) && IsNormal(dir) && !IsAbsolute(dir) && dir != "" &&
      dir + "/" <= p
    ensures Join(dir, p[|dir| + 1..]) == p
  {
    hide Split, IsNormal;
    var rest := p[|dir| + 1..];
    assert p == dir + "/" + rest;
    BaseShape(dir);
    BaseShape(p);
    assert p != "/" && p[|dir|] == '/';
    if rest != "" && rest[0] == '/' {
      var after := rest[1..];
      assert rest == "" + "/" + after;
      SplitConcat(dir, rest);
      SplitCons("", after);
      EmptyPart(p, |Split(dir)|);
    }
  }

  // A normal path has no empty part.
  lemma EmptyPart(p: string, k: nat)
    requires IsNormal(p) && !IsAbsolute(p) && k < |Split(p)|
    ensures Split(p)[k] != ""
  {
    RelativeBody(p);
    if p == "." { SplitCons(".", ""); }
  }

  // Resolved from the source directory, the spelling is the path again.
  lemma SpellingResolves(p: string, dir: string)
    requires IsNormal(p) && p != "" && IsSourceDir(dir)
    ensures Normal(Join(dir, MakeSourceRelative(p, ToRoot(dir), dir))) == p
  {
    hide Split, Names, Walk, IsNormal, PathOf, Canonical;
    IsNormalIff(p);
    assert "" + p == p;
    if IsAbsolute(p) {
    } else if MakeSourceRelative(p, ToRoot(dir), dir) == ToRoot(dir) + p {
      ViaRoot(p, dir);
    } else if |p| >= 2 && p[0] == '.' && p[1] == '.' {
      NoClimb();
    } else if dir + "/" <= p {
      NoClimb();
      BelowDirectory(p, dir);
    } else {
      Here(p);
    }
  }

  lemma NoClimb()
    ensures ToRoot("") == ""
  {
  }

  lemma Here(p: string)
    requires IsNormal(p) && p != "" && !IsAbsolute(p)
    ensures Normal(Join(p, ".")) == p
  {
    hide Split, Names, Walk, IsNormal, PathOf, Canonical;
    BaseShape(p);
    NormalNames(p);
    JoinWalks(p, ".");
    SplitCons(".", "");
    WalkStep(Names(p), ".", [], false);
    assert ["."] + [] == ["."];
  }
}
