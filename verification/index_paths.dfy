/** The paths of a loaded record's files, put together from their names and their parents. */
module IndexPaths {
  import opened Options
  import opened Paths

  // `parent` is the position a file's parent should have, none for one that hangs under the root or
  // a command; a damaged record may name a position that does not exist, or parents in a circle.
  datatype Node = Node(parent: Option<nat>, name: string)

  function Under(parentPath: string, name: string): string {
    if parentPath == "" then name
    else if parentPath[|parentPath| - 1] == '/' then parentPath + name
    else parentPath + "/" + name
  }

  predicate HasParent(files: seq<Node>, i: nat)
    requires i < |files|
  {
    files[i].parent.Some? && files[i].parent.value < |files|
  }

  // The way up from a file ends, within `d` steps.
  ghost predicate Grounded(files: seq<Node>, i: nat, d: nat)
    requires i < |files|
    decreases d
  {
    HasParent(files, i) ==> d > 0 && Grounded(files, files[i].parent.value, d - 1)
  }

  // The path it spells on the way back down.
  ghost function PathAt(files: seq<Node>, i: nat, d: nat): string
    requires i < |files| && Grounded(files, i, d)
    decreases d
  {
    if HasParent(files, i) then Under(PathAt(files, files[i].parent.value, d - 1), files[i].name) else files[i].name
  }

  // The names on the way down.
  ghost function NamesTo(files: seq<Node>, i: nat, d: nat): seq<string>
    requires i < |files| && Grounded(files, i, d)
    decreases d
  {
    (if HasParent(files, i) then NamesTo(files, files[i].parent.value, d - 1) else []) + [files[i].name]
  }

  // Names below a root: below one without a name they stand alone, below one that ends in a slash no other
  // is put between.
  function Beneath(root: string, parts: seq<string>): string {
    if parts == [] then root
    else if root == "" then JoinParts(parts)
    else if root[|root| - 1] == '/' then root + JoinParts(parts)
    else root + "/" + JoinParts(parts)
  }

  // The path is the names on the way down, joined by slashes. The name a file's chain begins with need
  // not be a proper one: the build root has none in an in-tree build, and a file outside the tree is
  // recorded under its absolute path.
  lemma {:induction false} PathIsJoin(files: seq<Node>, i: nat, d: nat)
    requires i < |files| && Grounded(files, i, d) && AllParts(NamesTo(files, i, d)[1..])
    ensures PathAt(files, i, d) == Beneath(NamesTo(files, i, d)[0], NamesTo(files, i, d)[1..])
    ensures IsPart(NamesTo(files, i, d)[0]) ==> PathAt(files, i, d) == JoinParts(NamesTo(files, i, d))
    decreases d
  {
    var names := NamesTo(files, i, d);
    if HasParent(files, i) {
      var above := NamesTo(files, files[i].parent.value, d - 1);
      assert names[1..] == above[1..] + [files[i].name];
      assert AllParts(above[1..]) && IsPart(files[i].name) by {
        assert forall k :: 0 <= k < |above[1..]| ==> above[1..][k] == names[1..][k];
        assert names[1..][|above| - 1] == files[i].name;
      }
      PathIsJoin(files, files[i].parent.value, d - 1);
      BeneathPush(above[0], above[1..], files[i].name);
    }
    assert names == [names[0]] + names[1..];
  }

  lemma BeneathPush(root: string, parts: seq<string>, name: string)
    requires AllParts(parts) && IsPart(name)
    ensures Under(Beneath(root, parts), name) == Beneath(root, parts + [name])
  {
    hide JoinParts, AllParts, IsPart;
    JoinPush(parts, name);
    NoSlashLast(parts);
    var tail, path := JoinParts(parts), Beneath(root, parts);
    if parts != [] {
      assert path[|path| - 1] == tail[|tail| - 1];
      assert Under(path, name) == path + "/" + name;
      assert Beneath(root, parts + [name]) == path + "/" + name;
    }
  }

  // ---------------------------------------------------------------- climbing

  // Files not yet seen to, each the child of the next.
  ghost predicate Climbed(files: seq<Node>, chain: seq<nat>) {
    && (forall j :: 0 <= j < |chain| ==> chain[j] < |files|)
    && (forall j, k :: 0 <= j < k < |chain| ==> chain[j] != chain[k])
    && forall j :: 0 <= j < |chain| - 1 ==> HasParent(files, chain[j]) && files[chain[j]].parent.value == chain[j + 1]
  }

  lemma {:induction false} ClimbedIsShort(n: nat, chain: seq<nat>)
    requires (forall j :: 0 <= j < |chain| ==> chain[j] < n) &&
      forall j, k :: 0 <= j < k < |chain| ==> chain[j] != chain[k]
    ensures |chain| <= n
  {
    var all := set j | 0 <= j < |chain| :: chain[j];
    DistinctSize(chain);
    Below(n, all);
  }

  lemma {:induction false} DistinctSize(s: seq<nat>)
    requires forall j, k :: 0 <= j < k < |s| ==> s[j] != s[k]
    ensures |set j | 0 <= j < |s| :: s[j]| == |s|
    decreases |s|
  {
    var all := set j | 0 <= j < |s| :: s[j];
    if s != [] {
      var front := s[..|s| - 1];
      var rest := set j | 0 <= j < |front| :: front[j];
      DistinctSize(front);
      assert all == rest + {s[|s| - 1]};
    } else {
      assert all == {};
    }
  }

  lemma {:induction false} Below(n: nat, s: set<nat>)
    requires forall x :: x in s ==> x < n
    ensures |s| <= n
    decreases n
  {
    if n == 0 {
      assert s == {};
    } else {
      Below(n - 1, s - {n - 1});
    }
  }

  // Going up the chain costs a step each.
  lemma {:induction false} GroundedUp(files: seq<Node>, chain: seq<nat>, j: nat, k: nat, d: nat)
    requires Climbed(files, chain) && j <= k < |chain| && Grounded(files, chain[j], d)
    ensures d >= k - j && Grounded(files, chain[k], d - (k - j))
    decreases k - j
  {
    if j < k { GroundedUp(files, chain, j + 1, k, d - 1); }
  }

  // A file on a circle has no way up that ends.
  lemma {:induction false} CircleIsNotGrounded(files: seq<Node>, chain: seq<nat>, m: nat, d: nat)
    requires Climbed(files, chain) && m < |chain|
    requires var top := chain[|chain| - 1]; HasParent(files, top) && files[top].parent.value == chain[m]
    ensures !Grounded(files, chain[|chain| - 1], d)
    decreases d
  {
    var top := chain[|chain| - 1];
    if Grounded(files, top, d) {
      GroundedUp(files, chain, m, |chain| - 1, d - 1);
      CircleIsNotGrounded(files, chain, m, d - 1 - (|chain| - 1 - m));
    }
  }

  // ---------------------------------------------------------------- all paths

  // A file that has been seen to, and whose way up ends, has its path.
  ghost predicate Right(files: seq<Node>, computed: seq<bool>, paths: seq<string>, i: nat)
    requires i < |files| == |computed| == |paths|
  {
    computed[i] ==> forall d: nat :: Grounded(files, i, d) ==> paths[i] == PathAt(files, i, d)
  }

  ghost predicate AllRight(files: seq<Node>, computed: seq<bool>, paths: seq<string>) {
    |files| == |computed| == |paths| && forall i :: 0 <= i < |files| ==> Right(files, computed, paths, i)
  }

  // The paths of all files. It ends whatever the parents are.
  method ComputePaths(files: seq<Node>, paths: array<string>)
    requires paths.Length == |files|
    modifies paths
    ensures forall i: nat, d: nat :: i < |files| && Grounded(files, i, d) ==> paths[i] == PathAt(files, i, d)
  {
    hide Grounded, PathAt;
    var n := |files|;
    var computed := new bool[n](_ => false);
    for i := 0 to n
      invariant AllRight(files, computed[..], paths[..]) && forall k :: 0 <= k < i ==> computed[k]
    {
      if !computed[i] {
        var chain := Climb(files, computed[..], i);
        Descend(files, chain, computed, paths);
      }
    }
    forall i: nat, d: nat | i < |files| && Grounded(files, i, d) ensures paths[i] == PathAt(files, i, d) {
      assert Right(files, computed[..], paths[..], i);
    }
  }

  // What the climb ended at: no parent, one seen to already, or a circle.
  ghost predicate Ended(files: seq<Node>, computed: seq<bool>, chain: seq<nat>) {
    && Climbed(files, chain) && |files| == |computed| && chain != []
    && var top := chain[|chain| - 1];
       HasParent(files, top) ==> var p := files[top].parent.value; computed[p] || p in chain
  }

  lemma ClimbedOne(files: seq<Node>, i: nat)
    requires i < |files|
    ensures Climbed(files, [i])
  {
  }

  lemma ClimbedPush(files: seq<Node>, chain: seq<nat>, p: nat)
    requires Climbed(files, chain) && chain != [] && p !in chain && p < |files|
    requires var top := chain[|chain| - 1]; top < |files| && files[top].parent == Some(p)
    ensures Climbed(files, chain + [p]) && |chain| < |files|
  {
    ClimbedIsShort(|files|, chain + [p]);
  }

  method Climb(files: seq<Node>, computed: seq<bool>, i: nat) returns (chain: seq<nat>)
    requires i < |files| == |computed| && !computed[i]
    ensures Ended(files, computed, chain) && chain[0] == i
  {
    hide Climbed;
    chain := [i];
    var idx := i;
    ClimbedOne(files, i);
    while true
      invariant Climbed(files, chain) && chain != [] && chain[0] == i && chain[|chain| - 1] == idx < |files|
      decreases |files| - |chain|
    {
      if files[idx].parent.None? { return; }
      var p := files[idx].parent.value;
      if p >= |files| { return; }
      if p in chain || computed[p] { return; }
      ClimbedPush(files, chain, p);
      chain := chain + [p];
      idx := p;
    }
  }

  method Descend(files: seq<Node>, chain: seq<nat>, computed: array<bool>, paths: array<string>)
    requires paths.Length == computed.Length == |files| && Ended(files, computed[..], chain)
    requires AllRight(files, computed[..], paths[..])
    modifies computed, paths
    ensures AllRight(files, computed[..], paths[..])
    ensures forall k :: 0 <= k < |files| ==> (computed[k] <== old(computed[k])) && (computed[k] <== k in chain)
  {
    hide Grounded, PathAt;
    var j: nat := |chain|;
    while j > 0
      invariant j <= |chain| && AllRight(files, computed[..], paths[..])
      invariant forall k :: 0 <= k < |files| ==> (computed[k] <== old(computed[k]))
      invariant forall k :: j <= k < |chain| ==> computed[chain[k]]
    {
      j := j - 1;
      var k := chain[j];
      var path := files[k].name;
      if files[k].parent.Some? && files[k].parent.value < |files| && computed[files[k].parent.value] {
        path := Under(paths[files[k].parent.value], files[k].name);
      }
      PathRight(files, chain, computed[..], old(computed[..]), paths[..], j, path);
      ghost var c, s := computed[..], paths[..];
      paths[k] := path;
      computed[k] := true;
      assert computed[..] == c[k := true] && paths[..] == s[k := path];
    }
  }

  lemma PathRight(files: seq<Node>, chain: seq<nat>, computed: seq<bool>, before: seq<bool>, paths: seq<string>, j: nat,
                  path: string)
    requires Ended(files, before, chain) && AllRight(files, computed, paths) && j < |chain|
    requires forall k :: 0 <= k < |files| ==> (computed[k] <== before[k])
    requires forall k :: j < k < |chain| ==> computed[chain[k]]
    requires var k := chain[j];
      path == if HasParent(files, k) && computed[files[k].parent.value]
              then Under(paths[files[k].parent.value], files[k].name) else files[k].name
    ensures AllRight(files, computed[chain[j] := true], paths[chain[j] := path])
  {
    var k := chain[j];
    assert j < |chain| - 1 ==> computed[chain[j + 1]] && files[k].parent == Some(chain[j + 1]);
    forall d: nat | Grounded(files, k, d) ensures path == PathAt(files, k, d) {
      if HasParent(files, k) {
        var p := files[k].parent.value;
        if !computed[p] {
          assert j == |chain| - 1;
          var m :| 0 <= m < |chain| && chain[m] == p;
          CircleIsNotGrounded(files, chain, m, d);
        } else {
          assert Right(files, computed, paths, p) && Grounded(files, p, d - 1);
        }
      }
    }
    hide Grounded, PathAt;
    var c, s := computed[k := true], paths[k := path];
    forall i | 0 <= i < |files| ensures Right(files, c, s, i) {
      assert Right(files, computed, paths, i);
    }
  }
}
