/** Paths as text: normalising, joining, and the way from one directory to another. */
module Paths {
  import opened Text

  // ---------------------------------------------------------------- components

  // The parts between slashes; a slash at the end starts no further part.
  function Split(s: string): (parts: seq<string>)
    ensures forall k :: 0 <= k < |parts| ==> '/' !in parts[k]
    decreases |s|
  {
    if s == "" then []
    else
      var end := Find(s, '/', 0);
      [s[..end]] + if end == |s| then [] else Split(s[end + 1..])
  }

  function JoinParts(parts: seq<string>): string {
    if parts == [] then ""
    else if |parts| == 1 then parts[0]
    else parts[0] + "/" + JoinParts(parts[1..])
  }

  predicate IsPart(part: string) {
    part != "" && '/' !in part
  }

  predicate AllParts(parts: seq<string>) {
    forall k :: 0 <= k < |parts| ==> IsPart(parts[k])
  }

  // A part, a slash and the rest.
  lemma SplitCons(part: string, rest: string)
    requires '/' !in part
    ensures Split(part + "/" + rest) == [part] + Split(rest)
    ensures part != "" ==> Split(part) == [part]
  {
    var all := part + "/" + rest;
    assert forall i :: 0 <= i < |part| ==> all[i] == part[i];
    FindIs(all, '/', 0, |part|);
    assert all[..|part|] == part && all[|part| + 1..] == rest;
    if part != "" {
      FindIs(part, '/', 0, |part|);
      assert part[..|part|] == part;
    }
  }

  lemma {:induction false} SplitJoin(parts: seq<string>)
    requires AllParts(parts)
    ensures Split(JoinParts(parts)) == parts
    decreases |parts|
  {
    if parts != [] {
      SplitCons(parts[0], JoinParts(parts[1..]));
      if |parts| > 1 { SplitJoin(parts[1..]); }
    }
  }

  // Joining two texts with a slash joins their parts.
  lemma {:induction false} SplitConcat(a: string, b: string)
    requires a != "" && a[|a| - 1] != '/'
    ensures Split(a + "/" + b) == Split(a) + Split(b)
    decreases |a|
  {
    hide Split;
    var end := Find(a, '/', 0);
    if end == |a| {
      SplitCons(a, b);
    } else {
      var part, rest := a[..end], a[end + 1..];
      assert a == part + "/" + rest;
      SplitConcat(rest, b);
      SplitCons(part, rest + "/" + b);
      SplitCons(part, rest);
      assert a + "/" + b == part + "/" + (rest + "/" + b);
      assert [part] + (Split(rest) + Split(b)) == ([part] + Split(rest)) + Split(b);
    }
  }

  lemma {:induction false} JoinSplit(s: string)
    requires s == "" || s[|s| - 1] != '/'
    ensures JoinParts(Split(s)) == s
    decreases |s|
  {
    if s != "" {
      var end := Find(s, '/', 0);
      if end < |s| {
        var part, rest := s[..end], s[end + 1..];
        assert s == part + "/" + rest;
        JoinSplit(rest);
        SplitCons(part, rest);
        assert Split(rest) != [];
        assert Split(s)[1..] == Split(rest);
      } else {
        assert s[..end] == s;
      }
    }
  }

  // ---------------------------------------------------------------- normal paths

  predicate IsAbsolute(p: string) {
    p != "" && p[0] == '/'
  }

  function RootLength(p: string): nat {
    if IsAbsolute(p) then 1 else 0
  }

  function Body(p: string): string {
    p[RootLength(p)..]
  }

  // One part of a path applied to the directories entered so far.
  function Enter(stack: seq<string>, part: string, absolute: bool): seq<string> {
    if part == "" || part == "." then stack
    else if part == ".." && stack != [] && stack[|stack| - 1] != ".." then stack[..|stack| - 1]
    else if part == ".." && absolute then stack
    else stack + [part]
  }

  function Walk(stack: seq<string>, parts: seq<string>, absolute: bool): seq<string>
    decreases |parts|
  {
    if parts == [] then stack else Walk(Enter(stack, parts[0], absolute), parts[1..], absolute)
  }

  function PathOf(parts: seq<string>, absolute: bool): string {
    if parts == [] then (if absolute then "/" else ".")
    else (if absolute then "/" else "") + JoinParts(parts)
  }

  function Normal(p: string): string {
    PathOf(Walk([], Split(Body(p)), IsAbsolute(p)), IsAbsolute(p))
  }

  // Names, and before them any number of steps up, unless there is a root to stop at.
  predicate Canonical(parts: seq<string>, absolute: bool) {
    && (forall k :: 0 <= k < |parts| ==> IsPart(parts[k]) && parts[k] != ".")
    && forall k :: 0 <= k < |parts| && parts[k] == ".." ==> !absolute && forall i :: 0 <= i < k ==> parts[i] == ".."
  }

  lemma EnterCanonical(stack: seq<string>, part: string, absolute: bool)
    requires Canonical(stack, absolute) && '/' !in part
    ensures Canonical(Enter(stack, part, absolute), absolute)
  {
    if part == ".." && stack != [] && stack[|stack| - 1] == ".." && !absolute {
      assert forall i :: 0 <= i < |stack| ==> stack[i] == "..";
    }
  }

  lemma {:induction false} WalkCanonical(stack: seq<string>, parts: seq<string>, absolute: bool)
    requires Canonical(stack, absolute) && forall k :: 0 <= k < |parts| ==> '/' !in parts[k]
    ensures Canonical(Walk(stack, parts, absolute), absolute)
    decreases |parts|
  {
    if parts != [] {
      EnterCanonical(stack, parts[0], absolute);
      WalkCanonical(Enter(stack, parts[0], absolute), parts[1..], absolute);
    }
  }

  lemma {:induction false} WalkConcat(stack: seq<string>, a: seq<string>, b: seq<string>, absolute: bool)
    ensures Walk(stack, a + b, absolute) == Walk(Walk(stack, a, absolute), b, absolute)
    decreases |a|
  {
    if a == [] {
      assert a + b == b;
    } else {
      assert (a + b)[1..] == a[1..] + b;
      WalkConcat(Enter(stack, a[0], absolute), a[1..], b, absolute);
    }
  }

  // Walking the rest of a canonical path from where its beginning leads arrives at the path.
  lemma {:induction false} WalkRest(parts: seq<string>, i: nat, absolute: bool)
    requires Canonical(parts, absolute) && i <= |parts|
    ensures Walk(parts[..i], parts[i..], absolute) == parts
    decreases |parts| - i
  {
    if i < |parts| {
      if parts[i] == ".." && i > 0 { assert parts[i - 1] == ".."; }
      assert Enter(parts[..i], parts[i], absolute) == parts[..i + 1];
      assert parts[i..][1..] == parts[i + 1..];
      WalkRest(parts, i + 1, absolute);
    }
  }

  lemma WalkAll(parts: seq<string>, absolute: bool)
    requires Canonical(parts, absolute)
    ensures Walk([], parts, absolute) == parts
  {
    WalkRest(parts, 0, absolute);
    assert parts[..0] == [] && parts[0..] == parts;
  }

  // The parts a canonical path is made of can be read off it.
  lemma PathOfParts(parts: seq<string>, absolute: bool)
    requires Canonical(parts, absolute)
    ensures var p := PathOf(parts, absolute);
      p != "" && IsAbsolute(p) == absolute && (if p == "." then parts == [] && !absolute else Split(Body(p)) == parts)
  {
    SplitJoin(parts);
    if parts != [] {
      var j := JoinParts(parts);
      assert j != "" && j[0] == parts[0][0] != '/';
      if absolute { assert ("/" + j)[1..] == j; } else { assert j[0..] == j; }
      if j == "." { SplitCons(".", ""); }
    } else if absolute {
      assert "/"[1..] == "";
    }
  }

  lemma NormalOfCanonical(parts: seq<string>, absolute: bool)
    requires Canonical(parts, absolute)
    ensures Normal(PathOf(parts, absolute)) == PathOf(parts, absolute)
  {
    PathOfParts(parts, absolute);
    if PathOf(parts, absolute) == "." {
      SplitCons(".", "");
      assert Body(".") == ".";
      assert Walk([], ["."], false) == Walk([], [], false);
    } else {
      WalkAll(parts, absolute);
    }
  }

  lemma NormalIsCanonical(p: string)
    ensures Canonical(Walk([], Split(Body(p)), IsAbsolute(p)), IsAbsolute(p))
  {
    WalkCanonical([], Split(Body(p)), IsAbsolute(p));
  }

  lemma NormalIdempotent(p: string)
    ensures Normal(Normal(p)) == Normal(p)
  {
    NormalIsCanonical(p);
    NormalOfCanonical(Walk([], Split(Body(p)), IsAbsolute(p)), IsAbsolute(p));
  }

  // What the textual test looks for.
  predicate IsNormal(p: string) {
    || p == "" || p == "."
    || (Canonical(Split(Body(p)), IsAbsolute(p)) && (Body(p) == "" || p[|p| - 1] != '/'))
  }

  // The test tells exactly the paths that normalising leaves alone, the empty one aside.
  lemma IsNormalIff(p: string)
    ensures p != "" ==> (IsNormal(p) <==> Normal(p) == p)
  {
    if p == "." {
      NormalOfCanonical([], false);
    } else if p != "" && IsNormal(p) {
      var parts := Split(Body(p));
      JoinSplit(Body(p));
      WalkAll(parts, IsAbsolute(p));
      if IsAbsolute(p) { assert p == "/" + Body(p); } else { assert p == Body(p); }
      assert parts == [] ==> Body(p) == "";
    } else if p != "" && Normal(p) == p {
      var parts := Walk([], Split(Body(p)), IsAbsolute(p));
      NormalIsCanonical(p);
      PathOfParts(parts, IsAbsolute(p));
      NoSlashLast(parts);
    }
  }

  lemma {:induction false} NoSlashLast(parts: seq<string>)
    requires AllParts(parts)
    ensures parts != [] ==> JoinParts(parts) != "" && JoinParts(parts)[|JoinParts(parts)| - 1] != '/'
    decreases |parts|
  {
    if |parts| > 1 {
      NoSlashLast(parts[1..]);
      var tail := JoinParts(parts[1..]);
      assert JoinParts(parts)[|JoinParts(parts)| - 1] == tail[|tail| - 1];
    }
  }

  // ---------------------------------------------------------------- as computed

  // The parts of a path from a position on.
  ghost function Rest(p: string, start: nat): seq<string> {
    if start < |p| then Split(p[start..]) else []
  }

  lemma RestStep(p: string, start: nat, end: nat)
    requires start < |p| && end == Find(p, '/', start)
    ensures Rest(p, start) == [p[start..end]] + Rest(p, end + 1)
  {
    hide Find, Split;
    var s, part := p[start..], p[start..end];
    if end < |p| {
      assert s == part + "/" + p[end + 1..];
      SplitCons(part, p[end + 1..]);
      EmptySplit();
      if end + 1 == |p| { assert p[end + 1..] == ""; }
    } else {
      assert s == part;
      SplitCons(part, "");
    }
  }

  lemma WalkStep(stack: seq<string>, part: string, rest: seq<string>, absolute: bool)
    ensures Walk(stack, [part] + rest, absolute) == Walk(Enter(stack, part, absolute), rest, absolute)
    ensures Walk(stack, [], absolute) == stack
  {
    assert ([part] + rest)[1..] == rest;
  }

  lemma RestAll(p: string)
    ensures Rest(p, RootLength(p)) == Split(Body(p))
    ensures forall start :: start >= |p| ==> Rest(p, start) == []
  {
  }

  method Normalize(p: string) returns (r: string)
    ensures r == Normal(p)
  {
    hide Rest, Walk, Split, Find;
    var start := RootLength(p);
    var absolute := IsAbsolute(p);
    var parts: seq<string> := [];
    RestAll(p);
    while start < |p|
      invariant Walk([], Split(Body(p)), absolute) == Walk(parts, Rest(p, start), absolute)
      decreases |p| - start
    {
      var end := Find(p, '/', start);
      var part := p[start..end];
      RestStep(p, start, end);
      WalkStep(parts, part, Rest(p, end + 1), absolute);
      if part == "" || part == "." {
      } else if part == ".." && |parts| > 0 && parts[|parts| - 1] != ".." {
        parts := parts[..|parts| - 1];
      } else if part == ".." && absolute {
      } else {
        parts := parts + [part];
      }
      start := end + 1;
    }
    WalkStep(parts, "", [], absolute);
    if parts == [] {
      if !absolute { return "."; }
      return "/";
    }
    var joined := JoinAll(parts);
    return (if absolute then "/" else "") + joined;
  }

  method JoinAll(parts: seq<string>) returns (text: string)
    requires parts != []
    ensures text == JoinParts(parts)
  {
    text := "";
    for i := 0 to |parts|
      invariant i == 0 ==> text == ""
      invariant JoinParts(parts) == if i == 0 then JoinParts(parts) else if i == |parts| then text
        else text + "/" + JoinParts(parts[i..])
    {
      if i > 0 { text := text + "/"; }
      ghost var before := text;
      text := text + parts[i];
      assert parts[i..][0] == parts[i] && parts[i..][1..] == parts[i + 1..];
      if i == 0 { assert parts[0..] == parts; }
      if i + 1 < |parts| {
        assert before + (parts[i] + "/" + JoinParts(parts[i + 1..])) == text + "/" + JoinParts(parts[i + 1..]);
      }
    }
  }

  method TestNormal(p: string) returns (r: bool)
    ensures r == IsNormal(p)
  {
    hide Rest, Split, Find, Canonical;
    if p == "" || p == "." { return true; }
    var absolute, start := IsAbsolute(p), RootLength(p);
    RestAll(p);
    if start < |p| && p[|p| - 1] == '/' { return false; }
    var seenName := false;
    ghost var done: seq<string> := [];
    CanonicalNone(absolute);
    while start < |p|
      invariant Split(Body(p)) == done + Rest(p, start)
      invariant Canonical(done, absolute) && (seenName <==> HasName(done))
      decreases |p| - start
    {
      var end := Find(p, '/', start);
      var part := p[start..end];
      RestStep(p, start, end);
      ghost var rest := Rest(p, end + 1);
      assert done + ([part] + rest) == done + [part] + rest;
      if part == "" || part == "." || (part == ".." && (absolute || seenName)) {
        NotCanonical(done, part, rest, absolute);
        return false;
      }
      if part != ".." { seenName := true; }
      CanonicalPush(done, part, absolute);
      done := done + [part];
      start := end + 1;
    }
    assert done + [] == done;
    return true;
  }

  ghost predicate HasName(parts: seq<string>) {
    exists k :: 0 <= k < |parts| && parts[k] != ".."
  }

  lemma CanonicalNone(absolute: bool)
    ensures Canonical([], absolute)
  {
  }

  lemma CanonicalPush(done: seq<string>, part: string, absolute: bool)
    requires Canonical(done, absolute) && IsPart(part) && part != "."
    requires part == ".." ==> !absolute && !HasName(done)
    ensures Canonical(done + [part], absolute)
    ensures HasName(done + [part]) <==> HasName(done) || part != ".."
  {
    var all := done + [part];
    assert forall k :: 0 <= k < |done| ==> all[k] == done[k];
    assert all[|done|] == part;
    if k :| 0 <= k < |done| && done[k] != ".." { assert all[k] != ".."; }
  }

  lemma NotCanonical(done: seq<string>, part: string, rest: seq<string>, absolute: bool)
    requires part == "" || part == "." || (part == ".." && (absolute || HasName(done)))
    ensures !Canonical(done + [part] + rest, absolute)
  {
    var all := done + [part] + rest;
    assert all[|done|] == part;
    if part == ".." && !absolute {
      var k :| 0 <= k < |done| && done[k] != "..";
      assert all[k] == done[k];
    }
  }

  // ---------------------------------------------------------------- joining

  function Join(a: string, b: string): string {
    if b == "" then a
    else if a == "" || IsAbsolute(b) then b
    else if a[|a| - 1] == '/' then a + b
    else a + "/" + b
  }

  // Resolving `b` from the directory `a`.
  lemma JoinWalks(a: string, b: string)
    requires b != "" && !IsAbsolute(b) && (a == "" || a == "/" || a[|a| - 1] != '/')
    ensures IsAbsolute(Join(a, b)) == IsAbsolute(a)
    ensures Walk([], Split(Body(Join(a, b))), IsAbsolute(a)) == Walk(Walk([], Split(Body(a)), IsAbsolute(a)), Split(b),
                                                                     IsAbsolute(a))
  {
    hide Split, Walk;
    var j := Join(a, b);
    if a == "" {
      assert Body(j) == b && Body(a) == "";
      WalkConcat([], Split(""), Split(b), false);
      EmptySplit();
      assert [] + Split(b) == Split(b);
    } else if a == "/" {
      assert Body(j) == b && Body(a) == "";
      WalkConcat([], Split(""), Split(b), true);
      EmptySplit();
      assert [] + Split(b) == Split(b);
    } else {
      assert j == a + "/" + b && j[0] == a[0];
      assert Body(j) == Body(a) + "/" + b && Body(a)[|Body(a)| - 1] == a[|a| - 1];
      SplitConcat(Body(a), b);
      WalkConcat([], Split(Body(a)), Split(b), IsAbsolute(a));
    }
  }

  lemma EmptySplit()
    ensures Split("") == []
  {
  }

  // ---------------------------------------------------------------- from one directory to another

  function Ups(n: nat): (r: seq<string>)
    ensures |r| == n && forall k :: 0 <= k < n ==> r[k] == ".."
  {
    seq(n, _ => "..")
  }

  function CommonLength(a: seq<string>, b: seq<string>): (n: nat)
    ensures n <= |a| && n <= |b| && a[..n] == b[..n] && (n < |a| && n < |b| ==> a[n] != b[n])
  {
    if a == [] || b == [] || a[0] != b[0] then 0
    else
      var n := CommonLength(a[1..], b[1..]);
      assert a[..n + 1] == [a[0]] + a[1..][..n] && b[..n + 1] == [b[0]] + b[1..][..n];
      n + 1
  }

  // The parts a path names: not the empty ones, nor the dots.
  function Kept(parts: seq<string>): (r: seq<string>)
    ensures forall k :: 0 <= k < |r| ==> r[k] in parts && r[k] != "" && r[k] != "."
  {
    if parts == [] then []
    else (if parts[0] == "" || parts[0] == "." then [] else [parts[0]]) + Kept(parts[1..])
  }

  function Names(p: string): seq<string> {
    Kept(Split(p))
  }

  lemma KeptStep(part: string, rest: seq<string>)
    ensures Kept([part] + rest) == (if part == "" || part == "." then [] else [part]) + Kept(rest)
    ensures Kept([]) == []
  {
    assert ([part] + rest)[1..] == rest;
  }

  lemma {:induction false} KeptAll(parts: seq<string>)
    requires forall k :: 0 <= k < |parts| ==> parts[k] != "" && parts[k] != "."
    ensures Kept(parts) == parts
    decreases |parts|
  {
    if parts != [] {
      KeptAll(parts[1..]);
      assert parts == [parts[0]] + parts[1..];
    }
  }

  method SplitNames(p: string) returns (parts: seq<string>)
    ensures parts == Names(p)
  {
    hide Rest, Split, Find, Kept;
    parts := [];
    var start := 0;
    RestFromStart(p);
    while start < |p|
      invariant parts + Kept(Rest(p, start)) == Names(p)
      decreases |p| - start
    {
      var end := Find(p, '/', start);
      var part := p[start..end];
      RestStep(p, start, end);
      KeptStep(part, Rest(p, end + 1));
      assert (parts + [part]) + Kept(Rest(p, end + 1)) == parts + ([part] + Kept(Rest(p, end + 1)));
      assert [] + Kept(Rest(p, end + 1)) == Kept(Rest(p, end + 1));
      if part != "" && part != "." {
        parts := parts + [part];
      }
      start := end + 1;
    }
    RestAll(p);
    KeptStep("", []);
    assert parts + [] == parts;
  }

  lemma RestFromStart(p: string)
    ensures Rest(p, 0) == Split(p)
  {
    assert p[0..] == p;
  }

  // A normal path is made of its names and nothing else.
  lemma NormalNames(p: string)
    requires IsNormal(p)
    ensures Canonical(Names(p), IsAbsolute(p)) && Walk([], Split(Body(p)), IsAbsolute(p)) == Names(p)
    ensures p != "" ==> PathOf(Names(p), IsAbsolute(p)) == p
  {
    if p == "" {
    } else if p == "." {
      SplitCons(".", "");
      KeptStep(".", []);
      assert ["."] + [] == ["."];
      assert Body(p) == p;
      WalkStep([], ".", [], false);
    } else {
      var parts, absolute := Split(Body(p)), IsAbsolute(p);
      KeptAll(parts);
      if absolute {
        assert p == "" + "/" + Body(p);
        SplitCons("", Body(p));
        KeptStep("", parts);
        assert [] + Kept(parts) == Kept(parts);
      } else {
        assert Body(p) == p;
      }
      WalkAll(parts, absolute);
      IsNormalIff(p);
    }
  }

  // Up from the base to where the two paths part, then down to the target.
  function Way(target: string, base: string): seq<string> {
    var n := CommonLength(Names(target), Names(base));
    Ups(|Names(base)| - n) + Names(target)[n..]
  }

  function Relative(target: string, base: string): string {
    if target == base || Way(target, base) == [] then "." else JoinParts(Way(target, base))
  }

  lemma {:induction false} JoinPush(parts: seq<string>, part: string)
    requires AllParts(parts)
    ensures JoinParts(parts + [part]) == if parts == [] then part else JoinParts(parts) + "/" + part
    ensures parts != [] ==> JoinParts(parts) != ""
    decreases |parts|
  {
    if |parts| > 1 {
      JoinPush(parts[1..], part);
      assert (parts + [part])[1..] == parts[1..] + [part];
      var tail := JoinParts(parts[1..]);
      assert parts[0] + "/" + (tail + "/" + part) == (parts[0] + "/" + tail) + "/" + part;
    } else if |parts| == 1 {
      assert (parts + [part])[1..] == [part];
    }
  }

  method AppendParts(before: string, ghost done: seq<string>, parts: seq<string>) returns (text: string)
    requires AllParts(done) && AllParts(parts) && before == JoinParts(done)
    ensures text == JoinParts(done + parts)
  {
    text := before;
    assert done + parts[..0] == done;
    hide JoinParts;
    for i := 0 to |parts|
      invariant text == JoinParts(done + parts[..i]) && (text == "" <==> done + parts[..i] == [])
    {
      assert done + parts[..i + 1] == (done + parts[..i]) + [parts[i]];
      JoinPush(done + parts[..i], parts[i]);
      JoinPush(done + parts[..i + 1], parts[i]);
      if text != "" { text := text + "/"; }
      text := text + parts[i];
    }
    assert parts[..|parts|] == parts;
  }

  lemma NamesAreParts(p: string)
    ensures AllParts(Names(p))
  {
    var parts := Split(p);
    forall k | 0 <= k < |Names(p)| ensures IsPart(Names(p)[k]) {
      assert Names(p)[k] in parts;
    }
  }

  lemma JoinNothing()
    ensures JoinParts([]) == ""
  {
  }

  method RelativePath(target: string, base: string) returns (r: string)
    ensures r == Relative(target, base)
  {
    hide Names, JoinParts, CommonLength, Ups;
    if target == base { return "."; }
    var t := SplitNames(target);
    var b := SplitNames(base);
    var common := 0;
    while common < |t| && common < |b| && t[common] == b[common]
      invariant common <= |t| && common <= |b| && t[..common] == b[..common]
    {
      assert t[..common + 1] == t[..common] + [t[common]] && b[..common + 1] == b[..common] + [b[common]];
      common := common + 1;
    }
    CommonIs(t, b, common);
    NamesAreParts(target);
    JoinNothing();
    var buf := AppendParts("", [], Ups(|b| - common));
    assert [] + Ups(|b| - common) == Ups(|b| - common);
    buf := AppendParts(buf, Ups(|b| - common), t[common..]);
    JoinPush(Ups(|b| - common) + t[common..], "");
    return if buf == "" then "." else buf;
  }

  lemma {:induction false} CommonIs(a: seq<string>, b: seq<string>, n: nat)
    requires n <= |a| && n <= |b| && a[..n] == b[..n] && (n < |a| && n < |b| ==> a[n] != b[n])
    ensures CommonLength(a, b) == n
    decreases n
  {
    if n > 0 {
      assert a[0] == a[..n][0] == b[..n][0] == b[0];
      assert a[1..][..n - 1] == a[..n][1..] == b[..n][1..] == b[1..][..n - 1];
      CommonIs(a[1..], b[1..], n - 1);
    }
  }

  // ---------------------------------------------------------------- arriving

  // Stepping up leaves the names just entered.
  lemma {:induction false} UpsLeave(stack: seq<string>, n: nat, absolute: bool)
    requires n <= |stack| && forall k :: n <= k < |stack| ==> stack[k] != ".."
    ensures Walk(stack, Ups(|stack| - n), absolute) == stack[..n]
    decreases |stack| - n
  {
    if n < |stack| {
      var front := stack[..|stack| - 1];
      assert Ups(|stack| - n) == [".."] + Ups(|front| - n);
      WalkStep(stack, "..", Ups(|front| - n), absolute);
      UpsLeave(front, n, absolute);
      assert front[..n] == stack[..n];
    } else {
      assert stack[..n] == stack;
    }
  }

  // With only steps up behind, further ones pile up.
  lemma {:induction false} UpsPile(m: nat, n: nat)
    ensures Walk(Ups(m), Ups(n), false) == Ups(m + n)
    decreases n
  {
    if n > 0 {
      assert Ups(n) == [".."] + Ups(n - 1) && Ups(m) + [".."] == Ups(m + 1);
      WalkStep(Ups(m), "..", Ups(n - 1), false);
      UpsPile(m + 1, n - 1);
    }
  }

  // Names are entered one after the other.
  lemma {:induction false} NamesEnter(stack: seq<string>, names: seq<string>, absolute: bool)
    requires Plain(names)
    ensures Walk(stack, names, absolute) == stack + names
    decreases |names|
  {
    if names != [] {
      NamesEnter(stack + [names[0]], names[1..], absolute);
      assert (stack + [names[0]]) + names[1..] == stack + names;
    } else {
      assert stack + [] == stack;
    }
  }

  // Where a canonical path stops climbing.
  lemma {:induction false} Climbs(parts: seq<string>, absolute: bool) returns (m: nat)
    requires Canonical(parts, absolute)
    ensures Level(parts, m)
    ensures m > 0 ==> !absolute
    decreases |parts|
  {
    if parts == [] || parts[0] != ".." {
      m := 0;
    } else {
      var rest := parts[1..];
      assert forall k :: 0 <= k < |rest| ==> rest[k] == parts[k + 1];
      var n := Climbs(rest, absolute);
      m := n + 1;
      assert parts[..m] == [".."] + rest[..n] == Ups(m);
      assert forall k :: m <= k < |parts| ==> parts[k] == rest[k - 1];
    }
  }

  // The way arrives exactly when, past the common part, the base does not climb.
  lemma WayArrives(t: seq<string>, b: seq<string>, n: nat, absolute: bool)
    requires Canonical(t, absolute) && Canonical(b, absolute) && n <= |t| && n <= |b| && t[..n] == b[..n]
    requires n < |b| ==> b[n] != ".."
    ensures Walk(b, Ups(|b| - n) + t[n..], absolute) == t
  {
    assert forall k :: n <= k < |b| ==> b[k] != "..";
    UpsLeave(b, n, absolute);
    WalkConcat(b, Ups(|b| - n), t[n..], absolute);
    WalkRest(t, n, absolute);
  }

  // Steps up, then none.
  ghost predicate Level(b: seq<string>, m: nat) {
    m <= |b| && b[..m] == Ups(m) && forall k :: m <= k < |b| ==> b[k] != ".."
  }

  predicate Plain(names: seq<string>) {
    forall k :: 0 <= k < |names| ==> names[k] != "" && names[k] != "." && names[k] != ".."
  }

  lemma UpsSum(a: nat, b: nat)
    ensures Ups(a) + Ups(b) == Ups(a + b)
  {
  }

  // Otherwise the steps up that the base began with are climbed once more.
  lemma UpsOver(b: seq<string>, m: nat, down: nat, up: nat)
    requires m + down == |b| && Level(b, m)
    ensures Walk(b, Ups(down + up), false) == Ups(m + up)
  {
    hide Walk, Ups;
    UpsSum(down, up);
    WalkConcat(b, Ups(down), Ups(up), false);
    UpsLeave(b, m, false);
    UpsPile(m, up);
  }

  lemma WayPiles(b: seq<string>, n: nat, m: nat, names: seq<string>)
    requires n <= m <= |b| && Level(b, m) && Plain(names)
    ensures Walk(b, Ups(|b| - n) + names, false) == Ups(m + (m - n)) + names
  {
    hide Walk, Ups, Level, Plain;
    UpsOver(b, m, |b| - m, m - n);
    assert |b| - m + (m - n) == |b| - n;
    WalkConcat(b, Ups(|b| - n), names, false);
    NamesEnter(Ups(m + (m - n)), names, false);
  }

  lemma WayMisses(t: seq<string>, b: seq<string>, n: nat, absolute: bool)
    requires Canonical(t, absolute) && Canonical(b, absolute) && n <= |t| && n < |b| && t[..n] == b[..n]
    requires b[n] == ".." && (n < |t| ==> t[n] != "..")
    ensures Walk(b, Ups(|b| - n) + t[n..], absolute) != t
  {
    hide Walk, Ups;
    var m := Climbs(b, absolute);
    assert n < m && !absolute;
    var names := t[n..];
    NamesAfter(t, n, absolute);
    WayPiles(b, n, m, names);
    assert |Ups(m + (m - n)) + names| > |t|;
  }

  lemma NamesAfter(t: seq<string>, n: nat, absolute: bool)
    requires Canonical(t, absolute) && n <= |t| && (n < |t| ==> t[n] != "..")
    ensures Plain(t[n..])
  {
    forall k | n <= k < |t| ensures t[k] != ".." {
      assert n < |t| && t[n] != "..";
    }
  }

  // Whether the base, past what it shares with the target, begins with a step up: the step down that
  // would undo it is not known.
  predicate Climbing(target: string, base: string) {
    var b, n := Names(base), CommonLength(Names(target), Names(base));
    n < |b| && b[n] == ".."
  }

  lemma WayIsRelative(target: string, base: string, absolute: bool, stack: seq<string>)
    requires IsNormal(target) && IsNormal(base) && target != ""
    ensures Relative(target, base) != "" && !IsAbsolute(Relative(target, base))
    ensures Walk(stack, Split(Relative(target, base)), absolute) == Walk(stack, Way(target, base), absolute)
  {
    hide Names, CommonLength, Walk, Split, IsNormal, Ups, JoinParts;
    var way := Way(target, base);
    if target == base { NoWay(base); }
    if way == [] {
      SplitCons(".", "");
      assert ["."] + [] == ["."];
      WalkStep(stack, ".", [], absolute);
    } else {
      WayParts(target, base);
      SplitJoin(way);
      JoinStarts(way);
    }
  }

  lemma NoWay(p: string)
    ensures Way(p, p) == []
  {
    CommonIs(Names(p), Names(p), |Names(p)|);
  }

  lemma WayParts(target: string, base: string)
    ensures AllParts(Way(target, base))
  {
    NamesAreParts(target);
    hide Names, CommonLength;
  }

  lemma JoinStarts(parts: seq<string>)
    requires AllParts(parts) && parts != []
    ensures JoinParts(parts) != "" && JoinParts(parts)[0] == parts[0][0] != '/'
  {
  }

  // Following the relative path from the base leads to the target, exactly when the base does not
  // climb; in particular whenever the two are absolute, or the base has no `..` at all.
  lemma RelativeArrives(target: string, base: string)
    requires IsNormal(target) && IsNormal(base) && target != "" && IsAbsolute(target) == IsAbsolute(base)
    ensures Normal(Join(base, Relative(target, base))) == target <==> !Climbing(target, base)
    ensures IsAbsolute(base) || ".." !in Names(base) ==> !Climbing(target, base)
  {
    hide Walk, Split, Names, Canonical, CommonLength, PathOf, IsNormal;
    var absolute := IsAbsolute(base);
    var t, b := Names(target), Names(base);
    var n := CommonLength(t, b);
    NormalNames(target);
    NormalNames(base);
    NoClimbFromRoot(b, absolute);
    BaseShape(base);
    WayIsRelative(target, base, absolute, b);
    JoinWalks(base, Relative(target, base));
    var arrived := Walk(b, Ups(|b| - n) + t[n..], absolute);
    if Climbing(target, base) {
      WayMisses(t, b, n, absolute);
      NormalIsCanonical(Join(base, Relative(target, base)));
      PathOfInjective(arrived, t, absolute);
    } else {
      WayArrives(t, b, n, absolute);
    }
  }

  lemma ClimbingNames()
    ensures Split("a") == Names("a") == ["a"] && Split("../b") == Names("../b") == ["..", "b"]
  {
    hide Kept;
    SplitCons("..", "b");
    SplitCons("a", "");
    SplitCons("b", "");
    assert ".." + "/" + "b" == "../b";
    KeptStep("..", ["b"]);
    KeptStep("b", []);
    KeptStep("a", []);
    assert [".."] + ["b"] == ["..", "b"] && ["b"] + [] == ["b"] && ["a"] + [] == ["a"];
  }

  // From a directory beside the tree there is no telling the way back in: `a` seen from `../b` is taken
  // for `../../a`, which leads elsewhere.
  lemma ClimbingBaseMisses()
    ensures IsNormal("a") && IsNormal("../b") && !IsAbsolute("a") && !IsAbsolute("../b")
    ensures Normal(Join("../b", Relative("a", "../b"))) != "a"
  {
    hide Split, Names, Relative, Normal, Join;
    ClimbingNames();
    RelativeArrives("a", "../b");
  }

  lemma NoClimbFromRoot(parts: seq<string>, absolute: bool)
    requires Canonical(parts, absolute)
    ensures absolute ==> ".." !in parts
  {
  }

  lemma BaseShape(base: string)
    requires IsNormal(base)
    ensures base == "" || base == "/" || base[|base| - 1] != '/'
  {
  }

  lemma PathOfInjective(a: seq<string>, b: seq<string>, absolute: bool)
    requires Canonical(a, absolute) && Canonical(b, absolute) && a != b
    ensures PathOf(a, absolute) != PathOf(b, absolute)
  {
    PathOfParts(a, absolute);
    PathOfParts(b, absolute);
  }
}
