/** Walks and cycles of finite directed graphs. */
module Digraph {

  type Edges<T(==)> = set<(T, T)>

  predicate Walk<T(==)>(e: Edges<T>, w: seq<T>) {
    |w| > 0 && forall k :: 0 <= k < |w| - 1 ==> (w[k], w[k + 1]) in e
  }

  // A walk of at least one edge.
  predicate Path<T(==)>(e: Edges<T>, w: seq<T>, a: T, b: T) {
    Walk(e, w) && |w| > 1 && w[0] == a && w[|w| - 1] == b
  }

  ghost predicate Leads<T(!new)>(e: Edges<T>, a: T, b: T) {
    exists w :: Path(e, w, a, b)
  }

  ghost predicate Cyclic<T(!new)>(e: Edges<T>) {
    exists a :: Leads(e, a, a)
  }

  lemma CycleWitness<T(!new)>(e: Edges<T>) returns (a: T, w: seq<T>)
    requires Cyclic(e)
    ensures Path(e, w, a, a)
  {
    a :| Leads(e, a, a);
    w :| Path(e, w, a, a);
  }

  lemma LeadsEdge<T(!new)>(e: Edges<T>, a: T, b: T)
    requires (a, b) in e
    ensures Leads(e, a, b)
  {
    assert Path(e, [a, b], a, b);
  }

  lemma LeadsAnywhere<T(!new)>(e: Edges<T>, a: T, b: T)
    requires Leads(e, a, b)
    ensures e != {}
  {
    var w :| Path(e, w, a, b);
    assert (w[0], w[1]) in e;
  }

  lemma LeadsTrans<T(!new)>(e: Edges<T>, a: T, b: T, c: T)
    requires Leads(e, a, b) && Leads(e, b, c)
    ensures Leads(e, a, c)
  {
    var v :| Path(e, v, a, b);
    var w :| Path(e, w, b, c);
    var u := v + w[1..];
    forall k | 0 <= k < |u| - 1 ensures (u[k], u[k + 1]) in e {
      if k >= |v| - 1 { assert (w[k - |v| + 1], w[k - |v| + 2]) in e; }
    }
    assert Path(e, u, a, c);
  }

  // The last edge of a path, and what comes before it.
  lemma LeadsLast<T(!new)>(e: Edges<T>, w: seq<T>, a: T, b: T) returns (u: T)
    requires Path(e, w, a, b)
    ensures (u, b) in e && (u == a || (|w| > 2 && Path(e, w[..|w| - 1], a, u)))
  {
    u := w[|w| - 2];
  }

  // Numbers that grow along every edge rule cycles out.
  lemma {:induction false} RankGrows<T(!new)>(e: Edges<T>, rank: map<T, nat>, w: seq<T>)
    requires forall p :: p in e ==> p.0 in rank && p.1 in rank && rank[p.0] < rank[p.1]
    requires Walk(e, w) && |w| > 1
    ensures w[0] in rank && w[|w| - 1] in rank && rank[w[0]] < rank[w[|w| - 1]]
    decreases |w|
  {
    assert (w[0], w[1]) in e;
    if |w| > 2 { RankGrows(e, rank, w[1..]); }
  }

  lemma RankedIsAcyclic<T(!new)>(e: Edges<T>, rank: map<T, nat>)
    requires forall p :: p in e ==> p.0 in rank && p.1 in rank && rank[p.0] < rank[p.1]
    ensures !Cyclic(e)
  {
    if Cyclic(e) {
      var a :| Leads(e, a, a);
      var w :| Path(e, w, a, a);
      RankGrows(e, rank, w);
    }
  }

  // Among more places than values, two hold the same one.
  lemma {:induction false} Pigeonhole<T>(w: seq<T>, s: set<T>) returns (i: nat, j: nat)
    requires (forall k :: 0 <= k < |w| ==> w[k] in s) && |w| > |s|
    ensures i < j < |w| && w[i] == w[j]
    decreases |w|
  {
    var x := w[0];
    if j' :| 0 < j' < |w| && w[j'] == x {
      i, j := 0, j';
    } else {
      var i', j' := Pigeonhole(w[1..], s - {x});
      i, j := i' + 1, j' + 1;
    }
  }

  ghost predicate Follows<T(!new)>(e: Edges<T>, s: set<T>, v: T) {
    exists u :: u in s && (u, v) in e
  }

  // Everything in `s` has a predecessor there.
  ghost predicate NoSource<T(!new)>(e: Edges<T>, s: set<T>) {
    forall v :: v in s ==> Follows(e, s, v)
  }

  // A walk of any length that stays in `s`.
  lemma {:induction false} WalkBack<T(!new)>(e: Edges<T>, s: set<T>, b: T, n: nat) returns (w: seq<T>)
    requires b in s && NoSource(e, s)
    ensures |w| == n + 1 && Walk(e, w) && forall k :: 0 <= k < |w| ==> w[k] in s
    decreases n
  {
    if n == 0 {
      w := [b];
    } else {
      var v := WalkBack(e, s, b, n - 1);
      assert Follows(e, s, v[0]);
      hide Follows, NoSource;
      var a := Predecessor(e, s, v[0]);
      w := [a] + v;
    }
  }

  lemma Predecessor<T(!new)>(e: Edges<T>, s: set<T>, v: T) returns (u: T)
    requires Follows(e, s, v)
    ensures u in s && (u, v) in e
  {
    u :| u in s && (u, v) in e;
  }

  lemma NoSourceIsCyclic<T(!new)>(e: Edges<T>, s: set<T>)
    requires s != {} && NoSource(e, s)
    ensures Cyclic(e) && exists a :: a in s && Leads(e, a, a)
  {
    hide NoSource;
    var b :| b in s;
    var w := WalkBack(e, s, b, |s|);
    var i, j := Pigeonhole(w, s);
    assert Path(e, w[i..j + 1], w[i], w[i]);
    assert Leads(e, w[i], w[i]);
  }
}
