/**
 The edges of a graph with, for every node, the list of those that leave it and of those that enter
 it, all lists sharing one arena.
 */
module Adjacency {
  import opened Bits
  import opened BuildGraph
  import opened ArenaStore

  datatype Key = Out(node: NodeId) | In(node: NodeId)

  type Lists = map<Key, seq<nat>>

  type Slices = map<Key, ArenaSlice>

  // ---------------------------------------------------------------- the lists the edges define

  ghost function ListOf(lists: Lists, k: Key): seq<nat> {
    if k in lists then lists[k] else []
  }

  ghost function Put(lists: Lists, k: Key, i: nat): Lists {
    lists[k := ListOf(lists, k) + [i]]
  }

  ghost function PutEdge(lists: Lists, e: Edge, i: nat): Lists {
    Put(Put(lists, Out(e.from), i), In(e.to), i)
  }

  ghost function ListsOf(edges: seq<Edge>): Lists {
    if edges == [] then map[]
    else PutEdge(ListsOf(edges[..|edges| - 1]), edges[|edges| - 1], |edges| - 1)
  }

  predicate Touches(k: Key, e: Edge) {
    if k.Out? then e.from == k.node else e.to == k.node
  }

  // A node's list holds exactly the positions of its edges, in the order they were added.
  lemma {:induction false} ListsOfEdges(edges: seq<Edge>, k: Key)
    ensures var list := ListOf(ListsOf(edges), k);
      && (forall i: nat :: i in list <==> i < |edges| && Touches(k, edges[i]))
      && (forall p, q :: 0 <= p < q < |list| ==> list[p] < list[q])
    decreases |edges|
  {
    ListsStep(edges, k);
    hide ListsOf, ListOf, Touches;
    if edges != [] {
      var front, n := edges[..|edges| - 1], |edges| - 1;
      ListsOfEdges(front, k);
      var before := ListOf(ListsOf(front), k);
      forall p | 0 <= p < |before| ensures before[p] < n {
        assert before[p] in before;
      }
      assert forall i: nat :: i < n ==> edges[i] == front[i];
    }
  }

  lemma ListsStep(edges: seq<Edge>, k: Key)
    ensures edges == [] ==> ListOf(ListsOf(edges), k) == []
    ensures edges != [] ==>
      var n := |edges| - 1;
      ListOf(ListsOf(edges), k) == ListOf(ListsOf(edges[..n]), k) + if Touches(k, edges[n]) then [n] else []
  {
  }

  // ---------------------------------------------------------------- sums over the lists

  ghost function Sum(m: map<Key, nat>): nat {
    if m == map[] then 0 else
      var k :| k in m;
      m[k] + Sum(m - {k})
  }

  lemma {:induction false} SumWithout(m: map<Key, nat>, k: Key)
    requires k in m
    ensures Sum(m) == m[k] + Sum(m - {k})
    decreases |m|
  {
    var l :| l in m && Sum(m) == m[l] + Sum(m - {l});
    if l != k {
      SumWithout(m - {l}, k);
      SumWithout(m - {k}, l);
      assert m - {l} - {k} == m - {k} - {l};
    }
  }

  lemma SumPut(m: map<Key, nat>, k: Key, v: nat)
    ensures Sum(m[k := v]) == Sum(m) + v - (if k in m then m[k] else 0)
  {
    var m' := m[k := v];
    SumWithout(m', k);
    assert m' - {k} == m - {k};
    if k in m { SumWithout(m, k); } else { assert m - {k} == m; }
  }

  lemma {:induction false} SumBelow(a: map<Key, nat>, b: map<Key, nat>)
    requires a.Keys == b.Keys && forall k :: k in a ==> a[k] + 1 <= 4 * b[k]
    ensures Sum(a) + |a| <= 4 * Sum(b)
    decreases |a|
  {
    if a != map[] {
      var k :| k in a;
      SumWithout(a, k);
      SumWithout(b, k);
      SumBelow(a - {k}, b - {k});
      assert |a| == |a - {k}| + 1 by {
        assert a.Keys == (a - {k}).Keys + {k};
        assert |a| == |a.Keys| && |a - {k}| == |(a - {k}).Keys|;
      }
    }
  }

  ghost function Lengths(lists: Lists): map<Key, nat> {
    map k | k in lists :: |lists[k]|
  }

  // What growing to this length has used up: every block on the way, the last one included.
  ghost function Spending(n: nat): nat {
    if n == 0 then 0 else 2 * Block(n) - 1
  }

  ghost function Spent(lists: Lists): map<Key, nat> {
    map k | k in lists :: Spending(|lists[k]|)
  }

  lemma SpendingGrows(n: nat)
    ensures Spending(n + 1) == Spending(n) + if Full(n) then Block(n + 1) else 0
    ensures (n > 0 ==> Spending(n) + 1 <= 4 * n) && Spending(0) == 0
  {
    if Full(n) { FullBlock(n); } else { SpareBlock(n); }
  }

  lemma {:induction false} AllLengths(edges: seq<Edge>)
    ensures Sum(Lengths(ListsOf(edges))) == 2 * |edges|
    decreases |edges|
  {
    if edges != [] {
      var front, last, n := edges[..|edges| - 1], edges[|edges| - 1], |edges| - 1;
      AllLengths(front);
      var a := ListsOf(front);
      LengthsPut(a, Out(last.from), n);
      LengthsPut(Put(a, Out(last.from), n), In(last.to), n);
    }
  }

  lemma LengthsPut(lists: Lists, k: Key, i: nat)
    ensures Sum(Lengths(Put(lists, k, i))) == Sum(Lengths(lists)) + 1
  {
    hide Sum;
    SumPut(Lengths(lists), k, |ListOf(lists, k)| + 1);
    assert Lengths(Put(lists, k, i)) == Lengths(lists)[k := |ListOf(lists, k)| + 1];
  }

  lemma SpentPut(lists: Lists, k: Key, i: nat)
    ensures var n := |ListOf(lists, k)|;
      Sum(Spent(Put(lists, k, i))) == Sum(Spent(lists)) + if Full(n) then Block(n + 1) else 0
  {
    hide Full, Block, Spending, Sum;
    var n := |ListOf(lists, k)|;
    SpendingGrows(n);
    SumPut(Spent(lists), k, Spending(n + 1));
    assert Spent(Put(lists, k, i)) == Spent(lists)[k := Spending(n + 1)];
  }

  // The whole arena takes fewer than eight words an edge.
  lemma SpentIsBounded(edges: seq<Edge>)
    ensures Sum(Spent(ListsOf(edges))) <= 8 * |edges| && (edges != [] ==> Sum(Spent(ListsOf(edges))) < 8 * |edges|)
  {
    hide ListsOf, Spending, Block, Sum;
    var lists := ListsOf(edges);
    AllLengths(edges);
    forall k | k in lists ensures Spent(lists)[k] + 1 <= 4 * Lengths(lists)[k] {
      ListsOfNonEmpty(edges, k);
      SpendingGrows(|lists[k]|);
    }
    SumBelow(Spent(lists), Lengths(lists));
    if edges != [] {
      LastListed(edges);
      assert Out(edges[|edges| - 1].from) in Spent(lists);
    }
  }

  lemma LastListed(edges: seq<Edge>)
    requires edges != []
    ensures Out(edges[|edges| - 1].from) in ListsOf(edges)
  {
  }

  lemma {:induction false} ListsOfNonEmpty(edges: seq<Edge>, k: Key)
    requires k in ListsOf(edges)
    ensures ListsOf(edges)[k] != []
    decreases |edges|
  {
    if edges != [] && k in ListsOf(edges[..|edges| - 1]) { ListsOfNonEmpty(edges[..|edges| - 1], k); }
  }

  // ---------------------------------------------------------------- the layout

  ghost predicate Within(words: seq<nat>, size: nat, s: ArenaSlice, list: seq<nat>) {
    && 0 < s.length && s.offset + Block(s.length) <= size <= |words|
    && Read(words, s) == list && |list| == s.length
  }

  ghost predicate Apart(s: ArenaSlice, t: ArenaSlice) {
    s.offset + Block(s.length) <= t.offset || t.offset + Block(t.length) <= s.offset
  }

  // Every list lies in its own block, no two blocks overlap, and the arena has grown by just the
  // blocks the lists have gone through.
  ghost predicate Laid(words: seq<nat>, size: nat, slices: Slices, lists: Lists) {
    && slices.Keys == lists.Keys && size == Sum(Spent(lists)) && size <= |words|
    && (forall k :: k in slices ==> Within(words, size, slices[k], lists[k]))
    && forall k, l :: k in slices && l in slices && k != l ==> Apart(slices[k], slices[l])
  }

  function SliceAt(slices: Slices, k: Key): ArenaSlice {
    if k in slices then slices[k] else NOTHING
  }

  lemma ReadUntouched(before: seq<nat>, after: seq<nat>, size: nat, lo: nat, hi: nat, s: ArenaSlice)
    requires Untouched(before, after, size, lo, hi) && s.offset + s.length <= size
    requires hi <= lo || s.offset + s.length <= lo || hi <= s.offset
    ensures Read(after, s) == Read(before, s)
  {
  }

  // What one append does to the arena: `s` grows into `r`.
  ghost predicate Extends(words: seq<nat>, size: nat, s: ArenaSlice, words': seq<nat>, size': nat, r: ArenaSlice) {
    && r.length == s.length + 1 && r.offset + Block(r.length) <= size' <= |words'|
    && Untouched(words, words', size, s.offset, s.offset + Block(s.length))
    && (if Full(s.length) then r.offset == size && size' == size + Block(r.length)
        else r.offset == s.offset && size' == size)
  }

  // It leaves every other list as it was, and apart.
  lemma OtherList(words: seq<nat>, size: nat, s: ArenaSlice, words': seq<nat>, size': nat, r: ArenaSlice,
                  other: ArenaSlice, list: seq<nat>)
    requires Extends(words, size, s, words', size', r) && Within(words, size, other, list) &&
      (s.length == 0 || Apart(s, other))
    ensures Within(words', size', other, list) && Apart(r, other) && Apart(other, r)
  {
    hide Full, Block, PowerOfTwo, Read, Untouched;
    if s.length == 0 {
      BlockOfNothing();
    } else if !Full(s.length) {
      SpareBlock(s.length);
    }
    ReadUntouched(words, words', size, s.offset, s.offset + Block(s.length), other);
  }

  lemma BlockOfNothing()
    ensures Full(0) && Block(0) == 0
  {
  }

  // One append keeps the layout.
  lemma LaidPut(words: seq<nat>, size: nat, slices: Slices, lists: Lists, k: Key, i: nat, words': seq<nat>, size': nat,
                r: ArenaSlice)
    requires Laid(words, size, slices, lists) && Extends(words, size, SliceAt(slices, k), words', size', r)
    requires Fits(|words'|, r) && Read(words', r) == ListOf(lists, k) + [i]
    ensures Laid(words', size', slices[k := r], Put(lists, k, i))
  {
    hide Full, Block, PowerOfTwo, Read, Untouched, Sum, Spent, Apart, Within, Extends;
    var s := SliceAt(slices, k);
    LengthAt(words, size, slices, lists, k);
    SpentPut(lists, k, i);
    NowHere(words, size, s, words', size', r, ListOf(lists, k) + [i]);
    forall l | l in slices && l != k
      ensures Within(words', size', slices[l], lists[l]) && Apart(r, slices[l]) && Apart(slices[l], r) {
      OtherList(words, size, s, words', size', r, slices[l], lists[l]);
    }
  }

  lemma LengthAt(words: seq<nat>, size: nat, slices: Slices, lists: Lists, k: Key)
    requires Laid(words, size, slices, lists)
    ensures var s := SliceAt(slices, k); s.length == |ListOf(lists, k)| && (s.length == 0 <==> k !in slices)
  {
    if k in slices { assert Within(words, size, slices[k], lists[k]); }
  }

  lemma NowHere(words: seq<nat>, size: nat, s: ArenaSlice, words': seq<nat>, size': nat, r: ArenaSlice, list: seq<nat>)
    requires Extends(words, size, s, words', size', r) && Fits(|words'|, r) && Read(words', r) == list &&
      |list| == s.length + 1
    ensures Within(words', size', r, list) && size' <= |words'|
    ensures size' == size + if Full(s.length) then Block(s.length + 1) else 0
  {
  }

  // ---------------------------------------------------------------- the edge lists

  class EdgeLists {
    var edges: seq<Edge>
    var slices: Slices
    const arena: Arena

    ghost predicate Valid()
      reads this, arena
    {
      Laid(arena.words, arena.size, slices, ListsOf(edges))
    }

    constructor ()
      ensures Valid() && edges == [] && fresh(arena)
    {
      edges, slices := [], map[];
      arena := new Arena();
    }

    method Append(k: Key, i: nat, ghost lists: Lists)
      requires Laid(arena.words, arena.size, slices, lists)
      modifies this`slices, arena
      ensures Laid(arena.words, arena.size, slices, Put(lists, k, i))
    {
      hide Full, Block, PowerOfTwo, Read, Untouched, Laid, Sum, Spent, Put;
      SliceOwned(arena.words, arena.size, slices, lists, k);
      ghost var words, size := arena.words, arena.size;
      ghost var before := slices;
      var r := arena.AppendExtend(SliceAt(slices, k), i);
      slices := slices[k := r];
      LaidPut(words, size, before, lists, k, i, arena.words, arena.size, r);
    }

    method AppendEdge(e: Edge, i: nat, ghost lists: Lists)
      requires Laid(arena.words, arena.size, slices, lists)
      modifies this`slices, arena
      ensures Laid(arena.words, arena.size, slices, PutEdge(lists, e, i))
    {
      hide Laid, Put;
      Append(Out(e.from), i, lists);
      Append(In(e.to), i, Put(lists, Out(e.from), i));
    }

    // The new edge's position goes to the end of its tail's list and of its head's.
    method AddEdge(e: Edge)
      requires Valid()
      modifies this, arena
      ensures Valid() && edges == old(edges) + [e]
    {
      hide Laid, PutEdge;
      AppendEdge(e, |edges|, ListsOf(edges));
      edges := edges + [e];
      assert edges[..|edges| - 1] == old(edges);
    }

    // An edge between nodes that are not both known is refused.
    method AddValidEdge(e: Edge, nodes: set<NodeId>) returns (ok: bool)
      requires Valid()
      modifies this, arena
      ensures Valid() && (ok <==> e.from in nodes && e.to in nodes)
      ensures edges == if ok then old(edges) + [e] else old(edges)
    {
      ok := e.from in nodes && e.to in nodes;
      if ok { AddEdge(e); }
    }

    // Building all lists anew from the edges gives the same lists.
    method BuildEdgeIndices()
      modifies this`slices, arena
      ensures Valid()
    {
      arena.Clear();
      slices := map[];
      ghost var es := edges;
      hide Laid, PutEdge;
      EmptyLaid(arena.words);
      for i := 0 to |edges|
        invariant Laid(arena.words, arena.size, slices, ListsOf(es[..i]))
      {
        assert es[..i + 1][..i] == es[..i];
        AppendEdge(edges[i], i, ListsOf(es[..i]));
      }
      assert es[..|es|] == es;
    }

    // The edges that leave a node (or enter it), in the order they were added.
    method Lookup(k: Key) returns (found: seq<Edge>)
      requires Valid()
      ensures var list := ListOf(ListsOf(edges), k);
        |found| == |list| && forall p :: 0 <= p < |list| ==> list[p] < |edges| && found[p] == edges[list[p]]
    {
      var s := SliceAt(slices, k);
      SliceOwned(arena.words, arena.size, slices, ListsOf(edges), k);
      ListsOfEdges(edges, k);
      hide Laid, ListsOf, Block, Read;
      var span := arena.Slice(s);
      forall p | 0 <= p < |span| ensures span[p] < |edges| {
        assert span[p] in span;
      }
      found := Pick(edges, span);
    }
  }

  method Pick(edges: seq<Edge>, span: seq<nat>) returns (found: seq<Edge>)
    requires forall p :: 0 <= p < |span| ==> span[p] < |edges|
    ensures |found| == |span| && forall p :: 0 <= p < |span| ==> found[p] == edges[span[p]]
  {
    found := [];
    for p := 0 to |span|
      invariant |found| == p && forall q :: 0 <= q < p ==> found[q] == edges[span[q]]
    {
      found := found + [edges[span[p]]];
    }
  }

  lemma EmptyLaid(words: seq<nat>)
    ensures Laid(words, 0, map[], map[])
  {
  }

  lemma SliceOwned(words: seq<nat>, size: nat, slices: Slices, lists: Lists, k: Key)
    requires Laid(words, size, slices, lists)
    ensures var s := SliceAt(slices, k);
      && size <= |words| && (s.length > 0 ==> s.offset + Block(s.length) <= size)
      && Fits(|words|, s) && Read(words, s) == ListOf(lists, k)
  {
    if k in slices { assert Within(words, size, slices[k], lists[k]); }
  }
}
