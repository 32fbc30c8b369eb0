/** A rule's operands, grouped by the written token each came from. */
module TokenLists {
  import opened Options

  // Token `t` owns the operands from `starts[t - 1]` up to `starts[t]`.
  datatype TokenList = TokenList(ids: seq<nat>, starts: seq<nat>)

  predicate Grouping(l: TokenList) {
    && l.starts != [] && l.starts[0] == 0 && l.starts[|l.starts| - 1] == |l.ids|
    && forall i, j :: 0 <= i < j < |l.starts| ==> l.starts[i] <= l.starts[j]
  }

  function TokenCount(l: TokenList): nat {
    if l.starts == [] then 0 else |l.starts| - 1
  }

  // The operands of a token, none for one that was never written.
  function Token(l: TokenList, number: nat): seq<nat>
    requires Grouping(l)
  {
    if number == 0 || number >= |l.starts| then [] else l.ids[l.starts[number - 1]..l.starts[number]]
  }

  // The operands whose token is `t`, in order.
  function Of(ids: seq<nat>, tokenOf: seq<nat>, t: nat): seq<nat>
    requires |ids| == |tokenOf|
  {
    if ids == [] then []
    else Of(ids[..|ids| - 1], tokenOf[..|ids| - 1], t) + if tokenOf[|ids| - 1] == t then [ids[|ids| - 1]] else []
  }

  predicate Ascending(s: seq<nat>) {
    forall i, j :: 0 <= i < j < |s| ==> s[i] <= s[j]
  }

  // A run of operands of one token, with none of it before or after.
  lemma {:induction false} OfRun(ids: seq<nat>, tokenOf: seq<nat>, t: nat, lo: nat, hi: nat)
    requires |ids| == |tokenOf| && lo <= hi <= |ids|
    requires forall i :: 0 <= i < |ids| ==> (tokenOf[i] == t <==> lo <= i < hi)
    ensures Of(ids, tokenOf, t) == ids[lo..hi]
    decreases |ids|
  {
    if ids != [] {
      var n := |ids| - 1;
      if hi == |ids| {
        if lo == hi {
          OfRun(ids[..n], tokenOf[..n], t, n, n);
        } else {
          OfRun(ids[..n], tokenOf[..n], t, lo, n);
          assert ids[lo..hi] == ids[..n][lo..n] + [ids[n]];
        }
      } else {
        OfRun(ids[..n], tokenOf[..n], t, lo, hi);
        assert ids[..n][lo..hi] == ids[lo..hi];
      }
    }
  }

  // Grouping operands by ascending token numbers keeps every operand with its token; tokens without
  // operands keep their number.
  method Grouped(ids: seq<nat>, tokenOf: seq<nat>, tokenCount: nat) returns (l: TokenList)
    requires |ids| == |tokenOf| && Ascending(tokenOf) &&
      forall i :: 0 <= i < |tokenOf| ==> 1 <= tokenOf[i] <= tokenCount
    ensures Grouping(l) && l.ids == ids && TokenCount(l) == tokenCount
    ensures forall t :: 1 <= t <= tokenCount ==> Token(l, t) == Of(ids, tokenOf, t)
  {
    var starts: seq<nat> := [];
    var next := 0;
    for token := 0 to tokenCount + 1
      invariant |starts| == token && next <= |tokenOf| && (token > 0 ==> starts[token - 1] == next)
      invariant token == 0 ==> next == 0
      invariant forall t :: 0 <= t < token ==> Bound(tokenOf, t, starts[t]) && starts[t] <= next
    {
      while next < |tokenOf| && tokenOf[next] <= token
        invariant next <= |tokenOf| && (token > 0 ==> starts[token - 1] <= next)
        invariant forall i :: 0 <= i < next ==> tokenOf[i] <= token
        invariant forall t :: 0 <= t < token ==> Bound(tokenOf, t, starts[t]) && starts[t] <= next
      {
        next := next + 1;
      }
      starts := starts + [next];
    }
    l := TokenList(ids, starts);
    NoneBelow(tokenOf, starts[0]);
    assert starts[tokenCount] == |ids|;
    forall i, j | 0 <= i < j < |starts| ensures starts[i] <= starts[j] {
      BoundsGrow(tokenOf, i, starts[i], j, starts[j]);
    }
    forall t | 1 <= t <= tokenCount ensures Token(l, t) == Of(ids, tokenOf, t) {
      assert Bound(tokenOf, t - 1, starts[t - 1]) && Bound(tokenOf, t, starts[t]);
      OfRun(ids, tokenOf, t, starts[t - 1], starts[t]);
    }
  }

  // How many operands have a token up to `t`.
  ghost predicate Bound(tokenOf: seq<nat>, t: nat, n: nat) {
    && n <= |tokenOf| && (forall i :: 0 <= i < n ==> tokenOf[i] <= t) &&
      forall i :: n <= i < |tokenOf| ==> tokenOf[i] > t
  }

  lemma NoneBelow(tokenOf: seq<nat>, n: nat)
    requires Bound(tokenOf, 0, n) && forall i :: 0 <= i < |tokenOf| ==> tokenOf[i] >= 1
    ensures n == 0
  {
    assert |tokenOf| > 0 ==> tokenOf[0] >= 1;
  }

  lemma BoundsGrow(tokenOf: seq<nat>, s: nat, m: nat, t: nat, n: nat)
    requires Bound(tokenOf, s, m) && Bound(tokenOf, t, n) && s <= t
    ensures m <= n
  {
    assert n < |tokenOf| ==> tokenOf[n] > t;
  }

  // A recorded grouping, refused unless it spans its operands.
  method FromStarts(ids: seq<nat>, starts: seq<nat>) returns (r: Option<TokenList>)
    ensures r.Some? <==> Grouping(TokenList(ids, starts))
    ensures r.Some? ==> r.value == TokenList(ids, starts)
  {
    if starts == [] || starts[0] != 0 || starts[|starts| - 1] != |ids| { return None; }
    for i := 1 to |starts|
      invariant forall j, k :: 0 <= j < k < i ==> starts[j] <= starts[k]
    {
      if starts[i] < starts[i - 1] { return None; }
    }
    return Some(TokenList(ids, starts));
  }
}
