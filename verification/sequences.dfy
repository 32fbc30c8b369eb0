/** One sequence standing inside another, and sequences without repeats or in order. */
module Sequences {

  // `s[i..]` begins with `part`.
  predicate At<T(==)>(s: seq<T>, i: nat, part: seq<T>) {
    i + |part| <= |s| && forall k :: 0 <= k < |part| ==> s[i + k] == part[k]
  }

  lemma AtConcat<T>(s: seq<T>, i: nat, a: seq<T>, b: seq<T>)
    ensures At(s, i, a + b) <==> At(s, i, a) && At(s, i + |a|, b)
  {
    if At(s, i, a + b) {
      forall k | 0 <= k < |a| ensures s[i + k] == a[k] { assert (a + b)[k] == a[k]; }
      forall k | 0 <= k < |b| ensures s[i + |a| + k] == b[k] { assert (a + b)[|a| + k] == b[k]; }
    }
    if At(s, i, a) && At(s, i + |a|, b) {
      forall k | 0 <= k < |a + b| ensures s[i + k] == (a + b)[k] {
        if k >= |a| { assert s[i + |a| + (k - |a|)] == b[k - |a|]; }
      }
    }
  }

  lemma AtStart<T>(s: seq<T>, i: nat, part: seq<T>)
    requires At(s, i, part) && part != []
    ensures i < |s| && s[i] == part[0]
    ensures |part| > 1 ==> i + 1 < |s| && s[i + 1] == part[1]
  {
    assert s[i + 0] == part[0];
  }

  lemma AtLength<T>(s: seq<T>, i: nat, part: seq<T>)
    requires At(s, i, part)
    ensures i + |part| <= |s|
  {
  }

  predicate Distinct<T(==)>(s: seq<T>) {
    forall i, j :: 0 <= i < j < |s| ==> s[i] != s[j]
  }

  predicate Increasing(s: seq<nat>) {
    forall i, j :: 0 <= i < j < |s| ==> s[i] < s[j]
  }

  lemma IncreasingPush(s: seq<nat>, x: nat)
    requires Increasing(s) && forall y :: y in s ==> y < x
    ensures Increasing(s + [x])
  {
    forall i, j | 0 <= i < j < |s + [x]| ensures (s + [x])[i] < (s + [x])[j] {
      assert s[i] in s;
    }
  }
}
