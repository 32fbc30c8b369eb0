/** Looking for a character in a text. */
module Text {

  // Where a character is next, or the end of the text.
  function Find(s: string, c: char, from: nat): (at: nat)
    requires from <= |s|
    ensures from <= at <= |s| && (at < |s| ==> s[at] == c)
    ensures forall i :: from <= i < at ==> s[i] != c
    decreases |s| - from
  {
    if from < |s| && s[from] != c then Find(s, c, from + 1) else from
  }

  lemma {:induction false} FindIs(s: string, c: char, from: nat, at: nat)
    requires from <= at <= |s| && (at < |s| ==> s[at] == c) && forall i :: from <= i < at ==> s[i] != c
    ensures Find(s, c, from) == at
    decreases at - from
  {
    if from < at { FindIs(s, c, from + 1, at); }
  }

  lemma {:induction false} FindShift(s: string, c: char, k: nat, from: nat)
    requires k <= from <= |s|
    ensures Find(s[k..], c, from - k) == Find(s, c, from) - k
    decreases |s| - from
  {
    if from < |s| && s[from] != c { FindShift(s, c, k, from + 1); }
  }
}
