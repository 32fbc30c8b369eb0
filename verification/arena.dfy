/**
 Adjacency lists in one arena of words: a list owns a block of words whose size is the next power of
 two of the list's length, and moves to a new block twice as large when its own is full.
 */
module ArenaStore {
  import opened Bits

  // ---------------------------------------------------------------- powers of two

  // The words a list of this length owns.
  ghost function Block(n: nat): (b: nat)
    ensures n <= b && (n > 0 ==> b < 2 * n && PowerOfTwo(b)) && (n == 0 ==> b == 0)
  {
    if n <= 1 then n else 2 * Block((n + 1) / 2)
  }

  // A block is full exactly when the length is a power of two.
  lemma {:induction false} BlockSteps(n: nat)
    requires n > 0
    ensures PowerOfTwo(n) ==> Block(n) == n && Block(n + 1) == 2 * n
    ensures !PowerOfTwo(n) ==> n < Block(n) && Block(n + 1) == Block(n)
    decreases n
  {
    if n > 1 {
      BlockSteps(n / 2);
      assert n % 2 == 1 ==> (n + 1) / 2 == n / 2 + 1;
    }
  }

  // ---------------------------------------------------------------- the arena

  datatype ArenaSlice = ArenaSlice(offset: nat, length: nat)

  const NOTHING := ArenaSlice(0, 0)

  function Zeros(n: nat): (z: seq<nat>)
    ensures |z| == n
  {
    seq(n, _ => 0)
  }

  // The lengths at which a list moves, and the block it then gets.
  predicate Full(n: nat) {
    n == 0 || And(n, n - 1) == 0
  }

  lemma FullBlock(n: nat)
    requires Full(n)
    ensures Block(n) == n && Block(n + 1) == if n == 0 then 1 else n * 2
  {
    if n > 0 {
      AndBelow(n);
      BlockSteps(n);
    }
  }

  lemma SpareBlock(n: nat)
    requires !Full(n)
    ensures n < Block(n) == Block(n + 1)
  {
    AndBelow(n);
    BlockSteps(n);
  }

  predicate Fits(n: nat, s: ArenaSlice) {
    s.length > 0 ==> s.offset + s.length <= n
  }

  function Read(words: seq<nat>, s: ArenaSlice): seq<nat>
    requires Fits(|words|, s)
  {
    if s.length == 0 then [] else words[s.offset..s.offset + s.length]
  }

  // Below `n`, and outside the block from `lo` to `hi`, nothing has changed.
  ghost predicate Untouched(before: seq<nat>, after: seq<nat>, n: nat, lo: nat, hi: nat) {
    n <= |before| && n <= |after| && forall i :: 0 <= i < n && !(lo <= i < hi) ==> after[i] == before[i]
  }

  // The words of a list, copied past everything in use and followed by one more, in an arena grown
  // by a block.
  function Relocated(words: seq<nat>, size: nat, s: ArenaSlice, block: nat, value: nat): (r: seq<nat>)
    requires size <= |words| && Fits(size, s) && s.length < block
    ensures size + block <= |r| && Read(r, ArenaSlice(size, s.length + 1)) == Read(words, s) + [value]
    ensures forall lo, hi :: Untouched(words, r, size, lo, hi)
  {
    var front, moved, rest := words[..size], Read(words, s) + [value], size + s.length + 1;
    var tail := if rest <= |words| then words[rest..] else [];
    var fresh' := Zeros(if size + block > |words| then size + block - |words| else 0);
    assert (front + moved + (tail + fresh'))[|front|..|front| + |moved|] == moved;
    front + moved + (tail + fresh')
  }

  // The arena's words after a list got one more in its own block.
  function Extended(words: seq<nat>, ghost size: nat, s: ArenaSlice, ghost hi: nat, value: nat): (r: seq<nat>)
    requires s.length > 0 && s.offset + s.length < hi <= size <= |words|
    ensures |r| == |words| && Read(r, ArenaSlice(s.offset, s.length + 1)) == Read(words, s) + [value]
    ensures Untouched(words, r, size, s.offset, hi)
  {
    words[s.offset + s.length := value]
  }

  class Arena {
    var words: seq<nat>
    var size: nat

    ghost predicate Valid()
      reads this
    {
      size <= |words|
    }

    // The block of the slice lies within the arena.
    ghost predicate Owns(s: ArenaSlice)
      reads this
    {
      Valid() && (s.length > 0 ==> s.offset + Block(s.length) <= size)
    }

    ghost function Content(s: ArenaSlice): seq<nat>
      requires Owns(s)
      reads this
    {
      Read(words, s)
    }

    constructor ()
      ensures Valid() && size == 0
    {
      words, size := [], 0;
    }

    method Slice(s: ArenaSlice) returns (r: seq<nat>)
      requires Owns(s)
      ensures r == Content(s)
    {
      if s.length == 0 { return []; }
      return words[s.offset..s.offset + s.length];
    }

    // One more word at the end of a list. Either it goes into the list's own block, or the list
    // moves to a new block past everything else; no word of any other block changes.
    method AppendExtend(s: ArenaSlice, value: nat) returns (r: ArenaSlice)
      requires Owns(s)
      modifies this
      ensures Owns(r) && r.length == s.length + 1 && Content(r) == old(Content(s)) + [value]
      ensures Full(s.length) ==> r.offset == old(size) && size == old(size) + Block(r.length)
      ensures !Full(s.length) ==> r.offset == s.offset && size == old(size)
      ensures Untouched(old(words), words, old(size), s.offset, s.offset + Block(s.length))
    {
      hide Block, PowerOfTwo, Full, Relocated, Extended, Read, Untouched;
      if Full(s.length) {
        FullBlock(s.length);
        var block := if s.length == 0 then 1 else s.length * 2;
        r := ArenaSlice(size, s.length + 1);
        words := Relocated(words, size, s, block, value);
        size := size + block;
      } else {
        SpareBlock(s.length);
        words := Extended(words, size, s, s.offset + Block(s.length), value);
        r := ArenaSlice(s.offset, s.length + 1);
      }
    }

    method Clear()
      modifies this
      ensures Valid() && size == 0
    {
      size := 0;
    }
  }
}
