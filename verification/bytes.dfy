/** Numbers as little-endian bytes, and runs of them inside a file. */
module Bytes {
  import opened Sequences

  type Byte = n: nat | n < 256

  function Pow256(k: nat): (p: nat)
    ensures p > 0
  {
    if k == 0 then 1 else 256 * Pow256(k - 1)
  }

  const U32_LIMIT := 0x1_0000_0000

  // The low `k` bytes of a number.
  function LE(v: nat, k: nat): (r: seq<Byte>)
    ensures |r| == k
  {
    if k == 0 then [] else [v % 256] + LE(v / 256, k - 1)
  }

  function UnLE(b: seq<Byte>): nat {
    if b == [] then 0 else b[0] + 256 * UnLE(b[1..])
  }

  lemma {:induction false} LERound(v: nat, k: nat)
    requires v < Pow256(k)
    ensures UnLE(LE(v, k)) == v
    decreases k
  {
    if k > 0 {
      LERound(v / 256, k - 1);
      assert LE(v, k)[1..] == LE(v / 256, k - 1);
    }
  }

  function ReadLE(b: seq<Byte>, at: nat, k: nat): nat
    requires at + k <= |b|
  {
    UnLE(b[at..at + k])
  }

  lemma ReadAt(b: seq<Byte>, at: nat, v: nat, k: nat)
    requires At(b, at, LE(v, k)) && v < Pow256(k)
    ensures ReadLE(b, at, k) == v
  {
    assert b[at..at + k] == LE(v, k);
    LERound(v, k);
  }

  lemma U32Limit()
    ensures Pow256(4) == U32_LIMIT && Pow256(1) == 256 && Pow256(2) == 65536 && Pow256(8) == U32_LIMIT * U32_LIMIT
  {
    assert Pow256(1) == 256 && Pow256(2) == 65536 && Pow256(3) == 16777216 && Pow256(4) == U32_LIMIT;
    assert Pow256(5) == 256 * U32_LIMIT && Pow256(6) == 65536 * U32_LIMIT && Pow256(7) == 16777216 * U32_LIMIT;
  }

  // ---------------------------------------------------------------- words

  function Words(ws: seq<nat>): (r: seq<Byte>)
    ensures |r| == 4 * |ws|
  {
    if ws == [] then [] else LE(ws[0], 4) + Words(ws[1..])
  }

  predicate AllU32(ws: seq<nat>) {
    forall k :: 0 <= k < |ws| ==> ws[k] < U32_LIMIT
  }

  function ReadU32(b: seq<Byte>, at: nat): nat
    requires at + 4 <= |b|
  {
    ReadLE(b, at, 4)
  }

  lemma {:induction false} WordAt(b: seq<Byte>, at: nat, ws: seq<nat>, k: nat)
    requires At(b, at, Words(ws)) && AllU32(ws) && k < |ws|
    ensures at + 4 * k + 4 <= |b| && ReadU32(b, at + 4 * k) == ws[k]
    decreases k
  {
    AtConcat(b, at, LE(ws[0], 4), Words(ws[1..]));
    if k == 0 {
      U32Limit();
      ReadAt(b, at, ws[0], 4);
    } else {
      WordAt(b, at + 4, ws[1..], k - 1);
    }
  }

  lemma {:induction false} WordsConcat(a: seq<nat>, b: seq<nat>)
    ensures Words(a + b) == Words(a) + Words(b)
    decreases |a|
  {
    if a == [] {
      assert a + b == b;
    } else {
      assert (a + b)[1..] == a[1..] + b;
      WordsConcat(a[1..], b);
    }
  }

  // ---------------------------------------------------------------- arrays of records

  function Flat(parts: seq<seq<Byte>>): seq<Byte> {
    if parts == [] then [] else parts[0] + Flat(parts[1..])
  }

  lemma {:induction false} FlatPush(parts: seq<seq<Byte>>, part: seq<Byte>)
    ensures Flat(parts + [part]) == Flat(parts) + part
    decreases |parts|
  {
    if parts == [] {
      assert [part][1..] == [] && part + [] == part;
    } else {
      assert (parts + [part])[1..] == parts[1..] + [part];
      FlatPush(parts[1..], part);
    }
  }

  // Where the parts before a given one end, it stands.
  lemma {:induction false} PartAt(b: seq<Byte>, at: nat, parts: seq<seq<Byte>>, i: nat)
    requires At(b, at, Flat(parts)) && i < |parts|
    ensures At(b, at + |Flat(parts[..i])|, parts[i])
    ensures |Flat(parts[..i])| + |parts[i]| <= |Flat(parts)|
    decreases i
  {
    AtConcat(b, at, parts[0], Flat(parts[1..]));
    if i > 0 {
      PartAt(b, at + |parts[0]|, parts[1..], i - 1);
      assert parts[..i][0] == parts[0] && parts[..i][1..] == parts[1..][..i - 1];
    } else {
      assert parts[..0] == [];
    }
  }

  lemma {:induction false} FlatLength(parts: seq<seq<Byte>>, width: nat)
    requires forall k :: 0 <= k < |parts| ==> |parts[k]| == width
    ensures |Flat(parts)| == width * |parts|
    decreases |parts|
  {
    if parts != [] {
      FlatLength(parts[1..], width);
      assert width * |parts| == width + width * (|parts| - 1);
    }
  }

  // Records of one size lie at multiples of it.
  lemma RecordAt(b: seq<Byte>, at: nat, parts: seq<seq<Byte>>, width: nat, i: nat)
    requires At(b, at, Flat(parts)) && i < |parts| && forall k :: 0 <= k < |parts| ==> |parts[k]| == width
    ensures At(b, at + width * i, parts[i])
  {
    PartAt(b, at, parts, i);
    FlatLength(parts[..i], width);
  }
}
