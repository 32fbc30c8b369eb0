/**
 The strings of a saved record, each stored once behind its length. Offset zero is the empty string.
 */
module StringTables {
  import opened Bytes
  import opened Options
  import opened Sequences

  const MAX_STRING_LENGTH := 0xFFFF
  const MAX_U32 := 0xFFFF_FFFF

  datatype TableError = TooLong | TableFull

  // ---------------------------------------------------------------- reading

  // The string at an offset of a table that lies in `b` from `start` to `end`.
  function ReadString(b: seq<Byte>, start: nat, end: nat, offset: nat): Option<seq<Byte>>
    requires end <= |b|
  {
    var at := start + offset;
    if at + 2 > end then None
    else
      var length := ReadLE(b, at, 2);
      if length == 0 then Some([])
      else if at + 2 + length > end then None
      else Some(b[at + 2..at + 2 + length])
  }

  // The same string is read from a file that holds the table, or from a longer table.
  lemma ReadElsewhere(b: seq<Byte>, start: nat, table: seq<Byte>, offset: nat)
    requires At(b, start, table)
    ensures start + |table| <= |b|
    ensures ReadString(b, start, start + |table|, offset) == ReadString(table, 0, |table|, offset)
  {
    if offset + 2 <= |table| {
      assert b[start + offset..start + offset + 2] == table[offset..offset + 2];
      var length := ReadLE(table, offset, 2);
      if offset + 2 + length <= |table| {
        assert b[start + offset + 2..start + offset + 2 + length] == table[offset + 2..offset + 2 + length];
      }
    }
  }

  lemma ReadLonger(table: seq<Byte>, more: seq<Byte>, offset: nat)
    requires ReadString(table, 0, |table|, offset).Some?
    ensures ReadString(table + more, 0, |table + more|, offset) == ReadString(table, 0, |table|, offset)
  {
    var all := table + more;
    assert all[offset..offset + 2] == table[offset..offset + 2];
    var length := ReadLE(table, offset, 2);
    assert all[offset + 2..offset + 2 + length] == table[offset + 2..offset + 2 + length];
  }

  lemma ReadNew(table: seq<Byte>, s: seq<Byte>)
    requires |s| <= MAX_STRING_LENGTH
    ensures var all := table + LE(|s|, 2) + s; ReadString(all, 0, |all|, |table|) == Some(s)
  {
    var all := table + LE(|s|, 2) + s;
    U32Limit();
    assert all[|table|..|table| + 2] == LE(|s|, 2);
    LERound(|s|, 2);
    assert all[|table| + 2..|table| + 2 + |s|] == s;
  }

  // ---------------------------------------------------------------- how large it gets

  // The size of a table of these strings: two bytes for the empty string, and each other string once,
  // behind its length.
  function TableSize(texts: seq<seq<Byte>>): nat {
    if texts == [] then 0
    else
      var front, last := texts[..|texts| - 1], texts[|texts| - 1];
      var before := TableSize(front);
      if last in front then before
      else (if before == 0 then 2 else before) + if last == [] then 0 else 2 + |last|
  }

  predicate TextsFit(texts: seq<seq<Byte>>) {
    (forall t :: t in texts ==> |t| <= MAX_STRING_LENGTH) && TableSize(texts) <= MAX_U32
  }

  lemma {:induction false} TextsFitBefore(a: seq<seq<Byte>>, b: seq<seq<Byte>>)
    requires TextsFit(a + b)
    ensures TextsFit(a)
    decreases |b|
  {
    if b == [] {
      assert a + b == a;
    } else {
      var front := b[..|b| - 1];
      assert (a + b)[..|a + b| - 1] == a + front;
      assert forall t :: t in a + front ==> t in a + b;
      TextsFitBefore(a, front);
    }
  }

  lemma SizeOfOneMore(texts: seq<seq<Byte>>, s: seq<Byte>)
    ensures TableSize(texts + [s]) == if s in texts then TableSize(texts)
      else (if TableSize(texts) == 0 then 2 else TableSize(texts)) + if s == [] then 0 else 2 + |s|
    ensures TextsFit(texts) ==>
      (TextsFit(texts + [s]) <==> |s| <= MAX_STRING_LENGTH && TableSize(texts + [s]) <= MAX_U32)
    ensures TextsFit(texts) && (s in texts || s == []) ==> TextsFit(texts + [s])
  {
    assert (texts + [s])[..|texts|] == texts;
  }

  lemma {:induction false} SizeOfEmpty(texts: seq<seq<Byte>>)
    ensures TableSize(texts) == 0 <==> texts == []
    decreases |texts|
  {
    if texts != [] { SizeOfEmpty(texts[..|texts| - 1]); }
  }

  // ---------------------------------------------------------------- building

  class StringTable {
    var data: seq<Byte>
    var offsets: map<seq<Byte>, nat>
    ghost var added: seq<seq<Byte>>

    ghost predicate Valid()
      reads this
    {
      && (data == [] ==> offsets == map[])
      && (data != [] ==> ReadString(data, 0, |data|, 0) == Some([]))
      && forall s :: s in offsets ==>
           s != [] && ReadString(data, 0, |data|, offsets[s]) == Some(s) && offsets[s] <= MAX_U32
    }

    // It holds what has been added to it, and nothing else.
    ghost predicate Holds()
      reads this
    {
      && Valid() && TextsFit(added) && |data| == TableSize(added)
      && forall s :: s in offsets <==> s != [] && s in added
    }

    constructor ()
      ensures Holds() && data == [] && added == []
    {
      data, offsets, added := [], map[], [];
    }

    method Start()
      requires Valid()
      modifies `data
      ensures Valid() && old(data) <= data && data != [] && data == if old(data) == [] then [0, 0] else old(data)
    {
      if data == [] {
        assert LE(0, 2) + [] == [0, 0] && [] + [0, 0] + [] == [0, 0];
        data := [0, 0];
        ReadEmpty();
      }
    }

    // The offset a string is stored at: the same for equal strings, and zero for the empty one. It is
    // refused exactly when it does not fit.
    method Add(s: seq<Byte>) returns (r: Result<nat, TableError>)
      requires Holds()
      modifies this
      ensures Valid() && old(data) <= data
      ensures r.Ok? <==> TextsFit(old(added) + [s])
      ensures r.Ok? ==> Holds() && added == old(added) + [s]
      ensures r.Ok? ==> ReadString(data, 0, |data|, r.value) == Some(s) && r.value <= MAX_U32
      ensures s in old(offsets) ==> r == Ok(old(offsets)[s]) && data == old(data)
      ensures r.Ok? && s != [] ==> s in offsets && offsets[s] == r.value
      ensures forall t :: t in old(offsets) ==> t in offsets && offsets[t] == old(offsets)[t]
      ensures r.Err? ==> |s| > MAX_STRING_LENGTH || |data| + 2 + |s| > MAX_U32
    {
      hide TextsFit, TableSize, ReadString;
      SizeOfOneMore(added, s);
      SizeOfEmpty(added);
      if s == [] {
        Start();
        added := added + [s];
        return Ok(0);
      }
      if s in offsets {
        added := added + [s];
        return Ok(offsets[s]);
      }
      if |s| > MAX_STRING_LENGTH { return Err(TooLong); }
      Start();
      if |data| > MAX_U32 - (2 + |s|) { return Err(TableFull); }
      var offset := |data|;
      ghost var before := data;
      data := data + LE(|s|, 2) + s;
      Extended(before, offsets, s);
      offsets := offsets[s := offset];
      added := added + [s];
      return Ok(offset);
    }
  }

  lemma ReadEmpty()
    ensures ReadString([0, 0], 0, 2, 0) == Some([])
  {
    var b: seq<Byte> := [0, 0];
    assert b[0..2] == [0, 0] && b[1..] == [0] && b[1..][1..] == [];
    assert UnLE([0, 0]) == 0;
  }

  lemma Extended(data: seq<Byte>, offsets: map<seq<Byte>, nat>, s: seq<Byte>)
    requires data != [] && ReadString(data, 0, |data|, 0) == Some([]) && |s| <= MAX_STRING_LENGTH
    requires forall t :: t in offsets ==> ReadString(data, 0, |data|, offsets[t]) == Some(t)
    ensures var all := data + LE(|s|, 2) + s;
      && ReadString(all, 0, |all|, |data|) == Some(s) && ReadString(all, 0, |all|, 0) == Some([])
      && forall t :: t in offsets ==> ReadString(all, 0, |all|, offsets[t]) == Some(t)
  {
    hide ReadString, LE;
    var all := data + LE(|s|, 2) + s;
    assert all == data + (LE(|s|, 2) + s);
    ReadNew(data, s);
    ReadLonger(data, LE(|s|, 2) + s, 0);
    forall t | t in offsets ensures ReadString(all, 0, |all|, offsets[t]) == Some(t) {
      ReadLonger(data, LE(|s|, 2) + s, offsets[t]);
    }
  }

  lemma ReadGrown(a: seq<Byte>, b: seq<Byte>, offset: nat)
    requires a <= b && ReadString(a, 0, |a|, offset).Some?
    ensures ReadString(b, 0, |b|, offset) == ReadString(a, 0, |a|, offset)
  {
    assert b == a + b[|a|..];
    ReadLonger(a, b[|a|..], offset);
  }
}
