/**
 String interning: the bytes of every distinct string once, one after the other, with a hash index
 from a string to its number.
 */
module StringPool {
  import opened Options
  import opened RobinHood

  // ---------------------------------------------------------------- what interning means

  // The strings known so far, in order of their numbers; the empty string has the number zero and
  // is not among them.
  ghost predicate Known(names: seq<string>) {
    (forall i, j :: 0 <= i < j < |names| ==> names[i] != names[j]) && forall i :: 0 <= i < |names| ==> names[i] != ""
  }

  ghost function Add(names: seq<string>, s: string): seq<string> {
    if s == "" || s in names then names else names + [s]
  }

  ghost predicate Denotes(names: seq<string>, id: nat, s: string) {
    if id == 0 then s == "" else id <= |names| && names[id - 1] == s
  }

  ghost function AddAll(names: seq<string>, list: seq<string>): seq<string>
    decreases |list|
  {
    if list == [] then names else AddAll(Add(names, list[0]), list[1..])
  }

  lemma {:induction false} AddAllGrows(names: seq<string>, list: seq<string>)
    requires Known(names)
    ensures Known(AddAll(names, list)) && names <= AddAll(names, list)
    decreases |list|
  {
    if list != [] { AddAllGrows(Add(names, list[0]), list[1..]); }
  }

  // Whatever was interned before, between and since, two ids handed out are equal exactly when the
  // strings are.
  lemma IdsAgree(names: seq<string>, before: seq<string>, s: string, between: seq<string>, t: string, a: nat, b: nat)
    requires Known(names)
    requires var first := Add(AddAll(names, before), s);
      Denotes(first, a, s) && Denotes(Add(AddAll(first, between), t), b, t)
    ensures a == b <==> s == t
  {
    AddAllGrows(names, before);
    var first := Add(AddAll(names, before), s);
    AddAllGrows(first, between);
    var then' := Add(AddAll(first, between), t);
    assert Known(then') && first <= then';
    hide Add, AddAll;
  }

  // ---------------------------------------------------------------- the pool

  function Fnv1a(s: string): bv32 {
    if s == "" then 2166136261 else Mix(Fnv1a(s[..|s| - 1]), s[|s| - 1])
  }

  function Mix(v: bv32, c: char): bv32 {
    (v ^ (c as int % 256) as bv32) * 16777619
  }

  function HashOf(s: string): nat {
    Fnv1a(s) as nat
  }

  method Hash(s: string) returns (h: nat)
    ensures h == HashOf(s)
  {
    hide Mix;
    var v: bv32 := 2166136261;
    for i := 0 to |s|
      invariant v == Fnv1a(s[..i])
    {
      assert s[..i + 1][..i] == s[..i];
      v := Mix(v, s[i]);
    }
    assert s[..|s|] == s;
    h := v as nat;
  }

  datatype Entry = Entry(offset: nat, length: nat)

  // The string an entry stands for; the store keeps a zero byte after each.
  function Key(bytes: string, e: Entry): string {
    if e.offset + e.length <= |bytes| then bytes[e.offset..e.offset + e.length] else ""
  }

  ghost function Keys(bytes: string, entries: seq<Entry>): (names: seq<string>)
    ensures |names| == |entries|
  {
    seq(|entries|, k requires 0 <= k < |entries| => Key(bytes, entries[k]))
  }

  // The entries lie within the bytes, and the index agrees with the strings they stand for.
  ghost predicate Consistent(bytes: string, entries: seq<Entry>, contents: multiset<(nat, nat)>) {
    && (forall k :: 0 <= k < |entries| ==> entries[k].offset + entries[k].length <= |bytes|)
    && Known(Keys(bytes, entries)) && Indexed(Keys(bytes, entries), contents)
  }

  lemma ConsistentGrows(bytes: string, entries: seq<Entry>, contents: multiset<(nat, nat)>, s: string)
    requires Consistent(bytes, entries, contents) && s != "" && s !in Keys(bytes, entries)
    ensures var bytes', entries' := bytes + s + "\0", entries + [Entry(|bytes|, |s|)];
      && Keys(bytes', entries') == Keys(bytes, entries) + [s]
      && Consistent(bytes', entries', contents + multiset{(FixHash(HashOf(s)), |entries| + 1)})
  {
    KeysGrow(bytes, entries, s);
    IndexedGrows(Keys(bytes, entries), contents, s);
    KnownGrows(Keys(bytes, entries), s);
    hide Indexed, FixHash, HashOf, Keys, Known;
  }

  lemma KnownGrows(names: seq<string>, s: string)
    requires Known(names) && s != "" && s !in names
    ensures Known(names + [s])
  {
  }

  lemma KeysGrow(bytes: string, entries: seq<Entry>, s: string)
    requires (forall k :: 0 <= k < |entries| ==> entries[k].offset + entries[k].length <= |bytes|)
    ensures Keys(bytes + s + "\0", entries + [Entry(|bytes|, |s|)]) == Keys(bytes, entries) + [s]
  {
    var bytes', entries' := bytes + s + "\0", entries + [Entry(|bytes|, |s|)];
    forall k | 0 <= k < |entries| ensures Key(bytes', entries'[k]) == Key(bytes, entries[k]) {
      var e := entries[k];
      assert bytes'[e.offset..e.offset + e.length] == bytes[e.offset..e.offset + e.length];
    }
    assert bytes'[|bytes|..|bytes| + |s|] == s;
  }

  // The index holds the number of each string, under its hash, and nothing else.
  ghost predicate Indexed(names: seq<string>, contents: multiset<(nat, nat)>) {
    forall h, v :: (h, v) in contents <==> 1 <= v <= |names| && h == FixHash(HashOf(names[v - 1]))
  }

  lemma IndexedGrows(names: seq<string>, contents: multiset<(nat, nat)>, s: string)
    requires Indexed(names, contents)
    ensures Indexed(names + [s], contents + multiset{(FixHash(HashOf(s)), |names| + 1)})
  {
    hide FixHash, HashOf;
    var more := contents + multiset{(FixHash(HashOf(s)), |names| + 1)};
    forall h, v ensures (h, v) in more <==> 1 <= v <= |names| + 1 && h == FixHash(HashOf((names + [s])[v - 1])) {
      assert (h, v) in more <==> (h, v) in contents || (h == FixHash(HashOf(s)) && v == |names| + 1);
    }
  }

  class Pool {
    var bytes: string
    var entries: seq<Entry>
    const index: Table

    ghost function Strings(): seq<string>
      reads this
    {
      Keys(bytes, entries)
    }

    ghost predicate Valid()
      reads this, index, index.slots
    {
      index.Valid() && Consistent(bytes, entries, index.Entries())
    }

    constructor ()
      ensures Valid() && Strings() == [] && fresh(index) && fresh(index.slots)
    {
      bytes, entries := "", [];
      index := new Table();
    }

    // The number of an interned string, or none.
    method Lookup(s: string) returns (found: Option<nat>)
      requires Valid() && s != ""
      ensures found.Some? ==> found.value > 0 && Denotes(Strings(), found.value, s)
      ensures found.None? ==> s !in Strings()
    {
      var h := Hash(s);
      var bs, es, n := bytes, entries, |entries|;
      hide HashOf, FixHash, Known, Table.Valid, Table.Entries;
      found := index.Find(h, v => 1 <= v <= n && Key(bs, es[v - 1]) == s);
      if found.None? && s in Strings() {
        var k :| 0 <= k < |Strings()| && Strings()[k] == s;
        assert (FixHash(h), k + 1) in index.Entries();
      }
    }

    method Intern(s: string) returns (id: nat)
      requires Valid()
      modifies this, index, index.slots
      ensures Valid() && (index.slots == old(index.slots) || fresh(index.slots))
      ensures Strings() == Add(old(Strings()), s) && Denotes(Strings(), id, s)
    {
      if s == "" { return 0; }
      var existing := Lookup(s);
      if existing.Some? {
        assert s == Strings()[existing.value - 1];
        return existing.value;
      }
      id := Append(s);
    }

    method Append(s: string) returns (id: nat)
      requires Valid() && s != "" && s !in Strings()
      modifies this, index, index.slots
      ensures Valid() && (index.slots == old(index.slots) || fresh(index.slots))
      ensures Strings() == old(Strings()) + [s] && id == |Strings()|
    {
      ConsistentGrows(bytes, entries, index.Entries(), s);
      hide HashOf, FixHash, Fnv1a, Table.Valid, Table.Entries, Keys, Consistent;
      var h := Hash(s);
      id := |entries| + 1;
      entries := entries + [Entry(|bytes|, |s|)];
      bytes := bytes + s + "\0";
      index.Insert(h, id);
    }

    // What an id stands for: nothing for one that was never handed out.
    method Get(id: nat) returns (s: string)
      requires Valid()
      ensures if id == 0 || id > |Strings()| then s == "" else Denotes(Strings(), id, s)
    {
      if id == 0 || id - 1 >= |entries| { return ""; }
      return Key(bytes, entries[id - 1]);
    }

    method Find(s: string) returns (id: nat)
      requires Valid()
      ensures if s in Strings() then id > 0 && Denotes(Strings(), id, s) else id == 0
    {
      if s == "" { return 0; }
      var found := Lookup(s);
      if found.Some? { assert s == Strings()[found.value - 1]; }
      return if found.Some? then found.value else 0;
    }
  }
}
