/**
 The hash index behind string interning: open addressing in one array of slots, where an entry far
 from its home slot displaces one that is nearer to its own.
 */
module RobinHood {
  import opened Bits
  import opened Options

  // A hash of zero marks a slot empty. `displacement` is how far the entry lies past its home slot.
  datatype Slot = Slot(hash: nat, displacement: nat, value: nat)

  const EMPTY := Slot(0, 0, 0)

  // Zero is the mark of an empty slot and one is kept in reserve.
  function FixHash(h: nat): nat {
    if h < 2 then h + 2 else h
  }

  // ---------------------------------------------------------------- places on the ring

  function Home(cap: nat, h: nat): (i: nat)
    requires cap > 0
    ensures i < cap
  {
    And(h, cap - 1)
  }

  function Next(cap: nat, i: nat): (j: nat)
    requires cap > 0
    ensures j < cap
  {
    And(i + 1, cap - 1)
  }

  // With a power of two of slots, masking a hash takes its remainder, and masking a step goes around.
  lemma Ring(cap: nat, h: nat, i: nat)
    requires PowerOfTwo(cap) && i < cap
    ensures Home(cap, h) == h % cap && Next(cap, i) == if i + 1 == cap then 0 else i + 1
  {
    AndOnes(h, cap);
    AndNext(i, cap);
  }

  function Previous(cap: nat, i: nat): nat
    requires i < cap
  {
    if i == 0 then cap - 1 else i - 1
  }

  function Past(cap: nat, home: nat, d: nat): nat
    requires home < cap && d < cap
  {
    if home + d < cap then home + d else home + d - cap
  }

  // ---------------------------------------------------------------- the invariant

  // Each entry lies exactly as far past its home as it says.
  ghost predicate Placed(s: seq<Slot>, i: nat)
    requires i < |s|
  {
    s[i].hash != 0 ==>
      s[i].hash >= 2 && s[i].displacement < |s| && Past(|s|, Home(|s|, s[i].hash), s[i].displacement) == i
  }

  // Just before an entry that is not at home lies one displaced at least nearly as far.
  ghost predicate Queued(s: seq<Slot>, i: nat)
    requires i < |s|
  {
    s[i].hash != 0 && s[i].displacement > 0 ==> Backed(s, i, s[i].displacement)
  }

  ghost predicate Backed(s: seq<Slot>, i: nat, d: nat)
    requires i < |s|
  {
    var j := Previous(|s|, i);
    s[j].hash != 0 && s[j].displacement + 1 >= d
  }

  ghost predicate Sound(s: seq<Slot>) {
    forall i: nat :: i < |s| ==> Placed(s, i) && Queued(s, i)
  }

  // The entries, as (hash, value) pairs.
  ghost function Contents(s: seq<Slot>): multiset<(nat, nat)> {
    if s == [] then multiset{} else Contents(s[..|s| - 1]) + Holds(s[|s| - 1])
  }

  ghost function Holds(x: Slot): multiset<(nat, nat)> {
    if x.hash == 0 then multiset{} else multiset{(x.hash, x.value)}
  }

  lemma {:induction false} ContentsUpdate(s: seq<Slot>, i: nat, x: Slot)
    requires i < |s|
    ensures Contents(s[i := x]) + Holds(s[i]) == Contents(s) + Holds(x)
    decreases |s|
  {
    hide Holds;
    var s', front, back := s[i := x], s[..|s| - 1], s[|s| - 1];
    if i == |s| - 1 {
      assert s'[..|s| - 1] == front;
      assert Contents(s') == Contents(front) + Holds(x) && Contents(s) == Contents(front) + Holds(s[i]);
    } else {
      var front' := front[i := x];
      assert s'[..|s| - 1] == front';
      assert Contents(s') == Contents(front') + Holds(back) && Contents(s) == Contents(front) + Holds(back);
      ContentsUpdate(front, i, x);
      hide Contents;
      Exchange(Contents(front'), Contents(front), Holds(s[i]), Holds(x), Holds(back));
    }
  }

  lemma Exchange(a: multiset<(nat, nat)>, b: multiset<(nat, nat)>, c: multiset<(nat, nat)>, d: multiset<(nat, nat)>,
                 e: multiset<(nat, nat)>)
    requires a + c == b + d
    ensures (a + e) + c == (b + e) + d
  {
    assert (a + e) + c == (a + c) + e;
    assert (b + e) + d == (b + d) + e;
  }

  lemma {:induction false} ContentsHolds(s: seq<Slot>, h: nat, v: nat)
    ensures (h, v) in Contents(s) <==> exists i :: 0 <= i < |s| && s[i].hash != 0 && s[i].hash == h && s[i].value == v
    decreases |s|
  {
    if s != [] {
      var front, last := s[..|s| - 1], s[|s| - 1];
      ContentsHolds(front, h, v);
      assert forall i :: 0 <= i < |front| ==> front[i] == s[i];
      assert (h, v) in Contents(s) <==>
        (h, v) in Contents(front) || (last.hash != 0 && last.hash == h && last.value == v);
    }
  }

  // A table that is not full has an empty slot.
  lemma {:induction false} SomeEmpty(s: seq<Slot>) returns (e: nat)
    requires |Contents(s)| < |s|
    ensures e < |s| && s[e].hash == 0
    decreases |s|
  {
    if s[|s| - 1].hash == 0 {
      e := |s| - 1;
    } else {
      e := SomeEmpty(s[..|s| - 1]);
    }
  }

  // ---------------------------------------------------------------- runs of displaced entries

  // Behind an entry `d` past its home, every slot back to its home is taken, and by entries
  // displaced at least as far as their place in the run.
  lemma {:induction false} Run(s: seq<Slot>, home: nat, d: nat, t: nat)
    requires Sound(s) && home < |s| && t <= d < |s|
    requires var i := Past(|s|, home, d); s[i].hash != 0 && s[i].displacement >= d
    ensures var i := Past(|s|, home, t); s[i].hash != 0 && s[i].displacement >= t
    decreases d - t
  {
    if t < d {
      var i := Past(|s|, home, d);
      assert Queued(s, i) && Backed(s, i, s[i].displacement);
      assert Previous(|s|, i) == Past(|s|, home, d - 1);
      Run(s, home, d - 1, t);
    }
  }

  // Which place of the ring past `home` a slot is.
  function Offset(cap: nat, home: nat, i: nat): (t: nat)
    requires home < cap && i < cap
    ensures t < cap && Past(cap, home, t) == i
  {
    if home <= i then i - home else i + cap - home
  }

  // An entry in hand, `disp` past its home, about to try `slot`.
  ghost predicate InHand(s: seq<Slot>, slot: nat, h: nat, disp: nat) {
    && h >= 2 && slot < |s| && disp < |s| && Past(|s|, Home(|s|, h), disp) == slot
    && (disp > 0 ==> Backed(s, slot, disp))
  }

  // With a slot free somewhere, whatever cannot be placed here finds that slot before it has gone
  // around.
  lemma Onward(s: seq<Slot>, slot: nat, h: nat, disp: nat, free: nat)
    requires Sound(s) && slot < |s| && free < |s| && s[free].hash == 0 && s[slot].hash != 0 && PowerOfTwo(|s|)
    requires InHand(s, slot, h, disp) && s[slot].displacement >= disp
    ensures InHand(s, Next(|s|, slot), h, disp + 1) && Next(|s|, slot) < |s|
  {
    var home := Home(|s|, h);
    Ring(|s|, h, slot);
    hide Home, Next, PowerOfTwo;
    Run(s, home, disp, if Offset(|s|, home, free) <= disp then Offset(|s|, home, free) else 0);
  }

  // Placing what is in hand, where a slot is empty or its entry nearer home; that entry is then in
  // hand in its stead.
  lemma Displace(s: seq<Slot>, slot: nat, h: nat, disp: nat, value: nat)
    requires Sound(s) && slot < |s| && InHand(s, slot, h, disp) && (s[slot].hash == 0 || s[slot].displacement < disp)
    ensures var s' := s[slot := Slot(h, disp, value)];
      && Sound(s') && Contents(s') + Holds(s[slot]) == Contents(s) + multiset{(h, value)} && h != 0
      && (s[slot].hash != 0 ==> InHand(s', slot, s[slot].hash, s[slot].displacement))
  {
    var s' := s[slot := Slot(h, disp, value)];
    assert Placed(s, slot) && Queued(s, slot);
    forall i: nat | i < |s| ensures Placed(s', i) && Queued(s', i) {
      assert Placed(s, i) && Queued(s, i);
    }
    ContentsUpdate(s, slot, Slot(h, disp, value));
  }

  lemma StartsInHand(s: seq<Slot>, h: nat)
    requires |s| > 0 && h >= 2
    ensures InHand(s, Home(|s|, h), h, 0) && Home(|s|, h) < |s|
  {
  }

  // A probe that stops at an empty slot, or at an entry nearer its home than the probe is, has
  // missed nothing.
  lemma NothingMissed(s: seq<Slot>, h: nat, disp: nat, i: nat)
    requires Sound(s) && i < |s| && disp < |s| && s[i].hash == h && h >= 2
    requires var stop := s[Past(|s|, Home(|s|, h), disp)]; stop.hash == 0 || stop.displacement < disp
    ensures s[i].displacement < disp && Past(|s|, Home(|s|, h), s[i].displacement) == i
  {
    assert Placed(s, i);
    if disp <= s[i].displacement { Run(s, Home(|s|, h), s[i].displacement, disp); }
  }

  // ---------------------------------------------------------------- the table

  class Table {
    var slots: array<Slot>
    var count: nat

    // The table is sound and never more than four fifths full.
    ghost predicate Valid()
      reads this, slots
    {
      && Sound(slots[..]) && count == |Contents(slots[..])| && count <= slots.Length * 4 / 5
      && (slots.Length == 0 || (slots.Length >= 16 && PowerOfTwo(slots.Length)))
    }

    ghost function Entries(): multiset<(nat, nat)>
      reads this, slots
    {
      Contents(slots[..])
    }

    constructor ()
      ensures Valid() && fresh(slots) && Entries() == multiset{}
    {
      slots := new Slot[0];
      count := 0;
      new;
      assert slots[..] == [];
    }

    // The slots of the old array, in order, go into a new one.
    method Rebuild(cap: nat)
      requires Sound(slots[..]) && |Contents(slots[..])| < cap && PowerOfTwo(cap)
      modifies this`slots
      ensures fresh(slots) && slots.Length == cap
      ensures Sound(slots[..]) && Contents(slots[..]) == old(Contents(slots[..]))
    {
      var before := slots;
      slots := new Slot[cap](_ => EMPTY);
      EmptyTable(slots[..]);
      hide Sound, Contents;
      ReinsertAll(before);
    }

    method ReinsertAll(before: array<Slot>)
      requires Sound(before[..]) && |Contents(before[..])| < slots.Length && before != slots && PowerOfTwo(slots.Length)
      requires Sound(slots[..]) && Contents(slots[..]) == multiset{}
      modifies slots
      ensures Sound(slots[..]) && Contents(slots[..]) == Contents(before[..])
    {
      ghost var was := before[..];
      assert Contents(was[..0]) == multiset{};
      hide Sound, Contents, Holds;
      for i := 0 to before.Length
        invariant before[..] == was
        invariant Sound(slots[..]) && Contents(slots[..]) == Contents(was[..i])
      {
        Fills(was, i);
        PrefixSize(was, i + 1);
        NeverOne(was, i);
        Reinsert(before[i]);
      }
      assert was[..before.Length] == was;
    }

    method Reinsert(x: Slot)
      requires Sound(slots[..]) && |Contents(slots[..]) + Holds(x)| <= slots.Length && x.hash != 1 &&
        PowerOfTwo(slots.Length)
      modifies slots
      ensures Sound(slots[..]) && Contents(slots[..]) == old(Contents(slots[..])) + Holds(x)
    {
      hide Sound, Contents;
      if x.hash >= 2 {
        ProbeInsert(x.hash, x.value);
      }
    }

    method Insert(hash: nat, value: nat)
      requires Valid()
      modifies this, slots
      ensures Valid() && (slots == old(slots) || fresh(slots))
      ensures Entries() == old(Entries()) + multiset{(FixHash(hash), value)} && count == old(count) + 1
    {
      hide Sound, Contents, PowerOfTwo;
      Doubles(if slots.Length == 0 then 1 else slots.Length);
      if count >= slots.Length * 4 / 5 {
        Rebuild(if slots.Length == 0 then 16 else slots.Length * 2);
      }
      ProbeInsert(FixHash(hash), value);
      count := count + 1;
    }

    method Reserve(wanted: nat)
      requires Valid()
      modifies this
      ensures Valid() && (slots == old(slots) || fresh(slots))
      ensures Entries() == old(Entries()) && count == old(count) && wanted <= slots.Length * 4 / 5
    {
      var needed := wanted * 5 / 4 + 1;
      var cap := NextPowerOfTwo(if needed < 16 then 16 else needed, 1);
      if cap <= slots.Length { return; }
      Rebuild(cap);
    }

    method Clear()
      modifies this
      ensures Valid() && fresh(slots) && Entries() == multiset{}
    {
      slots := new Slot[0];
      count := 0;
      assert slots[..] == [];
    }

    // A value under this hash that matches, exactly when there is one.
    method Find(hash: nat, matches: nat -> bool) returns (found: Option<nat>)
      requires Valid()
      ensures found.Some? ==> matches(found.value) && (FixHash(hash), found.value) in Entries()
      ensures found.None? ==> forall v :: (FixHash(hash), v) in Entries() ==> !matches(v)
    {
      var cap := slots.Length;
      ghost var s := slots[..];
      if cap == 0 {
        assert s == [];
        return None;
      }
      var h := FixHash(hash);
      ghost var free := SomeEmpty(s);
      var slot: nat, disp: nat := Home(cap, h), 0;
      hide Sound, Contents, Home, Past, Next, PowerOfTwo;
      StartsInHand(s, h);
      PastHome(cap, h);
      while true
        invariant disp < cap && slot < cap && slot == Past(cap, Home(cap, h), disp)
        invariant forall t: nat :: t < disp ==> Passed(s, Past(cap, Home(cap, h), t), h, matches)
        decreases cap - disp
      {
        if slots[slot].hash == 0 || slots[slot].displacement < disp {
          Missing(s, h, disp, matches);
          return None;
        }
        if slots[slot].hash == h && matches(slots[slot].value) {
          ContentsHolds(s, h, slots[slot].value);
          return Some(slots[slot].value);
        }
        assert forall t: nat :: t <= disp ==> Passed(s, Past(cap, Home(cap, h), t), h, matches);
        NotAround(s, Home(cap, h), disp, free);
        disp := disp + 1;
        slot := Next(cap, slot);
      }
    }

    // Places an entry that is not there yet, moving others on where it must.
    method ProbeInsert(hash: nat, value: nat)
      requires Sound(slots[..]) && |Contents(slots[..])| < slots.Length && hash >= 2 && PowerOfTwo(slots.Length)
      modifies slots
      ensures Sound(slots[..]) && Contents(slots[..]) == old(Contents(slots[..])) + multiset{(hash, value)}
    {
      hide Sound, InHand, Contents, Home, Next, Past;
      ghost var total := Contents(slots[..]) + multiset{(hash, value)};
      ghost var free := SomeEmpty(slots[..]);
      var cap := slots.Length;
      var h: nat, v: nat, disp: nat := hash, value, 0;
      var slot: nat := Home(cap, hash);
      StartsInHand(slots[..], hash);
      while slots[slot].hash != 0
        invariant slot < cap && slots[free].hash == 0
        invariant Sound(slots[..]) && InHand(slots[..], slot, h, disp)
        invariant Contents(slots[..]) + multiset{(h, v)} == total
        decreases Offset(cap, slot, free)
      {
        ghost var before := slots[..];
        if slots[slot].displacement < disp {
          Displace(before, slot, h, disp, v);
          var evicted := slots[slot];
          slots[slot] := Slot(h, disp, v);
          assert slots[..] == before[slot := Slot(h, disp, v)];
          h, v, disp := evicted.hash, evicted.value, evicted.displacement;
        }
        Onward(slots[..], slot, h, disp, free);
        Nearer(cap, slot, free);
        disp := disp + 1;
        slot := Next(cap, slot);
      }
      ghost var before := slots[..];
      Displace(before, slot, h, disp, v);
      slots[slot] := Slot(h, disp, v);
      assert slots[..] == before[slot := Slot(h, disp, v)];
    }
  }

  lemma Fills(s: seq<Slot>, k: nat)
    requires k < |s|
    ensures Contents(s[..k + 1]) == Contents(s[..k]) + Holds(s[k])
  {
    assert s[..k + 1][..k] == s[..k];
  }

  lemma {:induction false} EmptyTable(s: seq<Slot>)
    requires forall i :: 0 <= i < |s| ==> s[i] == EMPTY
    ensures Contents(s) == multiset{} && Sound(s)
    decreases |s|
  {
    if s != [] { EmptyTable(s[..|s| - 1]); }
  }

  lemma {:induction false} PrefixSize(s: seq<Slot>, k: nat)
    requires k <= |s|
    ensures |Contents(s[..k])| <= |Contents(s)|
    decreases |s| - k
  {
    if k < |s| {
      Fills(s, k);
      PrefixSize(s, k + 1);
    } else {
      assert s[..k] == s;
    }
  }

  // A walk around the ring that meets no empty slot ends before it is back where it began.
  lemma NotAround(s: seq<Slot>, home: nat, disp: nat, free: nat)
    requires home < |s| && disp < |s| && free < |s| && s[free].hash == 0 && PowerOfTwo(|s|)
    requires forall t: nat :: t <= disp ==> s[Past(|s|, home, t)].hash != 0
    ensures disp + 1 < |s| && Past(|s|, home, disp + 1) == Next(|s|, Past(|s|, home, disp))
  {
    hide Next, PowerOfTwo;
    Ring(|s|, 0, Past(|s|, home, disp));
    assert Past(|s|, home, Offset(|s|, home, free)) == free;
  }

  ghost predicate Passed(s: seq<Slot>, i: nat, h: nat, matches: nat -> bool) {
    i < |s| && s[i].hash != 0 && !(s[i].hash == h && matches(s[i].value))
  }

  lemma Missing(s: seq<Slot>, h: nat, disp: nat, matches: nat -> bool)
    requires Sound(s) && disp < |s| && h >= 2
    requires var stop := s[Past(|s|, Home(|s|, h), disp)]; stop.hash == 0 || stop.displacement < disp
    requires forall t: nat :: t < disp ==> Passed(s, Past(|s|, Home(|s|, h), t), h, matches)
    ensures forall v :: (h, v) in Contents(s) ==> !matches(v)
  {
    hide Sound, Contents, Past;
    forall v | (h, v) in Contents(s) ensures !matches(v) {
      ContentsHolds(s, h, v);
      var i :| 0 <= i < |s| && s[i].hash == h && s[i].value == v;
      NothingMissed(s, h, disp, i);
      assert Passed(s, Past(|s|, Home(|s|, h), s[i].displacement), h, matches);
    }
  }

  lemma PastHome(cap: nat, h: nat)
    requires cap > 0
    ensures Past(cap, Home(cap, h), 0) == Home(cap, h)
  {
  }

  lemma NeverOne(s: seq<Slot>, i: nat)
    requires Sound(s) && i < |s|
    ensures s[i].hash == 0 || s[i].hash >= 2
  {
    assert Placed(s, i);
  }

  lemma Nearer(cap: nat, i: nat, free: nat)
    requires i < cap && free < cap && i != free && PowerOfTwo(cap)
    ensures Next(cap, i) < cap && Offset(cap, Next(cap, i), free) < Offset(cap, i, free)
  {
    Ring(cap, 0, i);
  }
}
