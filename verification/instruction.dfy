/**
 A command as atoms: literal text and flags that stand for operands. Commands are recorded in the
 spelling of a template and read back from it.
 */
module Instructions {
  import opened Options
  import opened Text

  datatype AtomKind =
    | AllInputs | OrderOnlyInputs | InputBase | InputNoExt | InputExt | AllOutputs | OutputNoExt | InputDir
    | NthInput | NthInputBase | NthInputNoExt | NthOrderOnlyInput | NthOutput

  datatype Atom = Literal(text: string) | GroupRef(name: string) | Flag(kind: AtomKind)
    | Nth(kind: AtomKind, operand: nat)

  type Instruction = seq<Atom>

  type Reading<T> = Result<T, ParseError>

  datatype ParseError = Unfinished(num: nat) | BadLetter(num: nat, letter: char) | OutOfRange(num: nat)

  predicate IsNth(kind: AtomKind) {
    kind.NthInput? || kind.NthInputBase? || kind.NthInputNoExt? || kind.NthOrderOnlyInput? || kind.NthOutput?
  }

  function LetterOf(kind: AtomKind): char {
    match kind
    case AllInputs => 'f'
    case NthInput => 'f'
    case OrderOnlyInputs => 'i'
    case NthOrderOnlyInput => 'i'
    case InputBase => 'b'
    case NthInputBase => 'b'
    case InputNoExt => 'B'
    case NthInputNoExt => 'B'
    case InputExt => 'e'
    case AllOutputs => 'o'
    case NthOutput => 'o'
    case OutputNoExt => 'O'
    case InputDir => 'd'
  }

  function KindForLetter(letter: char, numbered: bool): AtomKind {
    if numbered then
      if letter == 'f' then NthInput
      else if letter == 'b' then NthInputBase
      else if letter == 'B' then NthInputNoExt
      else if letter == 'i' then NthOrderOnlyInput
      else NthOutput
    else if letter == 'f' then AllInputs
    else if letter == 'i' then OrderOnlyInputs
    else if letter == 'b' then InputBase
    else if letter == 'B' then InputNoExt
    else if letter == 'e' then InputExt
    else if letter == 'o' then AllOutputs
    else if letter == 'O' then OutputNoExt
    else InputDir
  }

  predicate IsUnnumberedFlag(c: char) {
    c in "fibBeoOd"
  }

  predicate IsNumberedLetter(c: char) {
    c in "fbBoi"
  }

  // The numbered flags an instruction may hold.
  predicate Accepts(kind: AtomKind, operand: nat) {
    IsNth(kind) && 1 <= operand <= 98
  }

  // What an atom must be like to be spelled: a group name ends at its first '>'.
  predicate ValidAtom(a: Atom) {
    match a
    case Literal(_) => true
    case GroupRef(name) => '>' !in name
    case Flag(kind) => !IsNth(kind)
    case Nth(kind, operand) => Accepts(kind, operand)
  }

  predicate Valid(a: Instruction) {
    forall i :: 0 <= i < |a| ==> ValidAtom(a[i])
  }

  // ---------------------------------------------------------------- building

  // Literal text not yet made an atom, and the atoms so far.
  datatype State = State(pending: string, atoms: Instruction)

  const START := State("", [])

  function Flushed(st: State): Instruction {
    if st.pending == "" then st.atoms else st.atoms + [Literal(st.pending)]
  }

  function AddLiteral(st: State, text: string): State {
    State(st.pending + text, st.atoms)
  }

  function Add(st: State, a: Atom): State {
    if a.Literal? then AddLiteral(st, a.text) else State("", Flushed(st) + [a])
  }

  function AddAll(st: State, a: Instruction): State
    decreases |a|
  {
    if a == [] then st else AddAll(Add(st, a[0]), a[1..])
  }

  // Adjacent literals made one, and empty ones dropped.
  function Fuse(a: Instruction): Instruction {
    Flushed(AddAll(START, a))
  }

  predicate Fused(a: Instruction) {
    && (forall i :: 0 <= i < |a| && a[i].Literal? ==> a[i].text != "")
    && forall i :: 0 <= i < |a| - 1 ==> !(a[i].Literal? && a[i + 1].Literal?)
  }

  // What is built never ends in a literal while text is pending.
  predicate Building(st: State) {
    Fused(st.atoms) && (st.atoms != [] ==> !st.atoms[|st.atoms| - 1].Literal?)
  }

  lemma {:induction false} AddAllBuilds(st: State, a: Instruction)
    requires Building(st) && Valid(st.atoms) && Valid(a)
    ensures Building(AddAll(st, a)) && Valid(AddAll(st, a).atoms)
    decreases |a|
  {
    if a != [] { AddAllBuilds(Add(st, a[0]), a[1..]); }
  }

  lemma FuseIsFused(a: Instruction)
    requires Valid(a)
    ensures Fused(Fuse(a)) && Valid(Fuse(a))
  {
    AddAllBuilds(START, a);
  }

  // An instruction that is fused already stays as it is.
  lemma {:induction false} FusedStays(st: State, a: Instruction)
    requires Fused(a) && (a != [] && a[0].Literal? ==> st.pending == "")
    ensures Flushed(AddAll(st, a)) == Flushed(st) + a
    decreases |a|
  {
    if a != [] {
      var st' := Add(st, a[0]);
      if a[0].Literal? { assert "" + a[0].text == a[0].text; }
      assert Flushed(st') == Flushed(st) + [a[0]];
      assert forall i :: 0 <= i < |a[1..]| ==> a[1..][i] == a[i + 1];
      FusedStays(st', a[1..]);
      assert Flushed(st) + a == (Flushed(st) + [a[0]]) + a[1..];
    }
  }

  class InstructionBuilder {
    var pending: string
    var atoms: Instruction

    function Built(): State
      reads this
    {
      State(pending, atoms)
    }

    constructor ()
      ensures Built() == START
    {
      pending, atoms := "", [];
    }

    method Flush()
      modifies this
      ensures Built() == State("", Flushed(old(Built())))
    {
      if pending == "" { return; }
      atoms := atoms + [Literal(pending)];
      pending := "";
    }

    method AddText(text: string)
      modifies this
      ensures Built() == AddLiteral(old(Built()), text)
    {
      if text == "" {
        assert pending + text == pending;
        return;
      }
      pending := pending + text;
    }

    method AddFlag(kind: AtomKind)
      modifies this
      ensures Built() == Add(old(Built()), Flag(kind))
    {
      Flush();
      atoms := atoms + [Flag(kind)];
    }

    // Refuses an operand out of range, and then changes nothing.
    method AddNth(kind: AtomKind, operand: nat) returns (ok: bool)
      modifies this
      ensures ok <==> Accepts(kind, operand)
      ensures Built() == if ok then Add(old(Built()), Nth(kind, operand)) else old(Built())
    {
      if !IsNth(kind) || operand < 1 || operand > 98 { return false; }
      Flush();
      atoms := atoms + [Nth(kind, operand)];
      return true;
    }

    method AddGroupRef(name: string)
      modifies this
      ensures Built() == Add(old(Built()), GroupRef(name))
    {
      Flush();
      atoms := atoms + [GroupRef(name)];
    }

    method Take() returns (taken: Instruction)
      modifies this
      ensures taken == Flushed(old(Built())) && Built() == START
    {
      Flush();
      taken := atoms;
      atoms := [];
    }
  }

  // ---------------------------------------------------------------- spelling

  function Digit(d: nat): char
    requires d < 10
  {
    "0123456789"[d]
  }

  function Decimal(n: nat): string {
    if n < 10 then [Digit(n)] else Decimal(n / 10) + [Digit(n % 10)]
  }

  // A literal's own percent signs are doubled.
  function Escape(text: string): string {
    if text == "" then "" else EscapedChar(text[0]) + Escape(text[1..])
  }

  function EscapedChar(c: char): string {
    if c == '%' then "%%" else [c]
  }

  function Spell(a: Atom): string {
    match a
    case Literal(text) => Escape(text)
    case GroupRef(name) => "%<" + name + ">"
    case Flag(kind) => "%" + [LetterOf(kind)]
    case Nth(kind, operand) => "%" + Decimal(operand) + [LetterOf(kind)]
  }

  function Render(a: Instruction): string {
    if a == [] then "" else Spell(a[0]) + Render(a[1..])
  }

  method RenderInstruction(a: Instruction) returns (text: string)
    ensures text == Render(a)
  {
    text := "";
    for i := 0 to |a|
      invariant text + Render(a[i..]) == Render(a)
    {
      ghost var rest := Render(a[i + 1..]);
      assert a[i..][1..] == a[i + 1..];
      assert text + (Spell(a[i]) + rest) == (text + Spell(a[i])) + rest;
      if a[i].Literal? {
        text := RenderLiteral(text, a[i].text);
      } else {
        text := text + Spell(a[i]);
      }
    }
    assert a[|a|..] == [] && text + "" == text;
  }

  method RenderLiteral(before: string, s: string) returns (text: string)
    ensures text == before + Escape(s)
  {
    hide Escape;
    text := before;
    assert s[0..] == s;
    for i := 0 to |s|
      invariant text + Escape(s[i..]) == before + Escape(s)
    {
      EscapeStep(s[i..]);
      assert s[i..][1..] == s[i + 1..];
      ghost var rest := Escape(s[i + 1..]);
      assert text + (EscapedChar(s[i]) + rest) == (text + EscapedChar(s[i])) + rest;
      ghost var was := text;
      if s[i] == '%' { text := text + "%"; }
      text := text + [s[i]];
      assert text == was + EscapedChar(s[i]);
    }
    EscapeStep("");
    assert s[|s|..] == "" && text + "" == text;
  }

  // ---------------------------------------------------------------- reading back

  predicate IsDigit(c: char) {
    '0' <= c <= '9'
  }

  function DigitsEnd(text: string, from: nat): (end: nat)
    requires from <= |text|
    ensures from <= end <= |text| && (end < |text| ==> !IsDigit(text[end]))
    ensures forall i :: from <= i < end ==> IsDigit(text[i])
    decreases |text| - from
  {
    if from < |text| && IsDigit(text[from]) then DigitsEnd(text, from + 1) else from
  }

  function Value(digits: string): nat {
    if digits == "" then 0 else Value(digits[..|digits| - 1]) * 10 + (digits[|digits| - 1] as int - '0' as int) % 10
  }

  // A number that does not fit leaves the zero it started from.
  function NumberOf(digits: string): nat {
    if Value(digits) > 2147483647 then 0 else Value(digits)
  }

  // Reading one character, or one flag, at a time.
  function ParseFrom(text: string, st: State): Reading<State>
    decreases |text|
  {
    if text == "" then Ok(st)
    else if text[0] != '%' then ParseFrom(text[1..], AddLiteral(st, [text[0]]))
    else if |text| == 1 then Ok(AddLiteral(st, "%"))
    else if text[1] == '%' then ParseFrom(text[2..], AddLiteral(st, "%"))
    else if IsDigit(text[1]) then ParseNumbered(text, st)
    else if text[1] == '<' then
      var end := Find(text, '>', 2);
      if end == |text| then ParseFrom(text[2..], AddLiteral(st, "%<"))
      else ParseFrom(text[end + 1..], Add(st, GroupRef(text[2..end])))
    else if IsUnnumberedFlag(text[1]) then ParseFrom(text[2..], Add(st, Flag(KindForLetter(text[1], false))))
    else ParseFrom(text[2..], AddLiteral(st, text[..2]))
  }

  function ParseNumbered(text: string, st: State): Reading<State>
    requires |text| > 1 && text[0] == '%' && IsDigit(text[1])
    decreases |text|, 0
  {
    var end := DigitsEnd(text, 2);
    var num := NumberOf(text[1..end]);
    if end == |text| then Err(Unfinished(num))
    else if !IsNumberedLetter(text[end]) then Err(BadLetter(num, text[end]))
    else
      var kind := KindForLetter(text[end], true);
      if !Accepts(kind, num) then Err(OutOfRange(num))
      else ParseFrom(text[end + 1..], Add(st, Nth(kind, num)))
  }

  function Parse(text: string): Reading<Instruction> {
    match ParseFrom(text, START)
    case Ok(st) => Ok(Flushed(st))
    case Err(e) => Err(e)
  }

  // How the reading of a text begins.
  lemma ParseStep(text: string, st: State)
    requires text != ""
    ensures text[0] != '%' ==> ParseFrom(text, st) == ParseFrom(text[1..], AddLiteral(st, [text[0]]))
    ensures text == "%" ==> ParseFrom(text, st) == Ok(AddLiteral(st, "%"))
    ensures text[0] == '%' && |text| > 1 ==>
      && (text[1] == '%' ==> ParseFrom(text, st) == ParseFrom(text[2..], AddLiteral(st, "%")))
      && (IsDigit(text[1]) ==> ParseFrom(text, st) == ParseNumbered(text, st))
      && (text[1] == '<' ==>
            var end := Find(text, '>', 2);
            ParseFrom(text, st) == if end == |text| then ParseFrom(text[2..], AddLiteral(st, "%<"))
                                   else ParseFrom(text[end + 1..], Add(st, GroupRef(text[2..end]))))
      && (IsUnnumberedFlag(text[1]) ==>
          ParseFrom(text, st) == ParseFrom(text[2..], Add(st, Flag(KindForLetter(text[1], false)))))
      && (text[1] != '%' && !IsDigit(text[1]) && text[1] != '<' && !IsUnnumberedFlag(text[1]) ==>
            ParseFrom(text, st) == ParseFrom(text[2..], AddLiteral(st, text[..2])))
  {
  }

  lemma ParseNothing(st: State)
    ensures ParseFrom("", st) == Ok(st)
  {
  }

  // A run of plain characters is read as one.
  lemma {:induction false} ReadRun(text: string, n: nat, st: State)
    requires n <= |text| && forall i :: 0 <= i < n ==> text[i] != '%'
    ensures ParseFrom(text, st) == ParseFrom(text[n..], AddLiteral(st, text[..n]))
    decreases n
  {
    if n == 0 {
      assert text[0..] == text && AddLiteral(st, text[..0]) == st;
    } else {
      ReadRun(text[1..], n - 1, AddLiteral(st, [text[0]]));
      assert text[1..][n - 1..] == text[n..];
      assert (st.pending + [text[0]]) + text[1..][..n - 1] == st.pending + text[..n];
    }
  }

  method ParseInstruction(text: string) returns (r: Reading<Instruction>)
    ensures r == Parse(text)
  {
    var builder := new InstructionBuilder();
    var pos := 0;
    assert text[0..] == text;
    while pos < |text|
      invariant pos <= |text| && fresh(builder)
      invariant ParseFrom(text, START) == ParseFrom(text[pos..], builder.Built())
      decreases |text| - pos
    {
      var percent := Find(text, '%', pos);
      ReadRun(text[pos..], percent - pos, builder.Built());
      assert text[pos..][percent - pos..] == text[percent..] && text[pos..][..percent - pos] == text[pos..percent];
      builder.AddText(text[pos..percent]);
      if percent == |text| {
        pos := percent;
      } else {
        var err;
        pos, err := ParseFlag(text, percent, builder);
        if err.Some? { return Err(err.value); }
      }
    }
    var taken := builder.Take();
    r := Ok(taken);
  }

  // What follows a percent sign.
  method ParseFlag(text: string, percent: nat, builder: InstructionBuilder) returns (pos: nat, err: Option<ParseError>)
    requires percent < |text| && text[percent] == '%'
    modifies builder
    ensures err.Some? ==> ParseFrom(text[percent..], old(builder.Built())) == Err(err.value)
    ensures err.None? ==>
      percent < pos <= |text| &&
      ParseFrom(text[percent..], old(builder.Built())) == ParseFrom(text[pos..], builder.Built())
  {
    hide ParseFrom, ParseNumbered, Find, Add, KindForLetter;
    ghost var t, st := text[percent..], builder.Built();
    ParseStep(t, st);
    err := None;
    if percent + 1 >= |text| {
      builder.AddText("%");
      ParseNothing(builder.Built());
      assert text[percent + 1..] == "" && t == "%";
      return percent + 1, None;
    }
    var flag := text[percent + 1];
    assert t[2..] == text[percent + 2..];
    pos := percent + 2;
    if flag == '%' {
      builder.AddText("%");
    } else if IsDigit(flag) {
      pos, err := ParseNumber(text, percent, builder);
    } else if flag == '<' {
      var end := Find(text, '>', pos);
      FindShift(text, '>', percent, pos);
      if end == |text| {
        builder.AddText("%<");
        return;
      }
      assert t[end - percent + 1..] == text[end + 1..] && t[2..end - percent] == text[pos..end];
      builder.AddGroupRef(text[pos..end]);
      pos := end + 1;
    } else if IsUnnumberedFlag(flag) {
      builder.AddFlag(KindForLetter(flag, false));
    } else {
      builder.AddText("%");
      builder.AddText([flag]);
      assert (st.pending + "%") + [flag] == st.pending + t[..2];
    }
  }

  method ParseNumber(text: string, percent: nat, builder: InstructionBuilder)
    returns (pos: nat, err: Option<ParseError>)
    requires percent + 1 < |text| && text[percent] == '%' && IsDigit(text[percent + 1])
    modifies builder
    ensures err.Some? ==> ParseFrom(text[percent..], old(builder.Built())) == Err(err.value)
    ensures err.None? ==>
      percent < pos <= |text| &&
      ParseFrom(text[percent..], old(builder.Built())) == ParseFrom(text[pos..], builder.Built())
  {
    ghost var t, st := text[percent..], builder.Built();
    var end := DigitsEnd(text, percent + 2);
    DigitsShift(text, percent, percent + 2);
    var num := NumberOf(text[percent + 1..end]);
    assert t[1..end - percent] == text[percent + 1..end];
    assert ParseFrom(t, st) == ParseNumbered(t, st);
    if end >= |text| { return |text|, Some(Unfinished(num)); }
    var letter := text[end];
    assert t[end - percent] == letter;
    if !IsNumberedLetter(letter) { return end, Some(BadLetter(num, letter)); }
    var ok := builder.AddNth(KindForLetter(letter, true), num);
    if !ok { return end, Some(OutOfRange(num)); }
    assert t[end - percent + 1..] == text[end + 1..];
    return end + 1, None;
  }

  lemma {:induction false} DigitsShift(text: string, k: nat, from: nat)
    requires k <= from <= |text|
    ensures DigitsEnd(text[k..], from - k) == DigitsEnd(text, from) - k
    decreases |text| - from
  {
    if from < |text| && IsDigit(text[from]) { DigitsShift(text, k, from + 1); }
  }

  // ---------------------------------------------------------------- there and back

  lemma {:induction false} EscapedReads(text: string, rest: string, st: State)
    ensures ParseFrom(Escape(text) + rest, st) == ParseFrom(rest, AddLiteral(st, text))
    decreases |text|
  {
    hide ParseFrom, Escape;
    EscapeStep(text);
    if text == "" {
      assert "" + rest == rest && AddLiteral(st, "") == st;
    } else {
      var more := Escape(text[1..]) + rest;
      EscapedOne(text[0], more, st);
      assert Escape(text) + rest == EscapedChar(text[0]) + more;
      EscapedReads(text[1..], rest, AddLiteral(st, [text[0]]));
      assert (st.pending + [text[0]]) + text[1..] == st.pending + text;
    }
  }

  lemma EscapedOne(c: char, more: string, st: State)
    ensures ParseFrom(EscapedChar(c) + more, st) == ParseFrom(more, AddLiteral(st, [c]))
  {
    hide ParseFrom;
    var all := EscapedChar(c) + more;
    ParseStep(all, st);
    assert all[|EscapedChar(c)|..] == more;
  }

  lemma EscapeStep(text: string)
    ensures Escape(text) == if text == "" then "" else EscapedChar(text[0]) + Escape(text[1..])
  {
  }

  lemma {:induction false} DecimalIsNumber(n: nat)
    ensures |Decimal(n)| > 0 && Value(Decimal(n)) == n && forall i :: 0 <= i < |Decimal(n)| ==> IsDigit(Decimal(n)[i])
    decreases n
  {
    hide Decimal, Digit, Value, IsDigit;
    DecimalStep(n);
    var q, d := n / 10, n % 10;
    DigitMeans(d);
    var front := if n >= 10 then Decimal(q) else "";
    if n >= 10 { DecimalIsNumber(q); } else { NoDigits(); }
    ValuePush(front, Digit(d));
  }

  lemma DecimalStep(n: nat)
    ensures Decimal(n) == (if n >= 10 then Decimal(n / 10) else "") + [Digit(n % 10)]
  {
  }

  lemma NoDigits()
    ensures Value("") == 0
  {
  }

  lemma DigitMeans(d: nat)
    requires d < 10
    ensures IsDigit(Digit(d)) && Digit(d) as int - '0' as int == d
  {
  }

  lemma ValuePush(digits: string, c: char)
    requires IsDigit(c)
    ensures Value(digits + [c]) == Value(digits) * 10 + (c as int - '0' as int)
  {
    assert (digits + [c])[..|digits|] == digits;
  }

  lemma {:induction false} DigitsStop(text: string, from: nat, end: nat)
    requires from <= end <= |text| && (end < |text| ==> !IsDigit(text[end]))
    requires forall i :: from <= i < end ==> IsDigit(text[i])
    ensures DigitsEnd(text, from) == end
    decreases end - from
  {
    if from < end { DigitsStop(text, from + 1, end); }
  }

  lemma NumberedReads(kind: AtomKind, operand: nat, rest: string, st: State)
    requires Accepts(kind, operand)
    ensures ParseFrom(Spell(Nth(kind, operand)) + rest, st) == ParseFrom(rest, Add(st, Nth(kind, operand)))
  {
    hide Decimal, Value, ParseFrom;
    var digits, letter := Decimal(operand), LetterOf(kind);
    DecimalIsNumber(operand);
    var all := Spell(Nth(kind, operand)) + rest;
    var end := 1 + |digits|;
    assert all == ("%" + digits + [letter]) + rest;
    assert forall i :: 0 <= i < |digits| ==> all[1 + i] == digits[i];
    assert all[1] == digits[0] && all[end] == letter && all[1..end] == digits && all[end + 1..] == rest;
    assert !IsDigit(letter) && IsNumberedLetter(letter) && KindForLetter(letter, true) == kind;
    DigitsStop(all, 2, end);
    NumberedFirst(all, st);
  }

  lemma NumberedFirst(text: string, st: State)
    requires |text| > 1 && text[0] == '%' && IsDigit(text[1])
    ensures ParseFrom(text, st) == ParseNumbered(text, st)
  {
  }

  lemma SpelledReads(a: Atom, rest: string, st: State)
    requires ValidAtom(a)
    ensures ParseFrom(Spell(a) + rest, st) == ParseFrom(rest, Add(st, a))
  {
    hide ParseFrom, Escape, Decimal, Find, ParseNumbered, Flushed;
    if a.Literal? {
      EscapedReads(a.text, rest, st);
    } else if a.GroupRef? {
      GroupReads(a.name, rest, st);
    } else if a.Flag? {
      var all := Spell(a) + rest;
      ParseStep(all, st);
      assert all[1] == LetterOf(a.kind) && all[2..] == rest;
      assert KindForLetter(all[1], false) == a.kind;
    } else {
      NumberedReads(a.kind, a.operand, rest, st);
    }
  }

  lemma GroupReads(name: string, rest: string, st: State)
    requires '>' !in name
    ensures ParseFrom(Spell(GroupRef(name)) + rest, st) == ParseFrom(rest, Add(st, GroupRef(name)))
  {
    hide ParseFrom, Find, ParseNumbered, Flushed;
    var all, end := Spell(GroupRef(name)) + rest, 2 + |name|;
    assert all == "%<" + (name + (">" + rest));
    assert forall i :: 0 <= i < |name| ==> all[2 + i] == name[i];
    assert all[end] == '>' && all[2..end] == name && all[end + 1..] == rest;
    FindIs(all, '>', 2, end);
    ParseStep(all, st);
  }

  lemma {:induction false} RenderedReads(a: Instruction, st: State)
    requires Valid(a)
    ensures ParseFrom(Render(a), st) == Ok(AddAll(st, a))
    decreases |a|
  {
    if a != [] {
      SpelledReads(a[0], Render(a[1..]), st);
      RenderedReads(a[1..], Add(st, a[0]));
    }
  }

  // A recorded instruction reads back as what it was, with its literals fused; and one that came out
  // of a builder reads back unchanged.
  lemma RoundTrip(a: Instruction)
    requires Valid(a)
    ensures Parse(Render(a)) == Ok(Fuse(a))
    ensures Fused(a) ==> Parse(Render(a)) == Ok(a)
  {
    RenderedReads(a, START);
    if Fused(a) {
      FusedStays(START, a);
      assert Flushed(START) + a == a;
    }
  }

  // Whatever reads at all reads as an instruction a builder would make.
  lemma {:induction false} ReadBuilds(text: string, st: State)
    requires Building(st) && Valid(st.atoms) && ParseFrom(text, st).Ok?
    ensures Building(ParseFrom(text, st).value) && Valid(ParseFrom(text, st).value.atoms)
    decreases |text|
  {
    hide ParseFrom, Find, KindForLetter;
    if text == "" {
      ParseNothing(st);
    } else {
      ParseStep(text, st);
      if text[0] != '%' {
        ReadBuilds(text[1..], AddLiteral(st, [text[0]]));
      } else if |text| > 1 {
        FlagBuilds(text, st);
      }
    }
  }

  lemma {:induction false} FlagBuilds(text: string, st: State)
    requires Building(st) && Valid(st.atoms) && ParseFrom(text, st).Ok? && |text| > 1 && text[0] == '%'
    ensures Building(ParseFrom(text, st).value) && Valid(ParseFrom(text, st).value.atoms)
    decreases |text|, 0
  {
    hide ParseFrom, Find, KindForLetter;
    ParseStep(text, st);
    if text[1] == '%' {
      ReadBuilds(text[2..], AddLiteral(st, "%"));
    } else if IsDigit(text[1]) {
      var end := DigitsEnd(text, 2);
      var a := Nth(KindForLetter(text[end], true), NumberOf(text[1..end]));
      AddBuilds(st, a);
      ReadBuilds(text[end + 1..], Add(st, a));
    } else if text[1] == '<' {
      var end := Find(text, '>', 2);
      if end == |text| {
        ReadBuilds(text[2..], AddLiteral(st, "%<"));
      } else {
        var a := GroupRef(text[2..end]);
        AddBuilds(st, a);
        ReadBuilds(text[end + 1..], Add(st, a));
      }
    } else if IsUnnumberedFlag(text[1]) {
      var a := Flag(KindForLetter(text[1], false));
      UnnumberedKind(text[1]);
      AddBuilds(st, a);
      ReadBuilds(text[2..], Add(st, a));
    } else {
      ReadBuilds(text[2..], AddLiteral(st, text[..2]));
    }
  }

  lemma AddBuilds(st: State, a: Atom)
    requires Building(st) && Valid(st.atoms) && ValidAtom(a)
    ensures Building(Add(st, a)) && Valid(Add(st, a).atoms)
  {
  }

  lemma UnnumberedKind(letter: char)
    ensures !IsNth(KindForLetter(letter, false))
  {
  }

  lemma ParsedIsFused(text: string)
    requires Parse(text).Ok?
    ensures Valid(Parse(text).value) && Fused(Parse(text).value)
  {
    ReadBuilds(text, START);
  }

  // ---------------------------------------------------------------- expansion

  // How a place spells the operand a flag stands for.
  type Site = Atom -> string

  function Fold(a: Instruction, site: Site): string {
    if a == [] then "" else (if a[0].Literal? then a[0].text else site(a[0])) + Fold(a[1..], site)
  }

  method FoldInstruction(a: Instruction, site: Site) returns (text: string)
    ensures text == Fold(a, site)
  {
    text := "";
    for i := 0 to |a|
      invariant text + Fold(a[i..], site) == Fold(a, site)
    {
      assert a[i..][1..] == a[i + 1..];
      var one := if a[i].Literal? then a[i].text else site(a[i]);
      assert text + (one + Fold(a[i + 1..], site)) == (text + one) + Fold(a[i + 1..], site);
      text := text + one;
    }
    assert a[|a|..] == [] && text + "" == text;
  }

  lemma {:induction false} FoldConcat(a: Instruction, b: Instruction, site: Site)
    ensures Fold(a + b, site) == Fold(a, site) + Fold(b, site)
    decreases |a|
  {
    if a == [] {
      assert a + b == b;
    } else {
      assert (a + b)[1..] == a[1..] + b;
      FoldConcat(a[1..], b, site);
    }
  }

  lemma FoldFlushed(st: State, site: Site)
    ensures Fold(Flushed(st), site) == Fold(st.atoms, site) + st.pending
  {
    FoldConcat(st.atoms, [Literal(st.pending)], site);
    assert Fold([Literal(st.pending)], site) == st.pending;
  }

  lemma {:induction false} FoldAddAll(st: State, a: Instruction, site: Site)
    ensures Fold(Flushed(AddAll(st, a)), site) == Fold(Flushed(st), site) + Fold(a, site)
    decreases |a|
  {
    if a != [] {
      FoldAdd(st, a[0], site);
      FoldAddAll(Add(st, a[0]), a[1..], site);
    }
  }

  lemma FoldAdd(st: State, a: Atom, site: Site)
    ensures Fold(Flushed(Add(st, a)), site) == Fold(Flushed(st), site) + (if a.Literal? then a.text else site(a))
  {
    FoldFlushed(st, site);
    FoldFlushed(Add(st, a), site);
    if a.Literal? {
      assert Fold(st.atoms, site) + (st.pending + a.text) == (Fold(st.atoms, site) + st.pending) + a.text;
    } else {
      FoldConcat(Flushed(st), [a], site);
      assert Fold([a], site) == site(a);
    }
  }

  lemma FuseFolds(a: Instruction, site: Site)
    ensures Fold(Fuse(a), site) == Fold(a, site)
  {
    FoldAddAll(START, a, site);
    assert "" + Fold(a, site) == Fold(a, site);
    hide AddAll;
  }

  // A recorded command expands, at any place, to the text the command itself expands to there.
  lemma RecordedFolds(a: Instruction, site: Site)
    requires Valid(a)
    ensures Parse(Render(a)).Ok? && Fold(Parse(Render(a)).value, site) == Fold(a, site)
  {
    hide Parse, Render, Fuse, Fold;
    RoundTrip(a);
    FuseFolds(a, site);
  }

  // The text a record's pattern stands for at a site. One that does not parse stands for itself.
  method GetCommandString(pattern: string, site: Site) returns (text: string)
    ensures forall a :: Valid(a) && Render(a) == pattern ==> text == Fold(a, site)
    ensures pattern != "" && !Parse(pattern).Ok? ==> text == pattern
  {
    hide Parse, Render;
    forall a | Valid(a) && Render(a) == pattern
      ensures Parse(pattern).Ok? && Fold(Parse(pattern).value, site) == Fold(a, site) {
      RecordedFolds(a, site);
    }
    if pattern == "" {
      NothingFolds(site);
      return "";
    }
    var atoms := ParseInstruction(pattern);
    if !atoms.Ok? { return pattern; }
    text := FoldInstruction(atoms.value, site);
  }

  lemma NothingFolds(site: Site)
    ensures Parse("").Ok? && Fold(Parse("").value, site) == ""
  {
    RecordedFolds([], site);
    assert Render([]) == "" && Valid([]);
  }
}
