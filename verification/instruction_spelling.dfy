/**
 Every text a command can be written in, beside the ones commands are recorded in: what each piece of
 it means, and which texts are refused.
 */
module InstructionSpelling {
  import opened Options
  import opened Text
  import opened Instructions

  // A piece as a record spells it; a percent sign before a letter that is no flag; a number written
  // with zeros in front; a group that is not closed; a percent sign that ends the text.
  datatype Piece =
    | Plain(atom: Atom)
    | Odd(letter: char)
    | Padded(zeros: nat, kind: AtomKind, operand: nat)
    | Open
    | Lone

  function Zeros(n: nat): (s: string)
    ensures |s| == n && forall i :: 0 <= i < n ==> s[i] == '0'
  {
    if n == 0 then "" else "0" + Zeros(n - 1)
  }

  function Spelled(p: Piece): string {
    match p
    case Plain(a) => Spell(a)
    case Odd(c) => "%" + [c]
    case Padded(zeros, kind, operand) => "%" + (Zeros(zeros) + Decimal(operand)) + [LetterOf(kind)]
    case Open => "%<"
    case Lone => "%"
  }

  function Meant(p: Piece): Atom {
    match p
    case Plain(a) => a
    case Odd(c) => Literal("%" + [c])
    case Padded(_, kind, operand) => Nth(kind, operand)
    case Open => Literal("%<")
    case Lone => Literal("%")
  }

  // What a piece must be like where `rest` follows it.
  predicate Allowed(p: Piece, rest: string) {
    match p
    case Plain(a) => ValidAtom(a)
    case Odd(c) => c !in "%<0123456789" && !IsUnnumberedFlag(c)
    case Padded(_, kind, operand) => Accepts(kind, operand)
    case Open => '>' !in rest
    case Lone => rest == ""
  }

  function TextOf(pieces: seq<Piece>): string {
    if pieces == [] then "" else Spelled(pieces[0]) + TextOf(pieces[1..])
  }

  function AtomsOf(pieces: seq<Piece>): (a: Instruction)
    ensures |a| == |pieces| && forall i :: 0 <= i < |pieces| ==> a[i] == Meant(pieces[i])
  {
    if pieces == [] then [] else [Meant(pieces[0])] + AtomsOf(pieces[1..])
  }

  predicate Fine(pieces: seq<Piece>, rest: string) {
    pieces == [] || (Allowed(pieces[0], TextOf(pieces[1..]) + rest) && Fine(pieces[1..], rest))
  }

  // ---------------------------------------------------------------- one piece

  lemma {:induction false} ZerosCountNothing(n: nat, digits: string)
    ensures Value(Zeros(n) + digits) == Value(digits)
    decreases n + |digits|
  {
    var all := Zeros(n) + digits;
    if digits != "" {
      var front := digits[..|digits| - 1];
      assert all[..|all| - 1] == Zeros(n) + front && all[|all| - 1] == digits[|digits| - 1];
      ZerosCountNothing(n, front);
    } else if n > 0 {
      assert all[..|all| - 1] == Zeros(n - 1) + digits by {
        assert forall i :: 0 <= i < n - 1 ==> Zeros(n)[i] == Zeros(n - 1)[i];
      }
      ZerosCountNothing(n - 1, digits);
    }
  }

  // A number begins where the text does.
  lemma NumberReads(digits: string, tail: string, st: State)
    requires digits != "" && forall i :: 0 <= i < |digits| ==> IsDigit(digits[i])
    requires tail != "" ==> !IsDigit(tail[0])
    ensures ParseFrom("%" + digits + tail, st) ==
      var num := NumberOf(digits);
      if tail == "" then Err(Unfinished(num))
      else if !IsNumberedLetter(tail[0]) then Err(BadLetter(num, tail[0]))
      else if !Accepts(KindForLetter(tail[0], true), num) then Err(OutOfRange(num))
      else ParseFrom(tail[1..], Add(st, Nth(KindForLetter(tail[0], true), num)))
  {
    hide ParseFrom, NumberOf, Accepts, KindForLetter, Add, IsNumberedLetter;
    var all, end := "%" + digits + tail, 1 + |digits|;
    assert all[1] == digits[0] && forall i :: 1 <= i < end ==> all[i] == digits[i - 1];
    assert all[1..end] == digits;
    DigitsStop(all, 2, end);
    NumberedFirst(all, st);
    if tail != "" { assert all[end] == tail[0] && all[end + 1..] == tail[1..]; }
  }

  lemma DigitsAllowed(zeros: nat, operand: nat)
    ensures var digits := Zeros(zeros) + Decimal(operand);
            digits != "" && Value(digits) == operand && forall i :: 0 <= i < |digits| ==> IsDigit(digits[i])
  {
    DecimalIsNumber(operand);
    ZerosCountNothing(zeros, Decimal(operand));
    hide Decimal, Value;
  }

  lemma NumberedLetter(kind: AtomKind)
    requires IsNth(kind)
    ensures var letter := LetterOf(kind);
            !IsDigit(letter) && IsNumberedLetter(letter) && KindForLetter(letter, true) == kind
  {
  }

  lemma PaddedReads(zeros: nat, kind: AtomKind, operand: nat, rest: string, st: State)
    requires Accepts(kind, operand)
    ensures ParseFrom(Spelled(Padded(zeros, kind, operand)) + rest, st) == ParseFrom(rest, Add(st, Nth(kind, operand)))
  {
    hide ParseFrom, Decimal, Value, Zeros, Add, LetterOf, KindForLetter, IsNumberedLetter, IsDigit, IsNth;
    var digits, letter := Zeros(zeros) + Decimal(operand), LetterOf(kind);
    DigitsAllowed(zeros, operand);
    NumberedLetter(kind);
    NumberReads(digits, [letter] + rest, st);
    assert ("%" + digits + [letter]) + rest == "%" + digits + ([letter] + rest);
    assert ([letter] + rest)[1..] == rest;
  }

  lemma PieceReads(p: Piece, rest: string, st: State)
    requires Allowed(p, rest)
    ensures ParseFrom(Spelled(p) + rest, st) == ParseFrom(rest, Add(st, Meant(p)))
  {
    hide ParseFrom, Decimal, Spell, Zeros, ValidAtom;
    var all := Spelled(p) + rest;
    match p
    case Plain(a) => SpelledReads(a, rest, st);
    case Padded(zeros, kind, operand) => PaddedReads(zeros, kind, operand, rest, st);
    case Lone =>
      assert all == "%";
      ParseStep(all, st);
      ParseNothing(AddLiteral(st, "%"));
    case Odd(c) =>
      assert all[1] == c && all[2..] == rest && all[..2] == "%" + [c];
      ParseStep(all, st);
    case Open =>
      assert all[..2] == "%<" && all[2..] == rest;
      assert forall i :: 2 <= i < |all| ==> all[i] == rest[i - 2];
      ParseStep(all, st);
  }

  lemma {:induction false} PiecesRead(pieces: seq<Piece>, rest: string, st: State)
    requires Fine(pieces, rest)
    ensures ParseFrom(TextOf(pieces) + rest, st) == ParseFrom(rest, AddAll(st, AtomsOf(pieces)))
    decreases |pieces|
  {
    hide ParseFrom, Spelled, Allowed, Meant, Add;
    if pieces == [] {
      assert TextOf(pieces) + rest == rest;
    } else {
      var more := TextOf(pieces[1..]) + rest;
      assert TextOf(pieces) + rest == Spelled(pieces[0]) + more;
      assert AtomsOf(pieces)[1..] == AtomsOf(pieces[1..]);
      PieceReads(pieces[0], more, st);
      PiecesRead(pieces[1..], rest, Add(st, Meant(pieces[0])));
    }
  }

  // ---------------------------------------------------------------- whole texts

  // A number cut off by the end of the text, before a letter that is not numbered, or out of range.
  predicate Wrong(number: nat, tail: string) {
    tail == "" || (!IsDigit(tail[0]) && (tail[0] !in "fbBoi" || !(1 <= number <= 98)))
  }

  function NumberText(zeros: nat, number: nat, tail: string): string {
    "%" + (Zeros(zeros) + Decimal(number)) + tail
  }

  // What pieces are written as reads as what they mean.
  lemma PiecesMean(pieces: seq<Piece>)
    requires Fine(pieces, "")
    ensures Parse(TextOf(pieces)) == Ok(Fuse(AtomsOf(pieces)))
  {
    hide AddAll, Fine, ParseFrom;
    PiecesRead(pieces, "", START);
    ParseNothing(AddAll(START, AtomsOf(pieces)));
    assert TextOf(pieces) + "" == TextOf(pieces);
  }

  // And a wrong number behind them is refused; one that fits no machine integer counts as zero.
  lemma WrongIsRefused(pieces: seq<Piece>, zeros: nat, number: nat, tail: string)
    requires Fine(pieces, NumberText(zeros, number, tail)) && Wrong(number, tail)
    ensures Parse(TextOf(pieces) + NumberText(zeros, number, tail)) ==
      var num := if number <= 2147483647 then number else 0;
      Err(if tail == "" then Unfinished(num)
          else if tail[0] in "fbBoi" then OutOfRange(num) else BadLetter(num, tail[0]))
  {
    hide AddAll, Fine, ParseFrom, Zeros, Decimal, Value;
    PiecesRead(pieces, NumberText(zeros, number, tail), START);
    DigitsAllowed(zeros, number);
    NumberReads(Zeros(zeros) + Decimal(number), tail, AddAll(START, AtomsOf(pieces)));
  }

  lemma {:induction false} DigitsAre(digits: string) returns (zeros: nat, number: nat)
    requires digits != "" && forall i :: 0 <= i < |digits| ==> IsDigit(digits[i])
    ensures digits == Zeros(zeros) + Decimal(number)
    decreases |digits|
  {
    var last := |digits| - 1;
    var d := digits[last] as int - '0' as int;
    assert Digit(d) == digits[last];
    if last == 0 {
      zeros, number := 0, d;
    } else {
      var z, n := DigitsAre(digits[..last]);
      assert digits == digits[..last] + [Digit(d)];
      zeros, number := if n == 0 then z + 1 else z, n * 10 + d;
      DecimalStep(number);
      if n == 0 { MoreZeros(z); }
    }
  }

  lemma MoreZeros(n: nat)
    ensures Zeros(n) + "0" == Zeros(n + 1)
  {
  }

  // A percent sign and a digit begin a number.
  lemma NumberAhead(text: string) returns (zeros: nat, number: nat, tail: string)
    requires |text| > 1 && text[0] == '%' && IsDigit(text[1])
    ensures text == NumberText(zeros, number, tail) && (tail != "" ==> !IsDigit(tail[0]))
    ensures !Wrong(number, tail) ==> tail != "" && |tail| < |text|
  {
    var end := DigitsEnd(text, 2);
    tail := text[end..];
    zeros, number := DigitsAre(text[1..end]);
    hide Zeros, Decimal;
    assert text == "%" + text[1..end] + tail;
  }

  lemma RightNumber(zeros: nat, number: nat, tail: string)
    requires !Wrong(number, tail) && !IsDigit(tail[0])
    ensures var p := Padded(zeros, KindForLetter(tail[0], true), number);
            (forall rest :: Allowed(p, rest)) && Spelled(p) + tail[1..] == NumberText(zeros, number, tail)
  {
    hide Zeros, Decimal;
    assert tail[0] in "fbBoi" && LetterOf(KindForLetter(tail[0], true)) == tail[0];
    assert tail == [tail[0]] + tail[1..];
  }

  // What else a text begins with.
  lemma PieceAhead(text: string) returns (p: Piece)
    requires text != "" && (|text| > 1 && text[0] == '%' ==> !IsDigit(text[1]))
    ensures var n := |Spelled(p)|; 0 < n <= |text| && Spelled(p) + text[n..] == text && Allowed(p, text[n..])
  {
    hide Escape, Find, IsDigit, IsUnnumberedFlag;
    if text[0] != '%' {
      p := Plain(Literal([text[0]]));
      EscapeOne(text[0]);
    } else if |text| == 1 {
      p := Lone;
    } else {
      p := FlagAhead(text);
    }
  }

  lemma FlagAhead(text: string) returns (p: Piece)
    requires |text| > 1 && text[0] == '%' && !IsDigit(text[1])
    ensures var n := |Spelled(p)|; 0 < n <= |text| && Spelled(p) + text[n..] == text && Allowed(p, text[n..])
  {
    hide Escape;
    assert text == "%" + [text[1]] + text[2..];
    if text[1] == '%' {
      p := Plain(Literal("%"));
      EscapeOne('%');
    } else if text[1] == '<' {
      p := GroupAhead(text);
    } else if IsUnnumberedFlag(text[1]) {
      p := Plain(Flag(KindForLetter(text[1], false)));
      assert LetterOf(KindForLetter(text[1], false)) == text[1];
    } else {
      p := Odd(text[1]);
    }
  }

  lemma GroupAhead(text: string) returns (p: Piece)
    requires |text| > 1 && text[0] == '%' && text[1] == '<'
    ensures var n := |Spelled(p)|; 0 < n <= |text| && Spelled(p) + text[n..] == text && Allowed(p, text[n..])
  {
    var end := Find(text, '>', 2);
    if end == |text| {
      p := Open;
      assert text == "%<" + text[2..];
    } else {
      p := Plain(GroupRef(text[2..end]));
      assert Spelled(p) == text[..end + 1];
    }
  }

  lemma EscapeOne(c: char)
    ensures Escape([c]) == EscapedChar(c)
  {
    EscapeStep([c]);
    EscapeStep("");
  }

  // Every text is pieces and, when it is refused, a wrong number behind them.
  lemma {:induction false} EveryText(text: string) returns (pieces: seq<Piece>, rest: string)
    ensures Fine(pieces, rest) && TextOf(pieces) + rest == text
    ensures rest == "" ||
      exists zeros: nat, number: nat, tail :: Wrong(number, tail) && rest == NumberText(zeros, number, tail)
    decreases |text|
  {
    hide Spelled, Allowed, NumberText, IsDigit;
    if text == "" {
      return [], "";
    }
    var p, more;
    if |text| > 1 && text[0] == '%' && IsDigit(text[1]) {
      var zeros, number, tail := NumberAhead(text);
      if Wrong(number, tail) {
        return [], text;
      }
      RightNumber(zeros, number, tail);
      p, more := Padded(zeros, KindForLetter(tail[0], true), number), tail[1..];
    } else {
      p := PieceAhead(text);
      more := text[|Spelled(p)|..];
    }
    pieces, rest := EveryText(more);
    assert Spelled(p) + (TextOf(pieces) + rest) == Spelled(p) + TextOf(pieces) + rest;
    assert ([p] + pieces)[1..] == pieces;
    pieces := [p] + pieces;
  }

  // A text reads exactly when it is such pieces alone.
  lemma ReadableIff(text: string)
    ensures Parse(text).Ok? <==> exists pieces :: Fine(pieces, "") && TextOf(pieces) == text
  {
    hide Parse, Fine, TextOf, NumberText, Wrong;
    var pieces, rest := EveryText(text);
    if rest == "" {
      assert TextOf(pieces) + "" == TextOf(pieces);
    } else {
      var zeros: nat, number: nat, tail :| Wrong(number, tail) && rest == NumberText(zeros, number, tail);
      WrongIsRefused(pieces, zeros, number, tail);
    }
    forall pieces' | Fine(pieces', "") ensures Parse(TextOf(pieces')).Ok? {
      PiecesMean(pieces');
    }
  }
}
