/**
 What reading a pattern from left to right yields: a tree, or the offset and the reason of the first
 error. The compiler in regex_compiler.dfy is proved to read exactly this way; here the reading is
 proved to be the inverse of spelling a tree out.
 */
module RegexParser {
  import opened RegexSyntax
  import opened Sequences

  datatype Reason =
    | QuantifierWithoutItem
    | BraceUnsupported
    | DoubleQuantifier
    | GroupExtension
    | MissingParen
    | MissingBracket
    | TrailingBackslash
    | UnsupportedEscape
    | PosixClass
    | InvalidRange
    | RangeOutOfOrder
    | UnmatchedParen

  datatype Parsed<T> = Ok(value: T, pos: nat) | Bad(offset: nat, reason: Reason)

  // ---------------------------------------------------------------- bracket classes

  // `value` is a single character with its spelling, or the letter of a shorthand.
  function ParseClassItem(s: string, i: nat): (r: Parsed<ClassItem>)
    requires i < |s|
    ensures r.Ok? ==> i < r.pos <= |s| && !r.value.Range?
  {
    if s[i] != '\\' then Ok(Single(s[i], false), i + 1)
    else if i + 1 >= |s| then Bad(i + 1, MissingBracket)
    else if IsShorthandLetter(s[i + 1]) then Ok(Letter(s[i + 1]), i + 2)
    else if IsAlphanumeric(s[i + 1]) then Bad(i + 1, UnsupportedEscape)
    else Ok(Single(s[i + 1], true), i + 2)
  }

  // One turn of the class loop, past the tests for `]` and for `[:`.
  function ParseEntry(s: string, i: nat): (r: Parsed<ClassItem>)
    requires i < |s|
    ensures r.Ok? ==> i < r.pos <= |s|
  {
    match ParseClassItem(s, i)
    case Bad(o, reason) => Bad(o, reason)
    case Ok(low, p) =>
      if !StartsRange(s[p..]) then Ok(low, p)
      else if low.Letter? then Bad(p, InvalidRange)
      else
        match ParseClassItem(s, p + 1)
        case Bad(o, reason) => Bad(o, reason)
        case Ok(high, q) =>
          if high.Letter? then Bad(p + 1, InvalidRange)
          else if high.c < low.c then Bad(p + 1, RangeOutOfOrder)
          else Ok(Range(low.c, low.escaped, high.c, high.escaped), q)
  }

  function Prepend(items: seq<ClassItem>, r: Parsed<seq<ClassItem>>): Parsed<seq<ClassItem>> {
    match r
    case Bad(o, reason) => Bad(o, reason)
    case Ok(rest, p) => Ok(items + rest, p)
  }

  function ParseItems(s: string, i: nat, first: bool): (r: Parsed<seq<ClassItem>>)
    requires i <= |s|
    ensures r.Ok? ==> i < r.pos <= |s|
    decreases |s| - i
  {
    if i >= |s| then Bad(i, MissingBracket)
    else if s[i] == ']' && !first then Ok([], i + 1)
    else if StartsPosixClass(s[i..]) then Bad(i, PosixClass)
    else
      match ParseEntry(s, i)
      case Bad(o, reason) => Bad(o, reason)
      case Ok(item, p) => Prepend([item], ParseItems(s, p, false))
  }

  // `i` is just past the opening bracket.
  function ParseBracket(s: string, i: nat): (r: Parsed<Re>)
    requires i <= |s|
    ensures r.Ok? ==> i < r.pos <= |s|
  {
    var negated := i < |s| && s[i] == '^';
    match ParseItems(s, if negated then i + 1 else i, true)
    case Bad(o, reason) => Bad(o, reason)
    case Ok(items, p) => Ok(Bracket(negated, items), p)
  }

  // ---------------------------------------------------------------- expressions

  predicate AtSequenceEnd(s: string, i: nat) {
    i >= |s| || s[i] == '|' || s[i] == ')'
  }

  function ParseAtom(s: string, i: nat): (r: Parsed<Re>)
    requires !AtSequenceEnd(s, i)
    ensures r.Ok? ==> i < r.pos <= |s|
    decreases |s| - i, 0
  {
    match s[i]
    case '{' => Bad(i, BraceUnsupported)
    case '(' =>
      if i + 1 < |s| && s[i + 1] == '?' then Bad(i + 1, GroupExtension)
      else (
        match ParseAlternation(s, i + 1)
        case Bad(o, reason) => Bad(o, reason)
        case Ok(inner, p) => if p >= |s| then Bad(p, MissingParen) else Ok(Group(inner), p + 1)
      )
    case '[' => ParseBracket(s, i + 1)
    case '.' => Ok(Dot, i + 1)
    case '\\' =>
      if i + 1 >= |s| then Bad(i + 1, TrailingBackslash)
      else if IsShorthandLetter(s[i + 1]) then Ok(Shorthand(s[i + 1]), i + 2)
      else if IsAlphanumeric(s[i + 1]) then Bad(i + 1, UnsupportedEscape)
      else Ok(Lit(s[i + 1], true), i + 2)
    case c => Ok(Lit(c, false), i + 1)
  }

  function Quantify(c: char, item: Re): Re {
    if c == '*' then Star(item) else if c == '+' then Plus(item) else Opt(item)
  }

  function ParsePiece(s: string, i: nat): (r: Parsed<Re>)
    requires !AtSequenceEnd(s, i)
    ensures r.Ok? ==> i < r.pos <= |s|
    decreases |s| - i, 1
  {
    if IsQuantifier(s[i]) then Bad(i, QuantifierWithoutItem)
    else if s[i] == '^' then Ok(Begin, i + 1)
    else if s[i] == '$' then Ok(End, i + 1)
    else
      match ParseAtom(s, i)
      case Bad(o, reason) => Bad(o, reason)
      case Ok(item, p) =>
        if p >= |s| then Ok(item, p)
        else if s[p] == '{' then Bad(p, BraceUnsupported)
        else if !IsQuantifier(s[p]) then Ok(item, p)
        else if p + 1 < |s| && (IsQuantifier(s[p + 1]) || s[p + 1] == '{') then Bad(p + 1, DoubleQuantifier)
        else Ok(Quantify(s[p], item), p + 1)
  }

  function ParseSequence(s: string, i: nat, acc: Re): (r: Parsed<Re>)
    requires i <= |s|
    ensures r.Ok? ==> i <= r.pos <= |s| && AtSequenceEnd(s, r.pos)
    decreases |s| - i, 2
  {
    if AtSequenceEnd(s, i) then Ok(acc, i)
    else
      match ParsePiece(s, i)
      case Bad(o, reason) => Bad(o, reason)
      case Ok(piece, p) => ParseSequence(s, p, Cat(acc, piece))
  }

  function ParseBranches(s: string, i: nat, acc: Re): (r: Parsed<Re>)
    requires i <= |s| && AtSequenceEnd(s, i)
    ensures r.Ok? ==> i <= r.pos <= |s| && (r.pos < |s| ==> s[r.pos] == ')')
    decreases |s| - i, 3
  {
    if i >= |s| || s[i] != '|' then Ok(acc, i)
    else
      match ParseSequence(s, i + 1, Empty)
      case Bad(o, reason) => Bad(o, reason)
      case Ok(right, p) => ParseBranches(s, p, Alt(acc, right))
  }

  function ParseAlternation(s: string, i: nat): (r: Parsed<Re>)
    requires i <= |s|
    ensures r.Ok? ==> i <= r.pos <= |s| && (r.pos < |s| ==> s[r.pos] == ')')
    decreases |s| - i, 4
  {
    match ParseSequence(s, i, Empty)
    case Bad(o, reason) => Bad(o, reason)
    case Ok(left, p) => ParseBranches(s, p, left)
  }

  // A whole pattern.
  function ParsePattern(s: string): Parsed<Re> {
    match ParseAlternation(s, 0)
    case Bad(o, reason) => Bad(o, reason)
    case Ok(t, p) => if p < |s| then Bad(p, UnmatchedParen) else Ok(t, p)
  }

  // ---------------------------------------------------------------- text at a position

  // The reader is at `r.pos` just past the text of what it read from `i`.
  predicate Read(s: string, i: nat, r: Parsed<Re>) {
    r.Ok? && At(s, i, Text(r.value)) && r.pos == i + |Text(r.value)|
  }

  // ---------------------------------------------------------------- soundness: what is read is what is spelled

  lemma EntrySound(s: string, i: nat)
    requires i < |s| && ParseEntry(s, i).Ok?
    ensures var r := ParseEntry(s, i);
            && At(s, i, ItemText(r.value)) && r.pos == i + |ItemText(r.value)| && WfItem(r.value)
            && (r.value.Range? || !StartsRange(s[r.pos..]))
  {
    var low := ParseClassItem(s, i);
    ClassItemSound(s, i);
    hide ParseClassItem, At;
    if StartsRange(s[low.pos..]) {
      var p := low.pos;
      var high := ParseClassItem(s, p + 1);
      ClassItemSound(s, p + 1);
      OneChar(s, p);
      var a, b := CharText(low.value.c, low.value.escaped), CharText(high.value.c, high.value.escaped);
      assert s[p..][0] == s[p] && s[p..][1] == s[p + 1] == b[0];
      AtConcat(s, i, a + "-", b);
      AtConcat(s, i, a, "-");
    }
  }

  lemma ClassItemSound(s: string, i: nat)
    requires i < |s| && ParseClassItem(s, i).Ok?
    ensures var r := ParseClassItem(s, i);
            && At(s, i, ItemText(r.value)) && r.pos == i + |ItemText(r.value)| && WfItem(r.value)
            && ItemText(r.value)[0] == s[i]
  {
  }

  lemma PosixAt(s: string, i: nat, text: string)
    requires At(s, i, text)
    ensures StartsPosixClass(text) ==> StartsPosixClass(s[i..])
    ensures StartsRange(text) ==> StartsRange(s[i..])
    ensures text != "" && text[|text| - 1] == ']' && StartsPosixClass(s[i..]) ==> StartsPosixClass(text)
    ensures text != "" && text[|text| - 1] == ']' && StartsRange(s[i..]) ==> StartsRange(text)
  {
    if text != "" { AtStart(s, i, text); }
  }

  lemma {:induction false} ItemsTextEnd(items: seq<ClassItem>)
    ensures ItemsText(items)[|ItemsText(items)| - 1] == ']'
  {
    hide ItemText;
    if items != [] {
      var a, b := ItemText(items[0]), ItemsText(items[1..]);
      ItemsTextEnd(items[1..]);
      assert (a + b)[|a| + |b| - 1] == b[|b| - 1];
    }
  }

  lemma {:induction false} ItemsSound(s: string, i: nat, first: bool)
    requires i <= |s| && ParseItems(s, i, first).Ok?
    ensures var r := ParseItems(s, i, first);
            && At(s, i, ItemsText(r.value)) && r.pos == i + |ItemsText(r.value)|
            && WfItems(r.value, first) && (first ==> r.value != [])
    decreases |s| - i
  {
    hide StartsRange, StartsPosixClass, ItemText, At, ParseEntry, WfItem;
    if !(s[i] == ']' && !first) {
      var e := ParseEntry(s, i);
      EntrySound(s, i);
      ItemsSound(s, e.pos, false);
      var rest := ParseItems(s, e.pos, false).value;
      ItemsCons(e.value, rest);
      AtConcat(s, i, ItemText(e.value), ItemsText(rest));
      AtStart(s, i, ItemText(e.value));
      PosixAt(s, i, ItemsText([e.value] + rest));
      PosixAt(s, e.pos, ItemsText(rest));
    } else {
      ClosingBracket(s, i);
    }
  }

  lemma NoItems()
    ensures ItemsText([]) == "]"
  {
  }

  lemma ClosingBracket(s: string, i: nat)
    ensures At(s, i, ItemsText([])) <==> i < |s| && s[i] == ']'
  {
    assert ItemsText([])[0] == ']';
  }

  lemma ItemsCons(item: ClassItem, rest: seq<ClassItem>)
    ensures var items := [item] + rest;
            && items[0] == item && items[1..] == rest
            && ItemsText(items) == ItemText(item) + ItemsText(rest)
            && ItemsText(items)[0] == ItemText(item)[0]
  {
    hide ItemText;
    assert ([item] + rest)[1..] == rest;
  }

  lemma {:induction false} AtomSound(s: string, i: nat)
    requires !AtSequenceEnd(s, i) && ParseAtom(s, i).Ok?
    requires !IsQuantifier(s[i]) && s[i] != '^' && s[i] != '$'
    ensures Read(s, i, ParseAtom(s, i)) && IsAtom(ParseAtom(s, i).value)
    decreases |s| - i, 0
  {
    hide At, ParseAlternation, ParseBracket, IsAlternation;
    var r := ParseAtom(s, i);
    if s[i] == '(' {
      AlternationSound(s, i + 1);
      var inner := ParseAlternation(s, i + 1);
      OneChar(s, i);
      OneChar(s, inner.pos);
      AtConcat(s, i, "(" + Text(inner.value), ")");
      AtConcat(s, i, "(", Text(inner.value));
    } else if s[i] == '[' {
      BracketSound(s, i);
    } else if s[i] == '\\' {
      OneChar(s, i);
      OneChar(s, i + 1);
      AtConcat(s, i, [s[i]], [s[i + 1]]);
      assert [s[i]] + [s[i + 1]] == Text(r.value);
    } else {
      OneChar(s, i);
      assert [s[i]] == Text(r.value);
    }
  }

  lemma OneChar(s: string, i: nat)
    requires i < |s|
    ensures At(s, i, [s[i]])
  {
  }

  lemma BracketSound(s: string, i: nat)
    requires i < |s| && s[i] == '[' && ParseBracket(s, i + 1).Ok?
    ensures Read(s, i, ParseBracket(s, i + 1)) && IsAtom(ParseBracket(s, i + 1).value)
  {
    var open := if i + 1 < |s| && s[i + 1] == '^' then "[^" else "[";
    assert At(s, i, open);
    hide WfItems, ItemText, At, ParseItems, ItemsText;
    ItemsSound(s, i + |open|, true);
    var items := ParseItems(s, i + |open|, true).value;
    assert items == [items[0]] + items[1..];
    ItemsCons(items[0], items[1..]);
    AtStart(s, i + |open|, ItemsText(items));
    AtConcat(s, i, open, ItemsText(items));
  }

  lemma AtomIsPiece(t: Re)
    requires IsAtom(t)
    ensures IsPiece(t)
  {
  }

  lemma {:induction false} PieceSound(s: string, i: nat)
    requires !AtSequenceEnd(s, i) && ParsePiece(s, i).Ok?
    ensures Read(s, i, ParsePiece(s, i)) && IsPiece(ParsePiece(s, i).value)
    decreases |s| - i, 1
  {
    hide ParseAtom, IsAtom, At;
    OneChar(s, i);
    if s[i] != '^' && s[i] != '$' {
      AtomSound(s, i);
      var item := ParseAtom(s, i);
      if ParsePiece(s, i).pos != item.pos {
        OneChar(s, item.pos);
        AtConcat(s, i, Text(item.value), [s[item.pos]]);
      } else {
        AtomIsPiece(item.value);
      }
    }
  }

  lemma NothingRead(s: string, i: nat)
    requires i <= |s|
    ensures Read(s, i, Ok(Empty, i)) && IsSequence(Empty)
  {
  }

  lemma {:induction false} SequenceSound(s: string, i: nat, acc: Re, start: nat)
    requires start <= i <= |s| && ParseSequence(s, i, acc).Ok?
    requires IsSequence(acc) && Read(s, start, Ok(acc, i))
    ensures Read(s, start, ParseSequence(s, i, acc)) && IsSequence(ParseSequence(s, i, acc).value)
    decreases |s| - i, 2
  {
    hide ParsePiece, IsPiece, At;
    if !AtSequenceEnd(s, i) {
      PieceSound(s, i);
      var p := ParsePiece(s, i);
      AtConcat(s, start, Text(acc), Text(p.value));
      SequenceSound(s, p.pos, Cat(acc, p.value), start);
    }
  }

  lemma {:induction false} BranchesSound(s: string, i: nat, acc: Re, start: nat)
    requires start <= i <= |s| && AtSequenceEnd(s, i) && ParseBranches(s, i, acc).Ok?
    requires IsAlternation(acc) && Read(s, start, Ok(acc, i))
    ensures Read(s, start, ParseBranches(s, i, acc)) && IsAlternation(ParseBranches(s, i, acc).value)
    decreases |s| - i, 3
  {
    hide ParseSequence, IsSequence, At;
    if i < |s| && s[i] == '|' {
      NothingRead(s, i + 1);
      SequenceSound(s, i + 1, Empty, i + 1);
      var p := ParseSequence(s, i + 1, Empty);
      OneChar(s, i);
      AtConcat(s, start, Text(acc) + "|", Text(p.value));
      AtConcat(s, start, Text(acc), "|");
      BranchesSound(s, p.pos, Alt(acc, p.value), start);
    }
  }

  lemma {:induction false} AlternationSound(s: string, i: nat)
    requires i <= |s| && ParseAlternation(s, i).Ok?
    ensures Read(s, i, ParseAlternation(s, i)) && IsAlternation(ParseAlternation(s, i).value)
    decreases |s| - i, 4
  {
    hide ParseSequence, ParseBranches, IsAlternation, At;
    NothingRead(s, i);
    SequenceSound(s, i, Empty, i);
    var left := ParseSequence(s, i, Empty);
    SequenceIsAlternation(left.value);
    BranchesSound(s, left.pos, left.value, i);
  }

  lemma SequenceIsAlternation(t: Re)
    requires IsSequence(t)
    ensures IsAlternation(t)
  {
  }

  // ---------------------------------------------------------------- completeness: what is spelled is read back

  lemma ClassItemComplete(s: string, i: nat, c: char, escaped: bool)
    requires At(s, i, CharText(c, escaped)) && WfChar(c, escaped)
    ensures ParseClassItem(s, i) == Ok(Single(c, escaped), i + |CharText(c, escaped)|)
  {
    AtStart(s, i, CharText(c, escaped));
  }

  lemma RangeComplete(s: string, i: nat, item: ClassItem)
    requires item.Range? && At(s, i, ItemText(item)) && WfItem(item)
    ensures ParseEntry(s, i) == Ok(item, i + |ItemText(item)|)
  {
    hide At, ParseClassItem;
    var a, b := CharText(item.low, item.lowEscaped), CharText(item.high, item.highEscaped);
    AtConcat(s, i, a + "-", b);
    AtConcat(s, i, a, "-");
    var p := i + |a|;
    ClassItemComplete(s, i, item.low, item.lowEscaped);
    ClassItemComplete(s, p + 1, item.high, item.highEscaped);
    AtStart(s, p, "-");
    AtStart(s, p + 1, b);
    assert s[p..][0] == '-' && s[p..][1] == b[0];
  }

  lemma EntryComplete(s: string, i: nat, item: ClassItem)
    requires At(s, i, ItemText(item)) && WfItem(item)
    requires item.Range? || !StartsRange(s[i + |ItemText(item)|..])
    ensures ParseEntry(s, i) == Ok(item, i + |ItemText(item)|)
  {
    if item.Single? {
      ClassItemComplete(s, i, item.c, item.escaped);
    } else if item.Letter? {
      AtStart(s, i, ItemText(item));
    } else {
      RangeComplete(s, i, item);
    }
  }

  lemma ItemsUncons(items: seq<ClassItem>, first: bool)
    requires items != [] && WfItems(items, first)
    ensures WfItem(items[0]) && WfItems(items[1..], false)
    ensures first || ItemText(items[0])[0] != ']'
    ensures !StartsPosixClass(ItemsText(items))
    ensures items[0].Range? || !StartsRange(ItemsText(items[1..]))
    ensures ItemsText(items) == ItemText(items[0]) + ItemsText(items[1..])
  {
    hide StartsPosixClass, StartsRange, ItemText, WfItem;
  }

  lemma EntryInPlace(s: string, i: nat, items: seq<ClassItem>, first: bool)
    requires items != [] && At(s, i, ItemsText(items)) && WfItems(items, first)
    ensures var p := i + |ItemText(items[0])|;
            && i < |s| && ParseEntry(s, i) == Ok(items[0], p) && At(s, p, ItemsText(items[1..]))
            && !StartsPosixClass(s[i..]) && (first || s[i] != ']') && WfItems(items[1..], false)
            && ItemsText(items) == ItemText(items[0]) + ItemsText(items[1..])
  {
    hide *;
    var a, b := ItemText(items[0]), ItemsText(items[1..]);
    ItemsUncons(items, first);
    AtConcat(s, i, a, b);
    AtStart(s, i, a);
    ItemsTextEnd(items);
    ItemsTextEnd(items[1..]);
    PosixAt(s, i, ItemsText(items));
    PosixAt(s, i + |a|, b);
    EntryComplete(s, i, items[0]);
  }

  lemma {:induction false} ItemsComplete(s: string, i: nat, items: seq<ClassItem>, first: bool)
    requires At(s, i, ItemsText(items)) && WfItems(items, first) && (first ==> items != [])
    ensures ParseItems(s, i, first) == Ok(items, i + |ItemsText(items)|)
    decreases |items|
  {
    hide WfItem, StartsRange, StartsPosixClass, ItemText, At, ParseEntry, WfItems, ItemsText;
    if items == [] {
      ClosingBracket(s, i);
      NoItems();
    } else {
      EntryInPlace(s, i, items, first);
      ItemsComplete(s, i + |ItemText(items[0])|, items[1..], false);
      assert [items[0]] + items[1..] == items;
    }
  }

  // The character that an atom or a piece begins with is never one that would end or extend what
  // stands before it.
  lemma {:induction false} PieceHead(t: Re)
    requires IsPiece(t)
    ensures |Text(t)| > 0 && !IsQuantifier(Text(t)[0])
    ensures Text(t)[0] != '{' && Text(t)[0] != '|' && Text(t)[0] != ')'
    ensures IsAtom(t) ==> Text(t)[0] != '^' && Text(t)[0] != '$'
  {
    match t
    case Star(b) => PieceHead(b);
    case Plus(b) => PieceHead(b);
    case Opt(b) => PieceHead(b);
    case _ =>
  }

  // Likewise for a whole alternation, which may also be empty or begin with a bar.
  lemma {:induction false} AlternationHead(t: Re)
    requires IsAlternation(t)
    ensures |Text(t)| > 0 ==> !IsQuantifier(Text(t)[0]) && Text(t)[0] != '{'
  {
    match t
    case Cat(l, r) => AlternationHead(l); PieceHead(r);
    case Alt(l, r) => AlternationHead(l);
    case _ =>
  }

  // What may stand after a piece: nothing that would quantify it.
  predicate Unquantified(s: string, i: nat) {
    i < |s| ==> !IsQuantifier(s[i]) && s[i] != '{'
  }

  lemma BracketComplete(s: string, i: nat, t: Re)
    requires t.Bracket? && IsAtom(t) && At(s, i, Text(t))
    ensures ParseBracket(s, i + 1) == Ok(t, i + |Text(t)|)
  {
    hide WfItems, ParseItems, At, ItemText;
    var items := t.items;
    var open := if t.negated then "[^" else "[";
    var p := i + |open|;
    AtStart(s, i, Text(t));
    AtConcat(s, i, open, ItemsText(items));
    ItemsComplete(s, p, items, true);
    AtStart(s, p, ItemsText(items));
    assert ItemsText(items)[0] == ItemText(items[0])[0];
  }

  lemma {:induction false} AtomComplete(s: string, i: nat, t: Re)
    requires IsAtom(t) && At(s, i, Text(t))
    ensures !AtSequenceEnd(s, i)
    ensures ParseAtom(s, i) == Ok(t, i + |Text(t)|)
    decreases t, 0
  {
    hide ParseAlternation, ParseBracket, At, IsAlternation, ItemsText, WfItems;
    PieceHead(t);
    AtStart(s, i, Text(t));
    if t.Bracket? {
      BracketComplete(s, i, t);
    } else if t.Group? {
      var inner := t.inner;
      var p := i + 1 + |Text(inner)|;
      AtConcat(s, i, "(" + Text(inner), ")");
      AtConcat(s, i, "(", Text(inner));
      AtStart(s, p, ")");
      AlternationHead(inner);
      AlternationComplete(s, i + 1, inner);
      if Text(inner) != "" { AtStart(s, i + 1, Text(inner)); }
    }
  }

  lemma {:induction false} QuantifiedComplete(s: string, i: nat, t: Re)
    requires t.Star? || t.Plus? || t.Opt?
    requires IsAtom(t.body) && At(s, i, Text(t)) && Unquantified(s, i + |Text(t)|)
    ensures !AtSequenceEnd(s, i)
    ensures ParsePiece(s, i) == Ok(t, i + |Text(t)|)
    decreases t, 0
  {
    hide ParseAtom, IsAtom, At;
    var b := t.body;
    var mark := if t.Star? then "*" else if t.Plus? then "+" else "?";
    assert Text(t) == Text(b) + mark;
    AtomIsPiece(b);
    hide Text, IsPiece;
    AtConcat(s, i, Text(b), mark);
    AtStart(s, i + |Text(b)|, mark);
    PieceHead(b);
    AtStart(s, i, Text(b));
    AtomComplete(s, i, b);
  }

  lemma {:induction false} PieceComplete(s: string, i: nat, t: Re)
    requires IsPiece(t) && At(s, i, Text(t)) && Unquantified(s, i + |Text(t)|)
    ensures !AtSequenceEnd(s, i)
    ensures ParsePiece(s, i) == Ok(t, i + |Text(t)|)
    decreases t, 1
  {
    hide ParseAtom, IsAtom, At;
    PieceHead(t);
    AtStart(s, i, Text(t));
    if IsAtom(t) {
      hide Text, IsPiece;
      AtomComplete(s, i, t);
    } else if !t.Begin? && !t.End? {
      QuantifiedComplete(s, i, t);
    }
  }

  // Reading a spelled sequence from scratch leaves the reader just past it, holding it.
  lemma {:induction false} SequenceComplete(s: string, i: nat, t: Re)
    requires IsSequence(t) && At(s, i, Text(t)) && Unquantified(s, i + |Text(t)|)
    ensures ParseSequence(s, i, Empty) == ParseSequence(s, i + |Text(t)|, t)
    decreases t, 2
  {
    hide ParsePiece, IsPiece, At;
    if t.Cat? {
      var l, r := t.left, t.right;
      AtConcat(s, i, Text(l), Text(r));
      PieceHead(r);
      AtStart(s, i + |Text(l)|, Text(r));
      SequenceComplete(s, i, l);
      PieceComplete(s, i + |Text(l)|, r);
    }
  }

  lemma EndOfSequence(s: string, i: nat, t: Re)
    requires i <= |s| && AtSequenceEnd(s, i)
    ensures ParseSequence(s, i, t) == Ok(t, i)
  {
  }

  // Reading a spelled alternation leaves the reader at its last branch's end, holding it.
  lemma {:induction false} BranchesComplete(s: string, i: nat, t: Re)
    requires IsAlternation(t) && At(s, i, Text(t)) && AtSequenceEnd(s, i + |Text(t)|)
    ensures ParseAlternation(s, i) == ParseBranches(s, i + |Text(t)|, t)
    decreases t, 3
  {
    hide ParseSequence, IsSequence, At;
    if t.Alt? {
      var l, r := t.left, t.right;
      AtConcat(s, i, Text(l) + "|", Text(r));
      AtConcat(s, i, Text(l), "|");
      var p := i + |Text(l)|;
      AtStart(s, p, "|");
      BranchesComplete(s, i, l);
      SequenceComplete(s, p + 1, r);
      AtLength(s, p + 1, Text(r));
      EndOfSequence(s, p + 1 + |Text(r)|, r);
      hide ParseAlternation;
    } else {
      SequenceComplete(s, i, t);
      AtLength(s, i, Text(t));
      EndOfSequence(s, i + |Text(t)|, t);
    }
  }

  lemma {:induction false} AlternationComplete(s: string, i: nat, t: Re)
    requires IsAlternation(t) && At(s, i, Text(t))
    requires i + |Text(t)| < |s| ==> s[i + |Text(t)|] == ')'
    ensures ParseAlternation(s, i) == Ok(t, i + |Text(t)|)
    decreases t, 4
  {
    hide ParseAlternation, IsAlternation, At;
    BranchesComplete(s, i, t);
  }

  // ---------------------------------------------------------------- the two together

  // The patterns accepted are exactly the spellings of the grammar's trees, and each is read as the
  // one tree it spells.
  lemma PatternIffSpelled(s: string, t: Re)
    ensures ParsePattern(s) == Ok(t, |s|) <==> IsAlternation(t) && Text(t) == s
  {
    hide IsAlternation, ParseAlternation;
    if ParsePattern(s) == Ok(t, |s|) {
      AlternationSound(s, 0);
    }
    if IsAlternation(t) && Text(t) == s {
      AlternationComplete(s, 0, t);
    }
  }

  // No pattern spells two trees.
  lemma SpellingIsUnambiguous(t: Re, u: Re)
    requires IsAlternation(t) && IsAlternation(u) && Text(t) == Text(u)
    ensures t == u
  {
    PatternIffSpelled(Text(t), t);
    PatternIffSpelled(Text(t), u);
  }
}
