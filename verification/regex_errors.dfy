/** What the reason and the offset of a refused pattern say about its text. */
module RegexErrors {
  import opened RegexSyntax
  import opened RegexParser

  // What stands at the offset, and just ahead of it, when a pattern is refused for a reason.
  ghost predicate Warrants(s: string, o: nat, reason: Reason) {
    match reason
    case QuantifierWithoutItem => o < |s| && s[o] in "*+?"
    case BraceUnsupported => o < |s| && s[o] == '{'
    case DoubleQuantifier => 0 < o < |s| && s[o - 1] in "*+?" && s[o] in "*+?{"
    case GroupExtension => 0 < o < |s| && s[o - 1] == '(' && s[o] == '?'
    case MissingParen => o == |s| && '(' in s
    case MissingBracket => o == |s| && '[' in s
    case TrailingBackslash => 0 < o == |s| && s[o - 1] == '\\'
    case UnsupportedEscape => 0 < o < |s| && s[o - 1] == '\\' && IsAlphanumeric(s[o]) && !IsShorthandLetter(s[o])
    case PosixClass => o + 1 < |s| && s[o] == '[' && s[o + 1] in ":.="
    case InvalidRange =>
      || (1 < o < |s| && s[o - 2] == '\\' && IsShorthandLetter(s[o - 1]) && s[o] == '-')
      || (0 < o && o + 1 < |s| && s[o - 1] == '-' && s[o] == '\\' && IsShorthandLetter(s[o + 1]))
    case RangeOutOfOrder => 1 < o < |s| && s[o - 1] == '-' && (s[o] < s[o - 2] || s[o] == '\\')
    case UnmatchedParen => o < |s| && s[o] == ')'
  }

  ghost predicate Warranted<T>(s: string, r: Parsed<T>) {
    r.Bad? ==> Warrants(s, r.offset, r.reason)
  }

  lemma ClassItemWarranted(s: string, i: nat)
    requires i < |s| && '[' in s
    ensures Warranted(s, ParseClassItem(s, i))
  {
  }

  lemma EntryWarranted(s: string, i: nat)
    requires i < |s| && '[' in s
    ensures Warranted(s, ParseEntry(s, i))
  {
    ClassItemWarranted(s, i);
    var low := ParseClassItem(s, i);
    if low.Ok? && low.pos + 1 < |s| { ClassItemWarranted(s, low.pos + 1); }
  }

  lemma {:induction false} ItemsWarranted(s: string, i: nat, first: bool)
    requires i <= |s| && '[' in s
    ensures Warranted(s, ParseItems(s, i, first))
    decreases |s| - i
  {
    hide ParseEntry;
    if i < |s| && !(s[i] == ']' && !first) && !StartsPosixClass(s[i..]) {
      EntryWarranted(s, i);
      var e := ParseEntry(s, i);
      if e.Ok? { ItemsWarranted(s, e.pos, false); }
    }
  }

  lemma {:induction false} AtomWarranted(s: string, i: nat)
    requires !AtSequenceEnd(s, i)
    ensures Warranted(s, ParseAtom(s, i))
    decreases |s| - i, 0
  {
    hide ParseItems, ParseAlternation;
    if s[i] == '(' {
      AlternationWarranted(s, i + 1);
    } else if s[i] == '[' {
      ItemsWarranted(s, i + 1, true);
      if i + 2 <= |s| { ItemsWarranted(s, i + 2, true); }
    }
  }

  lemma {:induction false} PieceWarranted(s: string, i: nat)
    requires !AtSequenceEnd(s, i)
    ensures Warranted(s, ParsePiece(s, i))
    decreases |s| - i, 1
  {
    hide ParseAtom;
    AtomWarranted(s, i);
  }

  lemma {:induction false} SequenceWarranted(s: string, i: nat, acc: Re)
    requires i <= |s|
    ensures Warranted(s, ParseSequence(s, i, acc))
    decreases |s| - i, 2
  {
    hide ParsePiece;
    if !AtSequenceEnd(s, i) {
      PieceWarranted(s, i);
      var piece := ParsePiece(s, i);
      if piece.Ok? { SequenceWarranted(s, piece.pos, Cat(acc, piece.value)); }
    }
  }

  lemma {:induction false} BranchesWarranted(s: string, i: nat, acc: Re)
    requires i <= |s| && AtSequenceEnd(s, i)
    ensures Warranted(s, ParseBranches(s, i, acc))
    decreases |s| - i, 3
  {
    hide ParseSequence;
    if i < |s| && s[i] == '|' {
      SequenceWarranted(s, i + 1, Empty);
      var right := ParseSequence(s, i + 1, Empty);
      if right.Ok? { BranchesWarranted(s, right.pos, Alt(acc, right.value)); }
    }
  }

  lemma {:induction false} AlternationWarranted(s: string, i: nat)
    requires i <= |s|
    ensures Warranted(s, ParseAlternation(s, i))
    decreases |s| - i, 4
  {
    hide ParseSequence, ParseBranches;
    SequenceWarranted(s, i, Empty);
    var left := ParseSequence(s, i, Empty);
    if left.Ok? { BranchesWarranted(s, left.pos, left.value); }
  }

  // A pattern is refused for something that stands where it says.
  lemma RefusalIsWarranted(s: string)
    ensures Warranted(s, ParsePattern(s))
  {
    hide ParseAlternation;
    AlternationWarranted(s, 0);
  }
}
