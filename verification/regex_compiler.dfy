/**
 The compiler as it runs: one pass over the pattern, a position and a class table that it advances,
 and fragments of program that it glues together. Each method is proved to read what the parser of
 regex_parser.dfy reads and to return the fragment that tree is translated to.
 */
module RegexCompiler {
  import opened RegexSyntax
  import opened RegexParser
  import opened RegexMachine

  datatype Failure = None | At(offset: nat, reason: Reason)

  // A character of a class, or the set a shorthand in a class stands for.
  datatype ItemValue = One(c: char) | Many(chars: set<char>)

  predicate Between(low: char, c: char, high: char) {
    low <= c <= high
  }

  function CharsBetween(low: char, high: char): (r: set<char>)
    ensures forall c :: c in r <==> low <= c <= high
  {
    set c: char | Between(low, c, high)
  }

  class Compiler {
    const pattern: string
    var pos: nat
    var classes: ClassTable
    var failure: Failure

    constructor (pattern: string)
      ensures this.pattern == pattern && pos == 0 && classes == [] && failure == None
    {
      this.pattern := pattern;
      pos, classes, failure := 0, [], None;
    }

    predicate Ready()
      reads this
    {
      failure == None && pos <= |pattern|
    }

    // What a method leaves behind when the parser reads `r`: the fragment of the tree, or the
    // first failure.
    ghost predicate Yields(r: Parsed<Re>, fragment: Program, before: ClassTable)
      reads this
    {
      match r
      case Ok(t, p) =>
        && Ready() && pos == p
        && fragment == Emit(t, |before|) && classes == before + ClassSets(t)
      case Bad(o, reason) => failure == At(o, reason)
    }

    method Fail(offset: nat, reason: Reason) returns (fragment: Program)
      modifies this`failure
      ensures fragment == []
      ensures failure == if old(failure) == None then At(offset, reason) else old(failure)
    {
      if failure == None { failure := At(offset, reason); }
      fragment := [];
    }

    method EmitClass(chars: set<char>) returns (fragment: Program)
      modifies this`classes
      ensures classes == old(classes) + [chars] && fragment == [Class(|old(classes)|)]
    {
      classes := classes + [chars];
      fragment := [Class(|classes| - 1)];
    }

    method Alternation() returns (fragment: Program)
      requires Ready()
      modifies this
      ensures Yields(ParseAlternation(pattern, old(pos)), fragment, old(classes))
      decreases |pattern| - pos, 4
    {
      hide ParseSequence;
      ghost var start := pos;
      fragment := Sequence();
      if failure != None { return; }
      ghost var tree := ParseSequence(pattern, start, Empty).value;
      while failure == None && pos < |pattern| && pattern[pos] == '|'
        invariant failure == None ==>
          && Yields(Ok(tree, pos), fragment, old(classes)) && AtSequenceEnd(pattern, pos)
          && start <= pos && ParseAlternation(pattern, start) == ParseBranches(pattern, pos, tree)
        invariant failure != None ==> ParseAlternation(pattern, start) == Bad(failure.offset, failure.reason)
        decreases failure == None, |pattern| - pos
      {
        ghost var left, turn := tree, pos;
        pos := pos + 1;
        var right := Sequence();
        fragment := [Split(1, |fragment| + 2)] + fragment + [Jump(|right| + 1)] + right;
        ghost var r := ParseSequence(pattern, turn + 1, Empty);
        if r.Ok? { tree := Alt(left, r.value); }
      }
    }

    method Sequence() returns (fragment: Program)
      requires Ready()
      modifies this
      ensures Yields(ParseSequence(pattern, old(pos), Empty), fragment, old(classes))
      decreases |pattern| - pos, 2
    {
      fragment := [];
      ghost var start, tree := pos, Empty;
      while failure == None && pos < |pattern| && pattern[pos] != '|' && pattern[pos] != ')'
        invariant failure == None ==>
          && Yields(Ok(tree, pos), fragment, old(classes))
          && start <= pos && ParseSequence(pattern, start, Empty) == ParseSequence(pattern, pos, tree)
        invariant failure != None ==> ParseSequence(pattern, start, Empty) == Bad(failure.offset, failure.reason)
        decreases failure == None, |pattern| - pos
      {
        ghost var r := ParsePiece(pattern, pos);
        var piece := QuantifiedAtom();
        fragment := fragment + piece;
        if r.Ok? { tree := Cat(tree, r.value); }
      }
    }

    method QuantifiedAtom() returns (fragment: Program)
      requires Ready() && !AtSequenceEnd(pattern, pos)
      modifies this
      ensures Yields(ParsePiece(pattern, old(pos)), fragment, old(classes))
      decreases |pattern| - pos, 1
    {
      var c := pattern[pos];
      if IsQuantifier(c) {
        fragment := Fail(pos, QuantifierWithoutItem);
        return;
      }
      if c == '^' || c == '$' {
        pos := pos + 1;
        fragment := [if c == '^' then LineStart else LineEnd];
        return;
      }
      var item := Atom();
      if failure != None || pos >= |pattern| {
        return item;
      }
      var quantifier := pattern[pos];
      if quantifier == '{' {
        fragment := Fail(pos, BraceUnsupported);
        return;
      }
      if !IsQuantifier(quantifier) {
        return item;
      }
      pos := pos + 1;
      if pos < |pattern| && (IsQuantifier(pattern[pos]) || pattern[pos] == '{') {
        fragment := Fail(pos, DoubleQuantifier);
        return;
      }
      var length := |item|;
      match quantifier
      case '*' => fragment := [Split(1, length + 2)] + item + [Jump(-(length + 1))];
      case '+' => fragment := item + [Split(-length, 1)];
      case _ => fragment := [Split(1, length + 1)] + item;
    }

    method Atom() returns (fragment: Program)
      requires Ready() && !AtSequenceEnd(pattern, pos)
      modifies this
      ensures Yields(ParseAtom(pattern, old(pos)), fragment, old(classes))
      decreases |pattern| - pos, 0
    {
      var c := pattern[pos];
      match c
      case '{' =>
        fragment := Fail(pos, BraceUnsupported);
      case '(' =>
        if pos + 1 < |pattern| && pattern[pos + 1] == '?' {
          fragment := Fail(pos + 1, GroupExtension);
          return;
        }
        pos := pos + 1;
        fragment := Alternation();
        if failure != None { return; }
        if pos >= |pattern| {
          fragment := Fail(pos, MissingParen);
          return;
        }
        pos := pos + 1;
      case '[' =>
        fragment := BracketClass();
      case '.' =>
        pos := pos + 1;
        fragment := [Any];
      case '\\' =>
        fragment := Escape();
      case _ =>
        pos := pos + 1;
        fragment := [Char(c)];
    }

    method Escape() returns (fragment: Program)
      requires Ready() && pos < |pattern| && pattern[pos] == '\\'
      modifies this
      ensures Yields(ParseAtom(pattern, old(pos)), fragment, old(classes))
    {
      if pos + 1 >= |pattern| {
        fragment := Fail(pos + 1, TrailingBackslash);
        return;
      }
      var escaped := pattern[pos + 1];
      if IsShorthandLetter(escaped) {
        pos := pos + 2;
        fragment := EmitClass(LetterSet(escaped));
        return;
      }
      if IsAlphanumeric(escaped) {
        fragment := Fail(pos + 1, UnsupportedEscape);
        return;
      }
      pos := pos + 2;
      fragment := [Char(escaped)];
    }

    // What the parser reads as one class item; false when it fails.
    method ReadClassItem() returns (ok: bool, value: ItemValue)
      requires Ready() && pos < |pattern|
      modifies this`pos, this`failure
      ensures
        match ParseClassItem(pattern, old(pos))
        case Bad(o, reason) => !ok && failure == At(o, reason)
        case Ok(item, p) =>
          && ok && Ready() && pos == p
          && value == if item.Single? then One(item.c) else Many(LetterSet(item.letter))
    {
      value := One(pattern[pos]);
      if pattern[pos] != '\\' {
        pos := pos + 1;
        return true, value;
      }
      if pos + 1 >= |pattern| {
        var _ := Fail(pos + 1, MissingBracket);
        return false, value;
      }
      var escaped := pattern[pos + 1];
      if IsShorthandLetter(escaped) {
        pos := pos + 2;
        return true, Many(LetterSet(escaped));
      }
      if IsAlphanumeric(escaped) {
        var _ := Fail(pos + 1, UnsupportedEscape);
        return false, value;
      }
      pos := pos + 2;
      return true, One(escaped);
    }

    // The characters of the items read so far.
    ghost predicate Gathers(items: seq<ClassItem>, chars: set<char>) {
      forall c :: c in chars <==> exists k :: 0 <= k < |items| && ItemHas(items[k], c)
    }

    lemma GathersMore(items: seq<ClassItem>, chars: set<char>, item: ClassItem, more: set<char>)
      requires Gathers(items, chars) && forall c :: c in more <==> ItemHas(item, c)
      ensures Gathers(items + [item], chars + more)
    {
      var all := items + [item];
      forall c ensures c in chars + more <==> exists k :: 0 <= k < |all| && ItemHas(all[k], c) {
        if c in chars {
          var k :| 0 <= k < |items| && ItemHas(items[k], c);
          assert ItemHas(all[k], c);
        }
        if c in more { assert ItemHas(all[|items|], c); }
      }
    }

    lemma GathersClass(negated: bool, items: seq<ClassItem>, chars: set<char>, members: set<char>)
      requires Gathers(items, chars) && forall c :: c in members <==> negated != (c in chars)
      ensures members == ClassSet(negated, items)
    {
    }

    // One turn of the class loop past its tests: an item, or a range of them.
    method ReadEntry() returns (ok: bool, chars: set<char>)
      requires Ready() && pos < |pattern|
      modifies this`pos, this`failure
      ensures
        match ParseEntry(pattern, old(pos))
        case Bad(o, reason) => !ok && failure == At(o, reason)
        case Ok(item, p) => ok && Ready() && pos == p && forall c :: c in chars <==> ItemHas(item, c)
    {
      chars := {};
      var found, low := ReadClassItem();
      if !found { return false, chars; }
      assert pos + 1 < |pattern| ==> pattern[pos..][0] == pattern[pos] && pattern[pos..][1] == pattern[pos + 1];
      var ranged := pos + 1 < |pattern| && pattern[pos] == '-' && pattern[pos + 1] != ']';
      if !ranged {
        return true, if low.One? then {low.c} else low.chars;
      }
      if low.Many? {
        var _ := Fail(pos, InvalidRange);
        return false, chars;
      }
      pos := pos + 1;
      var offset := pos;
      var foundHigh, high := ReadClassItem();
      if !foundHigh { return false, chars; }
      if high.Many? {
        var _ := Fail(offset, InvalidRange);
        return false, chars;
      }
      if high.c < low.c {
        var _ := Fail(offset, RangeOutOfOrder);
        return false, chars;
      }
      return true, CharsBetween(low.c, high.c);
    }

    method BracketClass() returns (fragment: Program)
      requires Ready() && pos < |pattern| && pattern[pos] == '['
      modifies this
      ensures Yields(ParseBracket(pattern, old(pos) + 1), fragment, old(classes))
    {
      pos := pos + 1;
      var negated := pos < |pattern| && pattern[pos] == '^';
      if negated { pos := pos + 1; }
      ghost var r := ParseItems(pattern, pos, true);
      var ok, chars := ReadItems();
      if !ok { return []; }
      var members := if negated then set c: char | c !in chars else chars;
      GathersClass(negated, r.value, chars, members);
      fragment := EmitClass(members);
    }

    // The items up to the closing bracket, and the characters in any of them.
    method ReadItems() returns (ok: bool, chars: set<char>)
      requires Ready()
      modifies this`pos, this`failure
      ensures
        match ParseItems(pattern, old(pos), true)
        case Bad(o, reason) => !ok && failure == At(o, reason)
        case Ok(items, p) => ok && Ready() && pos == p && Gathers(items, chars)
    {
      chars := {};
      var first := true;
      ghost var start, items := pos, [];
      PrependNone(ParseItems(pattern, pos, true));
      hide ParseEntry, ItemHas;
      while true
        invariant Ready() && (first <==> items == [])
        invariant ParseItems(pattern, start, true) == Prepend(items, ParseItems(pattern, pos, first))
        invariant Gathers(items, chars)
        decreases |pattern| - pos
      {
        if pos >= |pattern| {
          var _ := Fail(pos, MissingBracket);
          return false, {};
        }
        if pattern[pos] == ']' && !first {
          pos := pos + 1;
          assert items + [] == items;
          return true, chars;
        }
        assert pos + 1 < |pattern| ==> pattern[pos..][0] == pattern[pos] && pattern[pos..][1] == pattern[pos + 1];
        if pattern[pos] == '[' && pos + 1 < |pattern|
           && (pattern[pos + 1] == ':' || pattern[pos + 1] == '.' || pattern[pos + 1] == '=') {
          var _ := Fail(pos, PosixClass);
          return false, {};
        }
        ghost var entry := ParseEntry(pattern, pos);
        first := false;
        var found, more := ReadEntry();
        if !found { return false, {}; }
        GathersMore(items, chars, entry.value, more);
        PrependTwice(items, [entry.value], ParseItems(pattern, pos, false));
        chars := chars + more;
        items := items + [entry.value];
      }
    }

    lemma PrependNone(r: Parsed<seq<ClassItem>>)
      ensures Prepend([], r) == r
    {
      if r.Ok? { assert [] + r.value == r.value; }
    }

    lemma PrependTwice(a: seq<ClassItem>, b: seq<ClassItem>, r: Parsed<seq<ClassItem>>)
      ensures Prepend(a, Prepend(b, r)) == Prepend(a + b, r)
    {
      if r.Ok? { assert a + (b + r.value) == a + b + r.value; }
    }
  }

  datatype Outcome =
    | Compiled(program: Program, classes: ClassTable)
    | Rejected(offset: nat, reason: Reason)

  method Compile(pattern: string) returns (r: Outcome)
    ensures
      match ParsePattern(pattern)
      case Ok(t, _) => r == Outcome.Compiled(RegexMachine.Compiled(t), ClassSets(t))
      case Bad(o, reason) => r == Rejected(o, reason)
  {
    var compiler := new Compiler(pattern);
    var program := compiler.Alternation();
    if compiler.failure == None && compiler.pos < |pattern| {
      var _ := compiler.Fail(compiler.pos, UnmatchedParen);
    }
    if compiler.failure != None {
      return Rejected(compiler.failure.offset, compiler.failure.reason);
    }
    return Outcome.Compiled(program + [Match], compiler.classes);
  }
}
