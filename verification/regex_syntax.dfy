/**
 The regular expressions that `^` exclusions are written in: concrete syntax trees, the text each
 tree spells, and the set of subject spans each tree denotes. Nothing here mentions the compiler or
 the machine it emits code for.
 */
module RegexSyntax {

  // One item of a bracket class, as it is spelled.
  datatype ClassItem =
    | Single(c: char, escaped: bool)
    | Range(low: char, lowEscaped: bool, high: char, highEscaped: bool)
    | Letter(letter: char)

  // `Empty` and `Cat` make sequences and `Alt` makes alternations; both lean to the left, which is
  // the order in which the source reads them.
  datatype Re =
    | Empty
    | Lit(c: char, escaped: bool)
    | Dot
    | Shorthand(letter: char)
    | Bracket(negated: bool, items: seq<ClassItem>)
    | Begin
    | End
    | Group(inner: Re)
    | Star(body: Re)
    | Plus(body: Re)
    | Opt(body: Re)
    | Cat(left: Re, right: Re)
    | Alt(left: Re, right: Re)

  predicate IsQuantifier(c: char) {
    c == '*' || c == '+' || c == '?'
  }

  predicate IsAlphanumeric(c: char) {
    'a' <= c <= 'z' || 'A' <= c <= 'Z' || '0' <= c <= '9'
  }

  predicate IsShorthandLetter(c: char) {
    c == 'd' || c == 'D' || c == 'w' || c == 'W' || c == 's' || c == 'S'
  }

  // A character that spells something other than itself outside brackets.
  predicate IsSpecial(c: char) {
    IsQuantifier(c) || c == '{' || c == '(' || c == ')' || c == '[' || c == '.' || c == '\\'
    || c == '^' || c == '$' || c == '|'
  }

  predicate CanEscape(c: char) {
    !IsAlphanumeric(c)
  }

  // ---------------------------------------------------------------- spelling

  function CharText(c: char, escaped: bool): (r: string)
    ensures |r| >= 1
  {
    if escaped then ['\\', c] else [c]
  }

  function ItemText(item: ClassItem): (r: string)
    ensures |r| >= 1
  {
    match item
    case Single(c, e) => CharText(c, e)
    case Range(lo, le, hi, he) => CharText(lo, le) + "-" + CharText(hi, he)
    case Letter(l) => ['\\', l]
  }

  // The items and the bracket that closes them.
  function ItemsText(items: seq<ClassItem>): (r: string)
    ensures |r| >= 1
  {
    if items == [] then "]" else ItemText(items[0]) + ItemsText(items[1..])
  }

  function Text(t: Re): string {
    match t
    case Empty => ""
    case Lit(c, e) => CharText(c, e)
    case Dot => "."
    case Shorthand(l) => ['\\', l]
    case Bracket(neg, items) => (if neg then "[^" else "[") + ItemsText(items)
    case Begin => "^"
    case End => "$"
    case Group(inner) => "(" + Text(inner) + ")"
    case Star(b) => Text(b) + "*"
    case Plus(b) => Text(b) + "+"
    case Opt(b) => Text(b) + "?"
    case Cat(l, r) => Text(l) + Text(r)
    case Alt(l, r) => Text(l) + "|" + Text(r)
  }

  // ---------------------------------------------------------------- grammar

  predicate WfChar(c: char, escaped: bool) {
    if escaped then !IsShorthandLetter(c) && CanEscape(c) else c != '\\'
  }

  predicate StartsRange(text: string) {
    |text| >= 2 && text[0] == '-' && text[1] != ']'
  }

  predicate StartsPosixClass(text: string) {
    |text| >= 2 && text[0] == '[' && (text[1] == ':' || text[1] == '.' || text[1] == '=')
  }

  predicate WfItem(item: ClassItem) {
    match item
    case Single(c, e) => WfChar(c, e)
    case Range(lo, le, hi, he) => WfChar(lo, le) && WfChar(hi, he) && lo <= hi && (he || hi != ']')
    case Letter(l) => IsShorthandLetter(l)
  }

  // Which item spellings mean those items: `]` closes the class unless it comes first, `[:` and its
  // kin are refused, and an item followed by `-x` would have been read as a range.
  predicate WfItems(items: seq<ClassItem>, first: bool) {
    items == [] ||
    (&& WfItem(items[0])
     && (first || ItemText(items[0])[0] != ']')
     && !StartsPosixClass(ItemsText(items))
     && (items[0].Range? || !StartsRange(ItemsText(items[1..])))
     && WfItems(items[1..], false))
  }

  predicate IsAtom(t: Re)
    decreases t, 0
  {
    match t
    case Lit(c, e) => if e then !IsShorthandLetter(c) && CanEscape(c) else !IsSpecial(c)
    case Dot => true
    case Shorthand(l) => IsShorthandLetter(l)
    case Bracket(neg, items) =>
      items != [] && WfItems(items, true) && (neg || ItemText(items[0])[0] != '^')
    case Group(inner) => IsAlternation(inner)
    case _ => false
  }

  predicate IsPiece(t: Re)
    decreases t, 1
  {
    match t
    case Begin => true
    case End => true
    case Star(b) => IsAtom(b)
    case Plus(b) => IsAtom(b)
    case Opt(b) => IsAtom(b)
    case _ => IsAtom(t)
  }

  predicate IsSequence(t: Re)
    decreases t, 2
  {
    match t
    case Empty => true
    case Cat(l, r) => IsSequence(l) && IsPiece(r)
    case _ => false
  }

  predicate IsAlternation(t: Re)
    decreases t, 3
  {
    match t
    case Alt(l, r) => IsAlternation(l) && IsSequence(r)
    case _ => IsSequence(t)
  }

  // ---------------------------------------------------------------- meaning

  // The characters a shorthand letter names; an upper-case letter names the others.
  predicate LetterHas(letter: char, c: char) {
    match letter
    case 'd' => '0' <= c <= '9'
    case 'D' => !('0' <= c <= '9')
    case 'w' => IsAlphanumeric(c) || c == '_'
    case 'W' => !(IsAlphanumeric(c) || c == '_')
    case 's' => c == ' ' || '\t' <= c <= '\r'
    case 'S' => !(c == ' ' || '\t' <= c <= '\r')
    case _ => false
  }

  predicate ItemHas(item: ClassItem, c: char) {
    match item
    case Single(x, _) => c == x
    case Range(lo, _, hi, _) => lo <= c <= hi
    case Letter(l) => LetterHas(l, c)
  }

  predicate ClassHas(negated: bool, items: seq<ClassItem>, c: char) {
    negated != (exists k :: 0 <= k < |items| && ItemHas(items[k], c))
  }

  // Every two neighbours of `ks` are the ends of a span of the body.
  ghost predicate Hops(body: Re, s: string, ks: seq<nat>)
    decreases body, 1
  {
    forall m: nat :: m + 1 < |ks| ==> Spans(body, s, ks[m], ks[m + 1])
  }

  ghost predicate Chain(body: Re, s: string, ks: seq<nat>, i: nat, j: nat)
    decreases body, 2
  {
    && |ks| > 0 && ks[0] == i && ks[|ks| - 1] == j
    && Hops(body, s, ks)
  }

  // `Spans(t, s, i, j)`: the text `s[i..j]`, seen in its place in `s`, is one `t` describes. A
  // repetition is any finite number of iterations; an iteration may be an empty one.
  ghost predicate Spans(t: Re, s: string, i: nat, j: nat)
    decreases t, 0
  {
    match t
    case Empty => i == j
    case Lit(c, _) => i < |s| && j == i + 1 && s[i] == c
    case Dot => i < |s| && j == i + 1 && s[i] != '\n'
    case Shorthand(l) => i < |s| && j == i + 1 && LetterHas(l, s[i])
    case Bracket(neg, items) => i < |s| && j == i + 1 && ClassHas(neg, items, s[i])
    case Begin => i == j == 0
    case End => i == j && (i == |s| || (i + 1 == |s| && s[i] == '\n'))
    case Group(inner) => Spans(inner, s, i, j)
    case Star(b) => exists ks: seq<nat> :: Chain(b, s, ks, i, j)
    case Plus(b) => exists ks: seq<nat> :: |ks| > 1 && Chain(b, s, ks, i, j)
    case Opt(b) => i == j || Spans(b, s, i, j)
    case Cat(l, r) => exists k: nat :: Spans(l, s, i, k) && Spans(r, s, k, j)
    case Alt(l, r) => Spans(l, s, i, j) || Spans(r, s, i, j)
  }

  // The pattern matches somewhere in the subject.
  ghost predicate Matches(t: Re, s: string) {
    exists i: nat, j: nat :: i <= |s| && Spans(t, s, i, j)
  }
}
