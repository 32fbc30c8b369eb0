/**
 Command lines as they are written: words put together from bare, quoted and escaped pieces, set apart
 by blanks and operators. What the tokenizer makes of a line is what was written.
 */
module ShellSpelling {
  import opened Shell

  // A character inside double quotes, with a backslash before it or without.
  datatype Written = Written(c: char, escaped: bool)

  datatype Piece = Bare(text: string) | Single(text: string) | Double(written: seq<Written>) | Escaped(c: char)

  const SPECIAL := "\\\"' \t;&|<>\n"

  predicate WellWritten(p: Piece) {
    match p
    case Bare(text) => forall i :: 0 <= i < |text| ==> text[i] !in SPECIAL
    case Single(text) => '\'' !in text
    case Double(written) =>
      forall i :: 0 <= i < |written| && (written[i].c == '"' || written[i].c == '\\') ==> written[i].escaped
    case Escaped(_) => true
  }

  function SpellOne(w: Written): string {
    if w.escaped then ['\\', w.c] else [w.c]
  }

  function SpellWritten(written: seq<Written>): string {
    if written == [] then "" else SpellOne(written[0]) + SpellWritten(written[1..])
  }

  function Characters(written: seq<Written>): string {
    if written == [] then "" else [written[0].c] + Characters(written[1..])
  }

  function SpellPiece(p: Piece): string {
    match p
    case Bare(text) => text
    case Single(text) => "'" + text + "'"
    case Double(written) => "\"" + SpellWritten(written) + "\""
    case Escaped(c) => ['\\', c]
  }

  function TextOfPiece(p: Piece): string {
    match p
    case Bare(text) => text
    case Single(text) => text
    case Double(written) => Characters(written)
    case Escaped(c) => [c]
  }

  type Pieces = seq<Piece>

  function Spell(word: Pieces): string {
    if word == [] then "" else SpellPiece(word[0]) + Spell(word[1..])
  }

  function TextOf(word: Pieces): string {
    if word == [] then "" else TextOfPiece(word[0]) + TextOf(word[1..])
  }

  predicate AllWell(word: Pieces) {
    forall i :: 0 <= i < |word| ==> WellWritten(word[i])
  }

  predicate Quoted(word: Pieces) {
    exists i :: 0 <= i < |word| && !word[i].Bare?
  }

  // There is a word, be it an empty one in quotes.
  predicate IsWord(word: Pieces) {
    AllWell(word) && (TextOf(word) != "" || Quoted(word))
  }

  // ---------------------------------------------------------------- pieces

  // Outside quotes, nothing pending.
  predicate Open(st: State) {
    st.mode == Plain && !st.escaped && st.lastOperator == ""
  }

  function Took(st: State, text: string, quoted: bool): State {
    st.(current := st.current + text, wordQuoted := st.wordQuoted || quoted)
  }

  lemma TookTwice(st: State, a: string, b: string, p: bool, q: bool)
    ensures Took(Took(st, a, p), b, q) == Took(st, a + b, p || q)
  {
    assert (st.current + a) + b == st.current + (a + b);
  }

  lemma OneScans(st: State, w: Written)
    requires st.mode == DoubleQuoted && !st.escaped && st.lastOperator == ""
    requires w.c == '"' || w.c == '\\' ==> w.escaped
    ensures Scan(st, SpellOne(w)) == Append(st, [w.c])
  {
    hide Scan;
    var next := Append(st, [w.c]);
    ScanNothing(next);
    assert [w.c] == [w.c] + "";
    if w.escaped {
      assert SpellOne(w) == ['\\'] + [w.c];
      ScanOne(st, '\\', [w.c]);
      ScanOne(st.(escaped := true), w.c, "");
    } else {
      ScanOne(st, w.c, "");
    }
  }

  lemma {:induction false} WrittenScans(st: State, written: seq<Written>)
    requires st.mode == DoubleQuoted && !st.escaped && st.lastOperator == "" && WellWritten(Double(written))
    ensures Scan(st, SpellWritten(written)) == Append(st, Characters(written))
    decreases |written|
  {
    hide Scan, SpellOne;
    if written == [] {
      ScanNothing(st);
      assert st.current + "" == st.current;
    } else {
      var w, rest := written[0], written[1..];
      OneScans(st, w);
      ScanConcat(st, SpellOne(w), SpellWritten(rest));
      assert forall i :: 0 <= i < |rest| ==> rest[i] == written[i + 1];
      WrittenScans(Append(st, [w.c]), rest);
      assert (st.current + [w.c]) + Characters(rest) == st.current + Characters(written);
    }
  }

  lemma SingleScans(st: State, text: string)
    requires Open(st) && '\'' !in text
    ensures Scan(st, "'" + text + "'") == Took(st, text, true)
  {
    hide Scan;
    var inside := st.(mode := SingleQuoted, wordQuoted := true);
    assert "'" + text + "'" == ['\''] + (text + "'");
    ScanOne(st, '\'', text + "'");
    ScanConcat(inside, text, "'");
    ScanRun(inside, text);
    assert "'" == ['\''] + "";
    ScanOne(Append(inside, text), '\'', "");
    ScanNothing(Took(st, text, true));
  }

  lemma DoubleScans(st: State, written: seq<Written>)
    requires Open(st) && WellWritten(Double(written))
    ensures Scan(st, "\"" + SpellWritten(written) + "\"") == Took(st, Characters(written), true)
  {
    hide Scan, SpellWritten, Characters, WellWritten;
    var inside, text := st.(mode := DoubleQuoted, wordQuoted := true), SpellWritten(written);
    assert "\"" + text + "\"" == ['"'] + (text + "\"");
    ScanOne(st, '"', text + "\"");
    ScanConcat(inside, text, "\"");
    WrittenScans(inside, written);
    assert "\"" == ['"'] + "";
    ScanOne(Append(inside, Characters(written)), '"', "");
    ScanNothing(Took(st, Characters(written), true));
  }

  lemma EscapedScans(st: State, c: char)
    requires Open(st)
    ensures Scan(st, ['\\', c]) == Took(st, [c], true)
  {
    hide Scan;
    assert ['\\', c] == ['\\'] + ([c] + "");
    ScanOne(st, '\\', [c] + "");
    ScanOne(st.(escaped := true, wordQuoted := true), c, "");
    ScanNothing(Took(st, [c], true));
  }

  lemma BareScans(st: State, text: string)
    requires Open(st) && WellWritten(Bare(text))
    ensures Scan(st, text) == Took(st, text, false)
  {
    assert forall i :: 0 <= i < |text| ==> !Stops(Plain, text[i]);
    ScanRun(st, text);
  }

  lemma PieceScans(st: State, p: Piece)
    requires Open(st) && WellWritten(p)
    ensures Scan(st, SpellPiece(p)) == Took(st, TextOfPiece(p), !p.Bare?)
  {
    hide Scan, Took, SpellWritten, Characters;
    match p
    case Bare(text) => BareScans(st, text);
    case Single(text) => SingleScans(st, text);
    case Double(written) => DoubleScans(st, written);
    case Escaped(c) => EscapedScans(st, c);
  }

  lemma QuotedSplit(word: Pieces)
    requires word != []
    ensures Quoted(word) <==> !word[0].Bare? || Quoted(word[1..])
    ensures AllWell(word) ==> WellWritten(word[0]) && AllWell(word[1..])
  {
    assert forall i :: 0 < i < |word| ==> word[i] == word[1..][i - 1];
  }

  lemma {:induction false} WordScans(st: State, word: Pieces)
    requires Open(st) && AllWell(word)
    ensures Scan(st, Spell(word)) == Took(st, TextOf(word), Quoted(word))
    decreases |word|
  {
    hide Scan, SpellPiece, TextOfPiece, WellWritten, Quoted, AllWell;
    if word == [] {
      ScanNothing(st);
      NothingQuoted();
      assert st.current + "" == st.current;
    } else {
      QuotedSplit(word);
      PieceScans(st, word[0]);
      var next := Took(st, TextOfPiece(word[0]), !word[0].Bare?);
      ScanConcat(st, SpellPiece(word[0]), Spell(word[1..]));
      WordScans(next, word[1..]);
      TookTwice(st, TextOfPiece(word[0]), TextOf(word[1..]), !word[0].Bare?, Quoted(word[1..]));
    }
  }

  lemma NothingQuoted()
    ensures !Quoted([])
  {
  }

  // A word is what its pieces spell, whichever way each of them is written.
  lemma WordIsText(word: Pieces)
    requires IsWord(word)
    ensures Tokens(Spell(word)) == [Word(TextOf(word))]
  {
    hide Scan, Spell, TextOf, Quoted;
    WordScans(START, word);
    assert "" + TextOf(word) == TextOf(word);
  }

  // ---------------------------------------------------------------- separators

  predicate Blank(text: string) {
    forall i :: 0 <= i < |text| ==> text[i] == ' ' || text[i] == '\t'
  }

  // Blanks, or an operator with or without blanks around it.
  datatype Separator = Separator(before: string, op: string, after: string)

  const OPERATORS: set<string> := {";", "&", "|", "&&", "||", "\n"}

  predicate Separates(s: Separator) {
    Blank(s.before) && Blank(s.after) && if s.op == "" then s.before + s.after != "" else s.op in OPERATORS
  }

  function SpellSeparator(s: Separator): string {
    s.before + s.op + s.after
  }

  lemma BlankStep(st: State, c: char)
    requires Open(st) && (c == ' ' || c == '\t')
    ensures Step(st, c) == Flush(st) && Open(Flush(st))
  {
    assert st.(lastOperator := "") == st;
  }

  lemma FlushTwice(st: State)
    ensures Flush(Flush(st)) == Flush(st)
  {
  }

  lemma {:induction false} BlanksScan(st: State, text: string)
    requires Open(st) && Blank(text) && text != ""
    ensures Scan(st, text) == Flush(st)
    decreases |text|
  {
    hide Scan, Flush, Step;
    assert text == [text[0]] + text[1..];
    ScanOne(st, text[0], text[1..]);
    BlankStep(st, text[0]);
    FlushTwice(st);
    if text[1..] == "" { ScanNothing(Flush(st)); } else { BlanksScan(Flush(st), text[1..]); }
  }

  // After a word, or after nothing: no redirection sign has just been read.
  predicate Between(st: State) {
    Open(st) && st.redirectionEnd == 0
  }

  function WithOperator(st: State, op: string): State {
    Flush(st).(args := Flush(st).args + [Operator(op)])
  }

  // An operator, and a text after it that does not begin with the same sign.
  lemma OperatorScans(st: State, op: string, text: string)
    requires Between(st) && op in OPERATORS && (text == "" || text[0] != op[0] || !Doubles(op[0]))
    ensures Flush(Scan(st, op + text)).args == Flush(Scan(WithOperator(st, op), text)).args
    ensures Between(WithOperator(st, op))
  {
    var c := op[0];
    var single := Operate(st, c);
    OperatorStep(st, c);
    SingleIs(st, c);
    hide Scan, Step, Operate;
    if |op| == 1 {
      assert op == [c];
      ScanOne(st, c, text);
      ForgetOperator(single, text);
    } else {
      assert op == [c, c] && op + text == [c] + ([c] + text);
      ScanOne(st, c, [c] + text);
      ScanOne(single, c, text);
    }
  }

  // ---------------------------------------------------------------- lines

  predicate IsLine(words: seq<Pieces>, separators: seq<Separator>) {
    && |words| == |separators| + 1
    && (forall i :: 0 <= i < |words| ==> IsWord(words[i]))
    && forall i :: 0 <= i < |separators| ==> Separates(separators[i])
  }

  function SpellLine(words: seq<Pieces>, separators: seq<Separator>): string
    requires |words| == |separators| + 1
  {
    if separators == [] then Spell(words[0])
    else Spell(words[0]) + (SpellSeparator(separators[0]) + SpellLine(words[1..], separators[1..]))
  }

  function LineTokens(words: seq<Pieces>, separators: seq<Separator>): seq<Token>
    requires |words| == |separators| + 1
  {
    [Word(TextOf(words[0]))]
    + if separators == [] then []
      else (if separators[0].op == "" then [] else [Operator(separators[0].op)])
           + LineTokens(words[1..], separators[1..])
  }

  // A word does not begin with a sign or a blank.
  lemma WordBegins(word: Pieces)
    requires IsWord(word)
    ensures Spell(word) != "" && !IsOperator(Spell(word)[0])
    decreases |word|
  {
    QuotedSplit(word);
    if word[0] == Bare("") {
      assert Spell(word) == Spell(word[1..]) && TextOf(word) == TextOf(word[1..]);
      WordBegins(word[1..]);
    } else {
      assert Spell(word)[0] == SpellPiece(word[0])[0];
      assert word[0].Bare? ==> word[0].text[0] !in SPECIAL;
    }
  }

  lemma InHand(st: State, word: Pieces)
    requires Ready(st) && IsWord(word)
    ensures var st' := Took(st, TextOf(word), Quoted(word));
      && Scan(st, Spell(word)) == st' && Between(st')
      && Ready(Flush(st')) && Flush(st').args == st.args + [Word(TextOf(word))]
  {
    hide Scan, Spell, TextOf, Quoted;
    WordScans(st, word);
    assert "" + TextOf(word) == TextOf(word);
  }

  // What comes after a separator is read as from the start.
  lemma SeparatorScans(st: State, s: Separator, text: string)
    requires Between(st) && Separates(s) && text != "" && !IsOperator(text[0])
    ensures var next := if s.op == "" then Flush(st) else WithOperator(st, s.op);
      Flush(Scan(st, SpellSeparator(s) + text)).args == Flush(Scan(next, text)).args && Ready(next)
  {
    FlushTwice(st);
    var st1 := if s.before == "" then st else Flush(st);
    assert SpellSeparator(s) + text == s.before + (s.op + (s.after + text));
    ScanConcat(st, s.before, s.op + (s.after + text));
    if s.before != "" { BlanksScan(st, s.before); } else { ScanNothing(st); }
    hide Scan, Step;
    if s.op == "" {
      assert s.op + (s.after + text) == s.after + text;
      ScanConcat(st1, s.after, text);
      if s.after != "" { BlanksScan(st1, s.after); } else { ScanNothing(st1); }
    } else {
      var rest := s.after + text;
      assert rest != "" && (rest[0] == text[0] || rest[0] == ' ' || rest[0] == '\t');
      OperatorScans(st1, s.op, rest);
      var st2 := WithOperator(st1, s.op);
      ScanConcat(st2, s.after, text);
      if s.after != "" { BlanksScan(st2, s.after); } else { ScanNothing(st2); }
    }
  }

  lemma {:induction false} LineScans(st: State, words: seq<Pieces>, separators: seq<Separator>)
    requires Ready(st) && IsLine(words, separators)
    ensures Flush(Scan(st, SpellLine(words, separators))).args == st.args + LineTokens(words, separators)
    decreases |separators|
  {
    hide Scan, Spell, TextOf, IsWord, Separates, Flush, Took, SpellSeparator, Quoted, WithOperator;
    var word := words[0];
    InHand(st, word);
    var inHand := Took(st, TextOf(word), Quoted(word));
    if separators != [] {
      var s, rest, after := separators[0], words[1..], separators[1..];
      LineBegins(rest, after);
      ScanConcat(st, Spell(word), SpellSeparator(s) + SpellLine(rest, after));
      SeparatorScans(inHand, s, SpellLine(rest, after));
      var next := if s.op == "" then Flush(inHand) else WithOperator(inHand, s.op);
      NextArgs(inHand, s.op);
      LineScans(next, rest, after);
      var op := if s.op == "" then [] else [Operator(s.op)];
      assert ((st.args + [Word(TextOf(word))]) + op) + LineTokens(rest, after)
          == st.args + ([Word(TextOf(word))] + (op + LineTokens(rest, after)));
    } else {
      assert [Word(TextOf(word))] + [] == [Word(TextOf(word))];
    }
  }

  lemma NextArgs(st: State, op: string)
    ensures WithOperator(st, op).args == Flush(st).args + [Operator(op)]
  {
  }

  lemma LineBegins(words: seq<Pieces>, separators: seq<Separator>)
    requires IsLine(words, separators)
    ensures SpellLine(words, separators) != "" && !IsOperator(SpellLine(words, separators)[0])
  {
    hide Spell, IsWord, SpellSeparator;
    WordBegins(words[0]);
  }

  // Splitting a line yields the words and operators it was written with.
  lemma LineIsTokens(words: seq<Pieces>, separators: seq<Separator>)
    requires IsLine(words, separators)
    ensures Tokens(SpellLine(words, separators)) == LineTokens(words, separators)
  {
    hide Scan, SpellLine, LineTokens, IsWord, Separates;
    LineScans(START, words, separators);
  }

  // ---------------------------------------------------------------- redirections

  // One or more signs, with an ampersand or a bar or neither.
  datatype Redirection = Redirection(signs: string, tail: string)

  predicate IsRedirection(r: Redirection) {
    && r.signs != "" && (forall i :: 0 <= i < |r.signs| ==> r.signs[i] == '<' || r.signs[i] == '>')
    && (r.tail == "" || r.tail == "&" || r.tail == "|")
  }

  predicate IsNumber(text: string) {
    forall i :: 0 <= i < |text| ==> '0' <= text[i] <= '9'
  }

  // The word before stays with the sign if it is a number written bare, or there is none.
  predicate Joins(word: Pieces) {
    TextOf(word) == "" || (!Quoted(word) && IsNumber(TextOf(word)))
  }

  // In the middle of a word, right behind a redirection sign.
  predicate BehindSign(st: State) {
    Open(st) && EndsInRedirection(st)
  }

  function Signed(st: State, text: string): State {
    var st' := Append(st, text);
    st'.(redirectionEnd := |st'.current|)
  }

  lemma SignStep(st: State, c: char)
    requires Open(st) && (c == '<' || c == '>')
    requires st.current == "" || EndsInRedirection(st) || IsDescriptor(st)
    ensures Step(st, c) == Signed(st, [c]) && BehindSign(Signed(st, [c]))
  {
    assert st.(lastOperator := "") == st;
  }

  lemma {:induction false} SignsScan(st: State, signs: string)
    requires Open(st) && (st.current == "" || EndsInRedirection(st) || IsDescriptor(st))
    requires signs != "" && forall i :: 0 <= i < |signs| ==> signs[i] == '<' || signs[i] == '>'
    ensures Scan(st, signs) == Signed(st, signs) && BehindSign(Signed(st, signs))
    decreases |signs|
  {
    hide Scan, Step;
    var c, rest := signs[0], signs[1..];
    assert signs == [c] + rest;
    SignStep(st, c);
    ScanOne(st, c, rest);
    var next := Signed(st, [c]);
    if rest == "" {
      ScanNothing(next);
    } else {
      SignsScan(next, rest);
      assert (st.current + [c]) + rest == st.current + signs;
    }
  }

  lemma TailScans(st: State, tail: string)
    requires BehindSign(st) && (tail == "" || tail == "&" || tail == "|")
    ensures Scan(st, tail) == Append(st, tail)
  {
    assert st.(lastOperator := "") == st;
    if tail == "" {
      assert st.current + "" == st.current;
    } else {
      assert tail == [tail[0]] + "";
      ScanOne(st, tail[0], "");
    }
  }

  // The sign and what is behind it join the word in hand.
  lemma TargetScans(st: State, r: Redirection, w: Pieces)
    requires Open(st) && (st.current == "" || IsDescriptor(st)) && AllWell(w) && IsRedirection(r)
    ensures Flush(Scan(st, r.signs + (r.tail + Spell(w)))).args ==
      st.args + [Word(st.current + (r.signs + r.tail + TextOf(w)))]
  {
    hide Scan, Spell, TextOf, Quoted, AllWell, Flush, IsDescriptor;
    SignsScan(st, r.signs);
    ScanConcat(st, r.signs, r.tail + Spell(w));
    var signed := Signed(st, r.signs);
    TailScans(signed, r.tail);
    var tailed := Append(signed, r.tail);
    ScanConcat(signed, r.tail, Spell(w));
    WordScans(tailed, w);
    var end, target := Took(tailed, TextOf(w), Quoted(w)), r.signs + r.tail + TextOf(w);
    assert end.current == ((st.current + r.signs) + r.tail) + TextOf(w) == st.current + target;
    assert target[0] == r.signs[0];
    OneMore(end, st.args, st.current + target);
  }

  lemma OneMore(st: State, args: seq<Token>, text: string)
    requires st.args == args && st.current == text != ""
    ensures Flush(st).args == args + [Word(text)]
  {
  }

  // A sign sets off a word that is no descriptor.
  lemma SignSplits(st: State, c: char)
    requires Open(st) && (c == '<' || c == '>') && st.current != "" && st.redirectionEnd == 0 && !IsDescriptor(st)
    ensures Step(st, c) == Step(Flush(st), c) && Open(Flush(st))
  {
    assert st.(lastOperator := "") == st;
    assert Flush(st).(lastOperator := "") == Flush(st);
  }

  lemma InHandIsDescriptor(u: Pieces)
    ensures var st := Took(START, TextOf(u), Quoted(u));
      && Open(st) && st.redirectionEnd == 0 && st.current == TextOf(u)
      && (Joins(u) <==> st.current == "" || IsDescriptor(st))
  {
    hide TextOf, Quoted;
    assert "" + TextOf(u) == TextOf(u);
  }

  // A sign sets off the word before it unless that is a number; it stays with the word behind it.
  lemma RedirectionIsTokens(u: Pieces, r: Redirection, w: Pieces)
    requires AllWell(u) && AllWell(w) && IsRedirection(r)
    ensures var target := r.signs + r.tail + TextOf(w);
      Tokens(Spell(u) + (r.signs + (r.tail + Spell(w)))) ==
      if Joins(u) then [Word(TextOf(u) + target)] else [Word(TextOf(u)), Word(target)]
  {
    hide Scan, Spell, TextOf, Quoted, AllWell, Flush, Joins, IsDescriptor, Step;
    var st, text := Took(START, TextOf(u), Quoted(u)), r.signs + (r.tail + Spell(w));
    WordScans(START, u);
    ScanConcat(START, Spell(u), text);
    InHandIsDescriptor(u);
    if Joins(u) {
      TargetScans(st, r, w);
    } else {
      var c := r.signs[0];
      assert text == [c] + (r.signs[1..] + (r.tail + Spell(w)));
      SignSplits(st, c);
      ScanOne(st, c, r.signs[1..] + (r.tail + Spell(w)));
      ScanOne(Flush(st), c, r.signs[1..] + (r.tail + Spell(w)));
      OneMore(st, [], TextOf(u));
      FlushEmpties(st);
      TargetScans(Flush(st), r, w);
      assert "" + (r.signs + r.tail + TextOf(w)) == r.signs + r.tail + TextOf(w);
    }
  }

  lemma FlushEmpties(st: State)
    ensures Flush(st).current == ""
  {
  }

  // ---------------------------------------------------------------- unfinished lines

  // A quote that is never closed, or a backslash at the very end, is taken for closed there.
  lemma UnclosedIsWord(word: Pieces, text: string, written: seq<Written>)
    requires AllWell(word) && '\'' !in text && WellWritten(Double(written))
    ensures Tokens(Spell(word) + ("'" + text)) == [Word(TextOf(word) + text)]
    ensures Tokens(Spell(word) + ("\"" + SpellWritten(written))) == [Word(TextOf(word) + Characters(written))]
    ensures Tokens(Spell(word) + "\\") == [Word(TextOf(word))]
  {
    hide Scan, Spell, TextOf, Quoted, AllWell, SpellWritten, Characters, WellWritten;
    var st := Took(START, TextOf(word), Quoted(word));
    WordScans(START, word);
    assert st.current == TextOf(word) && Open(st);
    ScanConcat(START, Spell(word), "'" + text);
    ScanOne(st, '\'', text);
    ScanRun(st.(mode := SingleQuoted, wordQuoted := true), text);
    ScanConcat(START, Spell(word), "\"" + SpellWritten(written));
    ScanOne(st, '"', SpellWritten(written));
    WrittenScans(st.(mode := DoubleQuoted, wordQuoted := true), written);
    ScanConcat(START, Spell(word), "\\");
    assert "\\" == ['\\'] + "";
    ScanOne(st, '\\', "");
    ScanNothing(st.(escaped := true, wordQuoted := true));
  }

  // ---------------------------------------------------------------- lines side by side

  // Every quote is closed again and nothing is left escaped.
  predicate Closed(line: string) {
    Scan(START, line).mode == Plain && !Scan(START, line).escaped
  }

  predicate Sane(st: State) {
    && (st.lastOperator != "" ==> st.args != [])
    && (st.lastOperator == "" || st.lastOperator == "&" || st.lastOperator == "|")
  }

  function Behind(args: seq<Token>, st: State): State {
    st.(args := args + st.args)
  }

  lemma FlushBehind(args: seq<Token>, st: State)
    ensures Flush(Behind(args, st)) == Behind(args, Flush(st))
  {
    assert args + (st.args + [Word(st.current)]) == (args + st.args) + [Word(st.current)];
  }

  lemma OperateBehind(args: seq<Token>, st: State, c: char)
    ensures Operate(Behind(args, st), c) == Behind(args, Operate(st, c))
  {
    FlushBehind(args, st);
    var done := Flush(st).args;
    assert args + (done + [Operator([c])]) == (args + done) + [Operator([c])];
  }

  lemma RedirectBehind(args: seq<Token>, st: State, c: char)
    ensures Redirect(Behind(args, st), c) == Behind(args, Redirect(st, c))
  {
    FlushBehind(args, st);
    hide Flush;
  }

  lemma SpecialBehind(args: seq<Token>, st: State, c: char)
    ensures Special(Behind(args, st), c) == Behind(args, Special(st, c))
  {
    FlushBehind(args, st);
    OperateBehind(args, st, c);
    RedirectBehind(args, st, c);
    hide Flush, Operate, Redirect;
  }

  lemma SpecialSane(st: State, c: char)
    requires st.lastOperator == ""
    ensures Sane(Special(st, c))
  {
  }

  // What has been read before does not change how the rest is read.
  lemma StepBehind(args: seq<Token>, st: State, c: char)
    requires Sane(st)
    ensures Step(Behind(args, st), c) == Behind(args, Step(st, c)) && Sane(Step(st, c))
  {
    hide Special;
    if st.lastOperator == [c] {
      var front := st.args[..|st.args| - 1];
      assert (args + st.args)[..|args + st.args| - 1] == args + front;
      assert (args + front) + [Operator([c, c])] == args + (front + [Operator([c, c])]);
    } else {
      SpecialBehind(args, st.(lastOperator := ""), c);
      SpecialSane(st.(lastOperator := ""), c);
    }
  }

  lemma {:induction false} ScanBehind(args: seq<Token>, st: State, text: string)
    requires Sane(st)
    ensures Scan(Behind(args, st), text) == Behind(args, Scan(st, text)) && Sane(Scan(st, text))
    decreases |text|
  {
    hide Step;
    if text != "" {
      StepBehind(args, st, text[0]);
      ScanBehind(args, Step(st, text[0]), text[1..]);
    }
  }

  // Closed lines with a blank between them are split each for itself.
  lemma BlankSplits(a: string, blank: char, b: string)
    requires Closed(a) && (blank == ' ' || blank == '\t')
    ensures Tokens(a + ([blank] + b)) == Tokens(a) + Tokens(b)
  {
    hide Scan, Flush, Step;
    var st := Scan(START, a);
    ScanBehind([], START, a);
    ScanConcat(START, a, [blank] + b);
    ScanOne(st, blank, b);
    BlankEnds(st, blank);
    ScanBehind(Flush(st).args, START, b);
    assert Flush(st).args + [] == Flush(st).args;
    FlushBehind(Flush(st).args, Scan(START, b));
  }

  lemma BlankEnds(st: State, blank: char)
    requires st.mode == Plain && !st.escaped && Sane(st) && (blank == ' ' || blank == '\t')
    ensures Step(st, blank) == State(Flush(st).args, "", Plain, false, false, 0, "")
  {
  }
}
