/** Splitting a command line into the words and operators a shell would see, and quoting a word for it. */
module Shell {

  datatype Token = Word(text: string) | Operator(text: string)

  datatype Mode = Plain | SingleQuoted | DoubleQuoted

  // `redirectionEnd` is the length of the word right after a redirection sign, or zero. `lastOperator`
  // is an operator sign just read that a second one would double.
  datatype State = State(
    args: seq<Token>, current: string, mode: Mode, escaped: bool, wordQuoted: bool, redirectionEnd: nat,
    lastOperator: string)

  const START := State([], "", Plain, false, false, 0, "")

  // ---------------------------------------------------------------- a byte at a time

  // The bytes that mean something in each mode; all others are text.
  predicate Stops(mode: Mode, c: char) {
    match mode
    case Plain => c in "\\\"' \t;&|<>\n"
    case SingleQuoted => c == '\''
    case DoubleQuoted => c == '\\' || c == '"'
  }

  function Flush(st: State): State {
    st.(args := if st.current != "" || st.wordQuoted then st.args + [Word(st.current)] else st.args,
        current := "", wordQuoted := false, redirectionEnd := 0)
  }

  function Append(st: State, text: string): State {
    st.(current := st.current + text)
  }

  predicate IsDescriptor(st: State) {
    !st.wordQuoted && forall i :: 0 <= i < |st.current| ==> '0' <= st.current[i] <= '9'
  }

  predicate EndsInRedirection(st: State) {
    st.redirectionEnd != 0 && st.redirectionEnd == |st.current|
  }

  function Redirect(st: State, c: char): State {
    var st' := Append(if st.current != "" && !EndsInRedirection(st) && !IsDescriptor(st) then Flush(st) else st, [c]);
    st'.(redirectionEnd := |st'.current|)
  }

  predicate Doubles(c: char) {
    c == '&' || c == '|'
  }

  function Operate(st: State, c: char): State {
    var st' := Flush(st);
    st'.(args := st'.args + [Operator([c])], lastOperator := if Doubles(c) then [c] else "")
  }

  function Special(st: State, c: char): State {
    match st.mode
    case SingleQuoted => st.(mode := Plain)
    case DoubleQuoted => if c == '\\' then st.(escaped := true) else st.(mode := Plain)
    case Plain =>
      if c == '\\' then st.(escaped := true, wordQuoted := true)
      else if c == '\'' then st.(mode := SingleQuoted, wordQuoted := true)
      else if c == '"' then st.(mode := DoubleQuoted, wordQuoted := true)
      else if c == '<' || c == '>' then Redirect(st, c)
      else if Doubles(c) && EndsInRedirection(st) then Append(st, [c])
      else if c == ';' || c == '&' || c == '|' || c == '\n' then Operate(st, c)
      else Flush(st)
  }

  function Step(st: State, c: char): State {
    if st.lastOperator == [c] && st.args != [] then
      st.(args := st.args[..|st.args| - 1] + [Operator([c, c])], lastOperator := "")
    else
      var st' := st.(lastOperator := "");
      if st.escaped then Append(st', [c]).(escaped := false)
      else if Stops(st.mode, c) then Special(st', c)
      else Append(st', [c])
  }

  function Scan(st: State, text: string): State
    decreases |text|
  {
    if text == "" then st else Scan(Step(st, text[0]), text[1..])
  }

  function Tokens(cmd: string): seq<Token> {
    Flush(Scan(START, cmd)).args
  }

  lemma {:induction false} ScanConcat(st: State, a: string, b: string)
    ensures Scan(st, a + b) == Scan(Scan(st, a), b)
    decreases |a|
  {
    if a == "" {
      assert a + b == b;
    } else {
      assert (a + b)[1..] == a[1..] + b;
      ScanConcat(Step(st, a[0]), a[1..], b);
    }
  }

  // ---------------------------------------------------------------- a run at a time

  lemma {:induction false} ScanRun(st: State, run: string)
    requires !st.escaped && st.lastOperator == "" && forall i :: 0 <= i < |run| ==> !Stops(st.mode, run[i])
    ensures Scan(st, run) == Append(st, run)
    decreases |run|
  {
    hide Stops;
    if run != "" {
      assert Step(st, run[0]) == Append(st, [run[0]]);
      ScanRun(Append(st, [run[0]]), run[1..]);
      assert (st.current + [run[0]]) + run[1..] == st.current + run;
    } else {
      assert st.current + "" == st.current;
    }
  }

  // An operator sign that is not doubled is as good as forgotten.
  lemma ForgetOperator(st: State, text: string)
    requires text == "" || st.lastOperator != [text[0]]
    ensures Flush(Scan(st, text)).args == Flush(Scan(st.(lastOperator := ""), text)).args
  {
    if text != "" {
      assert Step(st, text[0]) == Step(st.(lastOperator := ""), text[0]);
    }
  }

  // The words and operators of a command, scanned by runs of bytes without meaning.
  method TokenizeShellCommand(cmd: string) returns (args: seq<Token>)
    ensures args == Tokens(cmd)
  {
    hide Flush, Special, Stops;
    var st := START;
    var i := 0;
    assert cmd[0..] == cmd;
    while i < |cmd|
      invariant i <= |cmd| && st.lastOperator == ""
      invariant Flush(Scan(st, cmd[i..])).args == Tokens(cmd)
      decreases |cmd| - i
    {
      ghost var rest := cmd[i..];
      assert rest[1..] == cmd[i + 1..];
      if st.escaped {
        st := Append(st, [cmd[i]]).(escaped := false);
        i := i + 1;
      } else {
        var stop := RunEnd(cmd, i, st.mode);
        if stop > i {
          ScanRun(st, cmd[i..stop]);
          ScanConcat(st, cmd[i..stop], cmd[stop..]);
          assert rest == cmd[i..stop] + cmd[stop..];
          st := Append(st, cmd[i..stop]);
          i := stop;
        } else {
          st, i := ScanSpecial(cmd, i, st);
        }
      }
    }
    assert cmd[i..] == "";
    args := Flush(st).args;
  }

  method RunEnd(cmd: string, i: nat, mode: Mode) returns (stop: nat)
    requires i < |cmd|
    ensures i <= stop <= |cmd| && forall k :: i <= k < stop ==> !Stops(mode, cmd[k])
    ensures stop < |cmd| ==> Stops(mode, cmd[stop])
  {
    stop := i;
    while stop < |cmd| && !Stops(mode, cmd[stop])
      invariant i <= stop <= |cmd| && forall k :: i <= k < stop ==> !Stops(mode, cmd[k])
    {
      stop := stop + 1;
    }
  }

  // A byte with a meaning; an operator sign takes its double along.
  method ScanSpecial(cmd: string, i: nat, st: State) returns (st': State, i': nat)
    requires i < |cmd| && !st.escaped && st.lastOperator == "" && Stops(st.mode, cmd[i])
    ensures i < i' <= |cmd| && st'.lastOperator == ""
    ensures Flush(Scan(st', cmd[i'..])).args == Flush(Scan(st, cmd[i..])).args
  {
    hide Scan, Flush, Special;
    var c := cmd[i];
    ScanHead(st, cmd, i);
    if st.mode == Plain && IsOperator(c) && !(Doubles(c) && EndsInRedirection(st)) {
      ghost var single := Operate(st, c);
      OperatorStep(st, c);
      st' := Flush(st);
      var doubled := Doubles(c) && i + 1 < |cmd| && cmd[i + 1] == c;
      st' := st'.(args := st'.args + [Operator(if doubled then cmd[i..i + 2] else cmd[i..i + 1])], lastOperator := "");
      i' := if doubled then i + 2 else i + 1;
      SingleIs(st, c);
      if doubled {
        assert cmd[i..i + 2] == [c, c];
        ScanHead(single, cmd, i + 1);
      } else {
        assert cmd[i..i + 1] == [c];
        ghost var after := cmd[i + 1..];
        assert after == "" || after[0] == cmd[i + 1];
        ForgetOperator(single, cmd[i + 1..]);
      }
    } else {
      SpecialStep(st, c);
      st' := Special(st, c);
      i' := i + 1;
    }
  }

  predicate IsOperator(c: char) {
    c == ';' || c == '&' || c == '|' || c == '\n'
  }

  lemma ScanHead(st: State, cmd: string, i: nat)
    requires i < |cmd|
    ensures Scan(st, cmd[i..]) == Scan(Step(st, cmd[i]), cmd[i + 1..])
  {
    assert cmd[i..][1..] == cmd[i + 1..];
  }

  lemma OperatorStep(st: State, c: char)
    requires st.mode == Plain && IsOperator(c) && !(Doubles(c) && EndsInRedirection(st)) && !st.escaped &&
      st.lastOperator == ""
    ensures Step(st, c) == Operate(st, c)
  {
    assert st.(lastOperator := "") == st;
  }

  lemma SingleIs(st: State, c: char)
    ensures var single := Operate(st, c);
      && single.(lastOperator := "") == Flush(st).(args := Flush(st).args + [Operator([c])], lastOperator := "")
      && (Doubles(c) ==> Step(single, c) == Flush(st).(args := Flush(st).args + [Operator([c, c])], lastOperator := ""))
      && (!Doubles(c) ==> single.lastOperator == "")
      && (Doubles(c) ==> single.lastOperator == [c])
  {
    var single := Operate(st, c);
    assert single.args[..|single.args| - 1] == Flush(st).args;
  }

  lemma SpecialStep(st: State, c: char)
    requires !st.escaped && st.lastOperator == "" && Stops(st.mode, c)
    requires !(st.mode == Plain && IsOperator(c) && !(Doubles(c) && EndsInRedirection(st)))
    ensures Step(st, c) == Special(st, c) && Special(st, c).lastOperator == ""
  {
    assert st.(lastOperator := "") == st;
  }

  // ---------------------------------------------------------------- quoting

  // The bytes a word may hold and still need no quotes.
  predicate IsSafe(c: char) {
    'a' <= c <= 'z' || 'A' <= c <= 'Z' || '0' <= c <= '9' || c in "_-./:@"
  }

  // Inside single quotes only a single quote needs care: it is set in double quotes of its own.
  function QuotedChar(c: char): string {
    if c == '\'' then "'\"'\"'" else [c]
  }

  function QuotedText(s: string): string {
    if s == "" then "" else QuotedChar(s[0]) + QuotedText(s[1..])
  }

  predicate NeedsQuoting(s: string) {
    exists i :: 0 <= i < |s| && !IsSafe(s[i])
  }

  function Quote(s: string): string {
    if NeedsQuoting(s) then "'" + QuotedText(s) + "'" else s
  }

  lemma {:induction false} QuotedIsLonger(s: string)
    ensures |QuotedText(s)| >= |s|
    decreases |s|
  {
    if s != "" { QuotedIsLonger(s[1..]); }
  }

  // A word is left alone exactly when it holds nothing but these; any other stands between single quotes.
  lemma LeftAloneIff(s: string)
    ensures Quote(s) == s <==> forall i :: 0 <= i < |s| ==>
      'a' <= s[i] <= 'z' || 'A' <= s[i] <= 'Z' || '0' <= s[i] <= '9' || s[i] in "_-./:@"
    ensures Quote(s) != s ==> |Quote(s)| >= |s| + 2 && Quote(s)[0] == Quote(s)[|Quote(s)| - 1] == '\''
  {
    QuotedIsLonger(s);
  }

  method ShellQuote(s: string) returns (quoted: string)
    ensures quoted == Quote(s)
  {
    hide IsSafe, QuotedText;
    var needsQuoting := false;
    for i := 0 to |s|
      invariant needsQuoting <==> exists k :: 0 <= k < i && !IsSafe(s[k])
    {
      if !IsSafe(s[i]) {
        needsQuoting := true;
        break;
      }
    }
    if !needsQuoting { return s; }
    quoted := "'";
    assert s[0..] == s;
    for i := 0 to |s|
      invariant quoted + QuotedText(s[i..]) == "'" + QuotedText(s)
    {
      QuotedStep(s, i);
      assert quoted + (QuotedChar(s[i]) + QuotedText(s[i + 1..])) ==
        (quoted + QuotedChar(s[i])) + QuotedText(s[i + 1..]);
      quoted := quoted + if s[i] == '\'' then "'\"'\"'" else [s[i]];
    }
    QuotedStep(s, |s|);
    assert quoted + "" == quoted;
    quoted := quoted + "'";
  }

  lemma QuotedStep(s: string, i: nat)
    requires i <= |s|
    ensures QuotedText(s[i..]) == if i == |s| then "" else QuotedChar(s[i]) + QuotedText(s[i + 1..])
  {
    if i < |s| { assert s[i..][1..] == s[i + 1..]; }
  }

  function Spaced(words: seq<string>): string {
    if words == [] then ""
    else if |words| == 1 then Quote(words[0])
    else Quote(words[0]) + " " + Spaced(words[1..])
  }

  // Between words.
  predicate Ready(st: State) {
    st == State(st.args, "", Plain, false, false, 0, "")
  }

  lemma {:induction false} QuotedScans(st: State, s: string)
    requires st.mode == SingleQuoted && !st.escaped && st.lastOperator == "" && st.wordQuoted
    ensures Scan(st, QuotedText(s)) == Append(st, s)
    decreases |s|
  {
    hide Scan, Step;
    if s == "" {
      ScanNothing(st);
      assert st.current + "" == st.current;
    } else {
      QuotedCharScans(st, s[0]);
      ScanConcat(st, QuotedChar(s[0]), QuotedText(s[1..]));
      QuotedScans(Append(st, [s[0]]), s[1..]);
      assert (st.current + [s[0]]) + s[1..] == st.current + s;
    }
  }

  lemma ScanNothing(st: State)
    ensures Scan(st, "") == st
  {
  }

  lemma ScanOne(st: State, c: char, rest: string)
    ensures Scan(st, [c] + rest) == Scan(Step(st, c), rest)
  {
    assert ([c] + rest)[1..] == rest;
  }

  lemma ScanFive(st: State, t: string)
    requires |t| == 5
    ensures Scan(st, t) == Step(Step(Step(Step(Step(st, t[0]), t[1]), t[2]), t[3]), t[4])
  {
    hide Step, Scan;
    var s1 := Step(st, t[0]);
    var s2 := Step(s1, t[1]);
    var s3 := Step(s2, t[2]);
    var s4 := Step(s3, t[3]);
    assert t[0..] == t && t[5..] == "";
    ScanHead(st, t, 0);
    ScanHead(s1, t, 1);
    ScanHead(s2, t, 2);
    ScanHead(s3, t, 3);
    ScanHead(s4, t, 4);
    ScanNothing(Step(s4, t[4]));
  }

  lemma QuotedCharScans(st: State, c: char)
    requires st.mode == SingleQuoted && !st.escaped && st.lastOperator == "" && st.wordQuoted
    ensures Scan(st, QuotedChar(c)) == Append(st, [c])
  {
    hide Scan;
    if c == '\'' {
      var s1 := st.(mode := Plain);
      var s2 := st.(mode := DoubleQuoted);
      var s3 := Append(s2, "'");
      var s4 := s3.(mode := Plain);
      var t, end := QuotedChar(c), Append(st, [c]);
      assert Step(st, t[0]) == s1 && Step(s1, t[1]) == s2 && Step(s2, t[2]) == s3 && Step(s3, t[3]) == s4 &&
        Step(s4, t[4]) == end;
      ScanFive(st, t);
    } else {
      ScanOne(st, c, "");
      assert [c] + "" == [c];
      ScanNothing(Append(st, [c]));
    }
  }

  // A quoted word, scanned between words, becomes the word in hand.
  lemma QuoteScans(st: State, w: string)
    requires Ready(st)
    ensures Scan(st, Quote(w)) == st.(current := w, wordQuoted := NeedsQuoting(w))
  {
    hide Scan, QuotedText;
    if NeedsQuoting(w) {
      var open := st.(mode := SingleQuoted, wordQuoted := true);
      assert Quote(w) == ['\''] + (QuotedText(w) + "'");
      ScanOne(st, '\'', QuotedText(w) + "'");
      ScanConcat(open, QuotedText(w), "'");
      QuotedScans(open, w);
      assert "" + w == w;
      ScanOne(Append(open, w), '\'', "");
      assert "'" == ['\''] + "";
      ScanNothing(st.(current := w, wordQuoted := true));
    } else {
      assert forall i :: 0 <= i < |w| ==> IsSafe(w[i]);
      ScanRun(st, w);
      assert "" + w == w;
    }
  }

  function WordTokens(words: seq<string>): (r: seq<Token>)
    ensures |r| == |words| && forall i :: 0 <= i < |words| ==> r[i] == Word(words[i])
  {
    seq(|words|, i requires 0 <= i < |words| => Word(words[i]))
  }

  function NonEmpty(words: seq<string>): seq<string> {
    if words == [] then [] else (if words[0] == "" then [] else [words[0]]) + NonEmpty(words[1..])
  }

  lemma EndsWord(st: State, w: string)
    requires Ready(st)
    ensures var st' := Flush(st.(current := w, wordQuoted := NeedsQuoting(w)));
      Ready(st') && st'.args == st.args + WordTokens(if w == "" then [] else [w])
  {
    if w == "" { assert st.args + WordTokens([]) == st.args; }
  }

  lemma {:induction false} SpacedScans(st: State, words: seq<string>)
    requires Ready(st)
    ensures Flush(Scan(st, Spaced(words))).args == st.args + WordTokens(NonEmpty(words))
    decreases |words|
  {
    hide Scan, Quote, NeedsQuoting, Flush, Step;
    if words == [] {
      ScanNothing(st);
      NothingInHand(st);
    } else {
      var w, rest := words[0], words[1..];
      var inHand := st.(current := w, wordQuoted := NeedsQuoting(w));
      QuoteScans(st, w);
      EndsWord(st, w);
      WordTokensSplit(st.args, words);
      if rest == [] {
        assert Spaced(words) == Quote(w);
      } else {
        assert Spaced(words) == Quote(w) + ([' '] + Spaced(rest));
        ScanConcat(st, Quote(w), [' '] + Spaced(rest));
        ScanOne(inHand, ' ', Spaced(rest));
        SpaceEnds(inHand);
        SpacedScans(Flush(inHand), rest);
      }
    }
  }

  lemma WordTokensSplit(args: seq<Token>, words: seq<string>)
    requires words != []
    ensures var kept, rest := if words[0] == "" then [] else [words[0]], words[1..];
      && (args + WordTokens(kept)) + WordTokens(NonEmpty(rest)) == args + WordTokens(NonEmpty(words))
      && (rest == [] ==> args + WordTokens(kept) == args + WordTokens(NonEmpty(words)))
  {
    hide WordTokens, NonEmpty;
    var kept, rest := if words[0] == "" then [] else [words[0]], words[1..];
    WordTokensConcat(kept, NonEmpty(rest));
    NonEmptyStep(words);
    var a, b := WordTokens(kept), WordTokens(NonEmpty(rest));
    assert (args + a) + b == args + (a + b);
    if rest == [] { assert kept + [] == kept; }
  }

  lemma NonEmptyStep(words: seq<string>)
    requires words != []
    ensures NonEmpty(words) == (if words[0] == "" then [] else [words[0]]) + NonEmpty(words[1..]) && NonEmpty([]) == []
  {
  }

  lemma WordTokensConcat(a: seq<string>, b: seq<string>)
    ensures WordTokens(a + b) == WordTokens(a) + WordTokens(b)
  {
  }

  lemma NothingInHand(st: State)
    requires Ready(st)
    ensures Flush(st).args == st.args && st.args + WordTokens([]) == st.args
  {
  }

  lemma SpaceEnds(st: State)
    requires st.mode == Plain && !st.escaped && st.lastOperator == ""
    ensures Step(st, ' ') == Flush(st)
  {
    assert st.(lastOperator := "") == st;
  }

  // Quoted, set apart by spaces and split again, words come back, all but the empty ones: they come
  // back unchanged exactly when none is empty.
  lemma QuotingRoundTrip(words: seq<string>)
    ensures Tokens(Spaced(words)) == WordTokens(NonEmpty(words))
    ensures Tokens(Spaced(words)) == WordTokens(words) <==> "" !in words
  {
    SpacedScans(START, words);
    hide Scan, Spaced, Flush;
    assert START.args + WordTokens(NonEmpty(words)) == WordTokens(NonEmpty(words));
    NonEmptyIs(words);
    if "" in words { assert |NonEmpty(words)| < |words|; }
  }

  lemma {:induction false} NonEmptyIs(words: seq<string>)
    ensures |NonEmpty(words)| <= |words| && ("" in words <==> |NonEmpty(words)| < |words|)
    ensures "" !in words ==> NonEmpty(words) == words
    decreases |words|
  {
    if words != [] {
      NonEmptyIs(words[1..]);
      assert forall w :: w in words <==> w == words[0] || w in words[1..];
      assert words == [words[0]] + words[1..];
    }
  }
}
