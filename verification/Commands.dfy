/** Input lines: escape sequences are taken out, then the last word is the command and the
    rest its argument, unless the line ends like a sentence and is spoken. */
module Commands {
  import opened Text

  // ---- escape sequences ---------------------------------------------------------------

  const CSI := '\U{9B}'
  const BACKSPACE := '\U{8}'
  const ESC := '\U{1B}'

  function Pop(out: string): string { if out == [] then [] else out[..|out| - 1] }

  /** The rest of a line, after `out` was kept of what came before. */
  function Cleaned(line: string, found: bool, out: string): string
    decreases |line|
  {
    if line == [] then out
    else if line[0] == CSI then Cleaned(line[1..], found, out)
    else if line[0] == BACKSPACE then Cleaned(line[1..], found, Pop(out))
    else if line[0] == ESC then Cleaned(line[1..], true, out)
    else if found then Cleaned(line[1..], line[0] != 'm', out)
    else Cleaned(line[1..], found, out + [line[0]])
  }

  function Clean(line: string): string { Cleaned(line, false, []) }

  /** `strip_python_ansi` of the Rust engine. */
  method StripPythonAnsi(line: string) returns (output: string)
    ensures output == Clean(line)
  {
    var foundEscape := false;
    output := [];
    var rest := line;
    while rest != []
      invariant Cleaned(rest, foundEscape, output) == Clean(line)
    {
      var character := rest[0];
      rest := rest[1..];
      if character == CSI {
        continue;
      } else if character == BACKSPACE {
        output := Pop(output);
        continue;
      } else if character == ESC {
        foundEscape := true;
        continue;
      } else if character == 'm' && foundEscape {
        foundEscape := false;
        continue;
      } else if foundEscape {
        continue;
      } else {
        output := output + [character];
      }
    }
  }

  /** `stripANSI` of the Python engine. */
  method StripAnsi(line: string) returns (ret: string)
    ensures ret == Clean(line)
  {
    if line == "" {
      return line;
    }
    var found := false;
    ret := "";
    var rest := line;
    while rest != []
      invariant Cleaned(rest, found, ret) == Clean(line)
    {
      var c := rest[0];
      rest := rest[1..];
      if c == CSI {
        continue;
      }
      if c == BACKSPACE {
        if |ret| != 0 {
          ret := ret[..|ret| - 1];
        }
        continue;
      }
      if c == ESC {
        found := true;
        continue;
      }
      if found && c == 'm' {
        found := false;
        continue;
      }
      if !found {
        ret := ret + [c];
      }
    }
  }

  predicate Plain(s: string) {
    forall i :: 0 <= i < |s| ==> s[i] != CSI && s[i] != BACKSPACE && s[i] != ESC
  }

  lemma {:induction false} CleanedIsPlain(line: string, found: bool, out: string)
    requires Plain(out)
    ensures Plain(Cleaned(line, found, out))
    decreases |line|
  {
    if line != [] {
      if line[0] == CSI {
        CleanedIsPlain(line[1..], found, out);
      } else if line[0] == BACKSPACE {
        CleanedIsPlain(line[1..], found, Pop(out));
      } else if line[0] == ESC {
        CleanedIsPlain(line[1..], true, out);
      } else if found {
        CleanedIsPlain(line[1..], line[0] != 'm', out);
      } else {
        CleanedIsPlain(line[1..], found, out + [line[0]]);
      }
    }
  }

  lemma {:induction false} PlainStays(line: string, out: string)
    requires Plain(line)
    ensures Cleaned(line, false, out) == out + line
    decreases |line|
  {
    if line == [] {
      assert out + line == out;
    } else {
      PlainStays(line[1..], out + [line[0]]);
      Assoc(out, [line[0]], line[1..]);
      assert line == [line[0]] + line[1..];
    }
  }

  /** Cleaning takes out all that it looks for, the characters 8, 27 and 155, and a second time
      changes nothing. */
  lemma CleanOnce(line: string)
    ensures Plain(Clean(line)) && Clean(Clean(line)) == Clean(line)
    ensures Clean(line) == line <==> Plain(line)
    ensures Plain(line) <==> forall i :: 0 <= i < |line| ==> line[i] as int !in {8, 27, 155}
  {
    CleanedIsPlain(line, false, []);
    PlainStays(Clean(line), []);
    if Plain(line) { PlainStays(line, []); }
  }

  lemma {:induction false} PlainIsKept(a: string, rest: string, out: string)
    requires Plain(a)
    ensures Cleaned(a + rest, false, out) == Cleaned(rest, false, out + a)
    decreases |a|
  {
    if a == [] {
      assert a + rest == rest && out + a == out;
    } else {
      assert (a + rest)[1..] == a[1..] + rest;
      PlainIsKept(a[1..], rest, out + [a[0]]);
      Assoc(out, [a[0]], a[1..]);
      assert a == [a[0]] + a[1..];
    }
  }

  lemma {:induction false} EscapedIsLost(b: string, rest: string, out: string)
    requires 'm' !in b && BACKSPACE !in b
    ensures Cleaned(b + rest, true, out) == Cleaned(rest, true, out)
    decreases |b|
  {
    if b == [] {
      assert b + rest == rest;
    } else {
      assert (b + rest)[1..] == b[1..] + rest;
      EscapedIsLost(b[1..], rest, out);
    }
  }

  /** An escape takes everything with it up to the first `m`, or to the end of the line, and
      a backspace takes back the character before it. */
  lemma EscapesVanish(a: string, b: string, c: string, x: char)
    requires Plain(a) && 'm' !in b && BACKSPACE !in b
    ensures Clean(a + ([ESC] + (b + (['m'] + c)))) == Clean(a + c)
    ensures Clean(a + ([ESC] + b)) == a
    ensures Plain([x]) ==> Clean(a + ([x, BACKSPACE] + c)) == Clean(a + c)
  {
    assert [] + a == a;
    PlainIsKept(a, c, []);
    PlainIsKept(a, [ESC] + (b + (['m'] + c)), []);
    assert ([ESC] + (b + (['m'] + c)))[1..] == b + (['m'] + c);
    EscapedIsLost(b, ['m'] + c, a);
    assert (['m'] + c)[1..] == c;
    PlainIsKept(a, [ESC] + b, []);
    assert ([ESC] + b)[1..] == b && b + [] == b;
    EscapedIsLost(b, [], a);
    if Plain([x]) {
      PlainIsKept(a, [x, BACKSPACE] + c, []);
      var tail := [x, BACKSPACE] + c;
      assert tail[0] == x && tail[1..] == [BACKSPACE] + c && ([BACKSPACE] + c)[1..] == c;
      assert [x][0] == x && Pop(a + [x]) == a;
    }
  }

  // ---- parsing --------------------------------------------------------------------------

  datatype Parsed = Parsed(raw: string, command: string, args: string, tokens: seq<string>)

  const EMPTY := Parsed("", "", "", [])
  const SAY := "말"

  function Resolve(cmd: string): string {
    if cmd == "n" then "북" else if cmd == "s" then "남" else if cmd == "e" then "동"
    else if cmd == "w" then "서" else if cmd == "u" then "위" else if cmd == "d" then "아래"
    else cmd
  }

  predicate IsDirection(cmd: string) {
    cmd in ["동", "서", "남", "북", "위", "아래", "북동", "북서", "남동", "남서"]
  }

  predicate IsPickup(word: string) { word in ["주워", "집어", "집", "가져"] }

  function WithoutPickup(words: seq<string>): seq<string> {
    if words == [] then []
    else if IsPickup(words[0]) then WithoutPickup(words[1..])
    else [words[0]] + WithoutPickup(words[1..])
  }

  /** The line as it is parsed. */
  function Trimmed(line: string): string {
    Strip(RUST, TrimEnd({'\r'}, TrimEnd({'\n'}, Clean(line))))
  }

  predicate IsSentence(s: string) { s != "" && s[|s| - 1] in ['.', '!', '?'] }

  function Characters(s: string): set<char> { set c | c in s }

  function LastOf(words: seq<string>): string { if words == [] then "" else words[|words| - 1] }

  /** `param`: what is left of the command's characters at the end. */
  function Argument(s: string): string {
    Strip(RUST, TrimEnd(Characters(LastOf(Words(RUST, s))), s))
  }

  function Parse(input: string): Parsed {
    var line := Trimmed(input);
    if Strip(RUST, line) == "" then EMPTY
    else if IsSentence(line) then Parsed(line, SAY, line, Words(RUST, line))
    else
      var words := Words(RUST, line);
      if words == [] then EMPTY
      else
        var cmd, param := LastOf(words), Argument(line);
        var resolved := Resolve(cmd);
        Parsed(line, resolved, param,
          if IsDirection(resolved) then WithoutPickup(Words(RUST, param)) else Words(RUST, param))
  }

  predicate IsSayCommand(input: string) { IsSentence(Trimmed(input)) }

  // ---- cutting off the last word ------------------------------------------------------------

  lemma {:induction false} TrimEndIs(d: Separators, a: string, b: string)
    requires Blank(d, b)
    ensures TrimEnd(d, a + b) == TrimEnd(d, a)
    decreases |b|
  {
    if b == [] {
      assert a + b == a;
    } else {
      assert (a + b)[..|a + b| - 1] == a + b[..|b| - 1];
      TrimEndIs(d, a, b[..|b| - 1]);
    }
  }

  function LastRun(d: Separators, s: string): (w: string)
    ensures |w| <= |s|
  {
    if s == [] || s[|s| - 1] in d then [] else LastRun(d, s[..|s| - 1]) + [s[|s| - 1]]
  }

  lemma {:induction false} LastRunIs(d: Separators, s: string)
    ensures var w := LastRun(d, s);
      && s == s[..|s| - |w|] + w
      && (forall i :: 0 <= i < |w| ==> w[i] !in d)
      && (|w| < |s| ==> s[|s| - |w| - 1] in d)
    decreases |s|
  {
    if s != [] && s[|s| - 1] !in d {
      var front, last := s[..|s| - 1], [s[|s| - 1]];
      LastRunIs(d, front);
      var w := LastRun(d, front);
      assert s == front + last;
      Assoc(front[..|front| - |w|], w, last);
      assert front[..|front| - |w|] == s[..|s| - |w + last|];
    }
  }

  /** A text that does not end in a blank ends in its last word, after the other words. */
  lemma LastWord(d: Separators, s: string) returns (before: string, w: string)
    requires s != [] && s[|s| - 1] !in d
    ensures w == LastRun(d, s) && before == s[..|s| - |w|]
    ensures s == before + w && IsWord(d, w)
    ensures before == [] || before[|before| - 1] in d
    ensures Words(d, s) == Words(d, before) + [w]
  {
    LastRunIs(d, s);
    w := LastRun(d, s);
    before := s[..|s| - |w|];
    assert w != [];
    hide LastRun;
    WordsBeforeLast(d, before, w);
  }

  lemma WordsBeforeLast(d: Separators, before: string, w: string)
    requires IsWord(d, w) && (before == [] || before[|before| - 1] in d)
    ensures Words(d, before + w) == Words(d, before) + [w]
  {
    hide Words;
    WordsLead(d, w, []);
    WordsOfBlank(d, []);
    assert w + [] == w && [w] + [] == [w];
    if before == [] {
      assert before + w == w && [] + [w] == [w];
    } else {
      var front, sep := before[..|before| - 1], [before[|before| - 1]];
      assert before == front + sep;
      Assoc(front, sep, w);
      assert (sep + w)[0] in d;
      WordsCut(d, front, sep + w);
      WordsCut(d, front, sep);
      WordsSkipBlank(d, sep, w);
      WordsOfBlank(d, sep);
      assert Words(d, front) + [] == Words(d, front);
    }
  }

  /** Trimming the command's characters stops at the blank before the command, however the
      word before it ends. */
  lemma ArgumentIs(s: string) returns (before: string, w: string)
    requires s != [] && s[|s| - 1] !in RUST
    ensures w == LastRun(RUST, s) && before == s[..|s| - |w|]
    ensures s == before + w && IsWord(RUST, w) && w == LastOf(Words(RUST, s))
    ensures before == [] || before[|before| - 1] in RUST
    ensures Argument(s) == Strip(RUST, before)
    ensures Words(RUST, Argument(s)) + [w] == Words(RUST, s)
  {
    hide RUST;
    hide Words;
    hide Strip;
    hide LastRun;
    before, w := LastWord(RUST, s);
    TrimEndIs(Characters(w), before, w);
    assert before == [] || before[|before| - 1] !in Characters(w);
    WordsOfStrip(RUST, before);
  }

  lemma StripIsTrimmed(d: Separators, s: string)
    ensures var t := Strip(d, s); t != [] ==> t[0] !in d && t[|t| - 1] !in d
    ensures Strip(d, Strip(d, s)) == Strip(d, s)
    ensures Strip(d, s) == [] <==> Words(d, s) == []
  {
    var t := TrimStart(d, s);
    var back := TrimEndSplits(d, t);
    WordsOfStrip(d, s);
    if Words(d, s) == [] {
      NoWordsIsBlank(d, s);
      TrimStartIs(d, s, []);
      assert s + [] == s;
    }
  }

  /** The words that are not among the dropped ones, in order. */
  function Kept(words: seq<string>, dropped: set<string>): seq<string> {
    if words == [] then []
    else (if words[0] in dropped then [] else [words[0]]) + Kept(words[1..], dropped)
  }

  lemma {:induction false} PickupIsKept(words: seq<string>)
    ensures WithoutPickup(words) == Kept(words, {"주워", "집어", "집", "가져"})
    ensures Kept(words, {}) == words
    decreases |words|
  {
    if words != [] { PickupIsKept(words[1..]); }
  }

  /** The word that stands for a direction, and every other word for itself. */
  predicate StandsFor(w: string, command: string) {
    && (w == "n" ==> command == "북") && (w == "s" ==> command == "남")
    && (w == "e" ==> command == "동") && (w == "w" ==> command == "서")
    && (w == "u" ==> command == "위") && (w == "d" ==> command == "아래")
    && (w !in ["n", "s", "e", "w", "u", "d"] ==> command == w)
  }

  lemma ResolveIs(w: string)
    ensures StandsFor(w, Resolve(w))
  {
  }

  /** A line that is neither blank nor spoken: its words are the words of the argument and
      the command, and nothing else is lost but blanks; before a direction the words for
      picking up do not count. */
  lemma NothingIsLost(input: string) returns (blanks: string, w: string)
    requires Trimmed(input) != "" && !IsSentence(Trimmed(input))
    ensures var p, line := Parse(input), Trimmed(input);
      && p.raw == line && StandsFor(w, p.command)
      && Words(RUST, p.args) + [w] == Words(RUST, line)
      && line == p.args + (blanks + w) && Blank(RUST, blanks)
      && (p.args != [] ==> blanks != [])
      && p.tokens == Kept(Words(RUST, p.args),
           if p.command in {"동", "서", "남", "북", "위", "아래", "북동", "북서", "남동", "남서"}
           then {"주워", "집어", "집", "가져"} else {})
  {
    hide RUST;
    hide Resolve;
    hide IsDirection;
    hide Words;
    hide Argument;
    hide LastRun;
    hide LastOf;
    var line := Trimmed(input);
    StripIsTrimmed(RUST, TrimEnd({'\r'}, TrimEnd({'\n'}, Clean(input))));
    StripIsTrimmed(RUST, line);
    var before;
    before, w := ArgumentIs(line);
    ResolveIs(w);
    TokensAre(input);
    assert TrimStart(RUST, before) == before;
    blanks := TrimEndSplits(RUST, before);
    Assoc(Argument(line), blanks, w);
    if blanks == [] {
      assert before == Argument(line) + [] == Argument(line);
    }
  }

  lemma TokensAre(input: string)
    requires Strip(RUST, Trimmed(input)) != "" && !IsSentence(Trimmed(input)) && Words(RUST, Trimmed(input)) != []
    ensures var p := Parse(input);
      p.tokens == Kept(Words(RUST, p.args),
        if p.command in {"동", "서", "남", "북", "위", "아래", "북동", "북서", "남동", "남서"}
        then {"주워", "집어", "집", "가져"} else {})
  {
    hide Words;
    hide Argument;
    hide Resolve;
    hide Trimmed;
    PickupIsKept(Words(RUST, Parse(input).args));
  }

  /** `is_say_command` is true of exactly the lines that `parse` makes into speech: the whole
      line is the message, and ends in a full stop, an exclamation or a question mark. */
  lemma SayIsSpoken(input: string)
    ensures IsSayCommand(input) <==> Parse(input).command == "말" && Parse(input).args == Parse(input).raw
    ensures var line := Strip(RUST, Clean(input));
      IsSayCommand(input) <==> line != "" && (line[|line| - 1] == '.' || line[|line| - 1] == '!' || line[|line| - 1] == '?')
  {
    var line := Trimmed(input);
    LineEnds(Clean(input));
    StripIsTrimmed(RUST, TrimEnd({'\r'}, TrimEnd({'\n'}, Clean(input))));
    if line != "" && !IsSentence(line) {
      var blanks, w := NothingIsLost(input);
      assert |line| == |Parse(input).args| + |blanks| + |w|;
    }
  }

  lemma NewlinesAreBlank()
    ensures '\n' in RUST && '\r' in RUST
  {
  }

  lemma StripBehindBlanks(d: Separators, blanks: string, s: string)
    requires Blank(d, blanks)
    ensures Strip(d, blanks + s) == Strip(d, s)
  {
    TrimStartIs(d, blanks, s);
  }

  lemma StripMore(d: Separators, s: string, blanks: string)
    requires Blank(d, blanks)
    ensures Strip(d, s + blanks) == Strip(d, s)
  {
    var front := TrimStartSplits(d, s);
    var t := TrimStart(d, s);
    Assoc(front, t, blanks);
    TrimStartIs(d, front, t + blanks);
    if t == [] {
      assert t + blanks == blanks && blanks + [] == blanks;
      TrimStartIs(d, blanks, []);
    } else {
      assert TrimStart(d, t + blanks) == t + blanks;
      TrimEndIs(d, t, blanks);
    }
  }

  /** Trimming line ends first makes no difference. */
  lemma LineEnds(s: string)
    ensures Strip(RUST, TrimEnd({'\r'}, TrimEnd({'\n'}, s))) == Strip(RUST, s)
  {
    hide RUST;
    NewlinesAreBlank();
    var t := TrimEnd({'\n'}, s);
    var a := TrimEndSplits({'\n'}, s);
    var b := TrimEndSplits({'\r'}, t);
    StripMore(RUST, t, a);
    StripMore(RUST, TrimEnd({'\r'}, t), b);
  }

  lemma StripIsPart(d: Separators, s: string)
    ensures Plain(s) ==> Plain(Strip(d, s))
  {
    var front := TrimStartSplits(d, s);
    var t := TrimStart(d, s);
    var back := TrimEndSplits(d, t);
    assert forall i :: 0 <= i < |Strip(d, s)| ==> Strip(d, s)[i] == t[i] == s[|front| + i];
  }

  /** What was parsed is parsed the same way again. */
  lemma ParsedAgain(input: string)
    ensures Parse(Trimmed(input)) == Parse(input)
  {
    hide Clean;
    hide Strip;
    hide Plain;
    var s := Strip(RUST, Clean(input));
    CleanOnce(input);
    LineEnds(Clean(input));
    StripIsPart(RUST, Clean(input));
    CleanOnce(s);
    LineEnds(s);
    StripIsTrimmed(RUST, Clean(input));
    assert Trimmed(s) == s == Trimmed(input);
  }

  // ---- the Python engine's reading of a line ---------------------------------------------

  datatype Heard = Ignored | Again | Said(message: string) | Ordered(cmd: string, param: string)

  /** `parse_command` on a cleaned line: `!` repeats the last line, and a line that ends like
      a sentence, or in a space, is spoken as it is. */
  function PythonHears(s: string): Heard {
    if s == "" then Ignored
    else if s == "!" then Again
    else if s[|s| - 1] in [' ', '.', '!', '?'] then Said(s)
    else
      var words := Words(PYTHON, s);
      if words == [] then Ignored
      else Ordered(LastOf(words), Strip(PYTHON, TrimEnd(Characters(LastOf(words)), s)))
  }

  /** The same from the Rust parser, before aliases are resolved. */
  function RustHears(s: string): Heard {
    var line := Strip(RUST, TrimEnd({'\r'}, TrimEnd({'\n'}, s)));
    if line == "" then Ignored
    else if IsSentence(line) then Said(line)
    else Ordered(LastOf(Words(RUST, line)), Argument(line))
  }

  lemma RustHearsIsParse(input: string)
    ensures var p := Parse(input); match RustHears(Clean(input))
      case Ignored => p == EMPTY
      case Again => false
      case Said(message) => p.command == SAY && p.args == message
      case Ordered(cmd, param) => p.command == Resolve(cmd) && p.args == param
  {
    hide Resolve;
    hide IsDirection;
    StripIsTrimmed(RUST, TrimEnd({'\r'}, TrimEnd({'\n'}, Clean(input))));
    StripIsTrimmed(RUST, Trimmed(input));
  }

  /** Neither language splits at a character where the other does not. */
  predicate SameBlanks(s: string) {
    forall i :: 0 <= i < |s| ==> (s[i] in RUST <==> s[i] in PYTHON)
  }

  lemma {:induction false} SameTrim(s: string)
    requires SameBlanks(s)
    ensures TrimStart(RUST, s) == TrimStart(PYTHON, s) && TrimEnd(RUST, s) == TrimEnd(PYTHON, s)
    ensures SameBlanks(TrimStart(RUST, s)) && Lead(RUST, s) == Lead(PYTHON, s)
    decreases |s|
  {
    hide RUST;
    hide PYTHON;
    if s != [] {
      SameTrim(s[1..]);
      SameTrim(s[..|s| - 1]);
    }
  }

  lemma {:induction false} SameWords(s: string)
    requires SameBlanks(s)
    ensures Words(RUST, s) == Words(PYTHON, s) && Strip(RUST, s) == Strip(PYTHON, s)
    decreases |s|
  {
    hide RUST;
    hide PYTHON;
    SameTrim(s);
    var t := TrimStart(RUST, s);
    SameTrim(t);
    if t != [] {
      SameWords(t[|Lead(RUST, t)|..]);
    }
  }

  /** Where the two engines understand a line alike: lines of blanks only if Python does not
      take a last space for the end of a sentence, others if they do not end in a blank, and
      sentences only if they do not start with one either and are more than the `!` that
      repeats a line in Python. */
  predicate ReadAlike(s: string) {
    if Blank(RUST, s) then s == "" || s[|s| - 1] != ' '
    else s != "!" && s[|s| - 1] !in RUST && (IsSentence(s) ==> s[0] !in RUST)
  }

  lemma ReadAlikeIff(s: string)
    requires SameBlanks(s)
    ensures PythonHears(s) == RustHears(s) <==> ReadAlike(s)
  {
    hide RUST;
    hide PYTHON;
    NewlinesAreBlank();
    SpaceIsBlank();
    SameWords(s);
    if Blank(RUST, s) {
      BlankLine(s);
    } else if s[|s| - 1] in RUST {
      BlankAtTheEnd(s);
    } else {
      NoBlankAtTheEnd(s);
    }
  }

  lemma SpaceIsBlank()
    ensures ' ' in RUST && '.' !in RUST && '!' !in RUST && '?' !in RUST
  {
  }

  lemma BlankLine(s: string)
    requires SameBlanks(s) && Blank(RUST, s)
    ensures RustHears(s) == Ignored
    ensures PythonHears(s) == if s != "" && s[|s| - 1] == ' ' then Said(s) else Ignored
  {
    hide RUST;
    hide PYTHON;
    LineEnds(s);
    SameWords(s);
    SpaceIsBlank();
    WordsOfBlank(RUST, s);
    StripIsTrimmed(RUST, s);
  }

  lemma HasWords(d: Separators, s: string)
    requires !Blank(d, s)
    ensures Words(d, s) != []
  {
    if Words(d, s) == [] { NoWordsIsBlank(d, s); }
  }

  lemma TrimEndNone(d: Separators, s: string)
    requires s == [] || s[|s| - 1] !in d
    ensures TrimEnd(d, s) == s
  {
  }

  lemma LastOfIsWord(d: Separators, s: string)
    ensures forall c :: c in Characters(LastOf(Words(d, s))) ==> c !in d
  {
  }

  lemma ArgumentIsShorter(s: string)
    requires s != [] && s[|s| - 1] !in RUST
    ensures |Argument(s)| < |s|
  {
    hide RUST;
    var before, w := ArgumentIs(s);
    var t := TrimStart(RUST, before);
  }

  /** A blank at the end: Python speaks, or takes the whole line for the argument. */
  lemma BlankAtTheEnd(s: string)
    requires SameBlanks(s) && !Blank(RUST, s) && s[|s| - 1] in RUST
    ensures PythonHears(s) != RustHears(s)
  {
    hide RUST;
    hide PYTHON;
    hide Words;
    hide Strip;
    hide TrimEnd;
    hide Argument;
    hide LastOf;
    hide Characters;
    hide SameBlanks;
    LineEnds(s);
    SameWords(s);
    SpaceIsBlank();
    HasWords(RUST, s);
    StripIsTrimmed(RUST, s);
    WordsOfStrip(RUST, s);
    LastOfIsWord(RUST, s);
    TrimEndNone(Characters(LastOf(Words(RUST, s))), s);
    ArgumentIsShorter(Strip(RUST, s));
  }

  lemma OnlyFront(s: string) returns (front: string)
    requires s != [] && s[|s| - 1] !in RUST
    ensures s == front + Strip(RUST, s) && Blank(RUST, front)
    ensures Strip(RUST, s) != [] && Strip(RUST, s)[|Strip(RUST, s)| - 1] == s[|s| - 1]
    ensures Strip(RUST, s) == s <==> s[0] !in RUST
  {
    hide RUST;
    front := TrimStartSplits(RUST, s);
    var line := TrimStart(RUST, s);
    assert line == [] ==> s == front;
    assert line != [] ==> s[|s| - 1] == line[|line| - 1];
  }

  lemma NoBlankAtTheEnd(s: string)
    requires SameBlanks(s) && s != [] && s[|s| - 1] !in RUST
    ensures PythonHears(s) == RustHears(s) <==> s != "!" && (IsSentence(s) ==> s[0] !in RUST)
  {
    hide RUST;
    hide PYTHON;
    hide Words;
    hide Strip;
    hide TrimEnd;
    hide Argument;
    hide LastOf;
    hide Characters;
    hide SameBlanks;
    hide Blank;
    LineEnds(s);
    SameWords(s);
    SpaceIsBlank();
    var front := OnlyFront(s);
    var line := Strip(RUST, s);
    WordsOfStrip(RUST, s);
    StripIsTrimmed(RUST, s);
    SameArgument(s, front, line);
    ArgumentOfPython(s);
  }

  lemma {:induction false} LastRunBehind(d: Separators, blanks: string, s: string)
    requires Blank(d, blanks)
    ensures LastRun(d, blanks + s) == LastRun(d, s)
    decreases |s|
  {
    var all := blanks + s;
    if s == [] {
      assert all == blanks;
    } else {
      TakeBehind(blanks, s, 1);
      LastRunBehind(d, blanks, s[..|s| - 1]);
    }
  }

  lemma TakeBehind(a: string, b: string, n: nat)
    requires n <= |b|
    ensures (a + b)[..|a + b| - n] == a + b[..|b| - n]
    ensures b != [] ==> a + b != [] && (a + b)[|a + b| - 1] == b[|b| - 1]
  {
  }

  lemma SameArgument(s: string, front: string, line: string)
    requires s == front + line && Blank(RUST, front) && line != [] && line[|line| - 1] !in RUST
    ensures Argument(s) == Argument(line) && Words(RUST, s) == Words(RUST, line)
  {
    hide *;
    TakeBehind(front, line, 0);
    WordsSkipBlank(RUST, front, line);
    LastRunBehind(RUST, front, line);
    var w := LastRun(RUST, line);
    BeforeLastRun(line);
    BeforeLastRun(s);
    TakeBehind(front, line, |w|);
    StripBehindBlanks(RUST, front, line[..|line| - |w|]);
  }

  lemma BeforeLastRun(s: string)
    requires s != [] && s[|s| - 1] !in RUST
    ensures Argument(s) == Strip(RUST, s[..|s| - |LastRun(RUST, s)|])
  {
    hide *;
    var before, w := ArgumentIs(s);
  }

  lemma {:induction false} SameStrip(s: string, n: nat)
    requires SameBlanks(s) && n <= |s|
    ensures Strip(RUST, s[..n]) == Strip(PYTHON, s[..n])
  {
    hide RUST;
    hide PYTHON;
    SameWords(s[..n]);
  }

  lemma ArgumentOfPython(s: string)
    requires SameBlanks(s) && s != [] && s[|s| - 1] !in RUST
    ensures Strip(PYTHON, TrimEnd(Characters(LastOf(Words(PYTHON, s))), s)) == Argument(s)
  {
    hide RUST;
    hide PYTHON;
    hide Words;
    hide Strip;
    hide LastOf;
    hide Characters;
    hide SameBlanks;
    SameWords(s);
    var w := LastOf(Words(RUST, s));
    var back := TrimEndSplits(Characters(w), s);
    var t := TrimEnd(Characters(w), s);
    assert t == s[..|t|];
    SameStrip(s, |t|);
  }
}
