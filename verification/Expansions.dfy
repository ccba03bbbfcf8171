/** What a shorthand does when it is typed: its first piece is carried out, the others are
    read again as if they had been typed, and may be shorthands themselves. */
module Expansions {
  import opened Text
  import opened Dictionary
  import A = Aliases
  import C = Commands
  import R = Records

  // ---- one line ----------------------------------------------------------------------

  /** `w.replace('*', sub)`. */
  function Replaced(w: string, sub: string): string {
    if w == [] then []
    else (if w[0] == '*' then sub else [w[0]]) + Replaced(w[1..], sub)
  }

  function AllReplaced(ws: seq<string>, sub: string): (r: seq<string>)
    ensures |r| == |ws|
    ensures forall i :: 0 <= i < |ws| ==> r[i] == Replaced(ws[i], sub)
  {
    if ws == [] then [] else [Replaced(ws[0], sub)] + AllReplaced(ws[1..], sub)
  }

  /** `line.strip().rsplit(None, 1)[0]`. */
  function BeforeLast(s: string): string {
    var t := Strip(PYTHON, s);
    TrimEnd(PYTHON, t[..|t| - |C.LastRun(PYTHON, t)|])
  }

  /** The line that counts: cleaned, or the last one again for `!`. */
  function Meant(prev: string, line: string): string {
    var s := C.Clean(line);
    if s == "!" then prev else s
  }

  function Kept(prev: string, line: string): string {
    if C.Clean(line) == "" then prev else Meant(prev, line)
  }

  /** The shorthand a line is: its last word, unless the line is spoken. */
  function Key(alias: Dict<string>, s: string): Option<string> {
    match C.PythonHears(s)
    case Ordered(cmd, _) => if Has(alias, cmd) then Some(cmd) else None
    case _ => None
  }

  /** The pieces of a shorthand, with what stands before it in place of each star. */
  function Pieces(text: string, s: string): (ps: seq<string>)
    ensures ps != []
  {
    if |Words(PYTHON, s)| > 1 then AllReplaced(A.Pieces(text), BeforeLast(s)) else A.Pieces(text)
  }

  /** The lines that are read again. Nothing is, if the first piece is blank. */
  function Again(ps: seq<string>): seq<string>
    requires ps != []
  {
    if Words(PYTHON, ps[0]) == [] then [] else ps[1..]
  }

  function TextOf(alias: Dict<string>, key: string): string {
    match Get(alias, key) case Some(text) => text case None => ""
  }

  function Reread(alias: Dict<string>, s: string): seq<string> {
    match Key(alias, s)
    case None => []
    case Some(key) => Again(Pieces(TextOf(alias, key), s))
  }

  // ---- the input of a player -------------------------------------------------------------

  /** The shorthands that can be used in a room: its forbidden commands are refused first. */
  function Usable(alias: Dict<string>, forbidden: set<string>): Dict<string> {
    if alias == [] then []
    else (if alias[0].key in forbidden then [] else [alias[0]]) + Usable(alias[1..], forbidden)
  }

  lemma {:induction false} UsableIs(alias: Dict<string>, forbidden: set<string>, key: string)
    ensures Has(Usable(alias, forbidden), key) <==> Has(alias, key) && key !in forbidden
    ensures key !in forbidden ==> TextOf(Usable(alias, forbidden), key) == TextOf(alias, key)
    decreases |alias|
  {
    if alias != [] {
      UsableIs(alias[1..], forbidden, key);
      assert ([alias[0]] + Usable(alias[1..], forbidden))[1..] == Usable(alias[1..], forbidden);
      assert [] + Usable(alias[1..], forbidden) == Usable(alias[1..], forbidden);
    }
  }

  /** How many lines a player may still send, None without a limit. A line beyond the limit
      is answered with a warning and not read. */
  predicate Reads(left: Option<int>) { left.None? || left.value > 0 }

  function Less(left: Option<int>): Option<int> {
    match left case None => None case Some(k) => Some(k - 1)
  }

  /** Are the waiting lines used up after at most `n` of them were taken? */
  predicate Done(alias: Dict<string>, left: Option<int>, prev: string, queue: seq<string>, n: nat)
    decreases n
  {
    queue == [] ||
    (n > 0 &&
     if Reads(left) then
       Done(alias, Less(left), Kept(prev, queue[0]), Reread(alias, Meant(prev, queue[0])) + queue[1..], n - 1)
     else Done(alias, Less(left), prev, queue[1..], n - 1))
  }

  /** The rank from which on nobody counts the lines. */
  const FREE_RANK := 2000

  function LinesLeft(rank: int, k: int): Option<int> {
    if rank < FREE_RANK then Some(k) else None
  }

  class Player {
    var alias: Dict<string>
    /** The commands that the player's room refuses. */
    var forbidden: set<string>
    var rank: int
    var cmdCnt: int
    const limit: int
    var prevCmd: string
    /** The lines that came in and were not read yet. */
    var buffer: seq<string>

    /** The part of `parse_command` up to the command itself. */
    method ParseCommand(input: string)
      modifies this`cmdCnt, this`prevCmd, this`buffer
      ensures cmdCnt == old(cmdCnt) + if rank < 2000 then 1 else 0
      ensures LinesLeft(rank, limit - cmdCnt) == Less(LinesLeft(rank, limit - old(cmdCnt)))
      ensures if rank >= 2000 || old(cmdCnt) < limit then
          && prevCmd == Kept(old(prevCmd), input)
          && buffer == Reread(Usable(alias, forbidden), Meant(old(prevCmd), input)) + old(buffer)
        else prevCmd == old(prevCmd) && buffer == old(buffer)
    {
      hide Reread;
      hide Meant;
      hide Kept;
      hide Usable;
      if rank < FREE_RANK {
        cmdCnt := cmdCnt + 1;
        if cmdCnt > limit {
          return;
        }
      }
      ReadLine(input);
    }

    /** What is done with a line within the limit. */
    method ReadLine(input: string)
      modifies this`prevCmd, this`buffer
      ensures prevCmd == Kept(old(prevCmd), input)
      ensures buffer == Reread(Usable(alias, forbidden), Meant(old(prevCmd), input)) + old(buffer)
    {
      ghost var table := Usable(alias, forbidden);
      hide *;
      var line := C.StripAnsi(input);
      MeantIs(prevCmd, input);
      Nothing(buffer);
      if |line| == 0 {
        NoKey(table, "");
        return;
      }
      if line == "!" {
        line := prevCmd;
      } else {
        prevCmd := line;
      }
      if line == "" || line == "!" || line[|line| - 1] in [' ', '.', '!', '?'] {
        NoKey(table, line);
        return;
      }
      KeyIs(table, line);
      var cmds := Words(PYTHON, line);
      if |cmds| == 0 {
        return;
      }
      var cmd := cmds[|cmds| - 1];
      UsableIs(alias, forbidden, cmd);
      if cmd in forbidden {
        return;
      }
      if !Has(alias, cmd) {
        return;
      }
      var shortcut := TextOf(alias, cmd);
      var wlist: seq<string>;
      if |cmds| > 1 {
        wlist := Substituted(A.Pieces(shortcut), BeforeLast(line));
      } else {
        wlist := A.Pieces(shortcut);
      }
      if Words(PYTHON, wlist[0]) == [] {
        return;
      }
      PushBack(wlist[1..]);
    }

    /** The lines that are put in front of those that wait. */
    method PushBack(lines: seq<string>)
      modifies this`buffer
      ensures buffer == lines + old(buffer)
    {
      var msg: seq<string> := [];
      var rest := lines;
      while rest != []
        invariant msg + rest == lines && buffer == old(buffer)
      {
        Assoc(msg, [rest[0]], rest[1..]);
        assert rest == [rest[0]] + rest[1..];
        msg := msg + [rest[0]];
        rest := rest[1..];
      }
      buffer := msg + buffer;
    }

    /** The loop that puts the argument in. */
    static method Substituted(ws: seq<string>, sub: string) returns (wlist: seq<string>)
      ensures wlist == AllReplaced(ws, sub)
    {
      wlist := [];
      var rest := ws;
      while rest != []
        invariant wlist + AllReplaced(rest, sub) == AllReplaced(ws, sub)
      {
        Assoc(wlist, [Replaced(rest[0], sub)], AllReplaced(rest[1..], sub));
        wlist := wlist + [Replaced(rest[0], sub)];
        rest := rest[1..];
      }
    }

    /** `dataReceived`, for so many lines. */
    method Serve(n: nat) returns (done: bool)
      modifies this`cmdCnt, this`prevCmd, this`buffer
      ensures done <==> Done(Usable(alias, forbidden), LinesLeft(rank, limit - old(cmdCnt)), old(prevCmd), old(buffer), n)
      ensures done ==> buffer == []
    {
      hide Reread;
      hide Meant;
      hide Kept;
      hide Usable;
      var left := n;
      while buffer != [] && left > 0
        invariant Done(Usable(alias, forbidden), LinesLeft(rank, limit - cmdCnt), prevCmd, buffer, left) <==>
          Done(Usable(alias, forbidden), LinesLeft(rank, limit - old(cmdCnt)), old(prevCmd), old(buffer), n)
        decreases left
      {
        var line := buffer[0];
        buffer := buffer[1..];
        ParseCommand(line);
        left := left - 1;
      }
      return buffer == [];
    }
  }

  lemma Nothing(b: seq<string>)
    ensures [] + b == b && b + [] == b
  {
  }

  lemma MeantIs(prev: string, input: string)
    ensures var s := C.Clean(input);
      Meant(prev, input) == (if s == "!" then prev else s) && Kept(prev, input) == if s == "" || s == "!" then prev else s
  {
    hide C.Clean;
  }

  lemma NoKey(alias: Dict<string>, line: string)
    requires line == "" || line == "!" || line[|line| - 1] in [' ', '.', '!', '?']
    ensures Key(alias, line) == None && Reread(alias, line) == []
  {
    hide Words;
  }

  /** What `parse_command` finds behind its tests. */
  lemma KeyIs(alias: Dict<string>, line: string)
    requires line != "" && line != "!" && line[|line| - 1] !in [' ', '.', '!', '?']
    ensures var cmds := Words(PYTHON, line);
      if cmds == [] || !Has(alias, cmds[|cmds| - 1]) then Reread(alias, line) == []
      else
        var shortcut := TextOf(alias, cmds[|cmds| - 1]);
        var wlist := if |cmds| > 1 then AllReplaced(A.Pieces(shortcut), BeforeLast(line)) else A.Pieces(shortcut);
        Reread(alias, line) == if Words(PYTHON, wlist[0]) == [] then [] else wlist[1..]
  {
    hide Words;
    hide A.Pieces;
    hide AllReplaced;
    hide Has;
    hide BeforeLast;
    hide TextOf;
    hide Key;
    KeyIsLast(alias, line);
  }

  lemma KeyIsLast(alias: Dict<string>, line: string)
    requires line != "" && line != "!" && line[|line| - 1] !in [' ', '.', '!', '?']
    ensures var cmds := Words(PYTHON, line);
      Key(alias, line) ==
        if cmds == [] || !Has(alias, cmds[|cmds| - 1]) then None else Some(cmds[|cmds| - 1])
  {
    hide Words;
    hide Has;
    hide Strip;
    hide TrimEnd;
    hide C.Characters;
  }

  // ---- without `!` --------------------------------------------------------------------------

  /** The same for lines none of which is `!`. */
  predicate Ends(alias: Dict<string>, queue: seq<string>, n: nat)
    decreases n
  {
    queue == [] ||
    (n > 0 && Ends(alias, Reread(alias, C.Clean(queue[0])) + queue[1..], n - 1))
  }

  lemma {:induction false} EndsJoin(alias: Dict<string>, a: seq<string>, b: seq<string>, n: nat, m: nat)
    requires Ends(alias, a, n) && Ends(alias, b, m)
    ensures Ends(alias, a + b, n + m)
    decreases n
  {
    hide Reread;
    if a == [] {
      assert a + b == b;
      EndsLater(alias, b, m, n + m);
    } else {
      var again := Reread(alias, C.Clean(a[0]));
      EndsJoin(alias, again + a[1..], b, n - 1, m);
      assert (a + b)[1..] == a[1..] + b;
      Assoc(again, a[1..], b);
    }
  }

  lemma {:induction false} EndsLater(alias: Dict<string>, queue: seq<string>, n: nat, m: nat)
    requires Ends(alias, queue, n) && n <= m
    ensures Ends(alias, queue, m)
    decreases n
  {
    hide Reread;
    if queue != [] {
      EndsLater(alias, Reread(alias, C.Clean(queue[0])) + queue[1..], n - 1, m - 1);
    }
  }

  // ---- which keys call which ----------------------------------------------------------------

  /** The lines of a shorthand that are read again, stars and all. */
  function Lines(alias: Dict<string>, key: string): seq<string> {
    Again(A.Pieces(TextOf(alias, key)))
  }

  /** One shorthand calls another if it is the last word of such a line. */
  predicate Calls(alias: Dict<string>, k: string, k': string) {
    exists i :: 0 <= i < |Lines(alias, k)| && Key(alias, Lines(alias, k)[i]) == Some(k')
  }

  /** A line whose last word no star can change, and which does not repeat another. */
  predicate SteadyLine(p: string) {
    C.Plain(p) && p != "!" && '*' !in C.LastOf(Words(PYTHON, p))
  }

  ghost predicate Steady(alias: Dict<string>) {
    forall k, i :: Has(alias, k) && 0 <= i < |Lines(alias, k)| ==> SteadyLine(Lines(alias, k)[i])
  }

  predicate IsPath(alias: Dict<string>, keys: seq<string>) {
    && keys != []
    && (forall i :: 0 <= i < |keys| ==> Has(alias, keys[i]))
    && (forall i :: 0 < i < |keys| ==> Calls(alias, keys[i - 1], keys[i]))
  }

  predicate Repeats(keys: seq<string>) {
    exists i, j :: 0 <= i < j < |keys| && keys[i] == keys[j]
  }

  /** From the key a path of calls comes to a key it has been at. */
  ghost predicate Loops(alias: Dict<string>, key: string) {
    exists keys :: IsPath(alias, keys) && keys[0] == key && Repeats(keys)
  }

  // ---- stars -------------------------------------------------------------------------------

  lemma LastParts(p: string) returns (pre: string, w: string, back: string)
    requires Words(PYTHON, p) != []
    ensures p == pre + (w + back) && IsWord(PYTHON, w) && Blank(PYTHON, back)
    ensures pre == [] || pre[|pre| - 1] in PYTHON
    ensures w == C.LastOf(Words(PYTHON, p))
  {
    hide PYTHON;
    hide Words;
    hide IsWord;
    hide Blank;
    back := TrimEndSplits(PYTHON, p);
    var t := TrimEnd(PYTHON, p);
    WordsCut(PYTHON, t, back);
    WordsOfBlank(PYTHON, back);
    assert t + back == p;
    assert t == [] ==> p == back;
    pre, w := C.LastWord(PYTHON, t);
    Assoc(pre, w, back);
  }

  lemma LastOfParts(pre: string, w: string, back: string)
    requires IsWord(PYTHON, w) && Blank(PYTHON, back)
    requires pre == [] || pre[|pre| - 1] in PYTHON
    ensures Words(PYTHON, pre + (w + back)) != [] && C.LastOf(Words(PYTHON, pre + (w + back))) == w
  {
    hide PYTHON;
    var tail := w + back;
    WordsLead(PYTHON, w, back);
    WordsOfBlank(PYTHON, back);
    if pre == [] {
      assert pre + tail == tail;
    } else {
      var front, sep := pre[..|pre| - 1], [pre[|pre| - 1]];
      assert pre == front + sep;
      Assoc(front, sep, tail);
      assert (sep + tail)[0] in PYTHON;
      WordsCut(PYTHON, front, sep + tail);
      WordsSkipBlank(PYTHON, sep, tail);
    }
  }

  lemma {:induction false} ReplacedJoin(a: string, b: string, sub: string)
    ensures Replaced(a + b, sub) == Replaced(a, sub) + Replaced(b, sub)
    decreases |a|
  {
    if a == [] {
      assert a + b == b;
    } else {
      assert (a + b)[1..] == a[1..] + b;
      ReplacedJoin(a[1..], b, sub);
      Assoc(if a[0] == '*' then sub else [a[0]], Replaced(a[1..], sub), Replaced(b, sub));
    }
  }

  lemma {:induction false} NoStar(w: string, sub: string)
    requires '*' !in w
    ensures Replaced(w, sub) == w
    decreases |w|
  {
    if w != [] { NoStar(w[1..], sub); }
  }

  lemma StarIsSeen()
    ensures '*' !in PYTHON && '!' !in PYTHON && ' ' in PYTHON
  {
  }

  lemma BlankHasNoStar(s: string)
    requires Blank(PYTHON, s)
    ensures '*' !in s
  {
    StarIsSeen();
  }

  /** Putting something in for the stars leaves the last word and the end of a steady line. */
  lemma ReplacedEnds(p: string, sub: string)
    requires SteadyLine(p) && sub != ""
    ensures var r := Replaced(p, sub);
      && (Words(PYTHON, p) == [] ==> r == p)
      && (Words(PYTHON, p) != [] ==> Words(PYTHON, r) != [] && C.LastOf(Words(PYTHON, r)) == C.LastOf(Words(PYTHON, p)))
      && (p == "" <==> r == "") && (p != "" ==> r[|r| - 1] == p[|p| - 1]) && r != "!"
  {
    hide PYTHON;
    hide Words;
    if Words(PYTHON, p) == [] {
      NoWordsIsBlank(PYTHON, p);
      BlankHasNoStar(p);
      NoStar(p, sub);
    } else {
      var pre, w, back := LastParts(p);
      BlankHasNoStar(back);
      var tail := w + back;
      NoStar(tail, sub);
      ReplacedJoin(pre, tail, sub);
      ReplacedPre(pre, sub);
      var r := Replaced(pre, sub);
      LastOfParts(r, w, back);
      assert (r + tail)[|r + tail| - 1] == tail[|tail| - 1] == (pre + tail)[|pre + tail| - 1];
      if pre == [] {
        assert r + tail == p;
      }
    }
  }

  /** What ends in a blank does so with the stars replaced. */
  lemma ReplacedPre(pre: string, sub: string)
    requires pre == [] || pre[|pre| - 1] in PYTHON
    ensures var r := Replaced(pre, sub); (pre == [] ==> r == []) && (pre != [] ==> r != [] && r[|r| - 1] in PYTHON)
  {
    StarIsSeen();
    hide PYTHON;
    if pre != [] {
      var front, last := pre[..|pre| - 1], [pre[|pre| - 1]];
      assert pre == front + last && last[0] != '*';
      ReplacedJoin(front, last, sub);
      NoStar(last, sub);
    }
  }

  lemma {:induction false} ReplacedPlain(p: string, sub: string)
    requires C.Plain(p) && C.Plain(sub)
    ensures C.Plain(Replaced(p, sub))
    decreases |p|
  {
    if p != [] { ReplacedPlain(p[1..], sub); }
  }

  lemma SameKey(alias: Dict<string>, a: string, b: string)
    requires a == "" <==> b == ""
    requires a != "" ==> a[|a| - 1] == b[|b| - 1]
    requires a == "!" <==> b == "!"
    requires Words(PYTHON, a) == [] <==> Words(PYTHON, b) == []
    requires C.LastOf(Words(PYTHON, a)) == C.LastOf(Words(PYTHON, b))
    ensures Key(alias, a) == Key(alias, b)
  {
    hide Words;
    hide Strip;
    hide TrimEnd;
    hide C.LastOf;
  }

  /** A steady line is the same shorthand whatever is put in, and is not `!`. */
  lemma ReplacedKey(alias: Dict<string>, p: string, sub: string)
    requires SteadyLine(p) && sub != "" && C.Plain(sub)
    ensures var r := C.Clean(Replaced(p, sub)); Key(alias, r) == Key(alias, p) && r != "!"
  {
    hide *;
    SteadyIsPlain(p);
    ReplacedEnds(p, sub);
    ReplacedPlain(p, sub);
    C.CleanOnce(Replaced(p, sub));
    SameKey(alias, Replaced(p, sub), p);
  }

  lemma {:induction false} FirstBlank(p: string, sub: string)
    requires Words(PYTHON, sub) != []
    ensures Words(PYTHON, Replaced(p, sub)) == [] <==> Words(PYTHON, p) == []
    decreases |p|
  {
    hide PYTHON;
    hide Words;
    BlankIff(p);
    BlankIff(Replaced(p, sub));
    if p != [] {
      FirstBlank(p[1..], sub);
      BlankIff(p[1..]);
      BlankIff(Replaced(p[1..], sub));
      BlankIff(sub);
      var head := if p[0] == '*' then sub else [p[0]];
      StarIsBlank(p[0]);
      BlankJoin(head, Replaced(p[1..], sub));
      BlankJoin([p[0]], p[1..]);
      assert p == [p[0]] + p[1..];
    }
  }

  lemma StarIsBlank(c: char)
    ensures c == '*' ==> c !in PYTHON
  {
    StarIsSeen();
  }

  lemma BlankIff(s: string)
    ensures Words(PYTHON, s) == [] <==> Blank(PYTHON, s)
  {
    hide PYTHON;
    if Words(PYTHON, s) == [] { NoWordsIsBlank(PYTHON, s); }
    if Blank(PYTHON, s) { WordsOfBlank(PYTHON, s); }
  }

  lemma BlankJoin(a: string, b: string)
    ensures Blank(PYTHON, a + b) <==> Blank(PYTHON, a) && Blank(PYTHON, b)
  {
    hide PYTHON;
    var s := a + b;
    if Blank(PYTHON, s) {
      assert forall i :: 0 <= i < |a| ==> a[i] == s[i];
      assert forall i :: 0 <= i < |b| ==> b[i] == s[|a| + i];
    }
  }

  /** What stands before the last of several words is plain text with a word in it. */
  lemma BeforeLastHasWord(s: string)
    requires |Words(PYTHON, s)| > 1
    ensures Words(PYTHON, BeforeLast(s)) != [] && (C.Plain(s) ==> C.Plain(BeforeLast(s)))
  {
    var t := Strip(PYTHON, s);
    assert BeforeLast(s) == TrimEnd(PYTHON, t[..|t| - |C.LastRun(PYTHON, t)|]);
    hide *;
    WordsOfStrip(PYTHON, s);
    C.StripIsTrimmed(PYTHON, s);
    C.StripIsPart(PYTHON, s);
    var before, w := C.LastWord(PYTHON, t);
    TrimEndKeeps(before);
    PrefixIsPlain(t, |before|);
  }

  lemma TrimEndKeeps(s: string)
    ensures Words(PYTHON, TrimEnd(PYTHON, s)) == Words(PYTHON, s)
    ensures C.Plain(s) ==> C.Plain(TrimEnd(PYTHON, s))
  {
    hide PYTHON;
    hide Words;
    var t := TrimEnd(PYTHON, s);
    var back := TrimEndSplits(PYTHON, s);
    WordsCut(PYTHON, t, back);
    WordsOfBlank(PYTHON, back);
    assert forall i :: 0 <= i < |t| ==> t[i] == s[i];
  }

  lemma PrefixIsPlain(s: string, n: nat)
    requires n <= |s|
    ensures C.Plain(s) ==> C.Plain(s[..n])
  {
  }

  /** In a steady table the keys of the lines read again are those the table says. */
  lemma RereadKeys(alias: Dict<string>, s: string)
    requires Steady(alias) && C.Plain(s) && Key(alias, s).Some?
    ensures var lines, again := Lines(alias, Key(alias, s).value), Reread(alias, s);
      && |again| == |lines|
      && forall i :: 0 <= i < |lines| ==>
           Key(alias, C.Clean(again[i])) == Key(alias, lines[i]) && C.Clean(again[i]) != "!"
  {
    var key := Key(alias, s).value;
    var text := TextOf(alias, key);
    var lines, again := Lines(alias, key), Reread(alias, s);
    var raw := A.Pieces(text);
    hide A.Pieces;
    hide Words;
    hide SteadyLine;
    if |Words(PYTHON, s)| > 1 {
      var sub := BeforeLast(s);
      BeforeLastHasWord(s);
      NonEmpty(sub);
      FirstBlank(raw[0], sub);
      forall i | 0 <= i < |lines|
        ensures Key(alias, C.Clean(again[i])) == Key(alias, lines[i]) && C.Clean(again[i]) != "!"
      {
        assert lines[i] == raw[1..][i] && again[i] == Replaced(lines[i], sub);
        ReplacedKey(alias, lines[i], sub);
      }
    } else {
      forall i | 0 <= i < |lines|
        ensures Key(alias, C.Clean(again[i])) == Key(alias, lines[i]) && C.Clean(again[i]) != "!"
      {
        SteadyIsPlain(lines[i]);
        C.CleanOnce(lines[i]);
      }
    }
  }

  lemma NonEmpty(s: string)
    requires Words(PYTHON, s) != []
    ensures s != ""
  {
  }

  lemma SteadyIsPlain(p: string)
    requires SteadyLine(p)
    ensures C.Plain(p) && p != "!"
  {
  }

  // ---- no path of calls repeats: expansion ends -------------------------------------------

  function Pool(alias: Dict<string>): (s: set<string>)
    ensures |s| <= |alias|
    ensures forall k :: Has(alias, k) ==> k in s
  {
    if alias == [] then {} else {alias[0].key} + Pool(alias[1..])
  }

  lemma {:induction false} AllDifferent(keys: seq<string>, pool: set<string>)
    requires !Repeats(keys) && forall i :: 0 <= i < |keys| ==> keys[i] in pool
    ensures |keys| <= |pool|
    decreases |keys|
  {
    if keys != [] {
      var front, last := keys[..|keys| - 1], keys[|keys| - 1];
      forall i, j | 0 <= i < j < |front| ensures front[i] != front[j] {
        assert keys[i] != keys[j];
      }
      forall i | 0 <= i < |front| ensures front[i] in pool - {last} {
        assert keys[i] != keys[|keys| - 1];
      }
      AllDifferent(front, pool - {last});
      assert |pool - {last}| == |pool| - 1;
    }
  }

  lemma PathIsShort(alias: Dict<string>, keys: seq<string>)
    requires IsPath(alias, keys) && !Repeats(keys)
    ensures |keys| <= |alias|
  {
    AllDifferent(keys, Pool(alias));
  }

  lemma PathOn(alias: Dict<string>, keys: seq<string>, k: string)
    requires IsPath(alias, keys) && Has(alias, k) && Calls(alias, keys[|keys| - 1], k)
    ensures IsPath(alias, keys + [k])
  {
    hide Calls;
    hide Has;
    var all := keys + [k];
    forall i | 0 < i < |all| ensures Calls(alias, all[i - 1], all[i]) {
      if i < |keys| { assert all[i - 1] == keys[i - 1] && all[i] == keys[i]; }
    }
  }

  /** Every line is one that the key calls, or no shorthand. */
  predicate AllCalled(alias: Dict<string>, key: string, lines: seq<string>) {
    lines == [] ||
    (var k := Key(alias, C.Clean(lines[0]));
     (k.Some? ==> Has(alias, k.value) && Calls(alias, key, k.value)) && AllCalled(alias, key, lines[1..]))
  }

  lemma {:induction false} AllCalledMeans(alias: Dict<string>, key: string, lines: seq<string>)
    requires forall i :: 0 <= i < |lines| ==>
      var k := Key(alias, C.Clean(lines[i])); k.Some? ==> Calls(alias, key, k.value)
    ensures AllCalled(alias, key, lines)
    decreases |lines|
  {
    hide Calls;
    if lines != [] {
      AllCalledMeans(alias, key, lines[1..]);
      KeyIsThere(alias, C.Clean(lines[0]));
    }
  }

  lemma KeyIsThere(alias: Dict<string>, s: string)
    ensures Key(alias, s).Some? ==> Has(alias, Key(alias, s).value) && IsPath(alias, [Key(alias, s).value])
  {
  }

  lemma RereadIsCalled(alias: Dict<string>, line: string)
    requires Steady(alias) && Key(alias, C.Clean(line)).Some?
    ensures AllCalled(alias, Key(alias, C.Clean(line)).value, Reread(alias, C.Clean(line)))
  {
    hide Steady;
    hide Reread;
    hide Lines;
    hide Key;
    var s := C.Clean(line);
    var key := Key(alias, s).value;
    C.CleanOnce(line);
    RereadKeys(alias, s);
    AllCalledMeans(alias, key, Reread(alias, s));
  }

  lemma {:induction false} EndsLine(alias: Dict<string>, line: string, keys: seq<string>) returns (n: nat)
    requires Steady(alias) && IsPath(alias, keys) && !Loops(alias, keys[0])
    requires Key(alias, C.Clean(line)) == Some(keys[|keys| - 1])
    ensures Ends(alias, [line], n)
    decreases |alias| - |keys|, 1, 0
  {
    PathIsShort(alias, keys);
    hide *;
    RereadIsCalled(alias, line);
    var again := Reread(alias, C.Clean(line));
    n := EndsLines(alias, again, keys);
    EndsStep(alias, line, [], n);
    Nothing(again);
    n := n + 1;
  }

  lemma EndsStep(alias: Dict<string>, line: string, rest: seq<string>, n: nat)
    ensures Ends(alias, [line] + rest, n + 1) <==> Ends(alias, Reread(alias, C.Clean(line)) + rest, n)
    ensures Ends(alias, [line], n + 1) <==> Ends(alias, Reread(alias, C.Clean(line)) + [], n)
  {
    hide Reread;
    assert ([line] + rest)[1..] == rest && [line][1..] == [];
  }

  lemma {:induction false} EndsLines(alias: Dict<string>, again: seq<string>, keys: seq<string>) returns (n: nat)
    requires Steady(alias) && keys != [] && IsPath(alias, keys) && |keys| <= |alias| && !Loops(alias, keys[0])
    requires AllCalled(alias, keys[|keys| - 1], again)
    ensures Ends(alias, again, n)
    decreases |alias| - |keys|, 0, |again|
  {
    hide *;
    EndsAtOnce(alias, again);
    if again == [] {
      n := 0;
    } else {
      AllCalledFirst(alias, keys[|keys| - 1], again);
      var k := Key(alias, C.Clean(again[0]));
      var first: nat;
      if k == None {
        first := 1;
        QuietLine(alias, again[0]);
      } else {
        PathOn(alias, keys, k.value);
        OnePathLonger(alias, keys, k.value);
        first := EndsLine(alias, again[0], keys + [k.value]);
      }
      var later := EndsLines(alias, again[1..], keys);
      EndsJoin(alias, [again[0]], again[1..], first, later);
      assert [again[0]] + again[1..] == again;
      n := first + later;
    }
  }

  lemma AllCalledFirst(alias: Dict<string>, key: string, lines: seq<string>)
    requires lines != [] && AllCalled(alias, key, lines)
    ensures var k := Key(alias, C.Clean(lines[0])); k.Some? ==> Has(alias, k.value) && Calls(alias, key, k.value)
    ensures AllCalled(alias, key, lines[1..])
  {
    hide Key;
    hide Has;
    hide Calls;
  }

  lemma OnePathLonger(alias: Dict<string>, keys: seq<string>, k: string)
    requires IsPath(alias, keys) && IsPath(alias, keys + [k]) && !Loops(alias, keys[0])
    ensures !Loops(alias, (keys + [k])[0]) && |keys| < |alias|
  {
    assert (keys + [k])[0] == keys[0];
    assert !Repeats(keys + [k]);
    PathIsShort(alias, keys + [k]);
  }

  lemma QuietLine(alias: Dict<string>, line: string)
    requires Key(alias, C.Clean(line)) == None
    ensures Ends(alias, [line], 1)
  {
    assert [] + [line][1..] == [];
  }

  // ---- a path of calls repeats: expansion does not end ---------------------------------------

  /** Every key of the set calls one of the set. */
  ghost predicate IsRing(alias: Dict<string>, ring: set<string>) {
    forall k :: k in ring ==> Has(alias, k) && exists k' :: k' in ring && Calls(alias, k, k')
  }

  predicate Holds(alias: Dict<string>, ring: set<string>, line: string) {
    Key(alias, C.Clean(line)).Some? && Key(alias, C.Clean(line)).value in ring
  }

  lemma RingGoesOn(alias: Dict<string>, ring: set<string>, line: string) returns (i: nat)
    requires Steady(alias) && IsRing(alias, ring) && Holds(alias, ring, line)
    ensures var again := Reread(alias, C.Clean(line)); i < |again| && Holds(alias, ring, again[i])
  {
    hide *;
    var s := C.Clean(line);
    HoldsMeans(alias, ring, line);
    var k := Key(alias, s).value;
    var k' := NextInRing(alias, ring, k);
    C.CleanOnce(line);
    RereadKeys(alias, s);
    i := CalledAt(alias, k, k');
    HoldsIf(alias, ring, Reread(alias, s)[i], k');
  }

  lemma HoldsMeans(alias: Dict<string>, ring: set<string>, line: string)
    requires Holds(alias, ring, line)
    ensures Key(alias, C.Clean(line)).Some? && Key(alias, C.Clean(line)).value in ring
  {
  }

  lemma NextInRing(alias: Dict<string>, ring: set<string>, k: string) returns (k': string)
    requires IsRing(alias, ring) && k in ring
    ensures k' in ring && Calls(alias, k, k')
  {
    hide Calls;
    hide Has;
    k' :| k' in ring && Calls(alias, k, k');
  }

  lemma CalledAt(alias: Dict<string>, k: string, k': string) returns (i: nat)
    requires Calls(alias, k, k')
    ensures i < |Lines(alias, k)| && Key(alias, Lines(alias, k)[i]) == Some(k')
  {
    i :| 0 <= i < |Lines(alias, k)| && Key(alias, Lines(alias, k)[i]) == Some(k');
  }

  lemma HoldsIf(alias: Dict<string>, ring: set<string>, line: string, k: string)
    requires Key(alias, C.Clean(line)) == Some(k) && k in ring
    ensures Holds(alias, ring, line)
  {
  }

  /** A queue with a line from such a set never empties. */
  lemma {:induction false} NeverEnds(alias: Dict<string>, ring: set<string>, queue: seq<string>, at: nat, n: nat)
    requires Steady(alias) && IsRing(alias, ring)
    requires at < |queue| && Holds(alias, ring, queue[at])
    ensures !Ends(alias, queue, n)
    decreases n
  {
    hide *;
    var first, rest := queue[0], queue[1..];
    assert queue == [first] + rest;
    if n == 0 {
      EndsAtOnce(alias, queue);
    } else {
      var again := Reread(alias, C.Clean(first));
      EndsStep(alias, first, rest, n - 1);
      var next := again + rest;
      if at > 0 {
        assert next[|again| + at - 1] == queue[at];
        NeverEnds(alias, ring, next, |again| + at - 1, n - 1);
      } else {
        var i := RingGoesOn(alias, ring, first);
        assert next[i] == again[i];
        NeverEnds(alias, ring, next, i, n - 1);
      }
    }
  }

  lemma EndsAtOnce(alias: Dict<string>, queue: seq<string>)
    ensures Ends(alias, queue, 0) <==> queue == []
  {
  }

  lemma NextInPath(alias: Dict<string>, keys: seq<string>, t: nat)
    requires IsPath(alias, keys) && t + 1 < |keys|
    ensures Has(alias, keys[t]) && Calls(alias, keys[t], keys[t + 1])
  {
    hide Has;
    hide Calls;
  }

  lemma RingOf(alias: Dict<string>, keys: seq<string>) returns (ring: set<string>)
    requires IsPath(alias, keys) && Repeats(keys)
    ensures keys[0] in ring && IsRing(alias, ring)
  {
    hide Calls;
    hide Has;
    hide IsPath;
    var i, j :| 0 <= i < j < |keys| && keys[i] == keys[j];
    ring := set t | 0 <= t < j :: keys[t];
    forall k | k in ring ensures Has(alias, k) && exists k' :: k' in ring && Calls(alias, k, k') {
      var t :| 0 <= t < j && keys[t] == k;
      var k' := keys[t + 1];
      NextInPath(alias, keys, t);
      assert t + 1 == j ==> k' == keys[i];
      assert k' in ring && Calls(alias, k, k');
    }
  }

  // ---- the limit ---------------------------------------------------------------------------

  /** The most lines a shorthand of the table has read again. */
  function Widest(alias: Dict<string>): nat {
    if alias == [] then 0
    else
      var first, later := |A.Pieces(alias[0].value)| - 1, Widest(alias[1..]);
      if first > later then first else later
  }

  lemma {:induction false} WidestIs(alias: Dict<string>, key: string)
    requires Has(alias, key)
    ensures |A.Pieces(TextOf(alias, key))| - 1 <= Widest(alias)
    decreases |alias|
  {
    hide A.Pieces;
    if alias[0].key != key { WidestIs(alias[1..], key); }
  }

  /** Some shorthand has so many, if there is one that has any. */
  lemma {:induction false} WidestIsHad(alias: Dict<string>)
    ensures Widest(alias) == 0 || exists x :: x in alias && Widest(alias) == |A.Pieces(x.value)| - 1
    decreases |alias|
  {
    hide A.Pieces;
    if alias != [] {
      WidestIsHad(alias[1..]);
      assert alias[0] in alias && forall x :: x in alias[1..] ==> x in alias;
    }
  }

  lemma RereadIsShort(alias: Dict<string>, s: string)
    ensures |Reread(alias, s)| <= Widest(alias)
  {
    hide A.Pieces;
    hide Widest;
    hide Words;
    if Key(alias, s).Some? {
      KeyIsThere(alias, s);
      WidestIs(alias, Key(alias, s).value);
    }
  }

  function AtMost(left: int, width: nat): nat {
    if left <= 0 then 0 else left * width
  }

  lemma OneLess(left: int, width: nat)
    requires left > 0
    ensures width + AtMost(left - 1, width) == AtMost(left, width)
  {
    assert width + (left - 1) * width == left * width;
  }

  /** Where lines are counted every expansion ends, looping or not, and so do any waiting
      lines: the table decides only how many lines are taken. */
  lemma {:induction false} LimitEnds(alias: Dict<string>, left: int, prev: string, queue: seq<string>) returns (n: nat)
    ensures Done(alias, Some(left), prev, queue, n)
    ensures n <= |queue| + AtMost(left, Widest(alias))
    decreases if left > 0 then left else 0, |queue|
  {
    hide Reread;
    hide Meant;
    hide Kept;
    hide Widest;
    hide AtMost;
    n := 0;
    if queue != [] {
      if left > 0 {
        var again := Reread(alias, Meant(prev, queue[0]));
        RereadIsShort(alias, Meant(prev, queue[0]));
        OneLess(left, Widest(alias));
        n := LimitEnds(alias, left - 1, Kept(prev, queue[0]), again + queue[1..]);
      } else {
        n := LimitEnds(alias, left - 1, prev, queue[1..]);
        assert AtMost(left - 1, Widest(alias)) == AtMost(left, Widest(alias)) by { NoMore(left, Widest(alias)); }
      }
      n := n + 1;
    }
  }

  lemma NoMore(left: int, width: nat)
    requires left <= 0
    ensures AtMost(left - 1, width) == AtMost(left, width)
  {
  }

  /** Is the player warned at one of the first `n` lines? */
  predicate Warned(alias: Dict<string>, left: nat, prev: string, queue: seq<string>, n: nat)
    decreases n
  {
    && queue != [] && n > 0
    && (left == 0 ||
        Warned(alias, left - 1, Kept(prev, queue[0]), Reread(alias, Meant(prev, queue[0])) + queue[1..], n - 1))
  }

  /** The player is warned, at the first line beyond the limit, exactly if the lines would not
      be used up within it. */
  lemma {:induction false} WarnedIff(alias: Dict<string>, left: nat, prev: string, queue: seq<string>, n: nat)
    ensures Warned(alias, left, prev, queue, n) <==> n > left && !Done(alias, None, prev, queue, left)
    decreases left
  {
    hide Reread;
    hide Meant;
    hide Kept;
    if queue != [] && n > 0 && left > 0 {
      WarnedIff(alias, left - 1, Kept(prev, queue[0]), Reread(alias, Meant(prev, queue[0])) + queue[1..], n - 1);
    }
  }

  // ---- exactly when ----------------------------------------------------------------------

  /** No line is, after cleaning, the `!` that repeats. */
  predicate NoBang(queue: seq<string>) {
    forall i :: 0 <= i < |queue| ==> C.Clean(queue[i]) != "!"
  }

  /** Without `!` the line before does not matter. */
  lemma {:induction false} DoneIsEnds(alias: Dict<string>, prev: string, queue: seq<string>, n: nat)
    requires Steady(alias) && NoBang(queue)
    ensures Done(alias, None, prev, queue, n) <==> Ends(alias, queue, n)
    decreases n
  {
    if queue != [] && n > 0 {
      NoBangOn(alias, prev, queue);
      hide Reread;
      hide Meant;
      hide Kept;
      hide NoBang;
      hide Steady;
      DoneIsEnds(alias, Kept(prev, queue[0]), Reread(alias, C.Clean(queue[0])) + queue[1..], n - 1);
    }
  }

  lemma NoBangOn(alias: Dict<string>, prev: string, queue: seq<string>)
    requires Steady(alias) && NoBang(queue) && queue != []
    ensures Meant(prev, queue[0]) == C.Clean(queue[0])
    ensures NoBang(Reread(alias, C.Clean(queue[0])) + queue[1..])
  {
    var s := C.Clean(queue[0]);
    var again := Reread(alias, s);
    C.CleanOnce(queue[0]);
    if Key(alias, s).Some? { RereadKeys(alias, s); }
    hide C.Clean;
    hide Steady;
    hide Lines;
  }

  /** In a table of steady lines, reading a line comes to an end if and only if it is no
      shorthand, or one from which no path of calls leads back to itself. */
  lemma ExpansionEndsIff(alias: Dict<string>, left: Option<int>, prev: string, line: string)
    requires Steady(alias) && C.Clean(line) != "!"
    ensures (exists n: nat :: Done(alias, left, prev, [line], n)) <==>
      left.Some? || (match Key(alias, C.Clean(line)) case None => true case Some(key) => !Loops(alias, key))
  {
    if left.Some? {
      var n := LimitEnds(alias, left.value, prev, [line]);
    } else {
      FreeEndsIff(alias, prev, line);
    }
  }

  lemma FreeEndsIff(alias: Dict<string>, prev: string, line: string)
    requires Steady(alias) && C.Clean(line) != "!"
    ensures (exists n: nat :: Done(alias, None, prev, [line], n)) <==>
      (match Key(alias, C.Clean(line)) case None => true case Some(key) => !Loops(alias, key))
  {
    hide Steady;
    hide Loops;
    hide Key;
    hide Done;
    hide Ends;
    var key := Key(alias, C.Clean(line));
    assert NoBang([line]);
    if key == None {
      QuietLine(alias, line);
      DoneIsEnds(alias, prev, [line], 1);
    } else if !Loops(alias, key.value) {
      KeyIsThere(alias, C.Clean(line));
      var n := EndsLine(alias, line, [key.value]);
      DoneIsEnds(alias, prev, [line], n);
    } else {
      forall n: nat ensures !Done(alias, None, prev, [line], n) {
        LoopNeverEnds(alias, line, n);
        DoneIsEnds(alias, prev, [line], n);
      }
    }
  }

  lemma LoopNeverEnds(alias: Dict<string>, line: string, n: nat)
    requires Steady(alias) && Key(alias, C.Clean(line)).Some? && Loops(alias, Key(alias, C.Clean(line)).value)
    ensures !Ends(alias, [line], n)
  {
    hide Steady;
    hide Key;
    hide Ends;
    hide IsRing;
    hide Repeats;
    hide Calls;
    hide Has;
    var keys :| IsPath(alias, keys) && keys[0] == Key(alias, C.Clean(line)).value && Repeats(keys);
    var ring := RingOf(alias, keys);
    NeverEnds(alias, ring, [line], 0, n);
  }

  // ---- what the guard of the command achieves, and what it does not ------------------------

  function Place(d: Dict<string>, key: string): (i: nat)
    requires Has(d, key)
    ensures i < |d| && d[i].key == key && Get(d, key) == Some(d[i].value)
  {
    if d[0].key == key then 0 else 1 + Place(d[1..], key)
  }

  /** The lines read again that are shorthands at all are just their names. */
  predicate BareCalls(alias: Dict<string>, key: string) {
    forall i :: 0 <= i < |Lines(alias, key)| ==>
      var k := Key(alias, Lines(alias, key)[i]); k.Some? ==> Lines(alias, key)[i] == k.value
  }

  lemma CallsForward(alias: Dict<string>, k: string, k': string)
    requires A.Forward(alias) && Has(alias, k) && Has(alias, k') && BareCalls(alias, k) && Calls(alias, k, k')
    ensures Place(alias, k) < Place(alias, k')
  {
    hide A.Forward;
    hide A.Pieces;
    hide Key;
    var i := CalledAt(alias, k, k');
    var pieces := A.Pieces(TextOf(alias, k));
    assert Lines(alias, k)[i] == k' && k' in pieces;
    if Place(alias, k') <= Place(alias, k) {
      A.ForwardMeans(alias, Place(alias, k'), Place(alias, k));
    }
  }

  lemma {:induction false} PathRises(alias: Dict<string>, keys: seq<string>, i: nat, j: nat)
    requires A.Forward(alias) && IsPath(alias, keys) && i < j < |keys|
    requires forall k :: Has(alias, k) ==> BareCalls(alias, k)
    ensures Has(alias, keys[i]) && Has(alias, keys[j]) && Place(alias, keys[i]) < Place(alias, keys[j])
    decreases j
  {
    hide A.Forward;
    hide BareCalls;
    hide Calls;
    CallsForward(alias, keys[j - 1], keys[j]);
    if i < j - 1 { PathRises(alias, keys, i, j - 1); }
  }

  /** In a table the guard has kept, nothing loops whose lines call shorthands by the bare
      name, without blanks or arguments. */
  lemma BareCallsNeverLoop(alias: Dict<string>, key: string)
    requires A.Forward(alias) && forall k :: Has(alias, k) ==> BareCalls(alias, k)
    ensures !Loops(alias, key)
  {
    hide A.Forward;
    hide BareCalls;
    hide Has;
    forall keys | IsPath(alias, keys) && Repeats(keys) ensures false {
      var i, j :| 0 <= i < j < |keys| && keys[i] == keys[j];
      PathRises(alias, keys, i, j);
    }
  }

  lemma WordIs(w: string)
    requires IsWord(PYTHON, w)
    ensures Words(PYTHON, w) == [w]
  {
    R.OneWord(w);
  }

  lemma LettersAreWords()
    ensures IsWord(PYTHON, "a") && IsWord(PYTHON, "x") && IsWord(PYTHON, "말") && IsWord(PYTHON, "!")
  {
  }

  /** The line of the command, and the shorthand it makes, for a text without outer blanks. */
  lemma Given(text: string, pieces: seq<string>)
    requires text != "" && text[0] !in PYTHON && text[|text| - 1] !in PYTHON
    requires A.Pieces(text) == pieces && "a" !in pieces
    ensures A.Answer([], "a " + text) == A.Stored
    ensures A.Commanded([], "a " + text) == [Item("a", text)]
  {
    hide *;
    GivenParts(text);
    NoKeys(pieces);
    Stores("a " + text, "a", text);
  }

  lemma Stores(line: string, key: string, text: string)
    requires line != "" && text != "" && Words(PYTHON, line) != [] && Words(PYTHON, line)[0] == key
    requires AfterFirst(PYTHON, line) == text && Strip(PYTHON, text) == text
    requires key !in A.Pieces(text) && !A.AnyKey(A.Pieces(text), [])
    ensures A.Answer([], line) == A.Stored && A.Commanded([], line) == [Item(key, text)]
  {
    hide Words;
    hide AfterFirst;
    hide Strip;
    hide A.Pieces;
    hide A.AnyKey;
  }

  lemma GivenParts(text: string)
    requires text != "" && text[0] !in PYTHON && text[|text| - 1] !in PYTHON
    ensures var line := "a " + text;
      && Words(PYTHON, line) != [] && Words(PYTHON, line)[0] == "a"
      && AfterFirst(PYTHON, line) == text && Strip(PYTHON, text) == text
  {
    LettersAreWords();
    assert "a " + text == "a" + " " + text;
    hide PYTHON;
    hide Words;
    hide AfterFirst;
    R.WordThen("a", text);
    assert TrimStart(PYTHON, text) == text && TrimEnd(PYTHON, text) == text;
  }

  lemma {:induction false} NoKeys(pieces: seq<string>)
    ensures !A.AnyKey(pieces, [])
    decreases |pieces|
  {
    if pieces != [] { NoKeys(pieces[1..]); }
  }

  lemma PlainA()
    ensures C.Clean("a") == "a" && Words(PYTHON, "a") == ["a"]
  {
    LettersAreWords();
    WordIs("a");
    C.CleanOnce("a");
  }

  /** Typed alone, the shorthand is itself. */
  lemma KeyOfA(text: string)
    ensures Key([Item("a", text)], "a") == Some("a") && Has([Item("a", text)], "a")
    ensures TextOf([Item("a", text)], "a") == text
  {
    PlainA();
    KeyIsLast([Item("a", text)], "a");
  }

  const LOOPING := "x;말 a"

  lemma LoopingPieces()
    ensures A.Pieces(LOOPING) == ["x", "말 a"]
    ensures Words(PYTHON, "말 a") == ["말", "a"] && Words(PYTHON, "x") == ["x"]
    ensures LOOPING != "" && LOOPING[0] !in PYTHON && LOOPING[|LOOPING| - 1] !in PYTHON
  {
    LettersAreWords();
    PiecesFrom("말 a");
    assert LOOPING == "x" + ";" + "말 a" && "x;말 a"[1..] == ";말 a" && ";말 a"[1..] == "말 a";
    assert "말 a" == "말" + " " + "a";
    R.WordThen("말", "a");
    WordIs("a");
    WordIs("x");
    assert LOOPING[0] == 'x' && LOOPING[|LOOPING| - 1] == 'a' && "a"[0] == 'a' && "x"[0] == 'x';
  }

  lemma {:induction false} PiecesFrom(s: string)
    requires ';' !in s
    ensures A.Pieces(s) == [s]
    decreases |s|
  {
    if s != [] {
      PiecesFrom(s[1..]);
      assert s == [s[0]] + s[1..];
    }
  }

  /** The command takes a shorthand whose second piece ends in its own name, and typing it
      is never done with: the guard compares whole pieces, but the last word counts. */
  lemma GuardedLineLoops(prev: string, n: nat)
    ensures A.Answer([], "a " + LOOPING) == A.Stored
    ensures !Done(A.Commanded([], "a " + LOOPING), None, prev, ["a"], n)
    ensures Warned(A.Commanded([], "a " + LOOPING), n, prev, ["a"], n + 1)
  {
    var alias := [Item("a", LOOPING)];
    LoopingPieces();
    assert "a" !in ["x", "말 a"];
    Given(LOOPING, ["x", "말 a"]);
    KeyOfA(LOOPING);
    PlainA();
    LoopingLines();
    LoopingIsSteady();
    assert "a" != "!";
    hide *;
    LoopsOnItself(alias, "a");
    FreeEndsIff(alias, prev, "a");
    WarnedIff(alias, n, prev, ["a"], n + 1);
  }

  lemma LoopsOnItself(alias: Dict<string>, k: string)
    requires Has(alias, k) && Calls(alias, k, k)
    ensures Loops(alias, k)
  {
    hide Has;
    hide Calls;
    var keys := [k, k];
    assert IsPath(alias, keys) && keys[0] == keys[1];
  }

  lemma LoopingLines()
    ensures var alias := [Item("a", LOOPING)]; Lines(alias, "a") == ["말 a"] && Calls(alias, "a", "a")
  {
    var alias := [Item("a", LOOPING)];
    LoopingPieces();
    KeyOfA(LOOPING);
    LastIsA("말 a", LOOPING);
    hide Words;
    hide Key;
    hide A.Pieces;
    hide TextOf;
    hide Has;
    assert ["x", "말 a"][1..] == ["말 a"];
    assert Key(alias, Lines(alias, "a")[0]) == Some("a");
  }

  lemma LastIsA(line: string, text: string)
    requires line != "" && line[|line| - 1] == 'a' && Words(PYTHON, line) == ["말", "a"]
    ensures Key([Item("a", text)], line) == Some("a")
  {
    KeyOfA(text);
    hide Has;
    hide Words;
    KeyIsLast([Item("a", text)], line);
  }

  lemma LoopingIsSteady()
    ensures Steady([Item("a", LOOPING)])
  {
    var alias := [Item("a", LOOPING)];
    LoopingPieces();
    LoopingLines();
    LoopingLineIsSteady();
    hide SteadyLine;
    hide Lines;
    assert forall k :: Has(alias, k) ==> k == "a";
  }

  lemma LoopingLineIsSteady()
    ensures SteadyLine("말 a")
  {
    LoopingPieces();
    hide Words;
  }

  const REPEATING := "x;!"

  lemma RepeatingPieces()
    ensures A.Pieces(REPEATING) == ["x", "!"] && Words(PYTHON, "x") == ["x"]
    ensures REPEATING != "" && REPEATING[0] !in PYTHON && REPEATING[|REPEATING| - 1] !in PYTHON
  {
    LettersAreWords();
    PiecesFrom("!");
    assert REPEATING[1..] == ";!" && ";!"[1..] == "!";
    WordIs("x");
    assert REPEATING[0] == 'x' && REPEATING[|REPEATING| - 1] == '!' && "!"[0] == '!' && "x"[0] == 'x';
  }

  /** It also takes one that ends in the repetition of the last line, which is never done
      with either: this is what steady lines leave out. */
  lemma {:induction false} RepeatedLineLoops(prev: string, n: nat)
    ensures A.Answer([], "a " + REPEATING) == A.Stored
    ensures var alias := A.Commanded([], "a " + REPEATING);
      && !Done(alias, None, prev, ["a"], n) && !Done(alias, None, "a", ["!"], n)
      && Warned(alias, n, prev, ["a"], n + 1)
    decreases n
  {
    var alias := [Item("a", REPEATING)];
    RepeatingPieces();
    assert "a" !in ["x", "!"];
    Given(REPEATING, ["x", "!"]);
    KeyOfA(REPEATING);
    PlainA();
    assert C.Clean("!") == "!" by { C.CleanOnce("!"); }
    assert Reread(alias, "a") == ["!"] by { assert ["x", "!"][1..] == ["!"]; }
    hide Reread;
    hide C.Clean;
    if n > 0 {
      RepeatedLineLoops("a", n - 1);
      assert ["a"][1..] == [] && ["!"][1..] == [] && ["!"] + [] == ["!"];
    }
    WarnedIff(alias, n, prev, ["a"], n + 1);
  }
}
