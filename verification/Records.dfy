/** Dictionaries kept as lines of text in the saved objects: item options and martial arts
    skills. (Shorthands are in Aliases.) */
module Records {
  import opened Text
  import opened Numbers
  import opened Dictionary

  /** An attribute of a saved object: one text, empty if it was never set, or a list. */
  datatype Attribute = Single(text: string) | Lines(lines: seq<string>)

  /** What iterating over the attribute visits: Python runs over the characters of a text. */
  function Visited(a: Attribute): seq<string> {
    match a case Single(text) => Characters(text) case Lines(lines) => lines
  }

  function Characters(s: string): seq<string> {
    if s == [] then [] else [[s[0]]] + Characters(s[1..])
  }

  /** What one line comes to: nothing, an exception, or an entry. */
  datatype Reading<V> = Skip | Bad | Entry(item: Item<V>)

  /** Reading lines one after another into a dictionary; None for an exception. */
  function ReadInto<V(!new)>(read: string -> Reading<V>, lines: seq<string>, d: Dict<V>): Option<Dict<V>>
    decreases |lines|
  {
    if lines == [] then Some(d)
    else
      match read(lines[0])
      case Skip => ReadInto(read, lines[1..], d)
      case Bad => None
      case Entry(x) => ReadInto(read, lines[1..], Put(d, x.key, x.value))
  }

  function WriteAll<V(!new)>(write: Item<V> -> string, d: Dict<V>): (lines: seq<string>)
    ensures |lines| == |d|
  {
    if d == [] then [] else [write(d[0])] + WriteAll(write, d[1..])
  }

  predicate AllGood<V(!new)>(good: Item<V> -> bool, d: Dict<V>) {
    d == [] || (good(d[0]) && AllGood(good, d[1..]))
  }

  /** Whatever a line is read as is good, and what is good is read back from its line. */
  ghost predicate Inverse<V(!new)>(read: string -> Reading<V>, write: Item<V> -> string, good: Item<V> -> bool) {
    && (forall line :: read(line).Entry? ==> good(read(line).item))
    && (forall x :: good(x) ==> read(write(x)) == Entry(x))
  }

  lemma {:induction false} PutGood<V(!new)>(good: Item<V> -> bool, d: Dict<V>, x: Item<V>)
    requires AllGood(good, d) && good(x)
    ensures AllGood(good, Put(d, x.key, x.value))
    decreases |d|
  {
    if d != [] { PutGood(good, d[1..], x); }
  }

  lemma {:induction false} ReadIsGood<V(!new)>(
      read: string -> Reading<V>, write: Item<V> -> string, good: Item<V> -> bool,
      lines: seq<string>, d: Dict<V>)
    requires Inverse(read, write, good) && AllGood(good, d)
    ensures var r := ReadInto(read, lines, d); r.Some? ==> AllGood(good, r.value)
    decreases |lines|
  {
    if lines != [] {
      match read(lines[0])
      case Skip => ReadIsGood(read, write, good, lines[1..], d);
      case Bad =>
      case Entry(x) =>
        PutGood(good, d, x);
        ReadIsGood(read, write, good, lines[1..], Put(d, x.key, x.value));
    }
  }

  lemma {:induction false} GoodIsRead<V(!new)>(
      read: string -> Reading<V>, write: Item<V> -> string, good: Item<V> -> bool,
      done: Dict<V>, d: Dict<V>)
    requires Inverse(read, write, good) && AllGood(good, d) && Unique(done + d)
    ensures ReadInto(read, WriteAll(write, d), done) == Some(done + d)
    decreases |d|
  {
    hide Inverse;
    if d == [] {
      assert done + d == done;
    } else {
      var x, rest := d[0], d[1..];
      assert d == [x] + rest;
      UniqueParts(done, x, rest);
      PutNew(done, x.key, x.value);
      Assoc(done, [x], rest);
      GoodIsRead(read, write, good, done + [x], rest);
      ReadsBack(read, write, good, x);
      assert WriteAll(write, d)[1..] == WriteAll(write, rest);
    }
  }

  lemma ReadsBack<V(!new)>(read: string -> Reading<V>, write: Item<V> -> string, good: Item<V> -> bool, x: Item<V>)
    requires Inverse(read, write, good) && good(x)
    ensures read(write(x)) == Entry(x)
  {
  }

  /** A dictionary survives being written and read exactly when all its entries are good. */
  lemma SurvivesIff<V(!new)>(read: string -> Reading<V>, write: Item<V> -> string, good: Item<V> -> bool, d: Dict<V>)
    requires Inverse(read, write, good) && Unique(d)
    ensures ReadInto(read, WriteAll(write, d), []) == Some(d) <==> AllGood(good, d)
  {
    hide Inverse;
    ReadIsGood(read, write, good, WriteAll(write, d), []);
    if AllGood(good, d) {
      assert [] + d == d;
      GoodIsRead(read, write, good, [], d);
    }
  }

  lemma {:induction false} AllGoodMeans<V(!new)>(good: Item<V> -> bool, d: Dict<V>)
    ensures AllGood(good, d) <==> forall i :: 0 <= i < |d| ==> good(d[i])
    decreases |d|
  {
    if d != [] {
      AllGoodMeans(good, d[1..]);
      assert forall i :: 0 < i < |d| ==> d[i] == d[1..][i - 1];
    }
  }

  /** One word, a blank, and more: cut at the blank. */
  lemma WordThen(w: string, rest: string)
    requires IsWord(PYTHON, w)
    ensures Words(PYTHON, w + " " + rest) == [w] + Words(PYTHON, rest)
    ensures AfterFirst(PYTHON, w + " " + rest) == TrimStart(PYTHON, rest)
  {
    Assoc(w, " ", rest);
    var tail := " " + rest;
    assert tail[0] == ' ';
    SpaceSeparates();
    WordsLead(PYTHON, w, tail);
    WordsSkipBlank(PYTHON, " ", rest);
    TrimStartIs(PYTHON, " ", rest);
    assert (w + tail)[|w|..] == tail;
  }

  lemma SpaceSeparates()
    ensures ' ' in PYTHON && Blank(PYTHON, " ")
  {
  }

  lemma OneWord(w: string)
    requires IsWord(PYTHON, w)
    ensures Words(PYTHON, w) == [w]
  {
    assert w + [] == w;
    WordsLead(PYTHON, w, []);
  }

  // ---- item options --------------------------------------------------------------------

  function OptionLine(x: Item<int>): string { x.key + " " + IntText(x.value) }

  /** `getOption` on a line: two words, the second a number. */
  function ReadOption(line: string): Reading<int> {
    var w := Words(PYTHON, line);
    if |w| != 2 then Skip
    else match ParseInt(w[1]) case Some(n) => Entry(Item(w[0], n)) case None => Bad
  }

  predicate NamedByWord<V>(x: Item<V>) { IsWord(PYTHON, x.key) }

  lemma OptionsInvert()
    ensures Inverse(ReadOption, OptionLine, NamedByWord)
  {
    forall x: Item<int> | NamedByWord(x) ensures ReadOption(OptionLine(x)) == Entry(x) {
      WordThen(x.key, IntText(x.value));
      IntTextIsWord(x.value);
      OneWord(IntText(x.value));
      IntRoundTrip(x.value);
    }
  }

  datatype Result<V> = Nothing | Failed | Got(d: Dict<V>)

  function Options(a: Attribute): Result<int> {
    if a == Single("") then Nothing
    else
      match ReadInto(ReadOption, if a.Single? then [a.text] else a.lines, [])
      case None => Failed
      case Some(d) => Got(d)
  }

  class GameItem {
    var option: Attribute

    method SetOption(options: Dict<int>)
      modifies this
      ensures option == Lines(WriteAll(OptionLine, options))
    {
      var s: seq<string> := [];
      var rest := options;
      while rest != []
        invariant s + WriteAll(OptionLine, rest) == WriteAll(OptionLine, options)
      {
        Assoc(s, [OptionLine(rest[0])], WriteAll(OptionLine, rest[1..]));
        s := s + [OptionLine(rest[0])];
        rest := rest[1..];
      }
      option := Lines(s);
    }

    method GetOption() returns (r: Result<int>)
      ensures r == Options(option)
    {
      if option == Single("") {
        return Nothing;
      }
      var rest := if option.Single? then [option.text] else option.lines;
      ghost var goal := ReadInto(ReadOption, rest, []);
      var d: Dict<int> := [];
      while rest != []
        invariant ReadInto(ReadOption, rest, d) == goal
      {
        var w := Words(PYTHON, rest[0]);
        if |w| == 2 {
          var n := ParseInt(w[1]);
          if n == None {
            return Failed;
          }
          d := Put(d, w[0], n.value);
        }
        rest := rest[1..];
      }
      return Got(d);
    }
  }

  /** `getOption` after `setOption` gives the options back exactly when every name is one word. */
  lemma OptionsSurviveIff(options: Dict<int>)
    requires Unique(options)
    ensures Options(Lines(WriteAll(OptionLine, options))) == Got(options) <==>
      forall i :: 0 <= i < |options| ==> IsWord(PYTHON, options[i].key)
  {
    hide ParseInt;
    hide IntText;
    hide IsWord;
    hide Words;
    OptionsInvert();
    SurvivesIff(ReadOption, OptionLine, NamedByWord, options);
    AllGoodMeans(NamedByWord, options);
    assert forall i :: 0 <= i < |options| ==> (NamedByWord(options[i]) <==> IsWord(PYTHON, options[i].key));
  }

  // ---- martial arts skills ----------------------------------------------------------------

  /** `'%s %d %d'`. */
  function SkillLine(x: Item<(int, int)>): string {
    x.key + " " + (IntText(x.value.0) + " " + IntText(x.value.1))
  }

  /** `loadSkillUp` on a line: three words or more, two numbers after the name. */
  function ReadSkill(line: string): Reading<(int, int)> {
    var w := Words(PYTHON, line);
    if |w| < 3 || ParseInt(w[1]) == None || ParseInt(w[2]) == None then Bad
    else Entry(Item(w[0], (ParseInt(w[1]).value, ParseInt(w[2]).value)))
  }

  lemma SkillsInvert()
    ensures Inverse(ReadSkill, SkillLine, NamedByWord)
  {
    forall x: Item<(int, int)> | NamedByWord(x) ensures ReadSkill(SkillLine(x)) == Entry(x) {
      hide ParseInt;
      hide IntText;
      var a, b := IntText(x.value.0), IntText(x.value.1);
      WordThen(x.key, a + " " + b);
      IntTextIsWord(x.value.0);
      IntTextIsWord(x.value.1);
      WordThen(a, b);
      OneWord(b);
      IntRoundTrip(x.value.0);
      IntRoundTrip(x.value.1);
    }
  }

  class Body {
    var skillMap: Dict<(int, int)>
    var skills: Attribute

    method BuildSkillUp()
      modifies this`skills
      ensures skills == Lines(WriteAll(SkillLine, skillMap))
    {
      var msg: seq<string> := [];
      var rest := skillMap;
      while rest != []
        invariant msg + WriteAll(SkillLine, rest) == WriteAll(SkillLine, skillMap)
      {
        Assoc(msg, [SkillLine(rest[0])], WriteAll(SkillLine, rest[1..]));
        msg := msg + [SkillLine(rest[0])];
        rest := rest[1..];
      }
      skills := Lines(msg);
    }

    /** False when a line raises an exception. */
    method LoadSkillUp() returns (ok: bool)
      modifies this`skillMap
      ensures ok == ReadInto(ReadSkill, Visited(skills), []).Some?
      ensures ok ==> ReadInto(ReadSkill, Visited(skills), []) == Some(skillMap)
    {
      skillMap := [];
      if skills == Single("") {
        return true;
      }
      var rest := Visited(skills);
      ghost var goal := ReadInto(ReadSkill, rest, []);
      while rest != []
        invariant ReadInto(ReadSkill, rest, skillMap) == goal
      {
        var words := Words(PYTHON, rest[0]);
        if |words| < 3 || ParseInt(words[1]) == None || ParseInt(words[2]) == None {
          return false;
        }
        skillMap := Put(skillMap, words[0], (ParseInt(words[1]).value, ParseInt(words[2]).value));
        rest := rest[1..];
      }
      return true;
    }
  }

  /** A skill map survives a save exactly when every skill's name is one word. */
  lemma SkillsSurviveIff(skillMap: Dict<(int, int)>)
    requires Unique(skillMap)
    ensures ReadInto(ReadSkill, Visited(Lines(WriteAll(SkillLine, skillMap))), []) == Some(skillMap) <==>
      forall i :: 0 <= i < |skillMap| ==> IsWord(PYTHON, skillMap[i].key)
  {
    hide ParseInt;
    hide IntText;
    hide IsWord;
    hide Words;
    SkillsInvert();
    SurvivesIff(ReadSkill, SkillLine, NamedByWord, skillMap);
    AllGoodMeans(NamedByWord, skillMap);
    assert forall i :: 0 <= i < |skillMap| ==> (NamedByWord(skillMap[i]) <==> IsWord(PYTHON, skillMap[i].key));
  }
}
