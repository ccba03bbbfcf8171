/** A player's shorthands: set and removed by a command, kept as lines of text. */
module Aliases {
  import opened Text
  import opened Dictionary
  import opened Records

  function AliasLine(x: Item<string>): string { x.key + " " + x.value }

  /** `key.split(None, 1)`: the first word, and the rest without leading blanks. */
  function ReadAlias(line: string): Reading<string> {
    if Words(PYTHON, line) == [] || AfterFirst(PYTHON, line) == "" then Bad
    else Entry(Item(Words(PYTHON, line)[0], AfterFirst(PYTHON, line)))
  }

  /** The key is one word and the text starts with something to see. */
  predicate Writable(x: Item<string>) {
    IsWord(PYTHON, x.key) && x.value != "" && x.value[0] !in PYTHON
  }

  lemma AliasesInvert()
    ensures Inverse(ReadAlias, AliasLine, Writable)
  {
    forall x: Item<string> | Writable(x) ensures ReadAlias(AliasLine(x)) == Entry(x) {
      WordThen(x.key, x.value);
      assert TrimStart(PYTHON, x.value) == x.value;
    }
  }

  /** Shorthands survive a save exactly when every key is one word and every text starts
      with a character that is no blank. */
  lemma AliasesSurviveIff(alias: Dict<string>)
    requires Unique(alias)
    ensures ReadInto(ReadAlias, WriteAll(AliasLine, alias), []) == Some(alias) <==>
      forall i :: 0 <= i < |alias| ==> Writable(alias[i])
  {
    AliasesInvert();
    SurvivesIff(ReadAlias, AliasLine, Writable, alias);
    AllGoodMeans(Writable, alias);
  }

  /** `data.split(';')`. */
  function Pieces(s: string): (ps: seq<string>)
    ensures ps != []
  {
    if s == [] then [[]]
    else
      var ps := Pieces(s[1..]);
      if s[0] == ';' then [[]] + ps else [[s[0]] + ps[0]] + ps[1..]
  }

  predicate AnyKey(pieces: seq<string>, alias: Dict<string>) {
    pieces != [] && (Has(alias, pieces[0]) || AnyKey(pieces[1..], alias))
  }

  const MOST := 100

  datatype Reply = Listed | Raised | Removed | Unknown | Nested | TooMany | Already | Stored

  /** What `[줄임말] [내용] 줄임말` answers. */
  function Answer(alias: Dict<string>, line: string): Reply {
    if line == [] then Listed
    else if Words(PYTHON, line) == [] then Raised
    else
      var key, rest := Words(PYTHON, line)[0], AfterFirst(PYTHON, line);
      if rest == [] then (if Has(alias, key) then Removed else Unknown)
      else
        var pieces := Pieces(Strip(PYTHON, rest));
        if key in pieces || AnyKey(pieces, alias) then Nested
        else if |alias| >= MOST then TooMany
        else if Has(alias, key) then Already
        else Stored
  }

  /** The pieces of a text stand between its semicolons and hold none. */
  function Joined(pieces: seq<string>): string
    requires pieces != []
  {
    if |pieces| == 1 then pieces[0] else pieces[0] + (";" + Joined(pieces[1..]))
  }

  lemma {:induction false} PiecesAreBetween(s: string)
    ensures Joined(Pieces(s)) == s && forall k :: 0 <= k < |Pieces(s)| ==> ';' !in Pieces(s)[k]
    decreases |s|
  {
    if s != [] {
      PiecesAreBetween(s[1..]);
      var ps := Pieces(s[1..]);
      assert s == [s[0]] + s[1..];
      if s[0] == ';' {
        assert ([[]] + ps)[1..] == ps && [] + (";" + Joined(ps)) == s;
      } else {
        assert ([[s[0]] + ps[0]] + ps[1..])[1..] == ps[1..];
        if |ps| > 1 { Assoc([s[0]], ps[0], ";" + Joined(ps[1..])); }
      }
    }
  }

  /** A shorthand is stored if it has a key and a text, there are less than a hundred, the key
      is new, and no piece of the text is the key or another one. */
  lemma StoredIff(alias: Dict<string>, line: string)
    ensures Answer(alias, line) == Stored <==>
      && |Words(PYTHON, line)| >= 1 && AfterFirst(PYTHON, line) != ""
      && |alias| < 100 && !Has(alias, Words(PYTHON, line)[0])
      && Words(PYTHON, line)[0] !in Pieces(Strip(PYTHON, AfterFirst(PYTHON, line)))
      && forall piece :: piece in Pieces(Strip(PYTHON, AfterFirst(PYTHON, line))) ==> !Has(alias, piece)
  {
    hide Words;
    hide AfterFirst;
    hide Strip;
    hide Pieces;
    var pieces := Pieces(Strip(PYTHON, AfterFirst(PYTHON, line)));
    AnyKeyMeans(pieces, alias);
    hide AnyKey;
    NoLineNoWords(line);
  }

  lemma NoLineNoWords(line: string)
    ensures line == [] ==> Words(PYTHON, line) == []
  {
  }

  lemma {:induction false} AnyKeyMeans(pieces: seq<string>, alias: Dict<string>)
    ensures AnyKey(pieces, alias) <==> exists piece :: piece in pieces && Has(alias, piece)
    decreases |pieces|
  {
    if pieces != [] {
      AnyKeyMeans(pieces[1..], alias);
      if piece :| piece in pieces && Has(alias, piece) {
        assert piece == pieces[0] || piece in pieces[1..];
      }
      if piece :| piece in pieces[1..] && Has(alias, piece) {
        assert piece in pieces;
      }
      assert pieces[0] in pieces;
    }
  }

  function Commanded(alias: Dict<string>, line: string): Dict<string> {
    match Answer(alias, line)
    case Removed => Delete(alias, Words(PYTHON, line)[0])
    case Stored => Put(alias, Words(PYTHON, line)[0], Strip(PYTHON, AfterFirst(PYTHON, line)))
    case _ => alias
  }

  function CommandedAll(alias: Dict<string>, lines: seq<string>): Dict<string>
    decreases |lines|
  {
    if lines == [] then alias else CommandedAll(Commanded(alias, lines[0]), lines[1..])
  }

  class Player {
    var alias: Dict<string>
    var list: Attribute

    ghost predicate Saved()
      reads this
    {
      list == Lines(WriteAll(AliasLine, alias))
    }

    /** False when a line raises an exception. */
    method LoadAlias() returns (ok: bool)
      modifies this`alias
      ensures ok == ReadInto(ReadAlias, Visited(list), []).Some?
      ensures ok ==> ReadInto(ReadAlias, Visited(list), []) == Some(alias)
    {
      alias := [];
      var rest := Visited(list);
      ghost var goal := ReadInto(ReadAlias, rest, []);
      while rest != []
        invariant ReadInto(ReadAlias, rest, alias) == goal
      {
        var words, text := Words(PYTHON, rest[0]), AfterFirst(PYTHON, rest[0]);
        if words == [] || text == "" {
          return false;
        }
        alias := Put(alias, words[0], text);
        rest := rest[1..];
      }
      return true;
    }

    method BuildAlias()
      modifies this`list
      ensures Saved()
    {
      var lines: seq<string> := [];
      var rest := alias;
      while rest != []
        invariant lines + WriteAll(AliasLine, rest) == WriteAll(AliasLine, alias)
      {
        Assoc(lines, [AliasLine(rest[0])], WriteAll(AliasLine, rest[1..]));
        lines := lines + [AliasLine(rest[0])];
        rest := rest[1..];
      }
      list := Lines(lines);
    }

    method SetAlias(key: string, data: string) returns (done: bool)
      requires Saved()
      modifies this
      ensures Saved() && done == !Has(old(alias), key)
      ensures alias == if done then Put(old(alias), key, data) else old(alias)
    {
      if Has(alias, key) {
        return false;
      }
      alias := Put(alias, key, data);
      BuildAlias();
      return true;
    }

    method DelAlias(key: string) returns (done: bool)
      requires Saved()
      modifies this
      ensures Saved() && done == Has(old(alias), key)
      ensures alias == if done then Delete(old(alias), key) else old(alias)
    {
      if !Has(alias, key) {
        return false;
      }
      alias := Delete(alias, key);
      BuildAlias();
      return true;
    }

    /** The command. */
    method Command(line: string) returns (reply: Reply)
      requires Saved()
      modifies this
      ensures Saved() && alias == Commanded(old(alias), line) && reply == Answer(old(alias), line)
    {
      hide Saved;
      hide Words;
      hide AfterFirst;
      hide Strip;
      hide Pieces;
      hide Put;
      hide Delete;
      hide Has;
      if |line| == 0 {
        return Listed;
      }
      var words, rest := Words(PYTHON, line), AfterFirst(PYTHON, line);
      if words == [] {
        return Raised;
      }
      var key := words[0];
      if rest == [] {
        var removed := DelAlias(key);
        return if removed then Removed else Unknown;
      }
      var data := Strip(PYTHON, rest);
      var pieces := Pieces(data);
      if key in pieces {
        return Nested;
      }
      var left := pieces;
      while left != []
        invariant AnyKey(left, alias) <==> AnyKey(pieces, alias)
      {
        if Has(alias, left[0]) {
          return Nested;
        }
        left := left[1..];
      }
      if |alias| >= MOST {
        return TooMany;
      }
      var stored := SetAlias(key, data);
      return if stored then Stored else Already;
    }
  }

  // ---- what every run of commands keeps --------------------------------------------------

  /** The key is no piece of any of the texts. */
  predicate Avoided(key: string, d: Dict<string>) {
    d == [] || (key !in Pieces(d[0].value) && Avoided(key, d[1..]))
  }

  /** No text has its own key, or an older one, among its pieces. */
  predicate Forward(d: Dict<string>) {
    d == [] || (Avoided(d[0].key, d) && Forward(d[1..]))
  }

  /** What holds of all shorthands a player can have made. */
  predicate Proper(d: Dict<string>) {
    Unique(d) && AllGood(Writable, d) && |d| <= MOST && Forward(d)
  }

  lemma {:induction false} AvoidedMore(key: string, d: Dict<string>, x: Item<string>)
    ensures Avoided(key, d + [x]) <==> Avoided(key, d) && key !in Pieces(x.value)
    decreases |d|
  {
    hide Pieces;
    if d != [] {
      AvoidedMore(key, d[1..], x);
      assert (d + [x])[1..] == d[1..] + [x];
    }
  }

  lemma {:induction false} ForwardMore(d: Dict<string>, x: Item<string>)
    requires Forward(d) && x.key !in Pieces(x.value)
    requires forall k :: Has(d, k) ==> k !in Pieces(x.value)
    ensures Forward(d + [x])
    decreases |d|
  {
    hide Pieces;
    if d == [] {
      assert d + [x] == [x] && Avoided(x.key, [x]);
    } else {
      ForwardMore(d[1..], x);
      AvoidedMore(d[0].key, d, x);
      assert (d + [x])[1..] == d[1..] + [x];
    }
  }

  lemma {:induction false} AvoidedLess(key: string, d: Dict<string>, gone: string)
    requires Avoided(key, d)
    ensures Avoided(key, Delete(d, gone))
    decreases |d|
  {
    hide Pieces;
    if d != [] { AvoidedLess(key, d[1..], gone); }
  }

  lemma {:induction false} DeleteKeeps(d: Dict<string>, gone: string)
    ensures Forward(d) ==> Forward(Delete(d, gone))
    ensures AllGood(Writable, d) ==> AllGood(Writable, Delete(d, gone))
    ensures |Delete(d, gone)| <= |d|
    decreases |d|
  {
    hide Pieces;
    hide Writable;
    if d != [] {
      DeleteKeeps(d[1..], gone);
      if Forward(d) {
        AvoidedLess(d[0].key, d[1..], gone);
      }
    }
  }

  lemma {:induction false} GoodMore(d: Dict<string>, x: Item<string>)
    requires AllGood(Writable, d) && Writable(x)
    ensures AllGood(Writable, d + [x])
    decreases |d|
  {
    hide Writable;
    if d != [] {
      GoodMore(d[1..], x);
      assert (d + [x])[1..] == d[1..] + [x];
    }
  }

  /** A text that follows a word, stripped, starts with something to see. */
  lemma StrippedIsWritable(line: string)
    requires Words(PYTHON, line) != [] && AfterFirst(PYTHON, line) != ""
    ensures Writable(Item(Words(PYTHON, line)[0], Strip(PYTHON, AfterFirst(PYTHON, line))))
  {
    var rest := AfterFirst(PYTHON, line);
    assert TrimStart(PYTHON, rest) == rest;
    var back := TrimEndSplits(PYTHON, rest);
    assert TrimEnd(PYTHON, rest) != [];
    assert rest[0] == TrimEnd(PYTHON, rest)[0];
  }

  lemma {:induction false} NoKey(pieces: seq<string>, alias: Dict<string>, key: string)
    requires !AnyKey(pieces, alias) && Has(alias, key)
    ensures key !in pieces
    decreases |pieces|
  {
    if pieces != [] { NoKey(pieces[1..], alias, key); }
  }

  lemma CommandKeeps(alias: Dict<string>, line: string)
    requires Proper(alias)
    ensures Proper(Commanded(alias, line))
  {
    hide Writable;
    hide Pieces;
    hide Strip;
    hide Words;
    hide AfterFirst;
    var answer := Answer(alias, line);
    if answer == Removed {
      DeleteKeeps(alias, Words(PYTHON, line)[0]);
      DeleteWorks(alias, Words(PYTHON, line)[0], "");
    } else if answer == Stored {
      var x := Item(Words(PYTHON, line)[0], Strip(PYTHON, AfterFirst(PYTHON, line)));
      StrippedIsWritable(line);
      PutNew(alias, x.key, x.value);
      PutWorks(alias, x.key, x.value, "");
      GoodMore(alias, x);
      forall k | Has(alias, k) ensures k !in Pieces(x.value) { NoKey(Pieces(x.value), alias, k); }
      ForwardMore(alias, x);
    }
  }

  /** After any commands at all: no more than a hundred, no text has its own key or an older
      one for a whole piece, and all of them are there again after a reload. */
  lemma {:induction false} CommandsKeep(alias: Dict<string>, lines: seq<string>)
    requires Proper(alias)
    ensures Proper(CommandedAll(alias, lines)) && |CommandedAll(alias, lines)| <= 100
    ensures var d := CommandedAll(alias, lines); ReadInto(ReadAlias, WriteAll(AliasLine, d), []) == Some(d)
    decreases |lines|
  {
    hide Forward;
    hide Writable;
    if lines == [] {
      AllGoodMeans(Writable, alias);
      AliasesSurviveIff(alias);
    } else {
      CommandKeeps(alias, lines[0]);
      CommandsKeep(Commanded(alias, lines[0]), lines[1..]);
    }
  }

  lemma {:induction false} ForwardMeans(d: Dict<string>, i: nat, j: nat)
    requires Forward(d) && i <= j < |d|
    ensures d[i].key !in Pieces(d[j].value)
    decreases |d|
  {
    hide Pieces;
    if i == 0 {
      AvoidedMeans(d[0].key, d, j);
    } else {
      ForwardMeans(d[1..], i - 1, j - 1);
    }
  }

  lemma {:induction false} AvoidedMeans(key: string, d: Dict<string>, j: nat)
    requires Avoided(key, d) && j < |d|
    ensures key !in Pieces(d[j].value)
    decreases |d|
  {
    hide Pieces;
    if j > 0 { AvoidedMeans(key, d[1..], j - 1); }
  }

  /** A chain of shorthands, each a whole piece of the one before, only goes forward. */
  predicate Chain(d: Dict<string>, places: seq<nat>) {
    && (forall k :: 0 <= k < |places| ==> places[k] < |d|)
    && forall k :: 0 < k < |places| ==> d[places[k]].key in Pieces(d[places[k - 1]].value)
  }

  lemma {:induction false} ChainsEnd(d: Dict<string>, places: seq<nat>)
    requires Forward(d) && Chain(d, places)
    ensures forall k :: 0 < k < |places| ==> places[k - 1] < places[k]
    ensures |places| > 0 ==> |places| <= places[|places| - 1] + 1
    ensures |places| <= |d|
    decreases |places|
  {
    hide Pieces;
    hide Forward;
    if |places| > 1 {
      var front, last := places[..|places| - 1], places[|places| - 1];
      assert forall k :: 0 <= k < |front| ==> front[k] == places[k];
      ChainsEnd(d, front);
      var before := front[|front| - 1];
      if last <= before {
        ForwardMeans(d, last, before);
      }
    }
  }
}
