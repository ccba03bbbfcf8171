/** Strings as the two implementations cut them: Python's `strip`, `split()`,
    `split(None, 1)` and `int`, and Rust's `trim` and `split_whitespace`. */
module Text {

  datatype Option<+T> = None | Some(value: T)

  /** Which characters separate words. The functions below work for any choice. */
  type Separators = set<char>

  /** White space of both languages ... */
  const RUST: Separators := {
    '\t', '\n', '\U{B}', '\U{C}', '\r', ' ', '\U{85}', '\U{A0}', '\U{1680}',
    '\U{2000}', '\U{2001}', '\U{2002}', '\U{2003}', '\U{2004}', '\U{2005}',
    '\U{2006}', '\U{2007}', '\U{2008}', '\U{2009}', '\U{200A}',
    '\U{2028}', '\U{2029}', '\U{202F}', '\U{205F}', '\U{3000}' }

  /** ... to which Python adds the four information separators. */
  const PYTHON: Separators := RUST + {'\U{1C}', '\U{1D}', '\U{1E}', '\U{1F}'}

  /** The white space of Unicode, by code. */
  lemma WhiteSpace(c: char)
    ensures var n := c as int;
      && (c in RUST <==>
            9 <= n <= 13 || n in {32, 0x85, 0xA0, 0x1680} || 0x2000 <= n <= 0x200A
            || n in {0x2028, 0x2029, 0x202F, 0x205F, 0x3000})
      && (c in PYTHON <==> c in RUST || 28 <= n <= 31)
  {
  }

  predicate Blank(d: Separators, s: string) {
    forall i :: 0 <= i < |s| ==> s[i] in d
  }

  /** A nonempty piece of text without separators. */
  predicate IsWord(d: Separators, s: string) {
    s != [] && forall i :: 0 <= i < |s| ==> s[i] !in d
  }

  function TrimStart(d: Separators, s: string): (r: string)
    ensures |r| <= |s|
    ensures r != [] ==> r[0] !in d
  {
    if s != [] && s[0] in d then TrimStart(d, s[1..]) else s
  }

  function TrimEnd(d: Separators, s: string): (r: string)
    ensures |r| <= |s|
    ensures r != [] ==> r[|r| - 1] !in d
  {
    if s != [] && s[|s| - 1] in d then TrimEnd(d, s[..|s| - 1]) else s
  }

  function Strip(d: Separators, s: string): string {
    TrimEnd(d, TrimStart(d, s))
  }

  /** The leading run of non-separators. */
  function Lead(d: Separators, s: string): (w: string)
    ensures |w| <= |s|
    ensures forall i :: 0 <= i < |w| ==> w[i] !in d
  {
    if s == [] || s[0] in d then [] else [s[0]] + Lead(d, s[1..])
  }

  /** Python `s.split()`, Rust `split_whitespace`. */
  function Words(d: Separators, s: string): (ws: seq<string>)
    ensures forall i :: 0 <= i < |ws| ==> IsWord(d, ws[i])
    decreases |s|
  {
    var t := TrimStart(d, s);
    if t == [] then [] else
      var w := Lead(d, t);
      [w] + Words(d, t[|w|..])
  }

  /** Python `s.split(None, 1)[1]`, or the empty string when there is no second piece. */
  function AfterFirst(d: Separators, s: string): string {
    var t := TrimStart(d, s);
    TrimStart(d, t[|Lead(d, t)|..])
  }

  /** What TrimStart removes is blank. */
  lemma {:induction false} TrimStartSplits(d: Separators, s: string) returns (blanks: string)
    ensures s == blanks + TrimStart(d, s) && Blank(d, blanks)
  {
    if s != [] && s[0] in d {
      blanks := TrimStartSplits(d, s[1..]);
      blanks := [s[0]] + blanks;
    } else {
      blanks := [];
    }
  }

  lemma {:induction false} TrimEndSplits(d: Separators, s: string) returns (blanks: string)
    ensures s == TrimEnd(d, s) + blanks && Blank(d, blanks)
  {
    if s != [] && s[|s| - 1] in d {
      blanks := TrimEndSplits(d, s[..|s| - 1]);
      blanks := blanks + [s[|s| - 1]];
    } else {
      blanks := [];
    }
  }

  lemma {:induction false} LeadSplits(d: Separators, s: string) returns (rest: string)
    ensures s == Lead(d, s) + rest && (rest == [] || rest[0] in d)
    ensures rest == s[|Lead(d, s)|..]
  {
    if s == [] || s[0] in d {
      rest := s;
    } else {
      rest := LeadSplits(d, s[1..]);
    }
  }

  lemma {:induction false} TrimStartIs(d: Separators, a: string, b: string)
    requires Blank(d, a)
    ensures TrimStart(d, a + b) == TrimStart(d, b)
  {
    if a == [] {
      assert a + b == b;
    } else {
      assert (a + b)[1..] == a[1..] + b;
      TrimStartIs(d, a[1..], b);
    }
  }

  lemma {:induction false} LeadIs(d: Separators, w: string, b: string)
    requires forall i :: 0 <= i < |w| ==> w[i] !in d
    requires b == [] || b[0] in d
    ensures Lead(d, w + b) == w
  {
    if w == [] {
      assert w + b == b;
    } else {
      assert (w + b)[1..] == w[1..] + b;
      LeadIs(d, w[1..], b);
    }
  }

  lemma WordsSkipBlank(d: Separators, a: string, b: string)
    requires Blank(d, a)
    ensures Words(d, a + b) == Words(d, b)
  {
    TrimStartIs(d, a, b);
  }

  lemma WordsLead(d: Separators, w: string, b: string)
    requires IsWord(d, w)
    requires b == [] || b[0] in d
    ensures Words(d, w + b) == [w] + Words(d, b)
    ensures TrimStart(d, w + b) == w + b && Lead(d, w + b) == w
  {
    LeadIs(d, w, b);
    assert (w + b)[|w|..] == b;
  }

  /** Every text with a word is blanks, the word, and the rest. */
  lemma FirstWord(d: Separators, a: string) returns (blanks: string, w: string, rest: string)
    requires !Blank(d, a)
    ensures a == blanks + (w + rest)
    ensures Blank(d, blanks) && IsWord(d, w) && (rest == [] || rest[0] in d)
  {
    blanks := TrimStartSplits(d, a);
    assert blanks + [] == blanks;
    w := Lead(d, TrimStart(d, a));
    rest := LeadSplits(d, TrimStart(d, a));
  }

  lemma Assoc<T>(a: seq<T>, b: seq<T>, c: seq<T>)
    ensures (a + b) + c == a + (b + c)
  {}

  /** Cutting at a separator cuts the word list. */
  lemma {:induction false} WordsCut(d: Separators, a: string, b: string)
    requires b == [] || b[0] in d
    ensures Words(d, a + b) == Words(d, a) + Words(d, b)
    decreases |a|
  {
    if Blank(d, a) {
      WordsSkipBlank(d, a, b);
      WordsSkipBlank(d, a, []);
      assert a + [] == a;
    } else {
      var blanks, w, rest := FirstWord(d, a);
      Assoc(w, rest, b);
      Assoc(blanks, w + rest, b);
      WordsSkipBlank(d, blanks, w + (rest + b));
      WordsSkipBlank(d, blanks, w + rest);
      WordsLead(d, w, rest);
      WordsLead(d, w, rest + b);
      WordsCut(d, rest, b);
      Assoc([w], Words(d, rest), Words(d, b));
    }
  }

  lemma WordsOfBlank(d: Separators, s: string)
    requires Blank(d, s)
    ensures Words(d, s) == []
  {
    TrimStartIs(d, s, []);
    assert s + [] == s;
  }

  /** Surrounding separators do not change the words. */
  lemma WordsOfStrip(d: Separators, s: string)
    ensures Words(d, Strip(d, s)) == Words(d, s)
  {
    var t := TrimStart(d, s);
    var front := TrimStartSplits(d, s);
    var back := TrimEndSplits(d, t);
    WordsSkipBlank(d, front, t);
    WordsCut(d, TrimEnd(d, t), back);
    WordsOfBlank(d, back);
  }

  /** No words means nothing but separators. */
  lemma NoWordsIsBlank(d: Separators, s: string)
    requires Words(d, s) == []
    ensures Blank(d, s)
  {
    var blanks := TrimStartSplits(d, s);
    assert s == blanks;
  }
}
