/** Rank tables: for each kind of rank a list of values and names, best first. */
module Ranking {
  import opened Text

  /** One line of a table. Written in this process it is a tuple; read back from the saved
      file it is a list, and Python orders neither kind against the other. */
  datatype Entry = Entry(value: int, name: string, tuple: bool)

  type Table = seq<Entry>

  const LIMIT := 200

  // ---- the order ---------------------------------------------------------------

  /** Python's `a < b` on strings. */
  predicate NameLess(a: string, b: string) {
    if b == [] then false
    else if a == [] then true
    else a[0] < b[0] || (a[0] == b[0] && NameLess(a[1..], b[1..]))
  }

  lemma {:induction false} NameLessIsTotal(a: string, b: string)
    ensures !(NameLess(a, b) && NameLess(b, a))
    ensures NameLess(a, b) || NameLess(b, a) || a == b
    ensures a == b ==> !NameLess(a, b)
  {
    if a != [] && b != [] {
      NameLessIsTotal(a[1..], b[1..]);
      assert a == [a[0]] + a[1..] && b == [b[0]] + b[1..];
    }
  }

  lemma {:induction false} NameLessGoesOn(a: string, b: string, c: string)
    requires NameLess(a, b) && NameLess(b, c)
    ensures NameLess(a, c)
  {
    if a != [] && b[0] == c[0] && a[0] == b[0] { NameLessGoesOn(a[1..], b[1..], c[1..]); }
  }

  /** `x > y` for two entries of one kind. */
  predicate Above(x: Entry, y: Entry) {
    x.value > y.value || (x.value == y.value && NameLess(y.name, x.name))
  }

  lemma AboveIsTotal(x: Entry, y: Entry)
    requires x.name != y.name
    ensures Above(x, y) <==> !Above(y, x)
  {
    NameLessIsTotal(x.name, y.name);
  }

  lemma AboveGoesOn(x: Entry, y: Entry, z: Entry)
    requires Above(x, y) && Above(y, z)
    ensures Above(x, z)
  {
    if NameLess(y.name, x.name) && NameLess(z.name, y.name) { NameLessGoesOn(z.name, y.name, x.name); }
  }

  // ---- tables --------------------------------------------------------------------

  /** No entry has the name. */
  predicate Free(t: Table, name: string) {
    t == [] || (t[0].name != name && Free(t[1..], name))
  }

  /** No name twice. */
  predicate Distinct(t: Table) {
    t == [] || (Free(t[1..], t[0].name) && Distinct(t[1..]))
  }

  predicate AboveAll(x: Entry, t: Table) {
    t == [] || (Above(x, t[0]) && AboveAll(x, t[1..]))
  }

  /** Best first. */
  predicate Falling(t: Table) {
    t == [] || (AboveAll(t[0], t[1..]) && Falling(t[1..]))
  }

  /** Whether Python can order the table. */
  predicate OneKind(t: Table) {
    forall i, j :: 0 <= i < j < |t| ==> t[i].tuple == t[j].tuple
  }

  /** The table without a name. */
  function Without(t: Table, name: string): (r: Table)
    ensures |r| <= |t|
  {
    if t == [] then []
    else if t[0].name == name then Without(t[1..], name)
    else [t[0]] + Without(t[1..], name)
  }

  function Insert(e: Entry, t: Table): (r: Table)
    ensures |r| == |t| + 1
  {
    if t == [] then [e]
    else if Above(t[0], e) then [t[0]] + Insert(e, t[1..])
    else [e] + t
  }

  /** `sort(reverse = True)`. */
  function SortDown(t: Table): (r: Table)
    ensures |r| == |t|
  {
    if t == [] then [] else Insert(t[|t| - 1], SortDown(t[..|t| - 1]))
  }

  /** How many entries beat this one. */
  function CountAbove(e: Entry, t: Table): (n: nat)
    ensures n <= |t|
  {
    if t == [] then 0 else (if Above(t[0], e) then 1 else 0) + CountAbove(e, t[1..])
  }

  function Cut(t: Table): Table {
    if |t| > LIMIT then t[..|t| - 1] else t
  }

  /** `write_rank` with a value other than -1, when the table can be ordered. */
  function Written(t: Table, name: string, value: int): Table {
    Cut(SortDown(Without(t, name) + [Entry(value, name, true)]))
  }

  /** `write_rank` with -1: to the front, as a value of zero. */
  function Pushed(t: Table, name: string): Table {
    Cut([Entry(0, name, true)] + Without(t, name))
  }

  /** `read_rank`: the place of the first entry with the name, 0 if there is none. */
  function Place(t: Table, name: string): (n: nat)
    ensures n <= |t|
    ensures n > 0 ==> t[n - 1].name == name && forall k :: 0 <= k < n - 1 ==> t[k].name != name
    ensures n == 0 ==> forall k :: 0 <= k < |t| ==> t[k].name != name
  {
    if t == [] then 0
    else if t[0].name == name then 1
    else
      var n := Place(t[1..], name);
      if n == 0 then 0 else n + 1
  }

  /** `getRankNum`: Python's negative indices count from the end. */
  function NameAt(t: Table, rank: int): Option<string> {
    if 0 <= rank - 1 < |t| then Some(t[rank - 1].name)
    else if -|t| <= rank - 1 < 0 then Some(t[|t| + rank - 1].name)
    else None
  }

  lemma {:induction false} FreeMeans(t: Table, name: string)
    ensures Free(t, name) <==> forall k :: 0 <= k < |t| ==> t[k].name != name
    decreases |t|
  {
    if t != [] {
      FreeMeans(t[1..], name);
      assert forall k :: 0 < k < |t| ==> t[k] == t[1..][k - 1];
    }
  }

  lemma {:induction false} DistinctMeans(t: Table)
    ensures Distinct(t) <==> forall i, j :: 0 <= i < j < |t| ==> t[i].name != t[j].name
    decreases |t|
  {
    if t != [] {
      DistinctMeans(t[1..]);
      FreeMeans(t[1..], t[0].name);
      assert forall k :: 0 < k < |t| ==> t[k] == t[1..][k - 1];
    }
  }

  lemma {:induction false} AboveAllMeans(x: Entry, t: Table)
    ensures AboveAll(x, t) <==> forall k :: 0 <= k < |t| ==> Above(x, t[k])
    decreases |t|
  {
    if t != [] {
      AboveAllMeans(x, t[1..]);
      assert forall k :: 0 < k < |t| ==> t[k] == t[1..][k - 1];
    }
  }

  /** In a falling table everyone beats all who come later. */
  lemma {:induction false} FallingMeans(t: Table)
    ensures Falling(t) <==> forall i, j :: 0 <= i < j < |t| ==> Above(t[i], t[j])
    decreases |t|
  {
    hide Above;
    if t != [] {
      FallingMeans(t[1..]);
      AboveAllMeans(t[0], t[1..]);
      assert forall k :: 0 < k < |t| ==> t[k] == t[1..][k - 1];
    }
  }

  lemma {:induction false} FreeJoin(a: Table, b: Table, name: string)
    ensures Free(a + b, name) <==> Free(a, name) && Free(b, name)
    decreases |a|
  {
    if a == [] {
      assert a + b == b;
    } else {
      assert (a + b)[1..] == a[1..] + b;
      FreeJoin(a[1..], b, name);
    }
  }

  lemma {:induction false} DistinctParts(a: Table, b: Table)
    requires Distinct(a + b)
    ensures Distinct(a) && Distinct(b)
    ensures forall k :: 0 <= k < |b| ==> Free(a, b[k].name)
    decreases |a|
  {
    if a == [] {
      assert a + b == b;
    } else {
      assert (a + b)[1..] == a[1..] + b;
      DistinctParts(a[1..], b);
      FreeJoin(a[1..], b, a[0].name);
      FreeMeans(b, a[0].name);
    }
  }

  lemma {:induction false} FallingPart(a: Table, b: Table)
    requires Falling(a + b)
    ensures Falling(a) && forall k :: 0 <= k < |b| && a != [] ==> Above(a[0], b[k])
    decreases |a|
  {
    hide Above;
    if a != [] {
      assert (a + b)[1..] == a[1..] + b;
      FallingPart(a[1..], b);
      AboveAllMeans(a[0], a[1..] + b);
      assert forall k :: 0 <= k < |a[1..]| ==> (a[1..] + b)[k] == a[1..][k];
      assert forall k :: 0 <= k < |b| ==> (a[1..] + b)[|a[1..]| + k] == b[k];
      AboveAllMeans(a[0], a[1..]);
    }
  }

  // ---- sorting --------------------------------------------------------------------

  lemma {:induction false} AboveAllOn(x: Entry, y: Entry, t: Table)
    requires Above(x, y) && AboveAll(y, t)
    ensures AboveAll(x, t)
    decreases |t|
  {
    if t != [] {
      AboveGoesOn(x, y, t[0]);
      AboveAllOn(x, y, t[1..]);
    }
  }

  lemma {:induction false} AboveInserted(x: Entry, e: Entry, t: Table)
    requires AboveAll(x, t) && Above(x, e)
    ensures AboveAll(x, Insert(e, t))
    decreases |t|
  {
    hide Above;
    if t != [] && Above(t[0], e) { AboveInserted(x, e, t[1..]); }
  }

  lemma {:induction false} FreeInserted(e: Entry, t: Table, name: string)
    ensures Free(Insert(e, t), name) <==> Free(t, name) && e.name != name
    decreases |t|
  {
    hide Above;
    if t != [] && Above(t[0], e) { FreeInserted(e, t[1..], name); }
  }

  lemma {:induction false} NoneAbove(e: Entry, t: Table)
    requires AboveAll(e, t) && Free(t, e.name)
    ensures CountAbove(e, t) == 0
    decreases |t|
  {
    hide Above;
    if t != [] {
      AboveIsTotal(t[0], e);
      NoneAbove(e, t[1..]);
    }
  }

  lemma {:induction false} InsertFalls(e: Entry, t: Table)
    requires Falling(t) && Distinct(t) && Free(t, e.name)
    ensures Falling(Insert(e, t)) && Distinct(Insert(e, t))
    decreases |t|
  {
    hide Above;
    if t != [] {
      if Above(t[0], e) {
        InsertFalls(e, t[1..]);
        AboveInserted(t[0], e, t[1..]);
        FreeInserted(e, t[1..], t[0].name);
      } else {
        AboveIsTotal(t[0], e);
        AboveAllOn(e, t[0], t[1..]);
      }
    }
  }

  /** A newcomer goes behind exactly those who beat it, and moves nobody else. */
  lemma {:induction false} InsertAt(e: Entry, t: Table)
    requires Falling(t) && Free(t, e.name)
    ensures var n := CountAbove(e, t);
      t == t[..n] + t[n..] && Insert(e, t) == t[..n] + ([e] + t[n..])
    decreases |t|
  {
    hide Above;
    if t != [] {
      if Above(t[0], e) {
        InsertAt(e, t[1..]);
        var n := CountAbove(e, t[1..]);
        assert t[..n + 1] == [t[0]] + t[1..][..n] && t[n + 1..] == t[1..][n..];
        Assoc([t[0]], t[1..][..n], [e] + t[1..][n..]);
      } else {
        AboveIsTotal(t[0], e);
        AboveAllOn(e, t[0], t[1..]);
        NoneAbove(e, t);
      }
    }
  }

  lemma {:induction false} CountAfterInsert(e: Entry, x: Entry, t: Table)
    ensures CountAbove(e, Insert(x, t)) == CountAbove(e, t) + if Above(x, e) then 1 else 0
    decreases |t|
  {
    hide Above;
    if t != [] {
      if Above(t[0], x) {
        CountAfterInsert(e, x, t[1..]);
        assert ([t[0]] + Insert(x, t[1..]))[1..] == Insert(x, t[1..]);
      } else {
        assert ([x] + t)[1..] == t;
      }
    }
  }

  lemma {:induction false} CountOfJoin(e: Entry, a: Table, b: Table)
    ensures CountAbove(e, a + b) == CountAbove(e, a) + CountAbove(e, b)
    decreases |a|
  {
    hide Above;
    if a == [] {
      assert a + b == b;
    } else {
      assert (a + b)[1..] == a[1..] + b;
      CountOfJoin(e, a[1..], b);
    }
  }

  /** Sorting changes neither who beats whom nor who is there. */
  lemma {:induction false} CountAfterSort(e: Entry, t: Table)
    ensures CountAbove(e, SortDown(t)) == CountAbove(e, t)
    ensures Free(SortDown(t), e.name) <==> Free(t, e.name)
    decreases |t|
  {
    hide Above;
    if t != [] {
      var front, last := t[..|t| - 1], t[|t| - 1];
      CountAfterSort(e, front);
      CountAfterInsert(e, last, SortDown(front));
      FreeInserted(last, SortDown(front), e.name);
      assert t == front + [last];
      CountOfJoin(e, front, [last]);
      FreeJoin(front, [last], e.name);
    }
  }

  lemma {:induction false} InsertAdds(e: Entry, t: Table)
    ensures multiset(Insert(e, t)) == multiset(t) + multiset{e}
    decreases |t|
  {
    hide Above;
    if t != [] && Above(t[0], e) {
      InsertAdds(e, t[1..]);
      assert t == [t[0]] + t[1..];
    }
  }

  /** A table with unique names is put into falling order. */
  lemma {:induction false} SortDownSorts(t: Table)
    requires Distinct(t)
    ensures Falling(SortDown(t)) && Distinct(SortDown(t))
    decreases |t|
  {
    if t != [] {
      hide Above;
      hide Falling;
      hide Insert;
      var front, last := t[..|t| - 1], t[|t| - 1];
      assert t == front + [last];
      DistinctParts(front, [last]);
      assert Free(front, [last][0].name);
      SortDownSorts(front);
      CountAfterSort(last, front);
      InsertFalls(last, SortDown(front));
    }
  }

  lemma {:induction false} SortDownKeeps(t: Table)
    ensures multiset(SortDown(t)) == multiset(t)
    decreases |t|
  {
    if t != [] {
      var front, last := t[..|t| - 1], t[|t| - 1];
      assert t == front + [last];
      SortDownKeeps(front);
      InsertAdds(last, SortDown(front));
    }
  }

  lemma {:induction false} InsertLast(e: Entry, t: Table)
    requires Falling(t + [e])
    ensures Insert(e, t) == t + [e]
    decreases |t|
  {
    hide Above;
    if t != [] {
      FallingPart(t, [e]);
      assert Above(t[0], [e][0]);
      assert (t + [e])[1..] == t[1..] + [e];
      InsertLast(e, t[1..]);
      assert [t[0]] + (t[1..] + [e]) == t + [e];
    }
  }

  /** A table that falls already stays as it is. */
  lemma {:induction false} SortedStays(t: Table)
    requires Falling(t)
    ensures SortDown(t) == t
    decreases |t|
  {
    hide Above;
    if t != [] {
      var front, last := t[..|t| - 1], t[|t| - 1];
      assert t == front + [last];
      FallingPart(front, [last]);
      SortedStays(front);
      InsertLast(last, front);
    }
  }

  lemma {:induction false} AboveAllWithout(x: Entry, t: Table, name: string)
    requires AboveAll(x, t)
    ensures AboveAll(x, Without(t, name))
    decreases |t|
  {
    hide Above;
    if t != [] { AboveAllWithout(x, t[1..], name); }
  }

  lemma {:induction false} WithoutIsFree(t: Table, name: string, other: string)
    ensures Free(Without(t, name), name)
    ensures Free(t, other) ==> Free(Without(t, name), other)
    ensures Free(t, name) ==> Without(t, name) == t
    decreases |t|
  {
    if t != [] { WithoutIsFree(t[1..], name, other); }
  }

  lemma {:induction false} WithoutKeeps(t: Table, name: string)
    ensures Distinct(t) ==> Distinct(Without(t, name))
    ensures Falling(t) ==> Falling(Without(t, name))
    decreases |t|
  {
    hide Above;
    if t != [] {
      WithoutKeeps(t[1..], name);
      WithoutIsFree(t[1..], name, t[0].name);
      if Falling(t) {
        AboveAllWithout(t[0], t[1..], name);
      }
    }
  }

  lemma {:induction false} WithoutOfJoin(a: Table, b: Table, name: string)
    ensures Without(a + b, name) == Without(a, name) + Without(b, name)
    decreases |a|
  {
    if a == [] {
      assert a + b == b;
    } else {
      assert (a + b)[1..] == a[1..] + b;
      WithoutOfJoin(a[1..], b, name);
    }
  }

  // ---- what a write does --------------------------------------------------------------

  /** A table of the process: unique names, and no more than the limit. */
  predicate Proper(t: Table) { Distinct(t) && |t| <= LIMIT }

  /** The table before the cut: the newcomer stands behind exactly those who beat it. */
  lemma Standing(t: Table, e: Entry)
    requires Distinct(t) && Free(t, e.name)
    ensures var s, o, n := SortDown(t + [e]), SortDown(t), CountAbove(e, t);
      && Falling(s) && Distinct(s) && |o| == |t|
      && o == o[..n] + o[n..] && s == o[..n] + ([e] + o[n..])
  {
    hide Above;
    assert (t + [e])[..|t|] == t && (t + [e])[|t|] == e;
    SortDownSorts(t);
    CountAfterSort(e, t);
    InsertFalls(e, SortDown(t));
    InsertAt(e, SortDown(t));
  }

  lemma Shorter(t: Table)
    requires Falling(t) && Distinct(t)
    ensures Falling(Cut(t)) && Distinct(Cut(t))
  {
    hide Above;
    if |t| > LIMIT {
      var front, last := t[..|t| - 1], t[|t| - 1];
      assert t == front + [last];
      FallingPart(front, [last]);
      DistinctParts(front, [last]);
    }
  }

  /** After a write the table falls, its names are unique, and the rank is one more than
      the number of entries that beat the new one; those who had no place left get none. */
  lemma WriteRanks(t: Table, name: string, value: int)
    requires Proper(t)
    ensures var e, others := Entry(value, name, true), Without(t, name);
      var r, n := Written(t, name, value), CountAbove(e, others);
      && Proper(r) && Falling(r)
      && Place(r, name) == (if n < LIMIT then n + 1 else 0)
      && (n < LIMIT ==> n < |r| && r[n] == e)
  {
    hide Above;
    hide SortDown;
    hide Without;
    hide CountAbove;
    hide Falling;
    hide Distinct;
    hide Free;
    var e, others := Entry(value, name, true), Without(t, name);
    WithoutKeeps(t, name);
    WithoutIsFree(t, name, name);
    Standing(others, e);
    var s, o, n := SortDown(others + [e]), SortDown(others), CountAbove(e, others);
    Shorter(s);
    var r := Cut(s);
    assert s[n] == e;
    if n < LIMIT {
      assert r[n] == s[n];
      PlaceIs(r, n);
    } else {
      assert r == o[..n];
      CountAfterSort(e, others);
      FreeMeans(o, name);
      assert forall k :: 0 <= k < |r| ==> r[k] == o[k];
    }
  }

  // ---- what the order means ----------------------------------------------------------

  /** The first character in which two names differ decides, or one name is the beginning of
      the other. */
  ghost predicate Precedes(a: string, b: string) {
    exists k :: 0 <= k <= |a| && k < |b| && a[..k] == b[..k] && (k == |a| || a[k] < b[k])
  }

  lemma {:induction false} NameLessIsPrecedes(a: string, b: string)
    ensures NameLess(a, b) <==> Precedes(a, b)
    decreases |a|
  {
    if a == [] || b == [] {
      assert a[..0] == b[..0];
    } else {
      NameLessIsPrecedes(a[1..], b[1..]);
      assert a[..0] == b[..0];
      if a[0] == b[0] {
        if Precedes(a[1..], b[1..]) {
          var k :| 0 <= k <= |a[1..]| && k < |b[1..]| && a[1..][..k] == b[1..][..k] && (k == |a[1..]| || a[1..][k] < b[1..][k]);
          assert a[..k + 1] == [a[0]] + a[1..][..k] && b[..k + 1] == [b[0]] + b[1..][..k];
        }
        if Precedes(a, b) {
          var k :| 0 <= k <= |a| && k < |b| && a[..k] == b[..k] && (k == |a| || a[k] < b[k]);
          assert a[1..][..k - 1] == a[..k][1..] && b[1..][..k - 1] == b[..k][1..];
        }
      } else {
        DifferAtOnce(a, b);
      }
    }
  }

  lemma DifferAtOnce(a: string, b: string)
    requires a != [] && b != [] && a[0] != b[0]
    ensures Precedes(a, b) <==> a[0] < b[0]
  {
    assert a[..0] == b[..0];
    assert forall k :: 0 < k <= |a| && k < |b| ==> a[..k][0] == a[0] && b[..k][0] == b[0];
  }

  /** How many others have a greater value, or the same and a greater name. */
  ghost function Better(t: Table, name: string, value: int): (n: nat)
    ensures n <= |t|
  {
    if t == [] then 0
    else
      var better := t[0].name != name &&
        (t[0].value > value || (t[0].value == value && Precedes(name, t[0].name)));
      (if better then 1 else 0) + Better(t[1..], name, value)
  }

  lemma {:induction false} BetterIsAbove(t: Table, name: string, value: int)
    ensures CountAbove(Entry(value, name, true), Without(t, name)) == Better(t, name, value)
    decreases |t|
  {
    hide Precedes;
    if t != [] {
      BetterIsAbove(t[1..], name, value);
      NameLessIsPrecedes(name, t[0].name);
      assert ([t[0]] + Without(t[1..], name))[1..] == Without(t[1..], name);
    }
  }

  /** After a write greater values stand in front of lesser ones, greater names in front of
      lesser ones with the same value, nobody is beyond place 200, and the rank is one more
      than the number of those who are better, 0 from 200 of them on. */
  lemma WrittenMeans(t: Table, name: string, value: int)
    requires Proper(t)
    ensures var r := Written(t, name, value);
      && |r| <= 200
      && forall i, j :: 0 <= i < j < |r| ==>
           r[i].value > r[j].value || (r[i].value == r[j].value && Precedes(r[j].name, r[i].name))
    ensures Place(Written(t, name, value), name) ==
      if Better(t, name, value) < 200 then Better(t, name, value) + 1 else 0
  {
    WriteRanks(t, name, value);
    BetterIsAbove(t, name, value);
    var r := Written(t, name, value);
    FallingMeans(r);
    hide Written;
    hide Falling;
    hide Precedes;
    forall i, j | 0 <= i < j < |r|
      ensures r[i].value > r[j].value || (r[i].value == r[j].value && Precedes(r[j].name, r[i].name))
    {
      assert Above(r[i], r[j]);
      NameLessIsPrecedes(r[j].name, r[i].name);
    }
  }

  lemma PlaceIs(t: Table, k: nat)
    requires Distinct(t) && k < |t|
    ensures Place(t, t[k].name) == k + 1
  {
    DistinctMeans(t);
    var n := Place(t, t[k].name);
  }

  /** Nobody else moves: in a falling table the others stay in their order, and only the
      last of them may be lost. */
  lemma WriteMovesNobodyElse(t: Table, name: string, value: int)
    requires Proper(t) && Falling(t)
    ensures var others := Without(t, name);
      Without(Written(t, name, value), name) ==
        if |others| < LIMIT || CountAbove(Entry(value, name, true), others) == LIMIT then others
        else others[..|others| - 1]
  {
    var e, others := Entry(value, name, true), Without(t, name);
    assert Written(t, name, value) == Cut(SortDown(others + [e]));
    hide *;
    WithoutKeeps(t, name);
    WithoutIsFree(t, name, name);
    ProperParts(t);
    Standing(others, e);
    SortedStays(others);
    CutWithout(others, e, CountAbove(e, others));
  }

  lemma ProperParts(t: Table)
    requires Proper(t)
    ensures Distinct(t) && |t| <= LIMIT
  {
    hide Distinct;
  }

  /** What the cut takes from a table into which one entry was put. */
  lemma CutWithout(others: Table, e: Entry, n: nat)
    requires Free(others, e.name) && n <= |others| <= LIMIT
    ensures Without(Cut(others[..n] + ([e] + others[n..])), e.name) ==
      if |others| < LIMIT || n == LIMIT then others else others[..|others| - 1]
  {
    hide Without;
    hide Free;
    assert others == others[..n] + others[n..];
    if |others| < LIMIT {
      WithoutOfEntry(others[..n], e, others[n..]);
    } else if n == LIMIT {
      CutTheEntry(others, e);
    } else {
      CutAnother(others, e, n);
    }
  }

  lemma CutTheEntry(others: Table, e: Entry)
    requires Free(others, e.name) && |others| == LIMIT
    ensures Without(Cut(others[..LIMIT] + ([e] + others[LIMIT..])), e.name) == others
  {
    hide Without;
    hide Free;
    assert Cut(others[..LIMIT] + ([e] + others[LIMIT..])) == others;
    WithoutIsFree(others, e.name, e.name);
  }

  lemma CutAnother(others: Table, e: Entry, n: nat)
    requires Free(others, e.name) && n < |others| == LIMIT
    ensures Without(Cut(others[..n] + ([e] + others[n..])), e.name) == others[..|others| - 1]
  {
    hide Without;
    hide Free;
    var kept, last := others[n..|others| - 1], [others[|others| - 1]];
    assert Cut(others[..n] + ([e] + others[n..])) == others[..n] + ([e] + kept);
    assert others[..n] + kept == others[..|others| - 1];
    assert others == (others[..n] + kept) + last;
    FreeJoin(others[..n] + kept, last, e.name);
    WithoutOfEntry(others[..n], e, kept);
  }

  lemma WithoutOfEntry(a: Table, e: Entry, b: Table)
    requires Free(a + b, e.name)
    ensures Without(a + ([e] + b), e.name) == a + b
  {
    FreeJoin(a, b, e.name);
    WithoutIsFree(a, e.name, e.name);
    WithoutIsFree(b, e.name, e.name);
    WithoutOfJoin(a, [e] + b, e.name);
    assert ([e] + b)[1..] == b;
  }

  lemma PushIsDistinct(e: Entry, others: Table)
    requires Distinct(others) && Free(others, e.name)
    ensures Distinct(Cut([e] + others))
  {
    var all := [e] + others;
    assert all[1..] == others;
    if |all| > LIMIT {
      assert all == Cut(all) + [all[|all| - 1]];
      DistinctParts(Cut(all), [all[|all| - 1]]);
    }
  }

  lemma PushIsProper(t: Table, name: string)
    requires Proper(t)
    ensures Proper(Pushed(t, name)) && Place(Pushed(t, name), name) == 1
    ensures var others := Without(t, name);
      && Pushed(t, name)[0] == Entry(0, name, true)
      && Pushed(t, name)[1..] == if |others| == LIMIT then others[..LIMIT - 1] else others
  {
    hide Without;
    WithoutKeeps(t, name);
    WithoutIsFree(t, name, name);
    PushIsDistinct(Entry(0, name, true), Without(t, name));
  }

  /** A write with -1 keeps the table falling exactly when zero beats whoever is first. */
  lemma PushKeepsOrderIff(t: Table, name: string)
    requires Proper(t) && Falling(t)
    ensures var others := Without(t, name);
      Falling(Pushed(t, name)) <==> others == [] || Above(Entry(0, name, true), others[0])
  {
    hide Above;
    hide Without;
    hide Distinct;
    var e, others := Entry(0, name, true), Without(t, name);
    WithoutKeeps(t, name);
    PushFallsIff(e, others);
  }

  lemma PushFallsIff(e: Entry, others: Table)
    requires Falling(others)
    ensures Falling(Cut([e] + others)) <==> others == [] || Above(e, others[0])
  {
    hide Above;
    var all := [e] + others;
    assert all[1..] == others;
    if others != [] && Above(e, others[0]) {
      AboveAllOn(e, others[0], others[1..]);
      if |all| > LIMIT {
        assert all == Cut(all) + [all[|all| - 1]];
        FallingPart(Cut(all), [all[|all| - 1]]);
      }
    } else if others != [] {
      assert Cut(all)[1..][0] == others[0];
    }
  }

  /** `getRankNum` undoes `read_rank`, and the other way round. */
  lemma RanksAndNames(t: Table, name: string, rank: int)
    requires Distinct(t)
    ensures Place(t, name) > 0 ==> NameAt(t, Place(t, name)) == Some(name)
    ensures 1 <= rank <= |t| ==> NameAt(t, rank).Some? && Place(t, NameAt(t, rank).value) == rank
    ensures NameAt(t, rank) == None <==> rank > |t| || rank < 1 - |t|
  {
    if 1 <= rank <= |t| {
      PlaceIs(t, rank - 1);
    }
  }

  // ---- tables over a run, and after a reload ---------------------------------------------

  /** A write goes through only if every other entry was written by this process. */
  predicate Writable(t: Table, name: string) {
    forall e :: e in t && e.name != name ==> e.tuple
  }

  lemma WritableIff(t: Table, name: string, value: int)
    ensures OneKind(Without(t, name) + [Entry(value, name, true)]) <==> Writable(t, name)
  {
    var e, others := Entry(value, name, true), Without(t, name);
    WithoutHas(t, name);
    var all := others + [e];
    assert all[|others|].tuple;
    if OneKind(all) {
      forall x | x in t && x.name != name ensures x.tuple {
        assert x in others;
        var k :| 0 <= k < |others| && others[k] == x;
        assert all[k] == x;
      }
    } else {
      var i, j :| 0 <= i < j < |all| && all[i].tuple != all[j].tuple;
      assert all[i] == others[i] && (j < |others| ==> all[j] == others[j]);
    }
  }

  lemma {:induction false} WithoutHas(t: Table, name: string)
    ensures forall e :: e in Without(t, name) <==> e in t && e.name != name
    decreases |t|
  {
    if t != [] { WithoutHas(t[1..], name); }
  }

  function Reloaded(t: Table): (r: Table)
    ensures |r| == |t|
    ensures forall i :: 0 <= i < |t| ==> r[i] == Entry(t[i].value, t[i].name, false)
  {
    seq(|t|, i requires 0 <= i < |t| => Entry(t[i].value, t[i].name, false))
  }

  /** After a reload no ordinary write goes through unless nobody else is in the table. */
  lemma ReloadBlocks(t: Table, name: string)
    ensures Writable(Reloaded(t), name) <==> forall e :: e in t ==> e.name == name
  {
    if Writable(Reloaded(t), name) {
      forall k | 0 <= k < |t| ensures t[k].name == name {
        assert Reloaded(t)[k] in Reloaded(t);
      }
    }
  }

  /** What a call leaves in the table. An interrupted sort leaves the entries in some order;
      the order of appending stands for it. */
  function Left(t: Table, name: string, value: int): Table {
    if value == -1 then Pushed(t, name)
    else if Writable(t, name) then Written(t, name, value)
    else Without(t, name) + [Entry(value, name, true)]
  }

  function LeftAfter(t: Table, calls: seq<(string, int)>): Table
    decreases |calls|
  {
    if calls == [] then t else LeftAfter(Left(t, calls[0].0, calls[0].1), calls[1..])
  }

  lemma LeftIsDistinct(t: Table, name: string, value: int)
    requires Distinct(t)
    ensures Distinct(Left(t, name, value))
    ensures |t| <= LIMIT ==> (|Left(t, name, value)| <= LIMIT <==>
      value == -1 || Writable(t, name) || |Without(t, name)| < LIMIT)
  {
    hide Above;
    hide Without;
    hide SortDown;
    var e, others := Entry(value, name, true), Without(t, name);
    WithoutKeeps(t, name);
    WithoutIsFree(t, name, name);
    Standing(others, e);
    if value == -1 {
      PushIsDistinct(Entry(0, name, true), others);
    } else if Writable(t, name) {
      Shorter(SortDown(others + [e]));
    } else {
      DistinctSwap(others, e);
    }
  }

  lemma {:induction false} DistinctSwap(t: Table, e: Entry)
    requires Distinct(t) && Free(t, e.name)
    ensures Distinct(t + [e])
    decreases |t|
  {
    if t != [] {
      DistinctSwap(t[1..], e);
      assert (t + [e])[1..] == t[1..] + [e];
      FreeJoin(t[1..], [e], t[0].name);
    }
  }

  lemma LeftIsWritten(t: Table, name: string, value: int)
    requires forall e :: e in t ==> e.tuple
    ensures Writable(t, name) && forall e :: e in Left(t, name, value) ==> e.tuple
  {
    hide Above;
    hide SortDown;
    hide Without;
    WithoutHas(t, name);
    SortDownTuples(Without(t, name) + [Entry(value, name, true)]);
  }

  lemma SortDownTuples(t: Table)
    requires forall e :: e in t ==> e.tuple
    ensures forall e :: e in SortDown(t) ==> e.tuple
  {
    hide SortDown;
    SortDownKeeps(t);
    forall x | x in SortDown(t) ensures x.tuple {
      assert x in multiset(SortDown(t));
    }
  }

  /** Names stay unique over any run; in a process that started with empty tables the limit
      holds too, and every write goes through. */
  lemma {:induction false} RunsStayProper(t: Table, calls: seq<(string, int)>)
    requires Distinct(t)
    ensures Distinct(LeftAfter(t, calls))
    ensures |t| <= LIMIT && (forall e :: e in t ==> e.tuple) ==>
      Proper(LeftAfter(t, calls)) && forall e :: e in LeftAfter(t, calls) ==> e.tuple
    decreases |calls|
  {
    if calls != [] {
      LeftIsDistinct(t, calls[0].0, calls[0].1);
      if forall e :: e in t ==> e.tuple {
        LeftIsWritten(t, calls[0].0, calls[0].1);
      }
      RunsStayProper(Left(t, calls[0].0, calls[0].1), calls[1..]);
    }
  }

  // ---- the object -----------------------------------------------------------------------

  function Remove(t: Table, e: Entry): Table {
    if t == [] then [] else if t[0] == e then t[1..] else [t[0]] + Remove(t[1..], e)
  }

  lemma {:induction false} RemoveFirst(a: Table, e: Entry, b: Table)
    requires e !in a
    ensures Remove(a + ([e] + b), e) == a + b
    decreases |a|
  {
    if a == [] {
      assert a + ([e] + b) == [e] + b && a + b == b;
    } else {
      assert (a + ([e] + b))[1..] == a[1..] + ([e] + b);
      RemoveFirst(a[1..], e, b);
      Assoc([a[0]], a[1..], b);
    }
  }

  class Rank {
    var attr: map<string, Table>

    function TableOf(kind: string): Table
      reads this
    {
      if kind in attr then attr[kind] else []
    }

    /** `write_rank`; None stands for the TypeError of the sort. */
    method WriteRank(kind: string, name: string, value: int) returns (place: Option<nat>)
      modifies this
      ensures attr.Keys == old(attr.Keys) + {kind}
      ensures forall k :: k in old(attr) && k != kind ==> attr[k] == old(attr[k])
      ensures value == -1 ==>
        place == Some(1) && TableOf(kind) == Pushed(old(TableOf(kind)), name)
      ensures value != -1 && Writable(old(TableOf(kind)), name) ==>
        && TableOf(kind) == Written(old(TableOf(kind)), name, value)
        && place == Some(Place(TableOf(kind), name))
      ensures value != -1 && !Writable(old(TableOf(kind)), name) ==>
        && place == None
        && multiset(TableOf(kind)) == multiset(Left(old(TableOf(kind)), name, value))
    {
      hide Above;
      hide Without;
      hide SortDown;
      hide OneKind;
      hide Writable;
      hide Place;
      var rank := if kind in attr then attr[kind] else [];
      ghost var t := rank;
      rank := RemoveName(rank, name);
      if value == -1 {
        rank := [Entry(0, name, true)] + rank;
        if |rank| > LIMIT {
          rank := rank[..|rank| - 1];
        }
        attr := attr[kind := rank];
        return Some(1);
      }
      WritableIff(t, name, value);
      rank := rank + [Entry(value, name, true)];
      if !OneKind(rank) {
        attr := attr[kind := rank];
        return None;
      }
      rank := SortDown(rank);
      if |rank| > LIMIT {
        rank := rank[..|rank| - 1];
      }
      attr := attr[kind := rank];
      var c := ReadRank(kind, name);
      return Some(c);
    }

    /** The loop that takes a name out, over a copy of the table. */
    static method RemoveName(t: Table, name: string) returns (rank: Table)
      ensures rank == Without(t, name)
    {
      hide Free;
      rank := t;
      var rest := t;
      ghost var kept: Table := [];
      FreeMeans(kept, name);
      assert kept + rest == rest;
      while rest != []
        invariant rank == kept + rest
        invariant Free(kept, name)
        invariant Without(t, name) == kept + Without(rest, name)
      {
        assert rest == [rest[0]] + rest[1..];
        if rest[0].name == name {
          FreeMeans(kept, name);
          RemoveFirst(kept, rest[0], rest[1..]);
          rank := Remove(rank, rest[0]);
        } else {
          FreeMeans([rest[0]], name);
          FreeJoin(kept, [rest[0]], name);
          Assoc(kept, [rest[0]], rest[1..]);
          Assoc(kept, [rest[0]], Without(rest[1..], name));
          kept := kept + [rest[0]];
        }
        rest := rest[1..];
      }
      assert kept + [] == kept;
    }

    /** `read_rank`. */
    method ReadRank(kind: string, name: string) returns (place: nat)
      ensures place == Place(TableOf(kind), name)
    {
      if kind !in attr {
        return 0;
      }
      var c := 0;
      var rest := attr[kind];
      while rest != []
        invariant Place(attr[kind], name) ==
          (if Place(rest, name) == 0 then 0 else c + Place(rest, name))
        decreases |rest|
      {
        c := c + 1;
        if rest[0].name == name {
          return c;
        }
        rest := rest[1..];
      }
      return 0;
    }

    /** `getRankNum`. */
    method GetRankNum(kind: string, rank: int) returns (name: Option<string>)
      ensures name == NameAt(TableOf(kind), rank)
    {
      if kind !in attr {
        return None;
      }
      var r := attr[kind];
      var i := rank - 1;
      if i < 0 {
        i := i + |r|;
      }
      if 0 <= i < |r| {
        return Some(r[i].name);
      }
      return None;
    }
  }
}
