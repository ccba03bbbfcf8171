/** Making medicine: the doctor checks that everything the recipe takes is there before
    anything is taken. */
module Crafting {
  import opened Text
  import opened Numbers

  /** A carried thing: its kind, and whether it is worn. */
  datatype Thing = Thing(index: string, worn: bool)

  datatype Need = Need(index: string, count: int)

  /** What the lines of a recipe say: what is taken, and what is given, if a line says so. */
  datatype Recipe = Recipe(take: seq<Need>, give: Option<string>, ngive: int)

  /** Lines with fewer than two words are skipped, the last `+` line counts; None stands for
      the ValueError of a count that is no number. */
  function Read(lines: seq<string>): Option<Recipe> {
    if lines == [] then Some(Recipe([], None, 0))
    else
      match Read(lines[..|lines| - 1])
      case None => None
      case Some(r) => AddLine(r, Words(PYTHON, lines[|lines| - 1]))
  }

  function AddLine(r: Recipe, words: seq<string>): Option<Recipe>
    requires forall i :: 0 <= i < |words| ==> words[i] != []
  {
    if |words| < 2 then Some(r)
    else
      match ParseInt(words[1])
      case None => None
      case Some(n) =>
        if words[0][0] == '+' then Some(r.(give := Some(words[0][1..]), ngive := n))
        else Some(r.(take := r.take + [Need(words[0], n)]))
  }

  /** The lines of a recipe that say what is taken: two words or more, and no `+` in front. */
  predicate TakeLine(line: string) {
    var words := Words(PYTHON, line);
    |words| >= 2 && words[0][0] != '+'
  }

  predicate GiveLine(line: string) {
    var words := Words(PYTHON, line);
    |words| >= 2 && words[0][0] == '+'
  }

  function TakeLines(lines: seq<string>): (r: seq<string>)
    ensures forall k :: 0 <= k < |r| ==> TakeLine(r[k])
  {
    if lines == [] then []
    else (if TakeLine(lines[0]) then [lines[0]] else []) + TakeLines(lines[1..])
  }

  lemma {:induction false} TakeLinesOn(lines: seq<string>, last: string)
    ensures TakeLines(lines + [last]) == TakeLines(lines) + if TakeLine(last) then [last] else []
    decreases |lines|
  {
    if lines == [] {
      assert [last][1..] == [] && lines + [last] == [last];
    } else {
      assert (lines + [last])[1..] == lines[1..] + [last];
      TakeLinesOn(lines[1..], last);
      Assoc(if TakeLine(lines[0]) then [lines[0]] else [], TakeLines(lines[1..]), if TakeLine(last) then [last] else []);
    }
  }

  /** A need for every line that says what is taken, in order, of its first word and its
      number; a recipe fails exactly if such a line or one that gives has no number. */
  lemma {:induction false} ReadTakes(lines: seq<string>)
    ensures Read(lines) == None <==>
      exists i :: 0 <= i < |lines| && |Words(PYTHON, lines[i])| >= 2 && ParseInt(Words(PYTHON, lines[i])[1]) == None
    ensures Read(lines).Some? ==>
      var take := Read(lines).value.take;
      && |take| == |TakeLines(lines)|
      && forall k :: 0 <= k < |take| ==>
           var words := Words(PYTHON, TakeLines(lines)[k]);
           take[k].index == words[0] && Some(take[k].count) == ParseInt(words[1])
    decreases |lines|
  {
    hide ParseInt;
    hide Words;
    if lines != [] {
      var front, last := lines[..|lines| - 1], lines[|lines| - 1];
      assert lines == front + [last];
      ReadTakes(front);
      TakeLinesOn(front, last);
    }
  }

  /** The last line that gives says what and how many; without one nothing is given. */
  lemma {:induction false} ReadGives(lines: seq<string>) returns (i: nat)
    requires Read(lines).Some?
    ensures i <= |lines| && forall j :: i < j < |lines| ==> !GiveLine(lines[j])
    ensures var r := Read(lines).value;
      if i < |lines| then
        var words := Words(PYTHON, lines[i]);
        GiveLine(lines[i]) && r.give == Some(words[0][1..]) && ParseInt(words[1]) == Some(r.ngive)
      else r.give == None && r.ngive == 0 && forall j :: 0 <= j < |lines| ==> !GiveLine(lines[j])
    decreases |lines|
  {
    hide ParseInt;
    hide Words;
    i := |lines|;
    if lines != [] {
      var front, last := lines[..|lines| - 1], lines[|lines| - 1];
      var before := ReadGives(front);
      if GiveLine(last) {
        i := |lines| - 1;
      } else if before < |front| {
        i := before;
      }
    }
  }

  /** The kinds of the things not worn, in order. */
  function Loose(objs: seq<Thing>): seq<string> {
    if objs == [] then []
    else if objs[0].worn then Loose(objs[1..])
    else [objs[0].index] + Loose(objs[1..])
  }

  function Worn(objs: seq<Thing>): seq<Thing> {
    if objs == [] then []
    else if objs[0].worn then [objs[0]] + Worn(objs[1..])
    else Worn(objs[1..])
  }

  function Times(x: string, n: int): multiset<string> {
    if n <= 0 then multiset{} else multiset{}[x := n]
  }

  function Needs(take: seq<Need>): multiset<string> {
    if take == [] then multiset{} else Times(take[0].index, take[0].count) + Needs(take[1..])
  }

  /** A recipe can be made from things: no count is negative, and the sum is there. */
  ghost predicate Enough(have: multiset<string>, take: seq<Need>) {
    (forall i :: 0 <= i < |take| ==> take[i].count >= 0) && Needs(take) <= have
  }

  /** `delItem`: the first thing of that kind that is not worn. */
  function TakeOne(objs: seq<Thing>, index: string): seq<Thing> {
    if objs == [] then []
    else if !objs[0].worn && objs[0].index == index then objs[1..]
    else [objs[0]] + TakeOne(objs[1..], index)
  }

  function TakeMany(objs: seq<Thing>, index: string, n: nat): seq<Thing>
    decreases n
  {
    if n == 0 then objs else TakeMany(TakeOne(objs, index), index, n - 1)
  }

  function TakeAll(objs: seq<Thing>, take: seq<Need>): seq<Thing>
    decreases |take|
  {
    if take == [] then objs
    else TakeAll(TakeMany(objs, take[0].index, if take[0].count < 0 then 0 else take[0].count), take[1..])
  }

  function Copies(x: Thing, n: nat): (xs: seq<Thing>)
    ensures |xs| == n
  {
    if n == 0 then [] else [x] + Copies(x, n - 1)
  }

  lemma {:induction false} TakeOneWorks(objs: seq<Thing>, index: string)
    ensures Worn(TakeOne(objs, index)) == Worn(objs)
    ensures multiset(Loose(TakeOne(objs, index))) == multiset(Loose(objs)) - multiset{index}
    decreases |objs|
  {
    if objs != [] {
      if objs[0].worn {
        TakeOneWorks(objs[1..], index);
      } else if objs[0].index != index {
        TakeOneWorks(objs[1..], index);
        assert Loose(objs) == [objs[0].index] + Loose(objs[1..]);
      } else {
        assert Loose(objs) == [index] + Loose(objs[1..]);
      }
    }
  }

  /** It is the first unworn one of the kind that goes; everything else stays in order. */
  lemma {:induction false} TakeOneIsFirst(objs: seq<Thing>, index: string) returns (i: nat)
    ensures i <= |objs| && forall k :: 0 <= k < i ==> objs[k].worn || objs[k].index != index
    ensures i < |objs| ==> !objs[i].worn && objs[i].index == index
    ensures TakeOne(objs, index) == if i < |objs| then objs[..i] + objs[i + 1..] else objs
    decreases |objs|
  {
    i := 0;
    if objs != [] && (objs[0].worn || objs[0].index != index) {
      var first, rest := objs[0], objs[1..];
      i := TakeOneIsFirst(rest, index);
      assert TakeOne(objs, index) == [first] + TakeOne(rest, index);
      hide TakeOne;
      assert objs == [first] + rest;
      CutBehind(first, rest, i);
      i := i + 1;
    }
  }

  lemma CutBehind(first: Thing, rest: seq<Thing>, i: nat)
    requires i <= |rest|
    ensures var all := [first] + rest;
      (i < |rest| ==> [first] + (rest[..i] + rest[i + 1..]) == all[..i + 1] + all[i + 2..])
  {
  }

  lemma OneAndMore(have: multiset<string>, x: string, n: nat)
    ensures n > 0 ==> (have - multiset{x}) - Times(x, n - 1) == have - Times(x, n)
    ensures n == 0 ==> have - Times(x, n) == have
    ensures n > 0 ==> multiset{x} + Times(x, n - 1) == Times(x, n)
  {
  }

  lemma NoTimes(x: string)
    ensures Times(x, 0) == multiset{}
  {
  }

  lemma {:induction false} TakeManyWorks(objs: seq<Thing>, index: string, n: nat)
    ensures Worn(TakeMany(objs, index, n)) == Worn(objs)
    ensures multiset(Loose(TakeMany(objs, index, n))) == multiset(Loose(objs)) - Times(index, n)
    decreases n
  {
    hide Worn;
    hide Loose;
    hide TakeOne;
    hide Times;
    OneAndMore(multiset(Loose(objs)), index, n);
    if n > 0 {
      TakeOneWorks(objs, index);
      TakeManyWorks(TakeOne(objs, index), index, n - 1);
    }
  }

  /** Taking changes what is loose by exactly what the recipe needs, and nothing that is worn. */
  lemma {:induction false} TakeAllWorks(objs: seq<Thing>, take: seq<Need>)
    ensures Worn(TakeAll(objs, take)) == Worn(objs)
    ensures multiset(Loose(TakeAll(objs, take))) == multiset(Loose(objs)) - Needs(take)
    decreases |take|
  {
    if take != [] {
      var n := if take[0].count < 0 then 0 else take[0].count;
      TakeManyWorks(objs, take[0].index, n);
      TakeAllWorks(TakeMany(objs, take[0].index, n), take[1..]);
    }
  }

  lemma {:induction false} LooseJoin(a: seq<Thing>, b: seq<Thing>)
    ensures Loose(a + b) == Loose(a) + Loose(b) && Worn(a + b) == Worn(a) + Worn(b)
    decreases |a|
  {
    if a == [] {
      assert a + b == b;
    } else {
      assert (a + b)[1..] == a[1..] + b;
      LooseJoin(a[1..], b);
    }
  }

  lemma {:induction false} CopiesAre(x: Thing, n: nat)
    requires !x.worn
    ensures multiset(Loose(Copies(x, n))) == Times(x.index, n) && Worn(Copies(x, n)) == []
    decreases n
  {
    hide Times;
    OneAndMore(multiset{}, x.index, n);
    if n > 0 {
      CopiesAre(x, n - 1);
      assert Copies(x, n)[1..] == Copies(x, n - 1);
      assert Loose(Copies(x, n)) == [x.index] + Loose(Copies(x, n - 1));
    } else {
      assert Times(x.index, 0) == multiset{} by { NoTimes(x.index); }
    }
  }

  /** What a made recipe comes to: the loose things change by what is taken and given, the
      worn things not at all. */
  lemma MadeBalances(objs: seq<Thing>, take: seq<Need>, give: string, ngive: nat)
    ensures var after := Copies(Thing(give, false), ngive) + TakeAll(objs, take);
      && Worn(after) == Worn(objs)
      && multiset(Loose(after)) == multiset(Loose(objs)) - Needs(take) + Times(give, ngive)
      && (Enough(multiset(Loose(objs)), take) ==>
            Needs(take) <= multiset(Loose(objs))
            && multiset(Loose(after)) + Needs(take) == multiset(Loose(objs)) + Times(give, ngive))
  {
    if Enough(multiset(Loose(objs)), take) {
      NothingMissing(multiset(Loose(objs)), take, Times(give, ngive));
    }
    hide *;
    TakeAllWorks(objs, take);
    CopiesAre(Thing(give, false), ngive);
    LooseJoin(Copies(Thing(give, false), ngive), TakeAll(objs, take));
  }

  /** What is there can be taken and put back. */
  lemma NothingMissing(have: multiset<string>, take: seq<Need>, given: multiset<string>)
    requires Enough(have, take)
    ensures Needs(take) <= have && (have - Needs(take) + given) + Needs(take) == have + given
  {
  }

  /** Crossing off goes on as long as there is one more, and stops for good when not. */
  lemma OneMore(have: multiset<string>, x: string, c: nat, n: int)
    requires c < n && Times(x, c) <= have
    ensures var left := have - Times(x, c);
      && (x in left ==> Times(x, c + 1) <= have && left - multiset{x} == have - Times(x, c + 1))
      && (x !in left ==> !(Times(x, n) <= have))
  {
    assert Times(x, c)[x] == c && Times(x, n)[x] == n;
  }

  datatype Reply =
    | Broken    // an exception: the recipe has no number, no product, or none to give
    | Short     // "something is missing"
    | SoldOut   // "the ingredients have run out"
    | Made

  /** When the doctor says what. */
  ghost function Verdict(objs: seq<Thing>, lines: seq<string>, catalogue: set<string>): Reply {
    match Read(lines)
    case None => Broken
    case Some(r) =>
      if !Enough(multiset(Loose(objs)), r.take) then Short
      else if r.give == None || r.ngive <= 0 then Broken
      else if r.give.value !in catalogue then SoldOut
      else Made
  }

  function FirstOf(s: seq<string>, x: string): seq<string> {
    if s == [] then [] else if s[0] == x then s[1..] else [s[0]] + FirstOf(s[1..], x)
  }

  lemma {:induction false} FirstOfWorks(s: seq<string>, x: string)
    ensures multiset(FirstOf(s, x)) == multiset(s) - multiset{x}
    decreases |s|
  {
    if s != [] {
      FirstOfWorks(s[1..], x);
      assert s == [s[0]] + s[1..];
    }
  }

  class Body {
    var objs: seq<Thing>

    /** `delItem`. */
    method DelItem(index: string)
      modifies this
      ensures objs == TakeOne(old(objs), index)
    {
      var rest := objs;
      var front: seq<Thing> := [];
      assert front + rest == objs;
      while rest != []
        invariant front + rest == objs == old(objs)
        invariant front + TakeOne(rest, index) == TakeOne(objs, index)
      {
        var obj := rest[0];
        if !obj.worn && obj.index == index {
          objs := front + rest[1..];
          return;
        }
        Assoc(front, [obj], rest[1..]);
        Assoc(front, [obj], TakeOne(rest[1..], index));
        assert rest == [obj] + rest[1..];
        front := front + [obj];
        rest := rest[1..];
      }
    }

    /** One need of the check: so many are crossed off the list, if they are there. */
    static method CrossOff(indexs: seq<string>, need: Need) returns (ok: bool, rest: seq<string>)
      ensures ok <==> need.count >= 0 && Times(need.index, need.count) <= multiset(indexs)
      ensures ok ==> multiset(rest) == multiset(indexs) - Times(need.index, need.count)
    {
      hide FirstOf;
      hide Times;
      rest := indexs;
      var c := 0;
      var j := 0;
      NoTimes(need.index);
      while j < need.count
        invariant j == c && 0 <= c && (need.count >= 0 ==> c <= need.count)
        invariant need.count < 0 ==> c == 0
        invariant Times(need.index, c) <= multiset(indexs)
        invariant multiset(rest) == multiset(indexs) - Times(need.index, c)
      {
        OneMore(multiset(indexs), need.index, c, need.count);
        if need.index !in rest {
          assert need.index !in multiset(rest);
          break;
        }
        FirstOfWorks(rest, need.index);
        c := c + 1;
        rest := FirstOf(rest, need.index);
        j := j + 1;
      }
      ok := c == need.count;
    }

    /** The check, on a copy of the list of what is not worn. */
    static method Check(indexs: seq<string>, take: seq<Need>) returns (ok: bool)
      ensures ok <==> Enough(multiset(indexs), take)
    {
      var left := indexs;
      var rest := take;
      while rest != []
        invariant Enough(multiset(left), rest) <==> Enough(multiset(indexs), take)
      {
        var fine, crossed := CrossOff(left, rest[0]);
        EnoughStep(multiset(left), rest);
        if !fine {
          return false;
        }
        left := crossed;
        rest := rest[1..];
      }
      return true;
    }

    /** `[이름] 조제`, once a doctor with the recipe is found. */
    method Craft(lines: seq<string>, catalogue: set<string>) returns (reply: Reply)
      modifies this
      ensures reply == Verdict(old(objs), lines, catalogue)
      ensures reply != Made ==> objs == old(objs)
      ensures reply == Made ==> var r := Read(lines).value;
        objs == Copies(Thing(r.give.value, false), r.ngive) + TakeAll(old(objs), r.take)
    {
      hide Read;
      hide Enough;
      hide Loose;
      hide TakeAll;
      var recipe := Read(lines);
      if recipe == None {
        return Broken;
      }
      var r := recipe.value;
      var ok := Check(Loose(objs), r.take);
      if !ok {
        return Short;
      }
      if r.give == None {
        return Broken;
      }
      var items: seq<Thing> := [];
      for i := 0 to if r.ngive < 0 then 0 else r.ngive
        invariant items == Copies(Thing(r.give.value, false), i) && objs == old(objs)
        invariant i > 0 ==> r.give.value in catalogue
      {
        if r.give.value !in catalogue {
          return SoldOut;
        }
        items := [Thing(r.give.value, false)] + items;
      }
      if items == [] {
        return Broken;
      }
      TakeFrom(r.take);
      Hand(items, Thing(r.give.value, false));
      return Made;
    }

    /** The commit: everything the recipe takes is removed. */
    method TakeFrom(take: seq<Need>)
      modifies this
      ensures objs == TakeAll(old(objs), take)
    {
      var rest := take;
      while rest != []
        invariant TakeAll(objs, rest) == TakeAll(old(objs), take)
      {
        var n := if rest[0].count < 0 then 0 else rest[0].count;
        ghost var goal := TakeMany(objs, rest[0].index, n);
        while n > 0
          invariant n >= 0 && TakeMany(objs, rest[0].index, n) == goal
        {
          DelItem(rest[0].index);
          n := n - 1;
        }
        rest := rest[1..];
      }
    }

    /** New things come to the front, one by one. */
    method Hand(items: seq<Thing>, ghost x: Thing)
      requires items == Copies(x, |items|)
      modifies this
      ensures objs == items + old(objs)
    {
      var rest := items;
      ghost var done := 0;
      while rest != []
        invariant done + |rest| == |items| && rest == Copies(x, |rest|)
        invariant objs == Copies(x, done) + old(objs)
      {
        Assoc([x], Copies(x, done), old(objs));
        objs := [rest[0]] + objs;
        done := done + 1;
        rest := rest[1..];
      }
    }
  }

  lemma EnoughStep(have: multiset<string>, take: seq<Need>)
    requires take != []
    ensures Enough(have, take) <==>
      && take[0].count >= 0 && Times(take[0].index, take[0].count) <= have
      && Enough(have - Times(take[0].index, take[0].count), take[1..])
  {
    var first := Times(take[0].index, take[0].count);
    if Enough(have, take) {
      assert first + Needs(take[1..]) <= have;
    }
    if take[0].count >= 0 && first <= have && Enough(have - first, take[1..]) {
      forall i | 0 <= i < |take| ensures take[i].count >= 0 {
        assert i > 0 ==> take[i] == take[1..][i - 1];
      }
    }
  }
}
