/** Action points: how a martial-arts skill spends 700 points a turn over several ticks of a
    fight, and how plain blows take what is left. */
module CombatPoints {

  const COST := 700

  /** A line of a skill's attack list, already cut into its three words. */
  datatype Written = Written(turn: int, kind: string, text: string)

  datatype Move = Move(kind: string, text: string)

  const WAIT := "대기"

  function MoveOf(l: Written): Move {
    Move(l.kind, if l.kind != WAIT then l.text else "")
  }

  type Pattern = map<int, seq<Move>>

  /** The lines of one turn, in the order written. */
  function LinesOfTurn(lines: seq<Written>, turn: int): seq<Written> {
    if lines == [] then []
    else LinesOfTurn(lines[..|lines| - 1], turn)
         + (if lines[|lines| - 1].turn == turn then [lines[|lines| - 1]] else [])
  }

  function Moves(lines: seq<Written>): (ms: seq<Move>)
    ensures |ms| == |lines|
    ensures forall i :: 0 <= i < |lines| ==> ms[i] == MoveOf(lines[i])
  {
    seq(|lines|, i requires 0 <= i < |lines| => MoveOf(lines[i]))
  }

  /** The dictionary built by `parse`. */
  function PatternOf(lines: seq<Written>): Pattern {
    if lines == [] then map[]
    else
      var p := PatternOf(lines[..|lines| - 1]);
      var l := lines[|lines| - 1];
      p[l.turn := (if l.turn in p then p[l.turn] else []) + [MoveOf(l)]]
  }

  /** It holds, under every turn, the moves of that turn's lines in the order written. */
  lemma {:induction false} PatternAt(lines: seq<Written>, t: int)
    ensures t in PatternOf(lines) <==> LinesOfTurn(lines, t) != []
    ensures t in PatternOf(lines) ==> PatternOf(lines)[t] == Moves(LinesOfTurn(lines, t))
    decreases |lines|
  {
    if lines != [] {
      var shorter := lines[..|lines| - 1];
      PatternAt(shorter, t);
      assert LinesOfTurn(shorter, t) + [] == LinesOfTurn(shorter, t);
    }
  }

  /** Does a move show a line? Its kind is the line's, and its text too, but for a line that
      only waits, which has none. */
  predicate IsMoveOf(m: Move, l: Written) {
    m.kind == l.kind && m.text == if l.kind == "대기" then "" else l.text
  }

  predicate AreMovesOf(ms: seq<Move>, lines: seq<Written>) {
    |ms| == |lines| && forall k :: 0 <= k < |ms| ==> IsMoveOf(ms[k], lines[k])
  }

  lemma MovesShow(lines: seq<Written>)
    ensures AreMovesOf(Moves(lines), lines)
  {
  }

  /** What is parsed has for every turn the kinds and texts of that turn's lines. */
  lemma PatternShows(lines: seq<Written>, t: int)
    ensures t in PatternOf(lines) <==> exists l :: l in lines && l.turn == t
    ensures t in PatternOf(lines) ==> AreMovesOf(PatternOf(lines)[t], LinesOfTurn(lines, t))
  {
    PatternAt(lines, t);
    MovesShow(LinesOfTurn(lines, t));
    TurnLines(lines, t);
    if t in PatternOf(lines) {
      assert LinesOfTurn(lines, t)[0] in LinesOfTurn(lines, t);
    }
    forall l | l in lines && l.turn == t ensures t in PatternOf(lines) {
      HasLine(lines, l);
    }
  }

  /** The moves of turns `from` to `last`, up to the first turn without an entry. */
  function Played(p: Pattern, from: int, last: int): seq<Move>
    decreases last - from
  {
    if from > last || from !in p then [] else p[from] + Played(p, from + 1, last)
  }

  lemma PlayedOn(p: Pattern, from: int, last: int, before: seq<Move>)
    requires from <= last && from in p
    ensures before + Played(p, from, last) == (before + p[from]) + Played(p, from + 1, last)
  {
  }

  function Min(a: int, b: int): int {
    if a < b then a else b
  }

  class Skill {
    var pattern: Pattern
    var maxturn: nat
    var curturn: int
    var step: int
    var end: int

    /** Between two calls a skill has turns left, unless it has none at all. */
    ghost predicate Valid()
      reads this
    {
      0 <= end && (end < maxturn || end == maxturn == 0)
    }

    constructor (lines: seq<Written>)
      ensures Valid() && end == step == curturn == 0
      ensures pattern == PatternOf(lines) && maxturn == |pattern|
    {
      pattern := map[];
      maxturn := 0;
      curturn, step, end := 0, 0, 0;
      new;
      Parse(lines);
    }

    /** `init`: the skill is about to be used. */
    method Init()
      modifies this
      ensures end == 0 && step == 0 && curturn == 0
      ensures pattern == old(pattern) && maxturn == old(maxturn)
    {
      step := 0;
      end := 0;
      curturn := 0;
    }

    /** `parse`: the attack lines are filed by turn. */
    method Parse(lines: seq<Written>)
      modifies this
      ensures pattern == PatternOf(lines) && maxturn == |pattern|
      ensures end == old(end) && step == old(step) && curturn == old(curturn)
    {
      pattern := map[];
      for i := 0 to |lines|
        invariant pattern == PatternOf(lines[..i])
        invariant end == old(end) && step == old(step) && curturn == old(curturn)
      {
        var turn := lines[i].turn;
        var move := MoveOf(lines[i]);
        assert lines[..i + 1][..i] == lines[..i];
        if turn !in pattern {
          assert [] + [move] == [move];
          pattern := pattern[turn := [move]];
        } else {
          pattern := pattern[turn := pattern[turn] + [move]];
        }
      }
      assert lines[..|lines|] == lines;
      maxturn := |pattern|;
    }

    /** `getScript(dex)`: as many turns as the points pay for, at most those left. */
    method GetScript(dex: int) returns (script: seq<Move>, more: bool, left: int)
      requires Valid() && dex >= 0
      modifies this
      ensures Valid() && pattern == old(pattern) && maxturn == old(maxturn)
      ensures step == Min(dex / 700, maxturn - old(end))
      ensures left == dex - 700 * step
      ensures script == Played(pattern, old(end) + 1, old(end) + step)
      ensures more == (old(end) + step < maxturn)
      ensures end == if more then old(end) + step else 0
      ensures curturn == old(curturn) + 1
    {
      more := true;
      left := dex;
      var start := end + 1;
      curturn := curturn + 1;
      step := dex / COST;
      if step > maxturn - start + 1 {
        step := maxturn - start + 1;
      }
      if step > maxturn {
        left := left - COST * maxturn;
      } else {
        left := left - COST * step;
      }
      end := start + step - 1;
      script := [];
      var i := start;
      while i < end + 1
        invariant start <= i <= end + 1
        invariant Played(pattern, start, end) == script + Played(pattern, i, end)
        modifies {}
      {
        if i > maxturn {
          break;
        }
        if i !in pattern {
          break;
        }
        PlayedOn(pattern, i, end, script);
        script := script + pattern[i];
        i := i + 1;
      }
      if end >= maxturn {
        end := 0;
        more := false;
      }
    }
  }

  /** How many turns these points pay for. */
  function Pays(points: seq<nat>): (pays: seq<nat>)
    ensures |pays| == |points|
  {
    if points == [] then [] else [points[0] / COST] + Pays(points[1..])
  }

  /** A skill is begun and called with these points until it has no more turns. */
  method PlayOut(skill: Skill, points: seq<nat>) returns (shown: seq<Move>, more: bool)
    requires skill.Valid()
    modifies skill
    ensures skill.Valid() && skill.pattern == old(skill.pattern) && skill.maxturn == old(skill.maxturn)
    ensures shown == Cast(skill.pattern, skill.maxturn, 0, Pays(points))
    ensures more == !Completes(skill.maxturn, 0, Pays(points))
    ensures !more ==> skill.end == 0
  {
    hide Cast;
    hide Completes;
    hide Pays;
    hide Played;
    CastNothing(skill.pattern, skill.maxturn, 0);
    skill.Init();
    shown, more := [], true;
    var rest := points;
    ghost var p, n := skill.pattern, skill.maxturn;
    while more && rest != []
      invariant skill.Valid() && skill.pattern == p && skill.maxturn == n
      invariant !more ==> skill.end == 0 && shown == Cast(p, n, 0, Pays(points)) && Completes(n, 0, Pays(points))
      invariant more ==> shown + Cast(p, n, skill.end, Pays(rest)) == Cast(p, n, 0, Pays(points))
      invariant more ==> (Completes(n, skill.end, Pays(rest)) <==> Completes(n, 0, Pays(points)))
      decreases |rest|
    {
      CastStep(p, n, skill.end, rest);
      var script, left;
      script, more, left := skill.GetScript(rest[0]);
      Then(shown, script, Cast(p, n, skill.end, Pays(rest[1..])));
      shown := shown + script;
      rest := rest[1..];
    }
    if more {
      CastNothing(p, n, skill.end);
      Then([], shown, []);
    }
  }

  /** One call of a cast. */
  lemma CastStep(p: Pattern, maxturn: int, end: int, points: seq<nat>)
    requires points != []
    ensures var e := end + Min(points[0] / COST, maxturn - end);
      var script := Played(p, end + 1, e);
      if e < maxturn then
        && Cast(p, maxturn, end, Pays(points)) == script + Cast(p, maxturn, e, Pays(points[1..]))
        && (Completes(maxturn, end, Pays(points)) <==> Completes(maxturn, e, Pays(points[1..])))
      else Cast(p, maxturn, end, Pays(points)) == script && Completes(maxturn, end, Pays(points))
  {
    hide Played;
    PaysFirst(points);
    hide Pays;
    var e := end + Min(points[0] / COST, maxturn - end);
    hide COST;
    Then([], Played(p, end + 1, e), []);
  }

  lemma PaysFirst(points: seq<nat>)
    requires points != []
    ensures var pays := Pays(points);
      pays != [] && pays[0] == points[0] / COST && pays[1..] == Pays(points[1..])
  {
  }

  lemma CastNothing(p: Pattern, maxturn: int, end: int)
    ensures Cast(p, maxturn, end, Pays([])) == [] && !Completes(maxturn, end, Pays([]))
  {
  }

  lemma Then(a: seq<Move>, b: seq<Move>, c: seq<Move>)
    ensures a + (b + c) == (a + b) + c && b + [] == b
  {
  }

  // ---- one cast, from `init` until `more` is false ------------------------------

  /** Where a call whose points pay for `n` turns leaves a cast played up to turn `end`. */
  function Reached(end: int, maxturn: int, n: nat): (e: int) {
    end + Min(n, maxturn - end)
  }

  /** The moves of a cast over calls that can pay for these numbers of turns. */
  function Cast(p: Pattern, maxturn: int, end: int, pays: seq<nat>): seq<Move>
    decreases |pays|
  {
    if pays == [] then []
    else
      var e := Reached(end, maxturn, pays[0]);
      Played(p, end + 1, e) + (if e < maxturn then Cast(p, maxturn, e, pays[1..]) else [])
  }

  /** Do these calls bring the cast to its end? */
  predicate Completes(maxturn: int, end: int, pays: seq<nat>)
    decreases |pays|
  {
    pays != [] &&
    var e := Reached(end, maxturn, pays[0]);
    e >= maxturn || Completes(maxturn, e, pays[1..])
  }

  /** If every call can pay for a turn, which 700 points do, `maxturn` calls are enough. */
  lemma {:induction false} FullPointsComplete(maxturn: int, end: int, pays: seq<nat>)
    requires 0 <= end < maxturn && |pays| >= maxturn - end
    requires forall i :: 0 <= i < |pays| ==> pays[i] >= 1
    ensures Completes(maxturn, end, pays)
    decreases |pays|
  {
    var e := Reached(end, maxturn, pays[0]);
    if e < maxturn {
      FullPointsComplete(maxturn, e, pays[1..]);
    }
  }

  /** The turns written are 1, 2, ..., n without a gap. */
  ghost predicate Contiguous(p: Pattern) {
    forall t :: t in p <==> 1 <= t <= |p|
  }

  lemma {:induction false} PlayedJoins(p: Pattern, from: int, mid: int, last: int)
    requires from - 1 <= mid <= last
    requires forall t :: from <= t <= mid ==> t in p
    ensures Played(p, from, last) == Played(p, from, mid) + Played(p, mid + 1, last)
    decreases mid - from
  {
    if from <= mid {
      PlayedJoins(p, from + 1, mid, last);
      assert p[from] + (Played(p, from + 1, mid) + Played(p, mid + 1, last))
          == (p[from] + Played(p, from + 1, mid)) + Played(p, mid + 1, last);
    }
  }

  /** However the points come in, a completed cast over gapless turns plays every turn. */
  lemma {:induction false} CastPlaysAll(p: Pattern, end: int, pays: seq<nat>)
    requires Contiguous(p) && 0 <= end < |p|
    requires Completes(|p|, end, pays)
    ensures Cast(p, |p|, end, pays) == Played(p, end + 1, |p|)
    decreases |pays|
  {
    var e := Reached(end, |p|, pays[0]);
    PlayedJoins(p, end + 1, e, |p|);
    if e < |p| {
      CastPlaysAll(p, e, pays[1..]);
    }
  }

  // ---- the lines, stably ordered by turn ------------------------------------------

  function ByTurn(lines: seq<Written>, from: int, last: int): seq<Written>
    decreases last - from
  {
    if from > last then [] else LinesOfTurn(lines, from) + ByTurn(lines, from + 1, last)
  }

  lemma MovesJoin(a: seq<Written>, b: seq<Written>)
    ensures Moves(a + b) == Moves(a) + Moves(b)
  {
  }

  lemma {:induction false} PlayedIsByTurn(lines: seq<Written>, from: int, last: int)
    requires forall t :: from <= t <= last ==> t in PatternOf(lines)
    ensures Played(PatternOf(lines), from, last) == Moves(ByTurn(lines, from, last))
    decreases last - from
  {
    if from <= last {
      PatternAt(lines, from);
      PlayedIsByTurn(lines, from + 1, last);
      MovesJoin(LinesOfTurn(lines, from), ByTurn(lines, from + 1, last));
    }
  }

  /** How many lines lie in the turns `from` to `last`. */
  function CountIn(lines: seq<Written>, from: int, last: int): nat {
    if lines == [] then 0
    else CountIn(lines[..|lines| - 1], from, last)
         + (if from <= lines[|lines| - 1].turn <= last then 1 else 0)
  }

  lemma {:induction false} TurnLines(lines: seq<Written>, t: int)
    ensures forall l :: l in LinesOfTurn(lines, t) ==> l.turn == t && l in lines
    ensures LinesOfTurn(LinesOfTurn(lines, t), t) == LinesOfTurn(lines, t)
    ensures |LinesOfTurn(lines, t)| == CountIn(lines, t, t)
    decreases |lines|
  {
    if lines != [] {
      var shorter := lines[..|lines| - 1];
      TurnLines(shorter, t);
      var l := lines[|lines| - 1];
      if l.turn != t {
        assert LinesOfTurn(shorter, t) + [] == LinesOfTurn(shorter, t);
      } else {
        assert (LinesOfTurn(shorter, t) + [l])[..|LinesOfTurn(shorter, t)|] == LinesOfTurn(shorter, t);
      }
    }
  }

  lemma {:induction false} CountSplits(lines: seq<Written>, from: int, last: int)
    requires from <= last
    ensures CountIn(lines, from, last) == CountIn(lines, from, from) + CountIn(lines, from + 1, last)
    decreases |lines|
  {
    if lines != [] { CountSplits(lines[..|lines| - 1], from, last); }
  }

  lemma {:induction false} ByTurnCounts(lines: seq<Written>, from: int, last: int)
    requires from <= last + 1
    ensures |ByTurn(lines, from, last)| == CountIn(lines, from, last)
    decreases last - from
  {
    if from <= last {
      ByTurnCounts(lines, from + 1, last);
      TurnLines(lines, from);
      CountSplits(lines, from, last);
    } else {
      NothingBetween(lines, from, last);
    }
  }

  lemma {:induction false} NothingBetween(lines: seq<Written>, from: int, last: int)
    requires from > last
    ensures CountIn(lines, from, last) == 0
  {
    if lines != [] { NothingBetween(lines[..|lines| - 1], from, last); }
  }

  lemma {:induction false} CountBound(lines: seq<Written>, from: int, last: int)
    ensures CountIn(lines, from, last) <= |lines|
    ensures CountIn(lines, from, last) == |lines| <==> forall l :: l in lines ==> from <= l.turn <= last
    decreases |lines|
  {
    if lines != [] {
      var shorter := lines[..|lines| - 1];
      CountBound(shorter, from, last);
      assert lines == shorter + [lines[|lines| - 1]];
    }
  }

  lemma {:induction false} LinesOfTurnJoin(a: seq<Written>, b: seq<Written>, t: int)
    ensures LinesOfTurn(a + b, t) == LinesOfTurn(a, t) + LinesOfTurn(b, t)
    decreases |b|
  {
    if b == [] {
      assert a + b == a;
    } else {
      assert (a + b)[..|a + b| - 1] == a + b[..|b| - 1];
      LinesOfTurnJoin(a, b[..|b| - 1], t);
    }
  }

  lemma {:induction false} NoneOfTurn(lines: seq<Written>, t: int)
    requires forall l :: l in lines ==> l.turn != t
    ensures LinesOfTurn(lines, t) == []
  {
    if lines != [] { NoneOfTurn(lines[..|lines| - 1], t); }
  }

  predicate Ascending(s: seq<Written>) {
    forall i, j :: 0 <= i < j < |s| ==> s[i].turn <= s[j].turn
  }

  /** The order by turn is a stable sort of the lines in the range: turns ascend, and each
      turn keeps its lines in the order written. */
  lemma {:induction false} ByTurnIsStableSort(lines: seq<Written>, from: int, last: int)
    ensures Ascending(ByTurn(lines, from, last))
    ensures forall l :: l in ByTurn(lines, from, last) ==> from <= l.turn <= last
    ensures forall t :: from <= t <= last ==> LinesOfTurn(ByTurn(lines, from, last), t) == LinesOfTurn(lines, t)
    decreases last - from
  {
    if from <= last {
      var first, later := LinesOfTurn(lines, from), ByTurn(lines, from + 1, last);
      ByTurnIsStableSort(lines, from + 1, last);
      TurnLines(lines, from);
      forall t | from <= t <= last ensures LinesOfTurn(first + later, t) == LinesOfTurn(lines, t) {
        LinesOfTurnJoin(first, later, t);
        if t == from { NoneOfTurn(later, t); } else { NoneOfTurn(first, t); }
      }
    }
  }

  lemma {:induction false} HasLine(lines: seq<Written>, l: Written)
    requires l in lines
    ensures LinesOfTurn(lines, l.turn) != []
    decreases |lines|
  {
    var shorter := lines[..|lines| - 1];
    assert lines == shorter + [lines[|lines| - 1]];
    if lines[|lines| - 1] != l { HasLine(shorter, l); }
  }

  /** A cast over gapless turns gives every line exactly once, in the stable order. */
  lemma ContiguousCast(lines: seq<Written>, pays: seq<nat>)
    requires lines != [] && Contiguous(PatternOf(lines))
    requires Completes(|PatternOf(lines)|, 0, pays)
    ensures var n := |PatternOf(lines)|;
      Cast(PatternOf(lines), n, 0, pays) == Moves(ByTurn(lines, 1, n))
    ensures |Cast(PatternOf(lines), |PatternOf(lines)|, 0, pays)| == |lines|
    ensures AreMovesOf(Cast(PatternOf(lines), |PatternOf(lines)|, 0, pays), ByTurn(lines, 1, |PatternOf(lines)|))
  {
    MovesShow(ByTurn(lines, 1, |PatternOf(lines)|));
    hide AreMovesOf;
    hide PatternOf;
    hide Cast;
    hide Moves;
    hide ByTurn;
    hide Completes;
    hide CountIn;
    var n := |PatternOf(lines)|;
    PatternAt(lines, lines[0].turn);
    HasLine(lines, lines[0]);
    CastPlaysAll(PatternOf(lines), 0, pays);
    PlayedIsByTurn(lines, 1, n);
    ByTurnCounts(lines, 1, n);
    AllInRange(lines);
  }

  lemma {:induction false} AllInRange(lines: seq<Written>)
    requires Contiguous(PatternOf(lines))
    ensures CountIn(lines, 1, |PatternOf(lines)|) == |lines|
  {
    forall l | l in lines ensures 1 <= l.turn <= |PatternOf(lines)| {
      InRange(lines, l);
    }
    CountBound(lines, 1, |PatternOf(lines)|);
  }

  lemma InRange(lines: seq<Written>, l: Written)
    requires Contiguous(PatternOf(lines)) && l in lines
    ensures 1 <= l.turn <= |PatternOf(lines)|
  {
    HasLine(lines, l);
    PatternAt(lines, l.turn);
  }

  lemma {:induction false} PlayedBound(lines: seq<Written>, from: int, last: int)
    requires from <= last + 1
    ensures |Played(PatternOf(lines), from, last)| <= CountIn(lines, from, last)
    decreases last - from
  {
    if from <= last && from in PatternOf(lines) {
      PatternAt(lines, from);
      PlayedBound(lines, from + 1, last);
      TurnLines(lines, from);
      CountSplits(lines, from, last);
    }
  }

  lemma {:induction false} CountJoins(lines: seq<Written>, from: int, mid: int, last: int)
    requires from - 1 <= mid <= last
    ensures CountIn(lines, from, last) == CountIn(lines, from, mid) + CountIn(lines, mid + 1, last)
    decreases |lines|
  {
    if lines != [] { CountJoins(lines[..|lines| - 1], from, mid, last); }
  }

  lemma {:induction false} CastBound(lines: seq<Written>, end: int, pays: seq<nat>)
    requires 0 <= end <= |PatternOf(lines)|
    ensures |Cast(PatternOf(lines), |PatternOf(lines)|, end, pays)| <= CountIn(lines, end + 1, |PatternOf(lines)|)
    decreases |pays|
  {
    if pays != [] {
      var n := |PatternOf(lines)|;
      var e := Reached(end, n, pays[0]);
      CountJoins(lines, end + 1, e, n);
      PlayedBound(lines, end + 1, e);
      if e < n {
        CastBound(lines, e, pays[1..]);
      }
    }
  }

  function Range(n: nat): (s: set<int>)
    ensures |s| == n
    ensures forall t :: t in s <==> 1 <= t <= n
  {
    if n == 0 then {} else Range(n - 1) + {n}
  }

  lemma SameSize(a: set<int>, b: set<int>)
    requires a <= b && |a| == |b|
    ensures a == b
  {
    assert b == a + (b - a) && |b - a| == |b| - |a|;
  }

  /** If all lines lie in the turns 1 to `maxturn`, no turn is left out. */
  lemma InRangeIsContiguous(lines: seq<Written>)
    requires forall l :: l in lines ==> 1 <= l.turn <= |PatternOf(lines)|
    ensures Contiguous(PatternOf(lines))
  {
    var p := PatternOf(lines);
    forall t | t in p.Keys ensures t in Range(|p|) {
      PatternAt(lines, t);
      TurnLines(lines, t);
      assert LinesOfTurn(lines, t)[0] in LinesOfTurn(lines, t);
    }
    assert |p.Keys| == |p|;
    SameSize(p.Keys, Range(|p|));
  }

  /** `maxturn` counts the turns written, so a gap in the numbering loses lines: a completed
      cast gives all of them iff the turns are 1, 2, ..., n. */
  lemma CastIsCompleteIffContiguous(lines: seq<Written>, pays: seq<nat>)
    requires lines != []
    requires Completes(|PatternOf(lines)|, 0, pays)
    ensures |Cast(PatternOf(lines), |PatternOf(lines)|, 0, pays)| == |lines| <==> Contiguous(PatternOf(lines))
  {
    if Contiguous(PatternOf(lines)) {
      ContiguousCast(lines, pays);
    } else {
      CastBound(lines, 0, pays);
      CountBound(lines, 1, |PatternOf(lines)|);
      if forall l :: l in lines ==> 1 <= l.turn <= |PatternOf(lines)| {
        InRangeIsContiguous(lines);
      }
    }
  }

  /** Turns 1 and 3 are two turns, so the cast ends after turn 2, which has no lines, and the
      line of turn 3 is never played. */
  lemma GapLosesLine(first: string, second: string)
    ensures var lines := [Written(1, "공격", first), Written(3, "공격", second)];
      var p := PatternOf(lines);
      && |p| == 2 && Completes(|p|, 0, [2])
      && Cast(p, |p|, 0, [2]) == [Move("공격", first)]
  {
    var a, b := Written(1, "공격", first), Written(3, "공격", second);
    var lines := [a, b];
    assert lines[..1] == [a] && [a][..0] == [];
    var one: Pattern := map[1 := [MoveOf(a)]];
    assert [] + [MoveOf(a)] == [MoveOf(a)] && [] + [MoveOf(b)] == [MoveOf(b)];
    assert PatternOf([a]) == one;
    var p := PatternOf(lines);
    assert p == one[3 := [MoveOf(b)]];
    assert p.Keys == {1, 3} && |p.Keys| == 2;
    assert Played(p, 2, 2) == [];
    assert Played(p, 1, 2) == [MoveOf(a)] + [];
  }

  // ---- fights -----------------------------------------------------------------------

  /** The part of a skill that the points see. */
  datatype Casting = Idle | Playing(end: int, maxturn: int)

  predicate Playable(c: Casting) {
    c.Playing? ==> 0 <= c.end && (c.end < c.maxturn || c.end == c.maxturn == 0)
  }

  /** The skills between two calls are the ones a run may begin. */
  lemma ValidIsPlayable(skill: Skill)
    ensures skill.Valid() <==> Playable(Playing(skill.end, skill.maxturn))
  {
  }

  function TurnsPaid(c: Casting, points: int): int {
    if c.Idle? then 0 else Min(points / COST, c.maxturn - c.end)
  }

  function After(c: Casting, points: int): Casting {
    if c.Idle? || c.end + TurnsPaid(c, points) >= c.maxturn then Idle
    else c.(end := c.end + TurnsPaid(c, points))
  }

  datatype FightEvent = Use(move: Move) | Blow

  /** A tick shows the moves of the turns paid, then the blows. */
  predicate Shows(log: seq<FightEvent>, moves: seq<Move>, blows: int) {
    && blows >= 0 && |log| == |moves| + blows
    && (forall i :: 0 <= i < |moves| ==> log[i] == Use(moves[i]))
    && (forall i :: |moves| <= i < |log| ==> log[i] == Blow)
  }

  class Fighter {
    var dex: int
    var skill: Skill?

    function State(): Casting
      reads this, skill
    {
      if skill == null then Idle else Playing(skill.end, skill.maxturn)
    }

    /** One tick of `doFight` without `advance` in which nobody falls: the points of the
        tick are added, the skill takes its turns, and blows take the rest unless the skill
        goes on with a waiting turn. `turns` is what the skill was paid. */
    method Tick(gain: nat) returns (log: seq<FightEvent>, turns: nat, blows: nat)
      requires dex >= 0 && (skill != null ==> skill.Valid())
      modifies this, skill
      ensures turns == TurnsPaid(old(State()), old(dex) + gain)
      ensures State() == After(old(State()), old(dex) + gain)
      ensures dex == (old(dex) + gain) % 700
      ensures 700 * (turns + blows) + dex == old(dex) + gain
      ensures skill != null ==> skill == old(skill) && blows == 0
      ensures old(skill) != null ==> old(skill).Valid()
      ensures Shows(log, if old(skill) == null then [] else
        Played(old(skill.pattern), old(skill.end) + 1, old(skill.end) + turns), blows)
    {
      log := [];
      turns, blows := 0, 0;
      dex := dex + gain;
      var more := false;
      var kind := "";
      ghost var moves: seq<Move> := [];
      if skill != null {
        var script;
        script, more, dex := skill.GetScript(dex);
        turns := skill.step;
        moves := script;
        for i := 0 to |script|
          invariant Shows(log, script[..i], 0)
        {
          kind := script[i].kind;
          log := log + [Use(script[i])];
        }
        assert script[..|script|] == script;
      }
      if !more && skill != null {
        skill := null;
      }
      if !more || kind == WAIT {
        var cnt := dex / COST;
        dex := dex % COST;
        for l := 0 to cnt
          invariant Shows(log, moves, l)
        {
          log := log + [Blow];
        }
        blows := cnt;
      }
    }

    /** The same tick for a mob (`fightMobNormal`), which first drops points it should not
        have: that never happens to a mob left with less than 700. */
    method MobTick(gain: nat) returns (log: seq<FightEvent>, turns: nat, blows: nat)
      requires dex >= 0 && (skill != null ==> skill.Valid())
      modifies this, skill
      ensures State() == After(old(State()), (if old(dex) >= gain then 0 else old(dex)) + gain)
      ensures dex == ((if old(dex) >= gain then 0 else old(dex)) + gain) % 700
      ensures 700 * (turns + blows) + dex == (if old(dex) >= gain then 0 else old(dex)) + gain
      ensures old(dex) < 700 <= gain ==> 700 * (turns + blows) + dex == old(dex) + gain
      ensures skill != null ==> skill == old(skill) && blows == 0
      ensures old(skill) != null ==> old(skill).Valid()
      ensures Shows(log, if old(skill) == null then [] else
        Played(old(skill.pattern), old(skill.end) + 1, old(skill.end) + turns), blows)
    {
      if dex >= gain {
        dex := 0;
      }
      log, turns, blows := Tick(gain);
    }

    /** A run of ticks. Before each of them the skill may be broken off or another one begun. */
    method Rounds(rounds: seq<Round>, ghost all: set<Skill>) returns (turns: nat, blows: nat)
      requires 0 <= dex && (rounds == [] ==> dex < COST)
      requires skill != null ==> skill in all
      requires forall r :: r in rounds && r.skill != null ==> r.skill in all
      requires forall s :: s in all ==> s.Valid()
      modifies this, all
      ensures turns + blows == (old(dex) + GainedIn(rounds)) / 700
      ensures dex == (old(dex) + GainedIn(rounds)) % 700
      ensures skill == null || skill == LastSkill(old(skill), rounds)
    {
      turns, blows := 0, 0;
      var rest := rounds;
      ghost var last := skill;
      while rest != []
        invariant 0 <= dex && (rest == [] ==> dex < COST)
        invariant skill != null ==> skill in all && skill == last
        invariant LastSkill(last, rest) == LastSkill(old(skill), rounds)
        invariant forall r :: r in rest && r.skill != null ==> r.skill in all
        invariant forall s :: s in all ==> s.Valid()
        invariant COST * (turns + blows) + dex + GainedIn(rest) == old(dex) + GainedIn(rounds)
      {
        if rest[0].change {
          assert rest[0] in rest;
          skill := rest[0].skill;
          last := skill;
        }
        var log, t, b := Tick(rest[0].gain);
        turns, blows := turns + t, blows + b;
        rest := rest[1..];
      }
    }
  }

  /** A tick of a run on objects: whether the skill is another one now, and the points gained. */
  datatype Round = Round(change: bool, skill: Skill?, gain: nat)

  /** The skill that was begun last. */
  function LastSkill(was: Skill?, rounds: seq<Round>): Skill?
    decreases |rounds|
  {
    if rounds == [] then was else LastSkill(if rounds[0].change then rounds[0].skill else was, rounds[1..])
  }

  function GainedIn(rounds: seq<Round>): nat {
    if rounds == [] then 0 else rounds[0].gain + GainedIn(rounds[1..])
  }

  /** One tick of a run: what the skill is when it begins, if that was changed since the
      last tick, and the points gained. */
  datatype Beat = Beat(change: bool, casting: Casting, gain: nat)

  /** Turns and blows paid over a run, and the points left. */
  datatype Total = Total(turns: int, blows: int, dex: int)

  /** What one tick pays out of these points. */
  function Payment(c: Casting, points: int): Total {
    var turns := TurnsPaid(c, points);
    var left := points - COST * turns;
    Total(turns, if After(c, points).Idle? then left / COST else 0, left % COST)
  }

  /** `mob` says that points above the gain are dropped first. */
  function RunOf(mob: bool, c: Casting, dex: int, beats: seq<Beat>): Total
    decreases |beats|
  {
    if beats == [] then Total(0, 0, dex)
    else
      var now := if beats[0].change then beats[0].casting else c;
      var points := (if mob && dex >= beats[0].gain then 0 else dex) + beats[0].gain;
      var paid := Payment(now, points);
      var rest := RunOf(mob, After(now, points), paid.dex, beats[1..]);
      Total(paid.turns + rest.turns, paid.blows + rest.blows, rest.dex)
  }

  function Gained(beats: seq<Beat>): nat {
    if beats == [] then 0 else beats[0].gain + Gained(beats[1..])
  }

  /** Nothing is lost within a tick: if the skill goes on, no whole price is left. */
  lemma PaymentBalances(c: Casting, points: int)
    requires Playable(c) && points >= 0
    ensures var t := Payment(c, points);
      700 * (t.turns + t.blows) + t.dex == points && 0 <= t.dex < 700
    ensures Playable(After(c, points))
  {
  }

  lemma Sum(a: Total, b: Total, points: int, gained: int)
    requires COST * (a.turns + a.blows) + a.dex == points
    requires COST * (b.turns + b.blows) + b.dex == a.dex + gained
    ensures COST * ((a.turns + b.turns) + (a.blows + b.blows)) + b.dex == points + gained
  {
  }

  lemma {:induction false} Balance(mob: bool, c: Casting, dex: int, beats: seq<Beat>)
    requires Playable(c) && forall i :: 0 <= i < |beats| ==> Playable(beats[i].casting)
    requires 0 <= dex && (mob || beats == [] ==> dex < COST)
    requires mob ==> forall i :: 0 <= i < |beats| ==> beats[i].gain >= COST
    ensures var t := RunOf(mob, c, dex, beats);
      COST * (t.turns + t.blows) + t.dex == dex + Gained(beats) && 0 <= t.dex < COST
    decreases |beats|
  {
    hide Payment;
    hide After;
    hide Playable;
    if beats != [] {
      var now := if beats[0].change then beats[0].casting else c;
      var points := dex + beats[0].gain;
      assert points == (if mob && dex >= beats[0].gain then 0 else dex) + beats[0].gain;
      PaymentBalances(now, points);
      var paid := Payment(now, points);
      Balance(mob, After(now, points), paid.dex, beats[1..]);
      Sum(paid, RunOf(mob, After(now, points), paid.dex, beats[1..]), points, Gained(beats[1..]));
    }
  }

  /** No point is lost or made over any run of ticks, however skills start, span ticks, end
      or are broken off between them. Each gain of a mob is its dexterity plus 700, so its
      dropping of points never happens. */
  lemma PointsAreConserved(mob: bool, c: Casting, dex: int, beats: seq<Beat>)
    requires Playable(c) && forall i :: 0 <= i < |beats| ==> Playable(beats[i].casting)
    requires 0 <= dex && (mob || beats == [] ==> dex < 700)
    requires mob ==> forall i :: 0 <= i < |beats| ==> beats[i].gain >= 700
    ensures var t := RunOf(mob, c, dex, beats);
      && t.turns + t.blows == (dex + Gained(beats)) / 700
      && t.dex == (dex + Gained(beats)) % 700
  {
    Balance(mob, c, dex, beats);
  }
}
