/** The two round robins of the main loop: moving mobs, thirty at a time, and zones, one a
    minute, each from the list of those not yet served. */
module Schedules {
  import opened Text

  function Range(a: nat, b: nat): (r: seq<nat>)
    ensures |r| == if a < b then b - a else 0
    ensures forall i :: 0 <= i < |r| ==> r[i] == a + i
    decreases b - a
  {
    if a >= b then [] else [a] + Range(a + 1, b)
  }

  lemma {:induction false} RangeJoin(a: nat, b: nat, c: nat)
    requires a <= b <= c
    ensures Range(a, b) + Range(b, c) == Range(a, c)
    decreases b - a
  {
    if a < b {
      RangeJoin(a + 1, b, c);
      assert [a] + (Range(a + 1, b) + Range(b, c)) == ([a] + Range(a + 1, b)) + Range(b, c);
    }
  }

  lemma RangeFirst(a: nat, b: nat)
    requires a < b
    ensures Range(a, b) == [a] + Range(a + 1, b)
  {
  }

  lemma {:induction false} RangeOnce(a: nat, b: nat, x: nat)
    ensures multiset(Range(a, b))[x] == if a <= x < b then 1 else 0
    decreases b - a
  {
    hide Range;
    if a < b {
      RangeOnce(a + 1, b, x);
      RangeFirst(a, b);
    }
  }

  // ---- moving mobs ------------------------------------------------------------------

  /** Where the next call starts, with 30 mobs looked at in a call. */
  function Next(n: nat, at: nat): (r: nat)
    ensures n > 0 ==> r < n
  {
    if at + 30 >= n then 0 else at + 30
  }

  /** The mobs that one call looks at. */
  function Batch(n: nat, at: nat): seq<nat> {
    Range(at, if at + 30 < n then at + 30 else n)
  }

  function LookedAt(n: nat, at: nat, calls: nat): seq<nat>
    decreases calls
  {
    if calls == 0 then [] else Batch(n, at) + LookedAt(n, Next(n, at), calls - 1)
  }

  /** Places the order counter can be at, once it has started from 0. */
  predicate Reachable(n: nat, at: nat) { at < n && at % 30 == 0 }

  lemma NextIsReachable(n: nat, at: nat)
    requires Reachable(n, at)
    ensures Reachable(n, 0) && Reachable(n, Next(n, at))
  {
  }

  /** Calls enough for all mobs. */
  function Round(n: nat): nat { (n + 29) / 30 }

  /** Calls that do not come round to the start again just go on. */
  lemma {:induction false} GoesOn(n: nat, at: nat, calls: nat, more: nat)
    requires at + 30 * calls < n
    ensures LookedAt(n, at, calls + more) == Range(at, at + 30 * calls) + LookedAt(n, at + 30 * calls, more)
    decreases calls
  {
    if calls == 0 {
      assert Range(at, at) + LookedAt(n, at, more) == LookedAt(n, at, more);
    } else {
      CallOn(n, at, calls + more);
      hide LookedAt;
      hide Range;
      GoesOn(n, at + 30, calls - 1, more);
      RangeJoin(at, at + 30, at + 30 * calls);
      Assoc(Range(at, at + 30), Range(at + 30, at + 30 * calls), LookedAt(n, at + 30 * calls, more));
    }
  }

  lemma CallOn(n: nat, at: nat, calls: nat)
    requires at + 30 < n && calls > 0
    ensures LookedAt(n, at, calls) == Range(at, at + 30) + LookedAt(n, at + 30, calls - 1)
  {
    hide Range;
  }

  /** From call number `before` of a round on: `full` calls with thirty mobs each, one with
      the others, and then those from the start. */
  lemma RoundFrom(n: nat, before: nat, full: nat)
    requires 30 * before + 30 * full < n <= 30 * before + 30 * full + 30
    ensures LookedAt(n, 30 * before, full + (1 + before)) == Range(30 * before, n) + Range(0, 30 * before)
  {
    hide Range;
    var at := 30 * before;
    var last := at + 30 * full;
    var first := LookedAt(n, 0, before);
    GoesOn(n, at, full, 1 + before);
    assert LookedAt(n, last, 1 + before) == Range(last, n) + first;
    RangeJoin(at, last, n);
    Assoc(Range(at, last), Range(last, n), first);
    GoesOn(n, 0, before, 0);
    assert before + 0 == before && Range(0, at) + [] == Range(0, at);
  }

  /** From a reachable place, a round looks at the mobs from there to the end, and then at
      those before. */
  lemma RoundIs(n: nat, at: nat)
    requires Reachable(n, at)
    ensures LookedAt(n, at, Round(n)) == Range(at, n) + Range(0, at)
  {
    hide *;
    var before, full := RoundParts(n, at);
    RoundFrom(n, before, full);
  }

  lemma RoundParts(n: nat, at: nat) returns (before: nat, full: nat)
    requires Reachable(n, at)
    ensures at == 30 * before && full + (1 + before) == Round(n)
    ensures 30 * before + 30 * full < n <= 30 * before + 30 * full + 30
  {
    before := at / 30;
    full := (n - 1) / 30 - before;
  }

  /** Any round of calls looks at every mob exactly once. */
  lemma EveryMobOnce(n: nat, at: nat, mob: nat)
    requires Reachable(n, at)
    ensures multiset(LookedAt(n, at, Round(n)))[mob] == if mob < n then 1 else 0
  {
    RoundIs(n, at);
    RangeOnce(at, n, mob);
    RangeOnce(0, at, mob);
  }

  /** Holes in the list of mobs are passed over. */
  function Present(mobs: seq<Option<string>>, places: seq<nat>): seq<nat> {
    if places == [] then []
    else if places[0] < |mobs| && mobs[places[0]].Some? then [places[0]] + Present(mobs, places[1..])
    else Present(mobs, places[1..])
  }

  lemma {:induction false} PresentCounts(mobs: seq<Option<string>>, places: seq<nat>, x: nat)
    ensures multiset(Present(mobs, places))[x] ==
      if x < |mobs| && mobs[x].Some? then multiset(places)[x] else 0
    decreases |places|
  {
    if places != [] {
      PresentCounts(mobs, places[1..], x);
      assert places == [places[0]] + places[1..];
    }
  }

  class Movers {
    var mobs: seq<Option<string>>
    var order: nat

    /** `updateMoving`: which mobs are told to move. */
    method UpdateMoving() returns (moved: seq<nat>)
      modifies this`order
      ensures moved == Present(mobs, Batch(|mobs|, old(order)))
      ensures |mobs| > 0 ==> order == Next(|mobs|, old(order))
      ensures |mobs| == 0 ==> order == old(order)
    {
      moved := [];
      if |mobs| == 0 {
        return;
      }
      ghost var start, all := order, Batch(|mobs|, order);
      for n := 0 to 30
        invariant order == start + n && (n > 0 ==> order <= |mobs|)
        invariant moved + Present(mobs, Rest(|mobs|, start, order)) == Present(mobs, all)
      {
        if order >= |mobs| {
          order := 0;
          break;
        }
        RestStep(|mobs|, start, order);
        if mobs[order].Some? {
          Assoc(moved, [order], Present(mobs, Rest(|mobs|, start, order + 1)));
          moved := moved + [order];
        }
        order := order + 1;
      }
      if order >= |mobs| {
        order := 0;
      }
    }

    /** A round of calls tells every mob that is there to move, exactly once. */
    method UpdateRound(ghost mob: nat) returns (moved: seq<nat>)
      requires Reachable(|mobs|, order)
      modifies this`order
      ensures Reachable(|mobs|, order) && mobs == old(mobs)
      ensures mob < |mobs| && mobs[mob].Some? ==> multiset(moved)[mob] == 1
      ensures moved == Present(mobs, LookedAt(|mobs|, old(order), Round(|mobs|)))
    {
      hide *;
      moved := [];
      ghost var looked := LookedAt(|mobs|, order, Round(|mobs|));
      ghost var start := order;
      var left := Round(|mobs|);
      while left > 0
        invariant Reachable(|mobs|, order)
        invariant moved + Present(mobs, LookedAt(|mobs|, order, left)) == Present(mobs, looked)
        decreases left
      {
        OneCall(mobs, order, left, moved);
        NextIsReachable(|mobs|, order);
        var more := UpdateMoving();
        left := left - 1;
        moved := moved + more;
      }
      NoCalls(mobs, order);
      EveryMobOnce(|mobs|, start, mob);
      PresentCounts(mobs, looked, mob);
    }
  }

  lemma OneCall(mobs: seq<Option<string>>, at: nat, calls: nat, moved: seq<nat>)
    requires calls > 0
    ensures Reachable(|mobs|, at) ==> |mobs| > 0
    ensures moved + Present(mobs, LookedAt(|mobs|, at, calls))
      == (moved + Present(mobs, Batch(|mobs|, at))) + Present(mobs, LookedAt(|mobs|, Next(|mobs|, at), calls - 1))
  {
    var first, later := Batch(|mobs|, at), LookedAt(|mobs|, Next(|mobs|, at), calls - 1);
    PresentJoin(mobs, first, later);
    Assoc(moved, Present(mobs, first), Present(mobs, later));
  }

  lemma NoCalls(mobs: seq<Option<string>>, at: nat)
    ensures Present(mobs, LookedAt(|mobs|, at, 0)) == []
  {
  }

  /** What a call has still to look at. */
  ghost function Rest(n: nat, start: nat, at: nat): seq<nat> {
    Range(at, if start + 30 < n then start + 30 else n)
  }

  lemma RestStep(n: nat, start: nat, at: nat)
    requires start <= at < n && at < start + 30
    ensures Rest(n, start, at) == [at] + Rest(n, start, at + 1)
  {
  }

  lemma {:induction false} PresentJoin(mobs: seq<Option<string>>, a: seq<nat>, b: seq<nat>)
    ensures Present(mobs, a + b) == Present(mobs, a) + Present(mobs, b)
    decreases |a|
  {
    if a == [] {
      assert a + b == b;
    } else {
      assert (a + b)[1..] == a[1..] + b;
      PresentJoin(mobs, a[1..], b);
    }
  }

  // ---- zones --------------------------------------------------------------------------

  /** The list after a zone is taken from its end; an empty list is filled up first. */
  function Filled(keys: seq<string>, list: seq<string>): seq<string> {
    if list == [] then keys else list
  }

  function Popped(keys: seq<string>, list: seq<string>, calls: nat): seq<string>
    requires keys != []
    decreases calls
  {
    if calls == 0 then []
    else
      var full := Filled(keys, list);
      [full[|full| - 1]] + Popped(keys, full[..|full| - 1], calls - 1)
  }

  function Reversed(s: seq<string>): (r: seq<string>)
    ensures |r| == |s|
  {
    if s == [] then [] else [s[|s| - 1]] + Reversed(s[..|s| - 1])
  }

  lemma {:induction false} ReversedHas(s: seq<string>)
    ensures multiset(Reversed(s)) == multiset(s)
    decreases |s|
  {
    if s != [] {
      ReversedHas(s[..|s| - 1]);
      assert s == s[..|s| - 1] + [s[|s| - 1]];
    }
  }

  /** As long as the list lasts, it is served from its end. */
  lemma {:induction false} ListFirst(keys: seq<string>, list: seq<string>, more: nat)
    requires keys != []
    ensures Popped(keys, list, |list| + more) == Reversed(list) + Popped(keys, [], more)
    decreases |list|
  {
    hide Popped;
    hide Reversed;
    var served := Popped(keys, [], more);
    if list == [] {
      assert Reversed(list) + served == served;
    } else {
      var front, last := list[..|list| - 1], [list[|list| - 1]];
      OnePop(keys, list, |front| + more);
      ListFirst(keys, front, more);
      ReversedLast(list);
      Assoc(last, Reversed(front), served);
    }
  }

  lemma OnePop(keys: seq<string>, list: seq<string>, calls: nat)
    requires keys != [] && list != []
    ensures Popped(keys, list, calls + 1) == [list[|list| - 1]] + Popped(keys, list[..|list| - 1], calls)
  {
  }

  lemma ReversedLast(list: seq<string>)
    requires list != []
    ensures Reversed(list) == [list[|list| - 1]] + Reversed(list[..|list| - 1])
  {
  }

  lemma {:induction false} ListEnd(keys: seq<string>, a: seq<string>, b: seq<string>)
    requires keys != []
    ensures Popped(keys, a + b, |b|) == Reversed(b)
    decreases |b|
  {
    if b != [] {
      var front, last := b[..|b| - 1], b[|b| - 1];
      ListEnd(keys, a, front);
      var all := a + b;
      assert all[..|all| - 1] == a + front && all[|all| - 1] == last;
      assert Popped(keys, all, |b|) == [last] + Popped(keys, a + front, |front|);
    }
  }

  lemma EmptyIsFull(keys: seq<string>, calls: nat)
    requires keys != []
    ensures Popped(keys, [], calls) == Popped(keys, keys, calls)
  {
  }

  /** Any |keys| calls in a row, from any list the loop can be at, serve every zone once. */
  lemma EveryZoneOnce(keys: seq<string>, list: seq<string>)
    requires keys != [] && list <= keys
    ensures multiset(Popped(keys, list, |keys|)) == multiset(keys)
  {
    hide Popped;
    hide Reversed;
    var others := keys[|list|..];
    ListFirst(keys, list, |others|);
    assert keys == list + others;
    ListEnd(keys, list, others);
    EmptyIsFull(keys, |others|);
    ReversedHas(list);
    ReversedHas(others);
  }

  /** The loop runs once a second and serves a zone every sixtieth time. */
  function Ticked(keys: seq<string>, list: seq<string>, cnt: nat, ticks: nat): seq<string>
    requires keys != []
    decreases ticks
  {
    if ticks == 0 then []
    else if cnt + 1 >= 60 then
      var full := Filled(keys, list);
      [full[|full| - 1]] + Ticked(keys, full[..|full| - 1], 0, ticks - 1)
    else Ticked(keys, list, cnt + 1, ticks - 1)
  }

  lemma {:induction false} TicksArePops(keys: seq<string>, list: seq<string>, cnt: nat, ticks: nat)
    requires keys != [] && cnt < 60
    ensures Ticked(keys, list, cnt, ticks) == Popped(keys, list, (cnt + ticks) / 60)
    decreases ticks
  {
    if ticks > 0 {
      if cnt + 1 >= 60 {
        var full := Filled(keys, list);
        TicksArePops(keys, full[..|full| - 1], 0, ticks - 1);
        assert (cnt + ticks) / 60 == (0 + (ticks - 1)) / 60 + 1;
      } else {
        TicksArePops(keys, list, cnt + 1, ticks - 1);
      }
    }
  }

  /** In any 60 * |keys| runs of the loop every zone is served exactly once. */
  lemma EveryZoneInTime(keys: seq<string>, list: seq<string>, cnt: nat)
    requires keys != [] && list <= keys && cnt < 60
    ensures multiset(Ticked(keys, list, cnt, 60 * |keys|)) == multiset(keys)
  {
    hide *;
    TicksArePops(keys, list, cnt, 60 * |keys|);
    assert (cnt + 60 * |keys|) / 60 == |keys|;
    EveryZoneOnce(keys, list);
  }

  class Loop {
    var zoneList: seq<string>
    var cnt: nat

    /** `updateZones`: the zone that is served; None stands for the IndexError of a world
        without zones. */
    method UpdateZones(keys: seq<string>) returns (zone: Option<string>)
      requires zoneList <= keys
      modifies this`zoneList
      ensures zoneList <= keys
      ensures keys == [] ==> zone == None && zoneList == []
      ensures keys != [] ==>
        zone.Some? && zoneList + [zone.value] == Filled(keys, old(zoneList))
    {
      if |zoneList| == 0 {
        zoneList := keys;
      }
      if zoneList == [] {
        return None;
      }
      zone := Some(zoneList[|zoneList| - 1]);
      zoneList := zoneList[..|zoneList| - 1];
    }

    /** The part of `run` that serves zones. */
    method Run(keys: seq<string>) returns (served: seq<string>)
      requires keys != [] && zoneList <= keys && cnt < 60
      modifies this
      ensures zoneList <= keys && cnt < 60
      ensures forall ticks: nat ::
        Ticked(keys, old(zoneList), old(cnt), 1 + ticks) == served + Ticked(keys, zoneList, cnt, ticks)
    {
      served := [];
      ghost var full := Filled(keys, zoneList);
      cnt := cnt + 1;
      if cnt >= 60 {
        cnt := 0;
        var zone := UpdateZones(keys);
        served := [zone.value];
        assert full[|full| - 1] == zone.value && full[..|full| - 1] == zoneList;
      }
    }
  }
}
