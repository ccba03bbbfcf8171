/** Who fights whom: target lists of players and mobs, updated from both sides. */
module Targets {

  datatype Act = Stand | Fight | Death | Regen | Rest

  /** What matters of one body, for any kind of names `T`. */
  datatype Stance<T> = Stance(act: Act, target: seq<T>)

  type World<T> = map<T, Stance<T>>

  // ---- the steps on values --------------------------------------------------

  /** Python `list.remove`: the first occurrence goes. */
  function Without<T(==)>(s: seq<T>, x: T): seq<T> {
    if s == [] then []
    else if s[0] == x then s[1..]
    else [s[0]] + Without(s[1..], x)
  }

  function SetTarget<T(==)>(w: World<T>, a: T, b: T): World<T>
    requires a in w && b in w && a != b
  {
    w[a := Stance(Fight, if b in w[a].target then w[a].target else w[a].target + [b])]
     [b := Stance(Fight, w[b].target)]
  }

  function Eased<T>(s: Stance<T>): Stance<T> {
    if s.act == Fight && s.target == [] then Stance(Stand, []) else s
  }

  /** `clearTarget(ob)`: both lists lose the other, and who has no target left stands. */
  function Clear<T(==)>(w: World<T>, a: T, b: T): World<T>
    requires a in w && b in w && a != b
  {
    w[a := Eased(Stance(w[a].act, Without(w[a].target, b)))]
     [b := Eased(Stance(w[b].act, Without(w[b].target, a)))]
  }

  predicate Closed<T(!new)>(w: World<T>) {
    forall a, b :: a in w && b in w[a].target ==> b in w && b != a
  }

  /** `clearTarget()` over a copy of the list. */
  function ClearEach<T(==)>(w: World<T>, a: T, bs: seq<T>): (w': World<T>)
    requires a in w && forall b :: b in bs ==> b in w && b != a
    ensures w'.Keys == w.Keys
  {
    if bs == [] then w else ClearEach(Clear(w, a, bs[0]), a, bs[1..])
  }

  /** `setFight` on two bodies: a dead attacker does nothing; without `mode` both lists are
      extended before the usual two `setTarget` calls. */
  function Meet<T(==)>(w: World<T>, a: T, b: T, mode: bool): World<T>
    requires a in w && b in w && a != b
  {
    SetTarget(SetTarget(Greeted(w, a, b, mode), a, b), b, a)
  }

  function Greeted<T(==)>(w: World<T>, a: T, b: T, mode: bool): World<T>
    requires a in w && b in w && a != b
  {
    if mode then w[a := Stance(Fight, w[a].target)][b := Stance(Fight, w[b].target)]
    else w[a := Stance(Fight, w[a].target + [b])][b := Stance(Fight, w[b].target + [a])]
  }

  /** The mobs in the room that join in, one after the other. */
  function Join<T(==)>(w: World<T>, a: T, room: seq<T>): (w': World<T>)
    requires a in w && forall o :: o in room ==> o in w && o != a
    ensures w'.Keys == w.Keys
  {
    if room == [] then w
    else
      var o := room[0];
      if o !in w[a].target && w[o].act == Stand
      then Join(SetTarget(SetTarget(w, a, o), o, a), a, room[1..])
      else Join(w, a, room[1..])
  }

  function SetFight<T(==)>(w: World<T>, a: T, b: T, mode: bool, room: seq<T>): World<T>
    requires a in w && b in w && a != b && forall o :: o in room ==> o in w && o != a
  {
    if w[a].act == Death then w else Join(Meet(w, a, b, mode), a, room)
  }

  function Die<T(==)>(w: World<T>, a: T): World<T>
    requires a in w && forall b :: b in w[a].target ==> b in w && b != a
  {
    ClearEach(w[a := Stance(Death, w[a].target)], a, w[a].target)
  }

  // ---- the invariant ----------------------------------------------------------

  predicate NoRepeats<T(==)>(s: seq<T>) {
    forall i, j :: 0 <= i < j < |s| ==> s[i] != s[j]
  }

  /** Lists without repeats, fights that are mutual, and fighting exactly with a target;
      the `dying` may still have targets though they no longer fight. */
  ghost predicate FairBut<T(!new)>(w: World<T>, dying: set<T>) {
    && (forall a :: a in w ==> NoRepeats(w[a].target))
    && (forall a :: a in w ==>
          if a in dying then w[a].act != Fight else (w[a].act == Fight <==> w[a].target != []))
    && (forall a, b :: a in w && b in w[a].target ==> b in w && b != a)
    && (forall a, b :: a in w && b in w ==> (b in w[a].target <==> a in w[b].target))
  }

  ghost predicate Fair<T(!new)>(w: World<T>) { FairBut(w, {}) }

  lemma {:induction false} WithoutOthers<T>(s: seq<T>, x: T, y: T)
    requires y != x
    ensures y in Without(s, x) <==> y in s
    decreases |s|
  {
    if s != [] {
      if s[0] != x { WithoutOthers(s[1..], x, y); }
      assert s == [s[0]] + s[1..];
    }
  }

  lemma {:induction false} WithoutAbsent<T>(s: seq<T>, x: T)
    ensures x !in s ==> Without(s, x) == s
    decreases |s|
  {
    if s != [] {
      assert s == [s[0]] + s[1..];
      WithoutAbsent(s[1..], x);
    }
  }

  lemma ConsNoRepeats<T>(h: T, t: seq<T>)
    ensures NoRepeats([h] + t) <==> h !in t && NoRepeats(t)
  {
    if h !in t && NoRepeats(t) {
      assert forall i :: 0 < i < |[h] + t| ==> ([h] + t)[i] == t[i - 1];
    }
    if NoRepeats([h] + t) {
      assert ([h] + t)[0] == h;
      assert forall i :: 0 <= i < |t| ==> t[i] == ([h] + t)[i + 1];
    }
  }

  lemma {:induction false} WithoutOnce<T>(s: seq<T>, x: T)
    requires NoRepeats(s)
    ensures NoRepeats(Without(s, x)) && x !in Without(s, x)
    ensures x !in s ==> Without(s, x) == s
    decreases |s|
  {
    if s != [] {
      assert s == [s[0]] + s[1..];
      ConsNoRepeats(s[0], s[1..]);
      if s[0] != x {
        WithoutOnce(s[1..], x);
        WithoutOthers(s[1..], x, s[0]);
        ConsNoRepeats(s[0], Without(s[1..], x));
      }
    }
  }

  lemma AppendNoRepeats<T>(s: seq<T>, x: T)
    requires NoRepeats(s) && x !in s
    ensures NoRepeats(s + [x])
  {
  }

  // ---- every step keeps the invariant ------------------------------------------------

  /** Two `setTarget` calls, one from each side, on bodies that are about to fight. */
  function Both<T(==)>(w: World<T>, a: T, b: T): World<T>
    requires a in w && b in w && a != b
  {
    SetTarget(SetTarget(w, a, b), b, a)
  }

  lemma BothIs<T>(w: World<T>, a: T, b: T)
    requires a in w && b in w && a != b
    ensures Both(w, a, b) ==
      w[a := Stance(Fight, if b in w[a].target then w[a].target else w[a].target + [b])]
       [b := Stance(Fight, if a in w[b].target then w[b].target else w[b].target + [a])]
  {
  }

  lemma BothIsFair<T(!new)>(w: World<T>, a: T, b: T)
    requires Fair(w) && a in w && b in w && a != b
    ensures Fair(Both(w, a, b))
  {
    if b !in w[a].target {
      AppendNoRepeats(w[a].target, b);
      AppendNoRepeats(w[b].target, a);
    }
    hide NoRepeats;
    hide Fair;
    BothIs(w, a, b);
    hide Both;
    Paired(w, a, b, if b in w[a].target then w[a].target else w[a].target + [b],
      if a in w[b].target then w[b].target else w[b].target + [a]);
  }

  lemma Paired<T(!new)>(w: World<T>, a: T, b: T, ta: seq<T>, tb: seq<T>)
    requires Fair(w) && a in w && b in w && a != b && NoRepeats(ta) && NoRepeats(tb)
    requires forall x :: x in ta <==> x in w[a].target || x == b
    requires forall x :: x in tb <==> x in w[b].target || x == a
    ensures Fair(w[a := Stance(Fight, ta)][b := Stance(Fight, tb)])
  {
    hide NoRepeats;
  }

  lemma ClearIsFair<T(!new)>(w: World<T>, a: T, b: T, dying: set<T>)
    requires FairBut(w, dying) && a in w && b in w && a != b
    ensures FairBut(Clear(w, a, b), dying)
    ensures b !in Clear(w, a, b)[a].target
    ensures forall x :: x != b ==> (x in Clear(w, a, b)[a].target <==> x in w[a].target)
  {
    hide NoRepeats;
    hide Without;
    WithoutOnce(w[a].target, b);
    WithoutOnce(w[b].target, a);
    forall x | x != b ensures x in Without(w[a].target, b) <==> x in w[a].target {
      WithoutOthers(w[a].target, b, x);
    }
    forall x | x != a ensures x in Without(w[b].target, a) <==> x in w[b].target {
      WithoutOthers(w[b].target, a, x);
    }
  }

  /** Clearing a list of bodies keeps the invariant and takes them all off the list. */
  lemma {:induction false} ClearEachIsFair<T(!new)>(w: World<T>, a: T, bs: seq<T>, dying: set<T>)
    requires FairBut(w, dying) && a in w && forall b :: b in bs ==> b in w && b != a
    ensures FairBut(ClearEach(w, a, bs), dying)
    ensures forall x :: x in ClearEach(w, a, bs)[a].target <==> x in w[a].target && x !in bs
    decreases |bs|
  {
    if bs != [] {
      ClearIsFair(w, a, bs[0], dying);
      assert bs == [bs[0]] + bs[1..];
      hide FairBut;
      ClearEachIsFair(Clear(w, a, bs[0]), a, bs[1..], dying);
    }
  }

  lemma Nobody<T>(s: seq<T>)
    ensures s != [] ==> exists x :: x in s
  {
    assert s != [] ==> s[0] in s;
  }

  /** After a death nobody fights the dead, and the dead fights nobody. */
  lemma DieIsFair<T(!new)>(w: World<T>, a: T)
    requires Fair(w) && a in w
    ensures Fair(Die(w, a)) && Die(w, a)[a].target == []
    ensures forall b :: b in w ==> a !in Die(w, a)[b].target
  {
    var dying := w[a := Stance(Death, w[a].target)];
    assert FairBut(dying, {a});
    ClearEachIsFair(dying, a, w[a].target, {a});
    var after := Die(w, a);
    Nobody(after[a].target);
  }

  lemma ClearAllIsFair<T(!new)>(w: World<T>, a: T)
    requires Fair(w) && a in w
    ensures Fair(ClearEach(w, a, w[a].target))
    ensures ClearEach(w, a, w[a].target)[a].target == []
  {
    ClearEachIsFair(w, a, w[a].target, {});
    var after := ClearEach(w, a, w[a].target);
    Nobody(after[a].target);
  }

  // ---- starting a fight -----------------------------------------------------------

  /** The early appends of `setFight` change nothing if the two are no targets yet. */
  lemma MeetIsBoth<T>(w: World<T>, a: T, b: T, mode: bool)
    requires a in w && b in w && a != b
    requires mode || (b !in w[a].target && a !in w[b].target)
    ensures Meet(w, a, b, mode) == Both(w, a, b)
  {
  }

  lemma {:induction false} JoinIsFair<T(!new)>(w: World<T>, a: T, room: seq<T>)
    requires Fair(w) && a in w && forall o :: o in room ==> o in w && o != a
    ensures Fair(Join(w, a, room))
    decreases |room|
  {
    if room != [] {
      var o := room[0];
      if o !in w[a].target && w[o].act == Stand {
        BothIsFair(w, a, o);
        hide FairBut;
        JoinIsFair(Both(w, a, o), a, room[1..]);
      } else {
        hide FairBut;
        JoinIsFair(w, a, room[1..]);
      }
    }
  }

  /** Of the mobs that may join in, exactly those join that stand and are no targets yet:
      they fight, and each is a target of the other. All others stay as they are. */
  lemma {:induction false} JoinIsForStanding<T(!new)>(w: World<T>, a: T, room: seq<T>)
    requires a in w && forall o :: o in room ==> o in w && o != a
    ensures var w' := Join(w, a, room);
      forall o :: o in w && o != a ==>
        if o in room && w[o].act == Stand && o !in w[a].target then
          && w'[o].act == Fight && o in w'[a].target && a in w'[o].target
          && (forall x :: x in w'[o].target <==> x in w[o].target || x == a)
        else w'[o] == w[o] && (o in w'[a].target <==> o in w[a].target)
    decreases |room|
  {
    if room != [] {
      var o := room[0];
      assert forall x :: x in room <==> x == o || x in room[1..];
      if o !in w[a].target && w[o].act == Stand {
        BothIs(w, a, o);
        JoinIsForStanding(Both(w, a, o), a, room[1..]);
      } else {
        JoinIsForStanding(w, a, room[1..]);
      }
    }
  }

  /** A fight that is started: the two are each other's targets and fight, and the mobs of
      the room that stand join in. */
  lemma SetFightMeans<T(!new)>(w: World<T>, a: T, b: T, mode: bool, room: seq<T>, o: T)
    requires a in w && b in w && a != b && (forall o :: o in room ==> o in w && o != a) && o in w && o != a && o != b
    ensures var w' := SetFight(w, a, b, mode, room);
      if w[a].act == Death then w' == w
      else
        && w'[a].act == w'[b].act == Fight && b in w'[a].target && a in w'[b].target
        && (if o in room && w[o].act == Stand && o !in w[a].target
            then w'[o].act == Fight && o in w'[a].target && a in w'[o].target
            else w'[o] == w[o] && (o in w'[a].target <==> o in w[a].target))
  {
    if w[a].act != Death {
      var met := Meet(w, a, b, mode);
      MeetMeans(w, a, b, mode);
      JoinIsForStanding(met, a, room);
      JoinGrows(met, a, room);
      JoinFights(met, a, room);
    }
  }

  lemma MeetMeans<T>(w: World<T>, a: T, b: T, mode: bool)
    requires a in w && b in w && a != b
    ensures var w' := Meet(w, a, b, mode);
      && w'.Keys == w.Keys && w'[a].act == w'[b].act == Fight && b in w'[a].target && a in w'[b].target
      && (forall o :: o in w && o != a && o != b ==> w'[o] == w[o])
      && (forall x :: x in w'[a].target <==> x in w[a].target || x == b)
      && (forall x :: x in w'[b].target <==> x in w[b].target || x == a)
  {
  }

  lemma {:induction false} JoinFights<T>(w: World<T>, a: T, room: seq<T>)
    requires a in w && (forall o :: o in room ==> o in w && o != a) && w[a].act == Fight
    ensures Join(w, a, room)[a].act == Fight
    decreases |room|
  {
    if room != [] {
      var o := room[0];
      if o !in w[a].target && w[o].act == Stand {
        JoinFights(Both(w, a, o), a, room[1..]);
      } else {
        JoinFights(w, a, room[1..]);
      }
    }
  }

  lemma {:induction false} JoinGrows<T>(w: World<T>, a: T, room: seq<T>)
    requires a in w && forall o :: o in room ==> o in w && o != a
    ensures w[a].target <= Join(w, a, room)[a].target
    decreases |room|
  {
    if room != [] {
      var o := room[0];
      if o !in w[a].target && w[o].act == Stand {
        assert w[a].target <= Both(w, a, o)[a].target;
        JoinGrows(Both(w, a, o), a, room[1..]);
      } else {
        JoinGrows(w, a, room[1..]);
      }
    }
  }

  /** `setFight` keeps the invariant exactly when its guard holds: the attacker is dead, or
      `mode` is set, or the two are not fighting yet. Without it the list gets a repeat. */
  lemma SetFightIsFairIff<T(!new)>(w: World<T>, a: T, b: T, mode: bool, room: seq<T>)
    requires Fair(w) && a in w && b in w && a != b && forall o :: o in room ==> o in w && o != a
    ensures Fair(SetFight(w, a, b, mode, room)) <==> w[a].act == Death || mode || b !in w[a].target
  {
    if w[a].act != Death {
      if mode || b !in w[a].target {
        MeetIsBoth(w, a, b, mode);
        BothIsFair(w, a, b);
        JoinIsFair(Both(w, a, b), a, room);
      } else {
        var met := Meet(w, a, b, mode);
        RepeatStays(w, a, b);
        JoinGrows(met, a, room);
        PrefixRepeats(met[a].target, Join(met, a, room)[a].target);
      }
    }
  }

  lemma RepeatStays<T>(w: World<T>, a: T, b: T)
    requires a in w && b in w && a != b && b in w[a].target
    ensures !NoRepeats(Meet(w, a, b, false)[a].target)
  {
    var s := w[a].target;
    var i :| 0 <= i < |s| && s[i] == b;
    assert (s + [b])[i] == (s + [b])[|s|];
    assert Meet(w, a, b, false)[a].target == s + [b];
  }

  lemma PrefixRepeats<T>(s: seq<T>, t: seq<T>)
    requires s <= t && !NoRepeats(s)
    ensures !NoRepeats(t)
  {
    var i, j :| 0 <= i < j < |s| && s[i] == s[j];
    assert t[i] == t[j];
  }

  // ---- runs ---------------------------------------------------------------------------

  /** What can happen: fights start under their guard, targets are cleared, bodies die, and
      bodies without targets stand, rest, vanish or come back. */
  datatype Step<T> =
    | Attack(a: T, b: T, mode: bool, room: seq<T>)
    | Part(a: T, b: T)
    | PartAll(a: T)
    | Perish(a: T)
    | Turn(a: T, act: Act)

  /** The guards of the callers. */
  ghost predicate Allowed<T>(w: World<T>, s: Step<T>) {
    match s
    case Attack(a, b, mode, room) =>
      && a in w && b in w && a != b && (forall o :: o in room ==> o in w && o != a)
      && (w[a].act == Death || mode || b !in w[a].target)
    case Part(a, b) => a in w && b in w && a != b
    case PartAll(a) => a in w
    case Perish(a) => a in w
    case Turn(a, act) => a in w && w[a].target == [] && act != Fight
  }

  /** A step is meant for worlds in which all targets are bodies of the world; elsewhere, or
      against the guards, it is nothing. */
  ghost function After<T(!new)>(w: World<T>, s: Step<T>): World<T> {
    if !Allowed(w, s) || !Closed(w) then w
    else
      match s
      case Attack(a, b, mode, room) => SetFight(w, a, b, mode, room)
      case Part(a, b) => Clear(w, a, b)
      case PartAll(a) => ClearEach(w, a, w[a].target)
      case Perish(a) => Die(w, a)
      case Turn(a, act) => w[a := Stance(act, [])]
  }

  lemma StepIsFair<T(!new)>(w: World<T>, s: Step<T>)
    requires Fair(w) && Allowed(w, s)
    ensures Closed(w) && Fair(After(w, s))
  {
    match s
    case Attack(a, b, mode, room) => SetFightIsFairIff(w, a, b, mode, room);
    case Part(a, b) => ClearIsFair(w, a, b, {});
    case PartAll(a) => ClearAllIsFair(w, a);
    case Perish(a) => DieIsFair(w, a);
    case Turn(a, act) =>
  }

  /** The guard of an attack is exact: without it the world would not stay fair. */
  lemma AttackIsAllowedIff<T(!new)>(w: World<T>, a: T, b: T, mode: bool, room: seq<T>)
    requires Fair(w) && a in w && b in w && a != b && forall o :: o in room ==> o in w && o != a
    ensures Allowed(w, Attack(a, b, mode, room)) <==> Fair(SetFight(w, a, b, mode, room))
  {
    hide FairBut;
    SetFightIsFairIff(w, a, b, mode, room);
  }

  /** The world after the first `k` steps. */
  ghost function WorldAt<T(!new)>(w: World<T>, steps: seq<Step<T>>, k: nat): World<T>
    requires k <= |steps|
  {
    if k == 0 then w else After(WorldAt(w, steps, k - 1), steps[k - 1])
  }

  /** A run in which every step obeys the guards in the world it meets. */
  ghost predicate Legal<T(!new)>(w: World<T>, steps: seq<Step<T>>) {
    forall k :: 0 <= k < |steps| ==> Allowed(WorldAt(w, steps, k), steps[k])
  }

  /** Over any run that obeys the guards, from a fair world, fights are mutual and without
      repeats and a body fights iff it has a target, in every world on the way. */
  lemma {:induction false} RunsStayFair<T(!new)>(w: World<T>, steps: seq<Step<T>>, k: nat)
    requires Fair(w) && Legal(w, steps) && k <= |steps|
    ensures Fair(WorldAt(w, steps, k))
    decreases k
  {
    hide FairBut;
    hide Allowed;
    hide After;
    if k > 0 {
      RunsStayFair(w, steps, k - 1);
      StepIsFair(WorldAt(w, steps, k - 1), steps[k - 1]);
    }
  }

  lemma PeaceIsFair<T(!new)>(w: World<T>)
    requires forall a :: a in w ==> w[a].act != Fight && w[a].target == []
    ensures Fair(w)
  {
  }
}

/** The same steps on bodies that update their fields in place. */
module Bodies {
  import T = Targets

  /** What the bodies of a place look like together. */
  ghost function View(all: set<Body>): T.World<Body>
    reads all
  {
    map b | b in all :: T.Stance(b.act, b.target)
  }

  class Body {
    var act: T.Act
    var target: seq<Body>

    constructor ()
      ensures act == T.Stand && target == []
    {
      act := T.Stand;
      target := [];
    }

    method SetTarget(ob: Body, ghost all: set<Body>)
      requires this in all && ob in all && ob != this
      modifies this, ob
      ensures View(all) == T.SetTarget(old(View(all)), this, ob)
    {
      act := T.Fight;
      ob.act := T.Fight;
      if ob !in target {
        target := target + [ob];
      }
    }

    /** One side's list loses the other. */
    method Forget(ob: Body)
      modifies this`target
      ensures target == T.Without(old(target), ob)
    {
      T.WithoutAbsent(target, ob);
      if ob in target {
        target := T.Without(target, ob);
      }
    }

    /** Who fights without a target stands. */
    method Ease()
      modifies this`act
      ensures T.Stance(act, target) == T.Eased(T.Stance(old(act), target))
    {
      if act == T.Fight && |target| == 0 {
        act := T.Stand;
      }
    }

    /** `clearTarget(ob)`: both lists are searched before anyone stands. */
    method ClearTarget(ob: Body, ghost all: set<Body>)
      requires this in all && ob in all && ob != this
      modifies this, ob
      ensures View(all) == T.Clear(old(View(all)), this, ob)
    {
      hide T.Without;
      Forget(ob);
      ob.Forget(this);
      Ease();
      ob.Ease();
    }

    /** `clearTarget()`: over a copy, since each call shortens the list. */
    method ClearTargets(ghost all: set<Body>)
      requires this in all && forall b :: b in target ==> b in all && b != this
      modifies all
      ensures View(all) == T.ClearEach(old(View(all)), this, old(target))
    {
      var copy := target;
      for i := 0 to |copy|
        invariant copy == old(target)
        invariant T.ClearEach(View(all), this, copy[i..]) == T.ClearEach(old(View(all)), this, copy)
      {
        assert copy[i] in copy;
        assert copy[i..][1..] == copy[i + 1..];
        ClearTarget(copy[i], all);
      }
    }

    /** The part of `setFight` that concerns the two opponents. */
    method Meet(mob: Body, mode: bool, ghost all: set<Body>)
      requires this in all && mob in all && mob != this
      modifies this, mob
      ensures View(all) == T.Meet(old(View(all)), this, mob, mode)
    {
      if !mode {
        target := target + [mob];
        mob.target := mob.target + [this];
      }
      act := T.Fight;
      mob.act := T.Fight;
      ghost var w := View(all);
      assert w == T.Greeted(old(View(all)), this, mob, mode);
      SetTarget(mob, all);
      mob.SetTarget(this, all);
    }

    /** `setFight`, as far as target lists go: the two meet, then mobs of the room join in. */
    method SetFight(mob: Body, mode: bool, room: seq<Body>, ghost all: set<Body>)
      requires this in all && mob in all && mob != this
      requires forall o :: o in room ==> o in all && o != this
      modifies all
      ensures View(all) == T.SetFight(old(View(all)), this, mob, mode, room)
    {
      if act == T.Death {
        return;
      }
      Meet(mob, mode, all);
      ghost var goal := T.SetFight(old(View(all)), this, mob, mode, room);
      assert room[0..] == room;
      hide T.SetTarget;
      hide T.Meet;
      for i := 0 to |room|
        invariant T.Join(View(all), this, room[i..]) == goal
      {
        var obj := room[i];
        assert obj in room;
        assert room[i..][1..] == room[i + 1..];
        if obj !in target && obj.act == T.Stand {
          SetTarget(obj, all);
          obj.SetTarget(this, all);
        }
      }
    }

    /** The target part of a death: the body is dead before its targets are cleared. */
    method Die(ghost all: set<Body>)
      requires this in all && forall b :: b in target ==> b in all && b != this
      modifies all
      ensures View(all) == T.Die(old(View(all)), this)
    {
      act := T.Death;
      assert View(all) == old(View(all))[this := T.Stance(T.Death, old(target))];
      ClearTargets(all);
    }
  }
}
