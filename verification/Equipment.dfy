/** Worn equipment: three commands that put things on, three ways of losing them, and the
    sums of armour, attack power and eleven options that all of them keep up to date. */
module Equipment {
  import opened Text

  /** The sums a player carries. */
  datatype Stat =
    | Armor | Attack | Strength | Dexterity | Toughness | MaxHp | MaxMp | Critical
    | CriticalChance | Miss | Hit | Experience | MagicChance

  type Stats = map<Stat, int>

  /** The option names that count, and the sum each of them goes to. */
  function StatOf(option: string): Option<Stat> {
    if option == "힘" then Some(Strength)
    else if option == "민첩성" then Some(Dexterity)
    else if option == "맷집" then Some(Toughness)
    else if option == "체력" then Some(MaxHp)
    else if option == "내공" then Some(MaxMp)
    else if option == "필살" then Some(Critical)
    else if option == "운" then Some(CriticalChance)
    else if option == "회피" then Some(Miss)
    else if option == "명중" then Some(Hit)
    else if option == "경험치" then Some(Experience)
    else if option == "마법발견" then Some(MagicChance)
    else None
  }

  /** What never changes about an item. */
  datatype Gear = Gear(
    index: string, kind: string, slot: string, defence: int, attack: int,
    options: seq<(string, int)>, tags: set<string>, names: seq<string>)

  function OptionSum(options: seq<(string, int)>, s: Stat): int {
    if options == [] then 0
    else OptionSum(options[..|options| - 1], s)
         + (if StatOf(options[|options| - 1].0) == Some(s) then options[|options| - 1].1 else 0)
  }

  /** What an item adds to a sum while it is worn. */
  function Weight(g: Gear, s: Stat): int {
    (if s == Armor then g.defence else if s == Attack then g.attack else 0) + OptionSum(g.options, s)
  }

  /** An inventory as the commands see it: the items in order, and which are worn. */
  datatype Slotted = Slotted(gear: Gear, worn: bool)
  type Inventory = seq<Slotted>

  function WornSum(inv: Inventory, s: Stat): int {
    if inv == [] then 0
    else (if inv[0].worn then Weight(inv[0].gear, s) else 0) + WornSum(inv[1..], s)
  }

  /** `checkArmed`. */
  predicate Taken(inv: Inventory, slot: string) {
    exists i :: 0 <= i < |inv| && inv[i].worn && inv[i].gear.slot == slot
  }

  predicate SlotsDiffer(inv: Inventory) {
    forall i, j :: 0 <= i < j < |inv| && inv[i].worn && inv[j].worn ==> inv[i].gear.slot != inv[j].gear.slot
  }

  ghost predicate Sums(inv: Inventory, stats: Stats) {
    forall s: Stat :: s in stats && stats[s] == WornSum(inv, s)
  }

  // ---- commands on values ----------------------------------------------------

  /** The five weapon masteries. */
  type Mastery = seq<int>

  predicate AllAtLeast(m: Mastery, bound: int) {
    forall i :: 0 <= i < |m| ==> m[i] >= bound
  }

  predicate Wearable(g: Gear) { g.kind == "방어구" || g.kind == "무기" }

  /** Weapons for masters are passed over by those who are not. */
  predicate Mastered(g: Gear, m: Mastery) {
    && ("올숙천무기" in g.tags ==> AllAtLeast(m, 1000))
    && ("올숙이천무기" in g.tags ==> AllAtLeast(m, 2000))
  }

  /** Which items a wear-all or set-wear command considers. */
  predicate Wanted(g: Gear, m: Mastery, setName: Option<string>) {
    Wearable(g) && Mastered(g, m) && (setName.Some? ==> setName.value in g.names)
  }

  /** The loop of wear-all and set-wear from item `i` on. */
  function WearFrom(inv: Inventory, m: Mastery, setName: Option<string>, i: nat): (r: Inventory)
    requires i <= |inv|
    ensures |r| == |inv|
    decreases |inv| - i
  {
    if i == |inv| then inv
    else if !inv[i].worn && Wanted(inv[i].gear, m, setName) && !Taken(inv, inv[i].gear.slot)
    then WearFrom(inv[i := Slotted(inv[i].gear, true)], m, setName, i + 1)
    else WearFrom(inv, m, setName, i + 1)
  }

  /** Wearing one item does not ask for a thousand points of mastery. */
  predicate MayWear(inv: Inventory, m: Mastery, i: nat) {
    && i < |inv| && !inv[i].worn && Wearable(inv[i].gear)
    && ("올숙이천무기" in inv[i].gear.tags ==> AllAtLeast(m, 2000))
    && !Taken(inv, inv[i].gear.slot)
  }

  function WearOne(inv: Inventory, m: Mastery, i: nat): Inventory {
    if MayWear(inv, m, i) then inv[i := Slotted(inv[i].gear, true)] else inv
  }

  function TakeOff(inv: Inventory, i: nat): Inventory {
    if i < |inv| then inv[i := Slotted(inv[i].gear, false)] else inv
  }

  function Bare(inv: Inventory): (r: Inventory)
    ensures |r| == |inv|
    ensures forall i :: 0 <= i < |inv| ==> r[i] == Slotted(inv[i].gear, false)
  {
    seq(|inv|, i requires 0 <= i < |inv| => Slotted(inv[i].gear, false))
  }

  /** `delItem`: the first `cnt` items of that index go, all of them if `cnt` is below 1. */
  function Discard(inv: Inventory, index: string, cnt: int): Inventory {
    if inv == [] then []
    else if inv[0].gear.index != index then [inv[0]] + Discard(inv[1..], index, cnt)
    else if cnt == 1 then inv[1..]
    else Discard(inv[1..], index, cnt - 1)
  }

  // ---- what wearing changes ------------------------------------------------------

  lemma {:induction false} WornSumAt(inv: Inventory, i: nat, worn: bool, s: Stat)
    requires i < |inv|
    ensures WornSum(inv[i := Slotted(inv[i].gear, worn)], s) ==
      WornSum(inv, s) - (if inv[i].worn then Weight(inv[i].gear, s) else 0)
                      + (if worn then Weight(inv[i].gear, s) else 0)
    decreases |inv|
  {
    var inv' := inv[i := Slotted(inv[i].gear, worn)];
    if i == 0 {
      assert inv'[1..] == inv[1..];
    } else {
      assert inv'[1..] == inv[1..][i - 1 := Slotted(inv[1..][i - 1].gear, worn)];
      WornSumAt(inv[1..], i - 1, worn, s);
    }
  }

  function WornCount(inv: Inventory): nat {
    if inv == [] then 0 else (if inv[0].worn then 1 else 0) + WornCount(inv[1..])
  }

  lemma {:induction false} WornCountAt(inv: Inventory, i: nat, worn: bool)
    requires i < |inv|
    ensures WornCount(inv[i := Slotted(inv[i].gear, worn)]) ==
      WornCount(inv) - (if inv[i].worn then 1 else 0) + (if worn then 1 else 0)
    decreases |inv|
  {
    var inv' := inv[i := Slotted(inv[i].gear, worn)];
    if i == 0 {
      assert inv'[1..] == inv[1..];
    } else {
      assert inv'[1..] == inv[1..][i - 1 := Slotted(inv[1..][i - 1].gear, worn)];
      WornCountAt(inv[1..], i - 1, worn);
    }
  }

  lemma {:induction false} NoneWorn(inv: Inventory)
    requires forall i :: 0 <= i < |inv| ==> !inv[i].worn
    ensures WornCount(inv) == 0
    decreases |inv|
  {
    if inv != [] { NoneWorn(inv[1..]); }
  }

  lemma {:induction false} BareSum(inv: Inventory, s: Stat)
    requires forall i :: 0 <= i < |inv| ==> !inv[i].worn
    ensures WornSum(inv, s) == 0
    decreases |inv|
  {
    if inv != [] { BareSum(inv[1..], s); }
  }

  /** Discarding keeps the slots apart, and loses the discarded worn items' weights only. */
  lemma {:induction false} DiscardKeeps(inv: Inventory, index: string, cnt: int)
    ensures forall x :: x in Discard(inv, index, cnt) ==> x in inv
    ensures SlotsDiffer(inv) ==> SlotsDiffer(Discard(inv, index, cnt))
    decreases |inv|
  {
    if inv != [] {
      assert inv == [inv[0]] + inv[1..];
      SlotsCons(inv[0], inv[1..]);
      if inv[0].gear.index != index {
        DiscardKeeps(inv[1..], index, cnt);
        SlotsCons(inv[0], Discard(inv[1..], index, cnt));
      } else if cnt != 1 {
        DiscardKeeps(inv[1..], index, cnt - 1);
      }
    }
  }

  function CountOf(inv: Inventory, index: string): nat {
    if inv == [] then 0 else (if inv[0].gear.index == index then 1 else 0) + CountOf(inv[1..], index)
  }

  function Others(inv: Inventory, index: string): Inventory {
    if inv == [] then []
    else (if inv[0].gear.index == index then [] else [inv[0]]) + Others(inv[1..], index)
  }

  /** `delItem` removes `cnt` items of that index if there are so many, else all of them;
      the other items stay as they are, in their order. */
  lemma {:induction false} DiscardRemoves(inv: Inventory, index: string, cnt: int)
    ensures var n := CountOf(inv, index);
      CountOf(Discard(inv, index, cnt), index) == if 1 <= cnt <= n then n - cnt else 0
    ensures Others(Discard(inv, index, cnt), index) == Others(inv, index)
    decreases |inv|
  {
    if inv != [] {
      if inv[0].gear.index != index {
        DiscardRemoves(inv[1..], index, cnt);
        var left := Discard(inv[1..], index, cnt);
        assert ([inv[0]] + left)[1..] == left;
      } else if cnt != 1 {
        DiscardRemoves(inv[1..], index, cnt - 1);
      }
    }
  }

  lemma SlotsCons(x: Slotted, inv: Inventory)
    ensures SlotsDiffer([x] + inv) <==>
      SlotsDiffer(inv) && forall y :: y in inv && x.worn && y.worn ==> y.gear.slot != x.gear.slot
  {
    var all := [x] + inv;
    if SlotsDiffer(all) {
      assert all[0] == x && forall i :: 0 <= i < |inv| ==> all[i + 1] == inv[i];
    } else {
      var i, j :| 0 <= i < j < |all| && all[i].worn && all[j].worn && all[i].gear.slot == all[j].gear.slot;
      assert all[j] == inv[j - 1] && (i > 0 ==> all[i] == inv[i - 1]);
    }
  }

  lemma WearKeepsSlots(inv: Inventory, i: nat)
    requires i < |inv| && SlotsDiffer(inv) && !Taken(inv, inv[i].gear.slot)
    ensures SlotsDiffer(inv[i := Slotted(inv[i].gear, true)])
  {
  }

  /** Wear-all keeps slots apart, takes nothing off, and leaves no wanted item bare whose
      slot is free. */
  lemma {:induction false} WearFromFills(inv: Inventory, m: Mastery, setName: Option<string>, i: nat)
    requires i <= |inv| && SlotsDiffer(inv)
    ensures var r := WearFrom(inv, m, setName, i);
      && SlotsDiffer(r)
      && (forall j :: 0 <= j < |inv| ==> r[j].gear == inv[j].gear && (inv[j].worn ==> r[j].worn))
      && (forall j :: i <= j < |inv| && !r[j].worn && Wanted(r[j].gear, m, setName) ==> Taken(r, r[j].gear.slot))
    decreases |inv| - i
  {
    if i < |inv| {
      if !inv[i].worn && Wanted(inv[i].gear, m, setName) && !Taken(inv, inv[i].gear.slot) {
        WearKeepsSlots(inv, i);
        WearFromFills(inv[i := Slotted(inv[i].gear, true)], m, setName, i + 1);
      } else {
        WearFromFills(inv, m, setName, i + 1);
        var r := WearFrom(inv, m, setName, i);
        if !inv[i].worn && Wanted(inv[i].gear, m, setName) {
          TakenStays(inv, r, inv[i].gear.slot);
        }
      }
    }
  }

  /** Only wanted items are put on, only into slots that were free, and of several for one
      slot the first. */
  lemma {:induction false} FirstComeFirstWorn(inv: Inventory, m: Mastery, setName: Option<string>, i: nat, j: nat)
    requires i <= |inv| && j < |inv| && !inv[j].worn && WearFrom(inv, m, setName, i)[j].worn
    ensures i <= j && Wanted(inv[j].gear, m, setName) && !Taken(inv, inv[j].gear.slot)
    ensures forall k :: i <= k < j && Wanted(inv[k].gear, m, setName) ==> inv[k].gear.slot != inv[j].gear.slot
    decreases |inv| - i
  {
    hide Wanted;
    if i < |inv| {
      var x := inv[i].gear;
      if !inv[i].worn && Wanted(x, m, setName) && !Taken(inv, x.slot) {
        var inv' := inv[i := Slotted(x, true)];
        if j != i {
          FirstComeFirstWorn(inv', m, setName, i + 1, j);
          assert inv'[i].worn && inv'[i].gear.slot == x.slot;
          assert x.slot != inv[j].gear.slot;
          assert forall k :: 0 <= k < |inv| ==> inv'[k].gear == inv[k].gear;
        }
      } else {
        FirstComeFirstWorn(inv, m, setName, i + 1, j);
      }
    }
  }

  /** Wear-all and set-wear put on nothing but armour and weapons, of the set if one is
      named, that ask for no more mastery than there is; and what they leave bare of these has
      its slot taken. */
  lemma WornMeans(inv: Inventory, m: Mastery, setName: Option<string>, j: nat)
    requires j < |inv| && !inv[j].worn && SlotsDiffer(inv)
    ensures var r, g := WearFrom(inv, m, setName, 0), inv[j].gear;
      var fits :=
        && (g.kind == "방어구" || g.kind == "무기")
        && (setName.Some? ==> exists k :: 0 <= k < |g.names| && g.names[k] == setName.value)
        && ("올숙천무기" in g.tags ==> forall k :: 0 <= k < |m| ==> m[k] >= 1000)
        && ("올숙이천무기" in g.tags ==> forall k :: 0 <= k < |m| ==> m[k] >= 2000);
      && (r[j].worn ==> fits)
      && (fits && !r[j].worn ==> exists k :: 0 <= k < |r| && r[k].worn && r[k].gear.slot == g.slot)
  {
    WearFromFills(inv, m, setName, 0);
    if WearFrom(inv, m, setName, 0)[j].worn {
      FirstComeFirstWorn(inv, m, setName, 0, j);
    }
  }

  /** Putting on one item asks for the same, but not for a thousand points of mastery. */
  lemma WearOneMeans(inv: Inventory, m: Mastery, i: nat)
    requires i < |inv| && !inv[i].worn
    ensures var r, g := WearOne(inv, m, i), inv[i].gear;
      && (r[i].worn <==>
            && (g.kind == "방어구" || g.kind == "무기")
            && ("올숙이천무기" in g.tags ==> forall k :: 0 <= k < |m| ==> m[k] >= 2000)
            && forall k :: 0 <= k < |inv| && inv[k].worn ==> inv[k].gear.slot != g.slot)
      && |r| == |inv| && r[i].gear == g && forall k :: 0 <= k < |inv| && k != i ==> r[k] == inv[k]
  {
  }

  // ---- what the sums add up ----------------------------------------------------------

  /** What the options of one name come to. */
  function Named(options: seq<(string, int)>, name: string): int {
    if options == [] then 0
    else (if options[0].0 == name then options[0].1 else 0) + Named(options[1..], name)
  }

  /** The eleven options that count. */
  predicate Counts(s: Stat, name: string) {
    match s
    case Strength => name == "힘"
    case Dexterity => name == "민첩성"
    case Toughness => name == "맷집"
    case MaxHp => name == "체력"
    case MaxMp => name == "내공"
    case Critical => name == "필살"
    case CriticalChance => name == "운"
    case Miss => name == "회피"
    case Hit => name == "명중"
    case Experience => name == "경험치"
    case MagicChance => name == "마법발견"
    case _ => false
  }

  lemma {:induction false} NamedOn(options: seq<(string, int)>, name: string)
    requires options != []
    ensures var front, last := options[..|options| - 1], options[|options| - 1];
      Named(options, name) == Named(front, name) + if last.0 == name then last.1 else 0
    decreases |options|
  {
    if |options| > 1 {
      NamedOn(options[1..], name);
      assert options[1..][..|options| - 2] == options[..|options| - 1][1..];
    }
  }

  /** Each sum takes the options of its own name, and armour and attack power take none. */
  lemma {:induction false} OptionSumIs(options: seq<(string, int)>, s: Stat, name: string)
    ensures Counts(s, name) ==> OptionSum(options, s) == Named(options, name)
    ensures s == Armor || s == Attack ==> OptionSum(options, s) == 0
    decreases |options|
  {
    if options != [] {
      StatOfIs(options[|options| - 1].0, s, name);
      hide StatOf;
      hide Counts;
      OptionSumIs(options[..|options| - 1], s, name);
      NamedOn(options, name);
    }
  }

  lemma StatOfIs(option: string, s: Stat, name: string)
    ensures Counts(s, name) ==> (StatOf(option) == Some(s) <==> option == name)
    ensures s == Armor || s == Attack ==> StatOf(option) != Some(s)
  {
  }

  function WornTotal(inv: Inventory, f: Gear -> int): int {
    if inv == [] then 0 else (if inv[0].worn then f(inv[0].gear) else 0) + WornTotal(inv[1..], f)
  }

  /** The sums over what is worn: the defences, the attack powers, and for each of the other
      eleven the options of its name. */
  lemma {:induction false} WornSumMeans(inv: Inventory, s: Stat, name: string)
    ensures WornSum(inv, Armor) == WornTotal(inv, (g: Gear) => g.defence)
    ensures WornSum(inv, Attack) == WornTotal(inv, (g: Gear) => g.attack)
    ensures Counts(s, name) ==> WornSum(inv, s) == WornTotal(inv, (g: Gear) => Named(g.options, name))
    decreases |inv|
  {
    if inv != [] {
      WornSumMeans(inv[1..], s, name);
      OptionSumIs(inv[0].gear.options, s, name);
      OptionSumIs(inv[0].gear.options, Armor, name);
      OptionSumIs(inv[0].gear.options, Attack, name);
    }
  }

  lemma TakenStays(inv: Inventory, r: Inventory, slot: string)
    requires |r| == |inv| && Taken(inv, slot)
    requires forall j :: 0 <= j < |inv| ==> r[j].gear == inv[j].gear && (inv[j].worn ==> r[j].worn)
    ensures Taken(r, slot)
  {
    var k :| 0 <= k < |inv| && inv[k].worn && inv[k].gear.slot == slot;
    assert r[k].worn && r[k].gear.slot == slot;
  }

  lemma {:induction false} WornSumJoin(a: Inventory, b: Inventory, s: Stat)
    ensures WornSum(a + b, s) == WornSum(a, s) + WornSum(b, s)
    decreases |a|
  {
    if a == [] {
      assert a + b == b;
    } else {
      assert (a + b)[1..] == a[1..] + b;
      WornSumJoin(a[1..], b, s);
    }
  }

  // ---- the commands on objects -------------------------------------------------------

  class Item {
    const gear: Gear
    var inUse: bool

    constructor (gear: Gear)
      ensures this.gear == gear && !inUse
    {
      this.gear := gear;
      inUse := false;
    }
  }

  function Seen(objs: seq<Item>): (inv: Inventory)
    reads objs
    ensures |inv| == |objs|
    ensures forall i :: 0 <= i < |objs| ==> inv[i] == Slotted(objs[i].gear, objs[i].inUse)
  {
    seq(|objs|, i requires 0 <= i < |objs| reads objs => Slotted(objs[i].gear, objs[i].inUse))
  }

  predicate Within(objs: seq<Item>, all: seq<Item>) {
    forall o :: o in objs ==> o in all
  }

  lemma WithinItself(objs: seq<Item>)
    ensures Within(objs, objs)
  {
  }

  lemma WithinAll(objs: seq<Item>, all: seq<Item>, k: nat)
    requires Within(objs, all) && k < |objs|
    ensures Within(objs[..k] + objs[k + 1..], all)
  {
  }

  predicate NoRepeats(objs: seq<Item>) {
    forall i, j :: 0 <= i < j < |objs| ==> objs[i] != objs[j]
  }

  function Signed(add: bool, n: int): int { if add then n else -n }

  /** The weight of an item with its first `n` options only. */
  function WeightUpTo(g: Gear, n: nat, s: Stat): int
    requires n <= |g.options|
  {
    (if s == Armor then g.defence else if s == Attack then g.attack else 0) + OptionSum(g.options[..n], s)
  }

  /** From `a` to `b`, every sum moved by the item's weight. */
  ghost predicate Moved(a: Stats, b: Stats, g: Gear, n: nat, add: bool) {
    n <= |g.options| && forall s: Stat ::
      s in a && s in b && b[s] == a[s] + Signed(add, WeightUpTo(g, n, s))
  }

  lemma BookedNone(a: Stats, b: Stats, g: Gear, add: bool)
    requires forall s: Stat :: s in a
    requires b == a[Armor := a[Armor] + Signed(add, g.defence)][Attack := a[Attack] + Signed(add, g.attack)]
    ensures Moved(a, b, g, 0, add)
  {
    assert g.options[..0] == [];
  }

  lemma MovedOn(a: Stats, b: Stats, c: Stats, g: Gear, i: nat, add: bool)
    requires i < |g.options| && Moved(a, b, g, i, add)
    requires var (name, value) := g.options[i];
      c == match StatOf(name)
           case Some(stat) => b[stat := (if stat in b then b[stat] else 0) + Signed(add, value)]
           case None => b
    ensures Moved(a, c, g, i + 1, add)
  {
    hide StatOf;
    assert g.options[..i + 1][..i] == g.options[..i];
  }

  class Wearer {
    var objs: seq<Item>
    var stats: Stats

    function Look(): Inventory
      reads this, objs
    {
      Seen(objs)
    }

    /** The sums are the sums over what is worn, and no slot is worn twice. */
    ghost predicate Good()
      reads this, objs
    {
      NoRepeats(objs) && Sums(Look(), stats) && SlotsDiffer(Look())
    }

    /** `checkArmed(level)`. */
    method CheckArmed(slot: string) returns (taken: bool)
      ensures taken == Taken(Look(), slot)
    {
      for i := 0 to |objs|
        invariant forall k :: 0 <= k < i ==> !(objs[k].inUse && objs[k].gear.slot == slot)
      {
        if objs[i].inUse && objs[i].gear.slot == slot {
          assert Look()[i].worn && Look()[i].gear.slot == slot;
          return true;
        }
      }
      return false;
    }

    /** Adds an item's weights to the sums, or takes them away. */
    method Book(g: Gear, add: bool)
      requires forall s: Stat :: s in stats
      modifies this`stats
      ensures Moved(old(stats), stats, g, |g.options|, add)
    {
      hide StatOf;
      hide Weight;
      hide OptionSum;
      stats := stats[Armor := stats[Armor] + Signed(add, g.defence)];
      stats := stats[Attack := stats[Attack] + Signed(add, g.attack)];
      BookedNone(old(stats), stats, g, add);
      for i := 0 to |g.options|
        invariant Moved(old(stats), stats, g, i, add)
      {
        var (name, value) := g.options[i];
        ghost var before := stats;
        match StatOf(name) {
          case Some(stat) => stats := stats[stat := stats[stat] + Signed(add, value)];
          case None =>
        }
        MovedOn(old(stats), before, stats, g, i, add);
      }
    }

    /** An item changes sides: the sums follow. */
    method Switch(i: nat, worn: bool)
      requires i < |objs| && objs[i].inUse != worn
      requires NoRepeats(objs) && Sums(Look(), stats)
      modifies this`stats, objs[i]
      ensures Look() == old(Look())[i := Slotted(objs[i].gear, worn)]
      ensures Sums(Look(), stats)
    {
      var item := objs[i];
      Book(item.gear, worn);
      assert item.gear.options[..|item.gear.options|] == item.gear.options;
      item.inUse := worn;
      assert Look() == old(Look())[i := Slotted(item.gear, worn)];
      forall s: Stat ensures s in stats && stats[s] == WornSum(Look(), s) {
        WornSumAt(old(Look()), i, worn, s);
      }
    }

    /** `착용 모두` (no set name) and `세트착용` (a set name): one pass over the inventory. */
    method WearAll(m: Mastery, setName: Option<string>) returns (cnt: nat)
      requires Good()
      modifies this`stats, objs
      ensures Good() && Look() == WearFrom(old(Look()), m, setName, 0)
      ensures cnt == WornCount(Look()) - WornCount(old(Look()))
    {
      hide Good;
      cnt := 0;
      ghost var was := Look();
      ghost var goal := WearFrom(Look(), m, setName, 0);
      for i := 0 to |objs|
        invariant Good() && |Look()| == |objs| && WearFrom(Look(), m, setName, i) == goal
        invariant cnt == WornCount(Look()) - WornCount(was)
      {
        var obj := objs[i];
        if obj.inUse || !Wanted(obj.gear, m, setName) {
          continue;
        }
        var taken := CheckArmed(obj.gear.slot);
        if taken {
          continue;
        }
        WornCountAt(Look(), i, true);
        PutOn(i);
        cnt := cnt + 1;
      }
    }

    /** The step all ways of wearing share. */
    method PutOn(i: nat)
      requires Good() && i < |objs| && !objs[i].inUse && !Taken(Look(), objs[i].gear.slot)
      modifies this`stats, objs[i]
      ensures Good() && Look() == old(Look())[i := Slotted(objs[i].gear, true)]
    {
      WearKeepsSlots(Look(), i);
      Switch(i, true);
    }

    /** `[이름] 착용` for the item found at `i`. */
    method Wear(m: Mastery, i: nat) returns (done: bool)
      requires Good() && i < |objs|
      modifies this`stats, objs
      ensures Good() && done == MayWear(old(Look()), m, i)
      ensures Look() == WearOne(old(Look()), m, i)
    {
      hide Good;
      var item := objs[i];
      if item.inUse || !Wearable(item.gear) {
        return false;
      }
      if "올숙이천무기" in item.gear.tags && !AllAtLeast(m, 2000) {
        return false;
      }
      var taken := CheckArmed(item.gear.slot);
      if taken {
        return false;
      }
      PutOn(i);
      return true;
    }

    /** `[이름] 해제` for the item found at `i`. */
    method Unwear(i: nat) returns (done: bool)
      requires Good() && i < |objs|
      modifies this`stats, objs
      ensures Good() && done == old(objs[i].inUse)
      ensures Look() == TakeOff(old(Look()), i)
    {
      if !objs[i].inUse {
        assert Look() == TakeOff(Look(), i);
        return false;
      }
      Switch(i, false);
      return true;
    }

    /** `해제 모두`. */
    method UnwearAllOneByOne() returns (cnt: nat)
      requires Good()
      modifies this`stats, objs
      ensures Good() && Look() == Bare(old(Look()))
      ensures cnt == WornCount(old(Look()))
    {
      cnt := 0;
      ghost var was := Look();
      for i := 0 to |objs|
        invariant Good() && |Look()| == |was|
        invariant forall k :: 0 <= k < |was| ==> Look()[k] == if k < i then Slotted(was[k].gear, false) else was[k]
        invariant cnt + WornCount(Look()) == WornCount(was)
      {
        if objs[i].inUse {
          WornCountAt(Look(), i, false);
          Switch(i, false);
          cnt := cnt + 1;
        }
      }
      assert Look() == Bare(was);
      NoneWorn(Look());
    }

    /** `unwearAll`: the sums are set to zero and everything is taken off. */
    method UnwearAll()
      requires Good()
      modifies this`stats, objs
      ensures Good() && Look() == Bare(old(Look()))
    {
      stats := map s: Stat | s in stats :: 0;
      ghost var was := Look();
      for i := 0 to |objs|
        invariant objs == old(objs)
        invariant forall s: Stat :: s in stats && stats[s] == 0
        invariant forall k :: 0 <= k < |was| ==> Look()[k] == if k < i then Slotted(was[k].gear, false) else was[k]
      {
        if objs[i].inUse {
          objs[i].inUse := false;
        }
      }
      assert Look() == Bare(was);
      forall s: Stat ensures s in stats && stats[s] == WornSum(Look(), s) {
        BareSum(Look(), s);
      }
    }

    /** A new item comes in, not worn. */
    method Receive(item: Item)
      requires Good() && item !in objs && !item.inUse
      modifies this`objs
      ensures Good() && Look() == [Slotted(item.gear, false)] + old(Look())
      ensures objs == [item] + old(objs)
    {
      objs := [item] + objs;
      assert Look() == [Slotted(item.gear, false)] + old(Look());
      SlotsCons(Look()[0], old(Look()));
      forall s: Stat ensures s in stats && stats[s] == WornSum(Look(), s) {
        assert Look()[1..] == old(Look());
      }
    }

    /** One item leaves the inventory, and the sums with it if it was worn. */
    method Drop(item: Item, ghost before: seq<Item>, ghost behind: seq<Item>)
      requires Good() && objs == before + ([item] + behind)
      modifies this
      ensures Good() && objs == before + behind
    {
      NoRepeatsParts(before, item, behind);
      SeenParts(before, item, behind);
      var x := Slotted(item.gear, item.inUse);
      SlotsLeft(Seen(before), x, Seen(behind));
      if item.inUse {
        Book(item.gear, false);
        assert item.gear.options[..|item.gear.options|] == item.gear.options;
      }
      RemovedIs(before, item, behind);
      objs := Removed(objs, item);
      forall s: Stat ensures s in stats && stats[s] == WornSum(Look(), s) {
        WornSumWithout(Seen(before), x, Seen(behind), s);
      }
    }

    /** `delItem(index, cnt)` for things: the first `cnt` items of that index are removed,
        worn or not. */
    method DelItem(index: string, cnt: int)
      requires Good()
      modifies this
      ensures Good() && Look() == Discard(old(Look()), index, cnt)
      ensures Within(objs, old(objs))
    {
      hide *;
      WithinItself(objs);
      var rest := objs;
      var c := 0;
      ghost var goal, kept, left := Discard(Look(), index, cnt), [], Look();
      LookAgrees();
      assert kept + left == left && kept + goal == goal;
      while rest != []
        invariant |left| == |rest| && |objs| == |kept| + |rest| && objs[|kept|..] == rest
        invariant Good() && Look() == kept + left
        invariant Within(objs, old(objs))
        invariant goal == kept + Discard(left, index, cnt - c)
      {
        DiscardStep(kept, left, index, cnt - c);
        var item := rest[0];
        rest := rest[1..];
        if item.gear.index == index {
          DropAt(item, rest, kept, left, old(objs));
          c := c + 1;
          if cnt == c {
            return;
          }
        } else {
          Pass(item, rest, kept, left);
          kept := kept + [left[0]];
        }
        left := left[1..];
      }
      DiscardNothing(kept, index, cnt - c);
    }

    lemma LookAgrees()
      ensures |Look()| == |objs|
    {
    }

    /** An item stays. */
    lemma Pass(item: Item, rest: seq<Item>, kept: Inventory, left: Inventory)
      requires |objs| == |kept| + |rest| + 1 && objs[|kept|..] == [item] + rest
      requires left != [] && Look() == kept + left
      ensures objs[|kept| + 1..] == rest && left[0].gear == item.gear
    {
      assert objs[|kept|] == item && Look()[|kept|] == left[0];
      assert objs[|kept|..][1..] == rest;
    }

    /** The same removal, told by what was kept and what is left. */
    method DropAt(item: Item, ghost rest: seq<Item>, ghost kept: Inventory, ghost left: Inventory,
        ghost all: seq<Item>)
      requires Good() && Within(objs, all)
      requires |objs| == |kept| + |rest| + 1 && objs[|kept|..] == [item] + rest
      requires left != [] && Look() == kept + left
      modifies this
      ensures Good() && Within(objs, all)
      ensures |objs| == |kept| + |rest| && objs[|kept|..] == rest
      ensures left[0].gear == item.gear && Look() == kept + left[1..]
    {
      hide Good;
      hide Within;
      Pass(item, rest, kept, left);
      ghost var k := |kept|;
      assert objs == objs[..k] + ([item] + objs[k + 1..]);
      WithinAll(objs, all, k);
      ghost var was := Look();
      Drop(item, objs[..k], objs[k + 1..]);
      assert was[..k] + was[k + 1..] == kept + left[1..];
      assert Look() == was[..k] + was[k + 1..];
    }
  }

  lemma DiscardNothing(kept: Inventory, index: string, n: int)
    ensures kept + Discard([], index, n) == kept && kept + [] == kept
  {
  }

  lemma DiscardStep(kept: Inventory, left: Inventory, index: string, n: int)
    requires left != []
    ensures kept + left == (kept + [left[0]]) + left[1..]
    ensures left[0].gear.index != index ==>
      kept + Discard(left, index, n) == (kept + [left[0]]) + Discard(left[1..], index, n)
    ensures left[0].gear.index == index && n == 1 ==> Discard(left, index, n) == left[1..]
    ensures left[0].gear.index == index && n != 1 ==>
      Discard(left, index, n) == Discard(left[1..], index, n - 1)
  {
    Assoc(kept, [left[0]], Discard(left[1..], index, n));
  }

  lemma SeenParts(before: seq<Item>, item: Item, behind: seq<Item>)
    ensures Seen(before + ([item] + behind)) == Seen(before) + ([Slotted(item.gear, item.inUse)] + Seen(behind))
    ensures Seen(before + behind) == Seen(before) + Seen(behind)
  {
  }

  function Removed(objs: seq<Item>, item: Item): seq<Item> {
    if objs == [] then [] else if objs[0] == item then objs[1..] else [objs[0]] + Removed(objs[1..], item)
  }

  lemma {:induction false} RemovedIs(before: seq<Item>, item: Item, behind: seq<Item>)
    requires item !in before
    ensures Removed(before + ([item] + behind), item) == before + behind
    decreases |before|
  {
    var objs := before + ([item] + behind);
    if before == [] {
      assert objs[1..] == behind;
    } else {
      assert objs[1..] == before[1..] + ([item] + behind);
      RemovedIs(before[1..], item, behind);
      Assoc([before[0]], before[1..], behind);
    }
  }

  lemma NoRepeatsParts(before: seq<Item>, item: Item, behind: seq<Item>)
    requires NoRepeats(before + ([item] + behind))
    ensures item !in before && NoRepeats(before + behind)
  {
    var objs := before + ([item] + behind);
    assert objs[|before|] == item;
    assert forall i :: 0 <= i < |before| ==> objs[i] == before[i];
    assert forall i :: 0 <= i < |behind| ==> objs[|before| + 1 + i] == behind[i];
    forall i, j | 0 <= i < j < |before + behind| ensures (before + behind)[i] != (before + behind)[j] {
      var i' := if i < |before| then i else i + 1;
      var j' := if j < |before| then j else j + 1;
      assert objs[i'] != objs[j'];
    }
  }

  lemma SlotsLeft(a: Inventory, x: Slotted, b: Inventory)
    requires SlotsDiffer(a + ([x] + b))
    ensures SlotsDiffer(a + b)
  {
    var all := a + ([x] + b);
    forall i, j | 0 <= i < j < |a + b| && (a + b)[i].worn && (a + b)[j].worn
      ensures (a + b)[i].gear.slot != (a + b)[j].gear.slot
    {
      var i' := if i < |a| then i else i + 1;
      var j' := if j < |a| then j else j + 1;
      assert all[i'] == (a + b)[i] && all[j'] == (a + b)[j];
    }
  }

  lemma WornSumWithout(a: Inventory, x: Slotted, b: Inventory, s: Stat)
    ensures WornSum(a + ([x] + b), s) == WornSum(a + b, s) + (if x.worn then Weight(x.gear, s) else 0)
  {
    WornSumJoin(a, [x] + b, s);
    WornSumJoin(a, b, s);
    assert ([x] + b)[1..] == b;
  }

  // ---- runs of commands --------------------------------------------------------------

  datatype Command =
    | PutOnAll(m: Mastery)
    | PutOnSet(m: Mastery, name: string)
    | PutOnOne(m: Mastery, i: nat)
    | TakeOffOne(i: nat)
    | TakeOffAll
    | LoseItems(index: string, cnt: int)
    | GetItem(gear: Gear)
    | Strip

  /** What a command makes of an inventory. */
  function Outcome(inv: Inventory, c: Command): Inventory {
    match c
    case PutOnAll(m) => WearFrom(inv, m, None, 0)
    case PutOnSet(m, name) => WearFrom(inv, m, Some(name), 0)
    case PutOnOne(m, i) => WearOne(inv, m, i)
    case TakeOffOne(i) => TakeOff(inv, i)
    case TakeOffAll => Bare(inv)
    case LoseItems(index, cnt) => Discard(inv, index, cnt)
    case GetItem(gear) => [Slotted(gear, false)] + inv
    case Strip => Bare(inv)
  }

  function OutcomeOf(inv: Inventory, cs: seq<Command>): Inventory
    decreases |cs|
  {
    if cs == [] then inv else OutcomeOf(Outcome(inv, cs[0]), cs[1..])
  }

  /** Any sequence of commands leaves the sums equal to what is worn, and no slot twice. */
  method Play(w: Wearer, cs: seq<Command>, ghost items: set<Item>)
    requires w.Good() && forall o :: o in w.objs ==> o in items
    modifies w, items
    ensures w.Good() && w.Look() == OutcomeOf(old(w.Look()), cs)
  {
    var rest := cs;
    ghost var goal := OutcomeOf(w.Look(), cs);
    while rest != []
      invariant w.Good() && forall o :: o in w.objs ==> o in items || fresh(o)
      invariant OutcomeOf(w.Look(), rest) == goal
    {
      Obey(w, rest[0]);
      rest := rest[1..];
    }
  }

  method Obey(w: Wearer, c: Command)
    requires w.Good()
    modifies w, w.objs
    ensures w.Good() && w.Look() == Outcome(old(w.Look()), c)
    ensures forall o :: o in w.objs ==> o in old(w.objs) || fresh(o)
  {
    match c {
      case PutOnAll(m) => var cnt := w.WearAll(m, None);
      case PutOnSet(m, name) => var cnt := w.WearAll(m, Some(name));
      case PutOnOne(m, i) => if i < |w.objs| { var done := w.Wear(m, i); }
      case TakeOffOne(i) => if i < |w.objs| { var done := w.Unwear(i); }
      case TakeOffAll => var cnt := w.UnwearAllOneByOne();
      case LoseItems(index, cnt) => w.DelItem(index, cnt);
      case GetItem(gear) =>
        var item := new Item(gear);
        w.Receive(item);
      case Strip => w.UnwearAll();
    }
  }
}
