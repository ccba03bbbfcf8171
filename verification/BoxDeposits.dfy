/** Silver put into a storage box buys it more room, up to a limit; what the limit does not
    take goes back to the giver. */
module BoxDeposits {

  function Min(a: int, b: int): int { if a <= b then a else b }

  /** The silver a box with this much can still take. */
  function RoomFor(price: int, limit: int, capacity: int, silver: int): int {
    price * (limit - capacity) - silver
  }

  /** A box that can grow holds less than the price of one place; one that cannot holds nothing. */
  predicate Sound(price: int, limit: int, capacity: int, silver: int) {
    && price > 0 && silver >= 0 && capacity <= limit
    && (if capacity == limit then silver == 0 else silver < price)
  }

  /** A box without silver is sound at any price and size up to its limit. */
  lemma EmptyIsSound(price: int, limit: int, capacity: int)
    ensures Sound(price, limit, capacity, 0) <==> price >= 1 && capacity <= limit
  {
  }

  lemma Spread(price: int, a: int, b: int)
    ensures price * (a - b) == price * a - price * b
  {
  }

  lemma {:induction false} Grows(price: int, a: int, b: int)
    requires price > 0 && a <= b
    ensures price * a <= price * b
    ensures a < b ==> price * a + price <= price * b
    decreases b - a
  {
    if a < b {
      Grows(price, a, b - 1);
      Spread(price, b, 1);
    }
  }

  lemma Places(silver: int, price: int)
    requires silver >= 0 && price > 0
    ensures silver / price >= 0
    ensures price * (silver / price) <= silver < price * (silver / price) + price
  {
  }

  /** The room left decides how big a box is and what it holds. */
  lemma RoomDecides(price: int, limit: int, c: int, s: int, c': int, s': int)
    requires Sound(price, limit, c, s) && Sound(price, limit, c', s')
    requires RoomFor(price, limit, c, s) == RoomFor(price, limit, c', s')
    ensures c == c' && s == s'
  {
    if c < c' {
      Grows(price, limit - c', limit - c);
    } else if c' < c {
      Grows(price, limit - c, limit - c');
    }
  }

  /** What is paid for when there is room for `a` more places and silver for `cnt`. */
  lemma Settles(price: int, limit: int, capacity: int, silver: int, money: int)
    requires Sound(price, limit, capacity, silver) && capacity < limit && money >= 0
    ensures var have, a := silver + money, limit - capacity;
      var cnt := have / price;
      var room := RoomFor(price, limit, capacity, silver);
      && cnt >= 0 && limit - (capacity + a) == 0
      && (cnt == 0 ==>
            money <= room && Sound(price, limit, capacity, have) && RoomFor(price, limit, capacity, have) == room - money)
      && (0 < cnt < a ==>
            && money <= room && Sound(price, limit, capacity + cnt, have - cnt * price)
            && RoomFor(price, limit, capacity + cnt, have - cnt * price) == room - money)
      && (cnt >= a ==>
            && have - a * price >= 0 && room == money - (have - a * price)
            && Sound(price, limit, limit, 0) && RoomFor(price, limit, limit, 0) == 0)
  {
    var have, a := silver + money, limit - capacity;
    Places(have, price);
    var cnt := have / price;
    if cnt < a {
      Grows(price, cnt, a);
      Spread(price, a, cnt);
    } else {
      Grows(price, a, cnt);
    }
  }

  class Box {
    var silver: int
    var capacity: int
    const limit: int
    const price: int

    ghost predicate Valid()
      reads this
    {
      Sound(price, limit, capacity, silver)
    }

    ghost function Room(): (room: int)
      reads this
      requires Valid()
      ensures room >= 0 && (room == 0 <==> capacity == limit)
    {
      Grows(price, 0, limit - capacity);
      RoomFor(price, limit, capacity, silver)
    }

    method IsExpandable() returns (yes: bool)
      requires Valid()
      ensures yes == (Room() > 0)
    {
      if capacity == limit {
        return false;
      }
      return true;
    }

    /** Takes what there is room for, and says how much that was. */
    method AddMoney(money: int) returns (taken: int)
      requires Valid() && capacity < limit && money >= 0
      modifies this
      ensures Valid()
      ensures taken == Min(money, old(Room()))
      ensures Room() == old(Room()) - taken
    {
      hide Sound;
      hide RoomFor;
      Settles(price, limit, capacity, silver, money);
      silver := silver + money;
      var a := limit - capacity;
      var cnt := silver / price;
      if cnt == 0 {
        return money;
      }
      if cnt > a {
        cnt := a;
      }
      silver := silver - cnt * price;
      capacity := capacity + cnt;
      if capacity == limit {
        if silver != 0 {
          var m := silver;
          silver := 0;
          return money - m;
        }
      }
      return money;
    }
  }

  class Player {
    var silver: int
  }

  datatype Reply = NoMoreRoom | TooPoor | Stored(n: int)

  /** What a player offers by naming an amount, or none. */
  function Offered(asked: int): int { if asked <= 0 then 1 else asked }

  /** What of an offer is accepted by a box with that much room, from a purse. */
  function Accepted(room: int, purse: int, asked: int): int {
    if room > 0 && purse >= Offered(asked) then Min(Offered(asked), room) else 0
  }

  /** `[보관함] 은전 [수량] 넣어`. */
  method Deposit(box: Box, player: Player, asked: int) returns (reply: Reply)
    requires box.Valid()
    modifies box, player
    ensures box.Valid()
    ensures var n := Accepted(old(box.Room()), old(player.silver), asked);
      && box.Room() == old(box.Room()) - n
      && player.silver == old(player.silver) - n
      && reply == (if old(box.Room()) == 0 then NoMoreRoom
                   else if old(player.silver) < Offered(asked) then TooPoor else Stored(n))
    ensures reply.Stored? ==>
      && old(player.silver) >= asked && old(player.silver) >= 1
      && reply.n == (if asked < 1 then 1 else if asked < old(box.Room()) then asked else old(box.Room()))
    ensures reply == TooPoor <==> old(box.Room()) > 0 && (old(player.silver) < asked || old(player.silver) < 1)
  {
    var more := box.IsExpandable();
    if !more {
      return NoMoreRoom;
    }
    var m := asked;
    if m <= 0 {
      m := 1;
    }
    if player.silver < m {
      return TooPoor;
    }
    var n := box.AddMoney(m);
    player.silver := player.silver - n;
    return Stored(n);
  }

  // ---- lists of deposits ---------------------------------------------------------

  function Total(offers: seq<int>): (t: int)
    ensures t >= |offers|
  {
    if offers == [] then 0 else Offered(offers[0]) + Total(offers[1..])
  }

  function AllAccepted(room: int, purse: int, offers: seq<int>): int
    decreases |offers|
  {
    if offers == [] then 0
    else
      var n := Accepted(room, purse, offers[0]);
      n + AllAccepted(room - n, purse - n, offers[1..])
  }

  /** Whatever is offered, a purse never goes below zero nor a box above its limit; each
      accepted deposit takes at least one coin and no more than was offered. */
  lemma {:induction false} NeverTooMuch(room: int, purse: int, offers: seq<int>)
    requires room >= 0 && purse >= 0
    ensures 0 <= AllAccepted(room, purse, offers) <= Min(Min(room, purse), Total(offers))
    ensures room > 0 && offers != [] && purse >= Offered(offers[0]) ==> AllAccepted(room, purse, offers) >= 1
    decreases |offers|
  {
    if offers != [] {
      var n := Accepted(room, purse, offers[0]);
      NeverTooMuch(room - n, purse - n, offers[1..]);
    }
  }

  /** A player who could pay for everything fills the box or spends it all: only the sum
      of what was offered counts. */
  lemma {:induction false} OnlyTheSumCounts(room: int, purse: int, offers: seq<int>)
    requires room >= 0 && purse >= Total(offers)
    ensures AllAccepted(room, purse, offers) == Min(Total(offers), room)
    decreases |offers|
  {
    if offers != [] {
      var n := Accepted(room, purse, offers[0]);
      OnlyTheSumCounts(room - n, purse - n, offers[1..]);
    }
  }

  /** Two ways of offering the same sum leave the same box. */
  lemma SameSumSameBox(price: int, limit: int, c: int, s: int, c': int, s': int,
      room: int, purse: int, offers: seq<int>, offers': seq<int>)
    requires room >= 0 && purse >= Total(offers) && Total(offers) == Total(offers')
    requires Sound(price, limit, c, s) && RoomFor(price, limit, c, s) == room - AllAccepted(room, purse, offers)
    requires Sound(price, limit, c', s') && RoomFor(price, limit, c', s') == room - AllAccepted(room, purse, offers')
    ensures c == c' && s == s'
  {
    OnlyTheSumCounts(room, purse, offers);
    OnlyTheSumCounts(room, purse, offers');
    RoomDecides(price, limit, c, s, c', s');
  }

  /** A run of deposits: no coin is lost or made, and the box is the one its room says. */
  method DepositAll(box: Box, player: Player, offers: seq<int>)
    requires box.Valid() && player.silver >= 0
    modifies box, player
    ensures box.Valid() && player.silver >= 0
    ensures var n := AllAccepted(old(box.Room()), old(player.silver), offers);
      box.Room() == old(box.Room()) - n && player.silver == old(player.silver) - n
    ensures player.silver + box.silver + box.price * box.capacity
      == old(player.silver + box.silver + box.price * box.capacity)
  {
    var rest := offers;
    ghost var room, purse := box.Room(), player.silver;
    ghost var goal := AllAccepted(room, purse, offers);
    ghost var spent := 0;
    while rest != []
      invariant box.Valid() && player.silver >= 0
      invariant box.Room() == room - spent && player.silver == purse - spent
      invariant spent + AllAccepted(room - spent, purse - spent, rest) == goal
    {
      spent := spent + Accepted(box.Room(), player.silver, rest[0]);
      var reply := Deposit(box, player, rest[0]);
      rest := rest[1..];
    }
    Spread(box.price, box.limit, box.capacity);
    Spread(box.price, box.limit, old(box.capacity));
  }
}
