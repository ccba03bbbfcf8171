/** A finished unique weapon takes over the training of the other four kinds: their levels
    and experience are turned into credit, and the credit buys levels of the one kind. */
module Training {

  /** The five kinds of weapon. */
  predicate IsKind(i: int) { 1 <= i <= 5 }

  type Levels = map<int, nat>

  predicate Complete(m: Levels) {
    1 in m && 2 in m && 3 in m && 4 in m && 5 in m
  }

  /** What reaching a level from nothing counts for, level zero included. */
  function Worth(level: nat): nat {
    (level + 5) * 7 + (if level == 0 then 0 else Worth(level - 1))
  }

  /** The price of `gained` levels on top of `level`, one after another. */
  function Price(level: nat, gained: nat): nat {
    if gained == 0 then 0 else Price(level, gained - 1) + 7 * (level + gained + 5)
  }

  /** The credit of the kinds 1 to `n`, without the main one. */
  function Credit(level: Levels, exp: Levels, main: int, n: nat): nat
    requires n <= 5 && Complete(level) && Complete(exp)
  {
    if n == 0 then 0
    else Credit(level, exp, main, n - 1) + (if n == main then 0 else exp[n] + Worth(level[n]))
  }

  /** Credit for `gained` more levels, and not for one more than that. */
  predicate Buys(level: nat, credit: nat, gained: nat) {
    Price(level, gained) <= credit < Price(level, gained + 1)
  }

  lemma {:induction false} PriceGrows(level: nat, a: nat, b: nat)
    requires a <= b
    ensures Price(level, a) + (b - a) <= Price(level, b)
    decreases b
  {
    if a < b { PriceGrows(level, a, b - 1); }
  }

  /** There is one such number: as many levels as the credit can pay for. */
  lemma GreedyIsUnique(level: nat, credit: nat, a: nat, b: nat)
    requires Buys(level, credit, a) && Buys(level, credit, b)
    ensures a == b
  {
    if a < b {
      PriceGrows(level, a + 1, b);
    } else if b < a {
      PriceGrows(level, b + 1, a);
    }
  }

  /** Levels are bought at the rate at which they are given in payment. */
  lemma {:induction false} SameRate(level: nat, gained: nat)
    ensures Worth(level + gained) == Worth(level) + Price(level, gained)
    decreases gained
  {
    if gained > 0 { SameRate(level, gained - 1); }
  }

  lemma {:induction false} WorthInFull(level: nat)
    ensures 2 * Worth(level) == 7 * (level + 1) * (level + 10)
  {
    if level > 0 {
      WorthInFull(level - 1);
      assert (level + 1) * (level + 10) == level * (level + 9) + 2 * (level + 5);
    }
  }

  class Player {
    var level: Levels
    var exp: Levels

    /** `$숙련도이전` for a player who chose to move the training. */
    method Transfer(main: int)
      requires IsKind(main) && Complete(level) && Complete(exp)
      modifies this
      ensures Complete(level) && Complete(exp)
      ensures level[main] >= old(level[main])
      ensures Buys(old(level[main]), old(Credit(level, exp, main, 5)), level[main] - old(level[main]))
      ensures exp[main] == old(exp[main])
      ensures forall i :: IsKind(i) && i != main ==> level[i] == 0 && exp[i] == 0
    {
      var credit := 0;
      for n := 1 to 6
        invariant level == old(level) && exp == old(exp)
        invariant credit == Credit(level, exp, main, n - 1)
      {
        if n == main {
          continue;
        }
        var worth := Sum(level[n]);
        credit := credit + exp[n] + worth;
      }
      var s := level[main];
      ghost var total := credit;
      var a: nat := 0;
      while true
        invariant level == old(level) && exp == old(exp)
        invariant credit >= 0 && credit + Price(s, a) == total
        decreases credit
      {
        var e := (s + a + 1 + 5) * 7;
        if credit - e < 0 {
          break;
        }
        credit := credit - e;
        a := a + 1;
      }
      level := level[main := s + a];
      for n := 1 to 6
        invariant Complete(level) && Complete(exp)
        invariant level[main] == s + a && exp[main] == old(exp[main])
        invariant forall i :: 1 <= i < n && i != main ==> level[i] == 0 && exp[i] == 0
      {
        if n == main {
          continue;
        }
        level := level[n := 0];
        exp := exp[n := 0];
      }
    }

    static method Sum(level: nat) returns (worth: nat)
      ensures worth == Worth(level)
    {
      worth := 0;
      for i := 0 to level + 1
        invariant worth == if i == 0 then 0 else Worth(i - 1)
      {
        worth := worth + (i + 5) * 7;
      }
    }
  }

  lemma {:induction false} CreditOfNothing(level: Levels, exp: Levels, main: int, n: nat)
    requires IsKind(main) && Complete(level) && Complete(exp) && n <= 5
    requires forall i :: IsKind(i) && i != main ==> level[i] == 0 && exp[i] == 0
    ensures Credit(level, exp, main, n) == 35 * (if main <= n then n - 1 else n)
    decreases n
  {
    if n > 0 {
      CreditOfNothing(level, exp, main, n - 1);
      assert IsKind(n);
    }
  }

  /** What one kind gives, twice: its experience and the worth of its level. */
  function Share(level: Levels, exp: Levels, main: int, i: int): int
    requires i in level && i in exp
  {
    if i == main then 0 else 2 * exp[i] + 7 * (level[i] + 1) * (level[i] + 10)
  }

  lemma CreditOn(level: Levels, exp: Levels, main: int, n: nat)
    requires 0 < n <= 5 && Complete(level) && Complete(exp)
    ensures 2 * Credit(level, exp, main, n) == 2 * Credit(level, exp, main, n - 1) + Share(level, exp, main, n)
  {
    WorthInFull(level[n]);
    hide Worth;
  }

  /** The credit in full: the shares of all kinds but the main one. */
  lemma CreditIs(level: Levels, exp: Levels, main: int)
    requires IsKind(main) && Complete(level) && Complete(exp)
    ensures 2 * Credit(level, exp, main, 5) ==
      Share(level, exp, main, 1) + Share(level, exp, main, 2) + Share(level, exp, main, 3)
      + Share(level, exp, main, 4) + Share(level, exp, main, 5)
  {
    CreditOn(level, exp, main, 1);
    CreditOn(level, exp, main, 2);
    CreditOn(level, exp, main, 3);
    CreditOn(level, exp, main, 4);
    CreditOn(level, exp, main, 5);
    assert Credit(level, exp, main, 0) == 0;
    hide Share;
    hide Credit;
  }

  /** Level zero counts too: with nothing left in the other four kinds the credit is still
      140, so that choosing the transfer once more gives levels to all below level 15. */
  lemma NothingStillCounts(level: Levels, exp: Levels, main: int, gained: nat)
    requires IsKind(main) && Complete(level) && Complete(exp)
    requires forall i :: IsKind(i) && i != main ==> level[i] == 0 && exp[i] == 0
    requires Buys(level[main], Credit(level, exp, main, 5), gained)
    ensures Credit(level, exp, main, 5) == 140
    ensures gained > 0 <==> level[main] <= 14
    ensures gained <= 2
  {
    CreditOfNothing(level, exp, main, 5);
    var s := level[main];
    assert Price(s, 1) == 7 * (s + 6);
    assert Price(s, 2) == 7 * (s + 6) + 7 * (s + 7);
    assert Price(s, 3) == Price(s, 2) + 7 * (s + 8);
    if gained > 2 {
      PriceGrows(s, 3, gained);
    } else if gained > 0 {
      PriceGrows(s, 1, gained);
    }
  }

  /** Nothing is lost but change that would not buy another level. */
  lemma OnlyChangeIsLost(before: nat, credit: nat, gained: nat)
    requires Buys(before, credit, gained)
    ensures var lost := Worth(before) + credit - Worth(before + gained);
      0 <= lost < 7 * (before + gained + 6)
  {
    SameRate(before, gained);
  }
}
