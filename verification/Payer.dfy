/** The payment itself: coins by rising worth, change for the last stack, then the bank. */
module Payer {
  import opened Sequences
  import opened Coins
  import opened Payment

  // A payment under way: the first k stacks of the list have gone whole.
  ghost predicate Paying(all: seq<Stack>, w0: Worths, list: seq<Stack>, k: nat, w: Worths, price: nat, money: nat) {
    && k <= |list| && InW(all, w0) && w.Keys == w0.Keys
    && (forall x | x in list :: x in all) && NoDup(list)
    && 0 < money && money + Total(list[..k], w0) == price
    && Total(all, w) + (price - money) == Total(all, w0)
    && (forall j | k <= j < |list| :: w[list[j]] == w0[list[j]])
    && Leftover(Keys(list, w0)[k..], money) == Leftover(Keys(list, w0), price)
  }

  lemma NothingPaid(all: seq<Stack>, w: Worths, list: seq<Stack>, price: nat)
    requires InW(all, w) && NoDup(list) && price > 0 && forall x | x in list :: x in all
    ensures Paying(all, w, list, 0, w, price, price)
  {
  }

  lemma OneStackGone(all: seq<Stack>, w0: Worths, list: seq<Stack>, k: nat, w: Worths, price: nat, money: nat)
    requires Paying(all, w0, list, k, w, price, money) && NoDup(all)
    requires k < |list| && w[list[k]] < money
    ensures Paying(all, w0, list, k + 1, w[list[k] := 0], price, money - w[list[k]])
  {
    var x, keys := list[k], Keys(list, w0);
    TotalUpdated(all, w, x, 0);
    assert list[..k + 1] == list[..k] + [x];
    TotalOfBoth(list[..k], [x], w0);
    assert keys[k..][0] == w0[x] && keys[k..][1..] == keys[k + 1..];
  }

  // The stack that settles the payment, less what is taken off it.
  lemma LastStack(all: seq<Stack>, w0: Worths, list: seq<Stack>, k: nat, w: Worths, price: nat, money: nat, taken: nat)
    requires Paying(all, w0, list, k, w, price, money) && NoDup(all)
    requires k < |list| && money <= taken <= w[list[k]] && Total(list, w0) == Total(all, w0)
    ensures Total(all, w[list[k] := w[list[k]] - taken]) + (taken - money) + price == Total(all, w0)
    ensures Leftover(Keys(list, w0), price) == money && Total(all, w0) >= price
  {
    var x := list[k];
    assert x in list;
    TotalUpdated(all, w, x, w[x] - taken);
    TotalPrefix(list, k, w0);
    assert Keys(list, w0)[k..][0] == w0[x];
  }

  // One stack against what is still to be paid: it settles it, or all of it goes.
  ghost predicate Turn(w: Worths, item: Stack, money: nat, after: Worths, rest: nat, done: bool, taken: nat) {
    && item in w && (done <==> w[item] >= money)
    && if done then rest == money <= taken <= w[item] && after == w[item := w[item] - taken]
       else rest == money - w[item] && after == w[item := 0]
  }

  lemma AfterTurn(all: seq<Stack>, w0: Worths, list: seq<Stack>, k: nat, w: Worths, price: nat, money: nat,
                  after: Worths, rest: nat, done: bool, taken: nat)
    requires Paying(all, w0, list, k, w, price, money) && NoDup(all)
    requires k < |list| && Total(list, w0) == Total(all, w0) && Turn(w, list[k], money, after, rest, done, taken)
    requires InW(all, after)
    ensures !done ==> Paying(all, w0, list, k + 1, after, price, rest)
    ensures done ==> taken >= money && Total(all, after) + (taken - money) + price == Total(all, w0)
    ensures done ==> rest == Leftover(Keys(list, w0), price) && price <= Total(all, w0)
  {
    if done {
      LastStack(all, w0, list, k, w, price, money, taken);
    } else {
      OneStackGone(all, w0, list, k, w, price, money);
    }
  }

  lemma TotalPrefix(list: seq<Stack>, k: nat, w: Worths)
    requires k < |list| && InW(list, w)
    ensures Total(list[..k], w) + w[list[k]] <= Total(list, w)
  {
    var x := list[k];
    assert list == list[..k] + ([x] + list[k + 1..]);
    TotalOfBoth(list[..k], [x] + list[k + 1..], w);
    TotalOfBoth([x], list[k + 1..], w);
  }

  lemma NoStackLeft(all: seq<Stack>, w0: Worths, list: seq<Stack>, w: Worths, price: nat, money: nat)
    requires Paying(all, w0, list, |list|, w, price, money) && Total(list, w0) == Total(all, w0)
    ensures Leftover(Keys(list, w0), price) == money == price - Total(all, w0)
    ensures Total(all, w) == 0
  {
    assert list[..|list|] == list && Keys(list, w0)[|list|..] == [];
  }

  lemma DistinctPart(list: seq<Stack>, all: seq<Stack>)
    requires NoDup(all) && multiset(list) <= multiset(all)
    ensures NoDup(list) && forall x | x in list :: x in all
  {
    forall x | x in list ensures x in all {
      assert x in multiset(list);
    }
    forall j, k | 0 <= j < k < |list| ensures list[j] != list[k] {
      if list[j] == list[k] {
        var x := list[j];
        assert list == list[..j] + [x] + list[j + 1..k] + [x] + list[k + 1..];
        assert multiset(list)[x] >= 2;
        OnlyOnce(all, x);
      }
    }
  }

  lemma {:induction false} OnlyOnce(s: seq<Stack>, x: Stack)
    requires NoDup(s)
    ensures multiset(s)[x] <= 1
  {
    if s != [] {
      assert s == [s[0]] + s[1..];
      if s[0] == x {
        assert x !in s[1..];
      } else {
        OnlyOnce(s[1..], x);
      }
    }
  }

  // What a payer has: the worths of the stacks held, rising, the change given, and the bank balance.
  datatype Funds = Funds(keys: seq<nat>, change: nat, bank: nat)
  {
    function Coins(): nat {
      SumOf(keys)
    }
  }

  // The coins pay the price exactly, change included, or all go when they cannot.
  predicate CoinsPaid(a: Funds, b: Funds, price: nat) {
    if a.Coins() >= price then b.Coins() + b.change + price == a.Coins() + a.change
    else b.Coins() == 0 && b.change == a.change
  }

  // What a payment does; `bank` says whether the bank may be used. It is all in what the payer has.
  predicate Outcome(a: Funds, b: Funds, price: nat, bank: bool, ok: bool) {
    && (ok <==> price == 0 || a.Coins() + (if bank then a.bank else 0) >= price)
    && if !ok || price == 0 then b == a
       else
         && CoinsPaid(a, b, price)
         && b.bank + (if bank && a.bank >= Leftover(a.keys, price) then Leftover(a.keys, price) else 0) == a.bank
  }

  lemma {:induction false} LeftoverOfAll(keys: seq<nat>, price: nat)
    requires SumOf(keys) < price
    ensures Leftover(keys, price) == price - SumOf(keys)
  {
    if keys != [] {
      LeftoverOfAll(keys[1..], price - keys[0]);
    }
  }

  /** Without the bank a payment succeeds exactly when the coins reach the price, and then what the
      payer has drops by exactly the price. */
  lemma CoinsAlone(a: Funds, b: Funds, price: nat, ok: bool)
    requires Outcome(a, b, price, false, ok)
    ensures ok <==> a.Coins() >= price
    ensures ok ==> b.Coins() + b.change == a.Coins() + a.change - price
    ensures b.bank == a.bank
  {
  }

  /** With the bank and too few coins all coins go and the bank pays exactly the rest. */
  lemma BankPaysRest(a: Funds, b: Funds, price: nat, ok: bool)
    requires Outcome(a, b, price, true, ok) && a.Coins() < price
    ensures ok <==> a.bank >= price - a.Coins()
    ensures ok ==> b.Coins() == 0 && b.change == a.change && b.bank == a.bank - (price - a.Coins())
  {
    if ok {
      LeftoverOfAll(a.keys, price);
    }
  }

  /** With the bank and enough coins the price is paid in coins, and yet the bank is debited again,
      by the part that the last stack settled, whenever it can afford it: the payment is a single
      one exactly when the balance is below that part. Both follow from what is held before. */
  lemma PaidTwiceIff(a: Funds, b: Funds, price: nat, ok: bool)
    requires Outcome(a, b, price, true, ok) && 0 < price <= a.Coins()
    ensures ok && b.Coins() + b.change == a.Coins() + a.change - price
    ensures 1 <= Leftover(a.keys, price) <= price
    ensures b.bank == a.bank <==> a.bank < Leftover(a.keys, price)
    ensures a.bank >= Leftover(a.keys, price) ==> b.bank == a.bank - Leftover(a.keys, price)
  {
    LeftoverIsPartOfOne(a.keys, price);
  }

  /** One platinum coin, a price of 60 and a balance that covers it: the coin pays, forty gold come
      back, and the bank pays the 60 once more. */
  lemma OnePlatinumCoin(b: Funds, bank: nat, ok: bool)
    requires bank >= 60 && Outcome(Funds([PLATINUM], 0, bank), b, 60, true, ok)
    ensures ok && b.Coins() + b.change == 40 && b.bank == bank - 60
  {
    assert SumOf([PLATINUM]) == PLATINUM + SumOf([]);
    PaidTwiceIff(Funds([PLATINUM], 0, bank), b, 60, ok);
  }

  /** A cylinder holding coins at any depth, the change it is given, and its owner's bank account. */
  class Cylinder {
    const things: seq<Thing>
    const purse: Mintage
    const isPlayer: bool
    var bankBalance: nat
    // What each stack is worth now.
    ghost var worths: Worths

    constructor (things: seq<Thing>, purse: Mintage, isPlayer: bool, bankBalance: nat)
      requires NoDup(Stacks(things)) && forall s | s in Stacks(things) :: Proper(s)
      ensures Valid()
      ensures this.things == things && this.purse == purse && this.isPlayer == isPlayer
      ensures this.bankBalance == bankBalance
    {
      this.things, this.purse, this.isPlayer, this.bankBalance := things, purse, isPlayer, bankBalance;
      worths := map s | s in Stacks(things) :: s.GetWorth();
    }

    ghost predicate Valid()
      reads this`worths, Stacks(things)
    {
      && NoDup(Stacks(things)) && InW(Stacks(things), worths)
      && (forall s | s in worths :: s in Stacks(things))
      && forall s {:trigger Known(s)} | s in Stacks(things) :: Known(s)
    }

    ghost predicate Known(s: Stack)
      reads this`worths, s
    {
      Proper(s) && s in worths && worths[s] == s.GetWorth()
    }

    static ghost predicate Proper(s: Stack)
      reads s
    {
      (s.unit == GOLD || s.unit == PLATINUM || s.unit == CRYSTAL) && s.count <= 100
    }

    // The coins held, and all of it with the change.
    ghost function CoinsHeld(): nat
      requires InW(Stacks(things), worths)
      reads this`worths
    {
      Total(Stacks(things), worths)
    }

    ghost function FundsNow(): (f: Funds)
      requires InW(Stacks(things), worths)
      reads this, purse
      ensures f.Coins() == CoinsHeld()
    {
      RisingWorthsSum(Stacks(things), worths);
      Funds(RisingWorths(Stacks(things), worths), Worth(purse.coins), bankBalance)
    }

    method InternalRemoveItem(item: Stack, count: nat)
      requires Valid() && item in Stacks(things) && count <= item.count
      modifies item, this
      ensures Valid() && bankBalance == old(bankBalance) && item.count == old(item.count) - count
      ensures worths == old(worths)[item := item.GetWorth()]
    {
      assert Known(item);
      item.count := item.count - count;
      worths := worths[item := item.GetWorth()];
      forall s | s in Stacks(things) ensures Known(s) {
        assert old(Known(s));
      }
    }

    // Takes enough coins off a stack worth more, and gives change.
    method Break(item: Stack, money: nat) returns (ghost taken: nat)
      requires Valid() && item in Stacks(things) && 0 < money < worths[item]
      modifies item, purse, this
      ensures Valid() && bankBalance == old(bankBalance) && money <= taken <= old(worths[item])
      ensures worths == old(worths)[item := old(worths[item]) - taken]
      ensures Worth(purse.coins) == old(Worth(purse.coins)) + (taken - money)
    {
      assert Known(item);
      var removeCount, change := HowMany(item, money);
      taken := money + change;
      GiveChange(change);
      InternalRemoveItem(item, removeCount);
    }

    // How many coins of a stack reach the price, and by how much they exceed it.
    static method HowMany(item: Stack, money: nat) returns (removeCount: nat, change: nat)
      requires item.unit <= 10000 && 0 < money < item.count * item.unit
      ensures removeCount <= item.count && change < 10000 && money + change <= item.count * item.unit
      ensures (item.count - removeCount) * item.unit == item.count * item.unit - (money + change)
    {
      var worth := item.GetWorth() / item.count;
      removeCount := (money + worth - 1) / worth;
      BreakNumbers(item.unit, item.count, money, worth, removeCount, worth * removeCount);
      change := worth * removeCount - money;
    }

    method GiveChange(change: nat)
      requires Valid() && change < 10000
      modifies purse
      ensures Valid() && Worth(purse.coins) == old(Worth(purse.coins)) + change
    {
      purse.AddSmallMoney(change);
    }

    // One turn of the loop over the coins; `done` when the payment is settled.
    method TakeStack(item: Stack, money: nat) returns (rest: nat, done: bool, ghost taken: nat)
      requires Valid() && item in Stacks(things) && money > 0
      modifies item, purse, this
      ensures Valid() && bankBalance == old(bankBalance)
      ensures Turn(old(worths), item, money, worths, rest, done, taken)
      ensures !done ==> purse.coins == old(purse.coins)
      ensures done ==> Worth(purse.coins) == old(Worth(purse.coins)) + (taken - money)
    {
      assert Known(item);
      var worth := item.GetWorth();
      if worth < money {
        InternalRemoveItem(item, item.count);
        rest, done, taken := money - worth, false, worth;
      } else if worth > money {
        taken := Break(item, money);
        rest, done := money, true;
      } else {
        InternalRemoveItem(item, item.count);
        rest, done, taken := money, true, money;
      }
    }

    // The coin stacks by rising worth, and what they are worth together.
    method CountMoney() returns (moneyMap: seq<Stack>, moneyCount: nat)
      requires Valid()
      ensures NoDup(moneyMap) && Sorted(moneyMap, worths) && forall x | x in moneyMap :: x in Stacks(things)
      ensures moneyCount == Total(moneyMap, worths) == CoinsHeld() && Keys(moneyMap, worths) == FundsNow().keys
    {
      assert forall s | s in worths :: Known(s);
      moneyMap, moneyCount := Gather(things, worths);
      DistinctPart(moneyMap, Stacks(things));
      KeysAreRisingWorths(moneyMap, Stacks(things), worths);
    }

    // Coins first, and what they leave owing from the bank if it holds as much.
    method PayBoth(moneyMap: seq<Stack>, price: nat, bank: bool)
      requires Valid() && price > 0 && NoDup(moneyMap) && forall x | x in moneyMap :: x in Stacks(things)
      requires Total(moneyMap, worths) == CoinsHeld() && Keys(moneyMap, worths) == FundsNow().keys
      requires CoinsHeld() + (if bank then bankBalance else 0) >= price
      modifies Stacks(things), purse, this
      ensures Valid() && Outcome(old(FundsNow()), FundsNow(), price, bank, true)
    {
      var money := PayCoins(moneyMap, price);
      if bank && bankBalance >= money {
        bankBalance := bankBalance - money;
      }
    }

    /** Pays the price from the coins, cheapest stacks first, and asks the bank for what the
        source's variable is left with. */
    method RemoveMoney(price: nat, useBalance: bool) returns (ok: bool)
      requires Valid()
      modifies Stacks(things), purse, this
      ensures Valid() && Outcome(old(FundsNow()), FundsNow(), price, useBalance && isPlayer, ok)
      ensures !ok ==> worths == old(worths) && purse.coins == old(purse.coins)
    {
      if price == 0 {
        return true;
      }
      var moneyMap, moneyCount := CountMoney();
      var balance := if useBalance && isPlayer then bankBalance else 0;
      if moneyCount + balance < price {
        return false;
      }
      PayBoth(moneyMap, price, useBalance && isPlayer);
      ok := true;
    }

    // One turn of the loop within a payment that started with coins worth `had`, the change and
    // the worths w0.
    method PayNext(moneyMap: seq<Stack>, k: nat, money: nat, ghost w0: Worths, ghost had: nat, ghost change: nat,
                   ghost price: nat)
      returns (rest: nat, done: bool)
      requires Valid() && k < |moneyMap| && Paying(Stacks(things), w0, moneyMap, k, worths, price, money)
      requires had == Total(Stacks(things), w0) == Total(moneyMap, w0) && change == Worth(purse.coins)
      modifies Stacks(things), purse, this
      ensures Valid() && bankBalance == old(bankBalance)
      ensures !done ==>
        && Paying(Stacks(things), w0, moneyMap, k + 1, worths, price, rest)
        && purse.coins == old(purse.coins)
      ensures done ==> price <= had && CoinsHeld() + Worth(purse.coins) + price == had + change
      ensures done ==> rest == Leftover(Keys(moneyMap, w0), price)
    {
      assert moneyMap[k] in moneyMap;
      ghost var w, taken := worths, 0;
      rest, done, taken := TakeStack(moneyMap[k], money);
      AfterTurn(Stacks(things), w0, moneyMap, k, w, price, money, worths, rest, done, taken);
    }

    // The loop over the coins; returns what the source's variable is left with.
    method PayCoins(moneyMap: seq<Stack>, price: nat) returns (money: nat)
      requires Valid() && price > 0 && NoDup(moneyMap)
      requires forall x | x in moneyMap :: x in Stacks(things)
      requires Total(moneyMap, worths) == CoinsHeld()
      modifies Stacks(things), purse, this
      ensures Valid() && bankBalance == old(bankBalance) && money == Leftover(Keys(moneyMap, old(worths)), price)
      ensures CoinsPaid(old(FundsNow()), FundsNow(), price)
    {
      ghost var w0, a := worths, FundsNow();
      money := price;
      NothingPaid(Stacks(things), w0, moneyMap, price);
      for k := 0 to |moneyMap|
        invariant Valid() && purse.coins == old(purse.coins) && bankBalance == old(bankBalance)
        invariant Paying(Stacks(things), w0, moneyMap, k, worths, price, money)
      {
        var done := false;
        money, done := PayNext(moneyMap, k, money, w0, a.Coins(), a.change, price);
        if done {
          return;
        }
      }
      NoStackLeft(Stacks(things), w0, moneyMap, worths, price, money);
    }
  }

  lemma BreakNumbers(unit: nat, count: nat, money: nat, worth: nat, r: nat, taken: nat)
    requires unit > 0 && unit <= 10000 && 0 < money < count * unit
    requires worth == count * unit / count && worth > 0
    requires r == (money + worth - 1) / worth && taken == worth * r
    ensures r <= count && money <= taken < money + 10000
    ensures (count - r) * unit == count * unit - taken
  {
    UnitWorth(unit, count);
    var _ := ChangeDue(unit, count, money);
  }

  lemma UnitWorth(unit: int, count: int)
    requires count > 0
    ensures count * unit / count == unit
  {
    var x := count * unit;
    var k := x / count - unit;
    assert count * k == -(x % count);
    assert k >= 1 ==> count * k >= count;
    assert k <= -1 ==> count * k <= -count;
  }
}
