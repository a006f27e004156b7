/** Minting coins for an amount of money, in the source's machine arithmetic. */
module Coins {
  import opened Sequences
  import opened Words

  const GOLD := 1
  const PLATINUM := 100
  const CRYSTAL := 10000

  // A new stack of coins.
  datatype Minted = Minted(unit: nat, count: nat)

  function Worth(s: seq<Minted>): nat {
    if s == [] then 0 else s[0].unit * s[0].count + Worth(s[1..])
  }

  lemma {:induction false} WorthOfBoth(a: seq<Minted>, b: seq<Minted>)
    ensures Worth(a + b) == Worth(a) + Worth(b)
  {
    if a == [] {
      assert a + b == b;
    } else {
      WorthOfBoth(a[1..], b);
      assert (a + b)[1..] == a[1..] + b;
    }
  }

  // A created stack: the count arrives as 16 bits, zero stands for one, and 8 bits are kept.
  function CreateItem(unit: nat, count: nat): Minted {
    var arg := count % 0x1_0000;
    Minted(unit, (if arg == 0 then 1 else arg) % 0x100)
  }

  // Crystal coins in stacks of at most a hundred.
  function Crystals(n: nat): seq<Minted> {
    if n == 0 then [] else var c := if n < 100 then n else 100; [CreateItem(CRYSTAL, c)] + Crystals(n - c)
  }

  // Where the 64-bit amount is cut to 32 bits and the product is taken in 32 bits.
  function CrystalCount(money: nat): nat {
    Word(money / 10000)
  }

  function AfterCrystals(money: nat): nat {
    var product := Word(CrystalCount(money) * 10000);
    if product <= money then money - product else money
  }

  function PlatinumCount(money: nat): nat {
    (AfterCrystals(money) / 100) % 0x1_0000
  }

  function AfterPlatinum(money: nat): int {
    AfterCrystals(money) - PlatinumCount(money) * 100
  }

  // Everything addMoney creates.
  function Mint(money: nat): seq<Minted> {
    Crystals(CrystalCount(money))
    + (if PlatinumCount(money) != 0 then [CreateItem(PLATINUM, PlatinumCount(money))] else [])
    + (if AfterPlatinum(money) != 0 then [CreateItem(GOLD, AfterPlatinum(money) % 0x1_0000)] else [])
  }

  predicate ProperStacks(s: seq<Minted>) {
    forall k | 0 <= k < |s| :: 1 <= s[k].count <= 100
  }

  lemma {:induction false} CrystalsWorth(n: nat)
    ensures Worth(Crystals(n)) == 10000 * n
    ensures ProperStacks(Crystals(n))
    ensures forall k | 0 <= k < |Crystals(n)| :: Crystals(n)[k].unit == CRYSTAL
  {
    if n > 0 {
      var c := if n < 100 then n else 100;
      CrystalsWorth(n - c);
      assert Crystals(n)[1..] == Crystals(n - c);
    }
  }

  // How many coins of one kind there are.
  function CountOf(s: seq<Minted>, unit: nat): nat {
    if s == [] then 0 else (if s[0].unit == unit then s[0].count else 0) + CountOf(s[1..], unit)
  }

  lemma {:induction false} NoneOf(s: seq<Minted>, t: seq<Minted>, unit: nat)
    requires forall k | 0 <= k < |s| :: s[k].unit != unit
    ensures CountOf(s + t, unit) == CountOf(t, unit)
  {
    if s == [] {
      assert s + t == t;
    } else {
      NoneOf(s[1..], t, unit);
      assert (s + t)[1..] == s[1..] + t;
    }
  }

  // What is left below one crystal coin, in platinum and gold.
  function SmallChange(rest: nat): seq<Minted>
    requires rest < 10000
  {
    (if rest / 100 != 0 then [Minted(PLATINUM, rest / 100)] else [])
    + (if rest % 100 != 0 then [Minted(GOLD, rest % 100)] else [])
  }

  lemma SmallChangeExact(rest: nat)
    requires rest < 10000
    ensures Worth(SmallChange(rest)) == rest && ProperStacks(SmallChange(rest))
    ensures CountOf(SmallChange(rest), PLATINUM) < 100 && CountOf(SmallChange(rest), GOLD) < 100
  {
    var p, g := rest / 100, rest % 100;
    assert rest == p * 100 + g;
    var ps := if p != 0 then [Minted(PLATINUM, p)] else [];
    var gs := if g != 0 then [Minted(GOLD, g)] else [];
    WorthOfBoth(ps, gs);
    NoneOf(ps, gs, GOLD);
    NoneOf(gs, [], PLATINUM);
    assert gs + [] == gs;
    if ps != [] {
      assert (ps + gs)[1..] == gs;
    } else {
      assert ps + gs == gs;
    }
  }

  lemma MintParts(money: nat)
    requires money < 4294970000
    ensures Mint(money) == Crystals(money / 10000) + SmallChange(money % 10000)
  {
    NothingWraps(money);
    SmallParts(money % 10000);
  }

  lemma NothingWraps(money: nat)
    requires money < 4294970000
    ensures CrystalCount(money) == money / 10000 && AfterCrystals(money) == money % 10000
  {
    var n := money / 10000;
    assert n * 10000 <= 4294960000;
    assert Word(n) == n && Word(n * 10000) == n * 10000;
  }

  lemma SmallParts(rest: nat)
    requires rest < 10000
    ensures (rest / 100) % 0x1_0000 == rest / 100 < 100 && rest - rest / 100 * 100 == rest % 100
  {
  }

  /** Below 4294970000, where the 32-bit product cannot wrap, the coins are worth exactly the money,
      in stacks of 1 to 100, with fewer than a hundred platinum and fewer than a hundred gold. */
  lemma MintExact(money: nat)
    requires money < 4294970000
    ensures Worth(Mint(money)) == money
    ensures ProperStacks(Mint(money))
    ensures CountOf(Mint(money), PLATINUM) < 100 && CountOf(Mint(money), GOLD) < 100
  {
    var crystals, change := Crystals(money / 10000), SmallChange(money % 10000);
    MintParts(money);
    CrystalsWorth(money / 10000);
    SmallChangeExact(money % 10000);
    WorthOfBoth(crystals, change);
    NoneOf(crystals, change, PLATINUM);
    NoneOf(crystals, change, GOLD);
  }

  // ---------------------------------------------------------------- the exact amounts

  // What the platinum stack and the gold stack come to when m is left after the crystal coins.
  function ChangeWorth(m: nat): nat {
    var p := (m / 100) % 0x1_0000;
    var g := m - p * 100;
    PLATINUM * (p % 0x100) + if g == 0 then 0 else (if g % 0x1_0000 == 0 then 1 else g % 0x1_0000) % 0x100
  }

  lemma StackWorth(unit: nat, count: nat)
    requires count < 0x1_0000
    ensures Worth([CreateItem(unit, count)]) == unit * ((if count == 0 then 1 else count) % 0x100)
  {
    var stack := CreateItem(unit, count);
    assert Worth([stack]) == stack.unit * stack.count + Worth([]);
  }

  lemma PlatinumWorth(p: nat)
    requires p < 0x1_0000
    ensures Worth(if p != 0 then [CreateItem(PLATINUM, p)] else []) == PLATINUM * (p % 0x100)
  {
    StackWorth(PLATINUM, p);
  }

  lemma GoldWorth(g: nat)
    ensures Worth(if g != 0 then [CreateItem(GOLD, g % 0x1_0000)] else [])
         == if g == 0 then 0 else (if g % 0x1_0000 == 0 then 1 else g % 0x1_0000) % 0x100
  {
    StackWorth(GOLD, g % 0x1_0000);
  }

  lemma PlatinumFits(m: nat)
    ensures m >= (m / 100) % 0x1_0000 * 100
    ensures (m / 100) % 0x1_0000 % 0x1_0000 == (m / 100) % 0x1_0000
  {
    assert m / 100 * 100 <= m && (m / 100) % 0x1_0000 <= m / 100;
  }

  lemma MintWorth(money: nat)
    ensures Worth(Mint(money)) == 10000 * CrystalCount(money) + ChangeWorth(AfterCrystals(money))
  {
    var n, p := CrystalCount(money), PlatinumCount(money);
    PlatinumFits(AfterCrystals(money));
    var g: nat := AfterPlatinum(money);
    var ps := if p != 0 then [CreateItem(PLATINUM, p)] else [];
    var gs := if g != 0 then [CreateItem(GOLD, g % 0x1_0000)] else [];
    CrystalsWorth(n);
    PlatinumWorth(p);
    GoldWorth(g);
    WorthOfBoth(Crystals(n) + ps, gs);
    WorthOfBoth(Crystals(n), ps);
  }

  // How often the 32-bit product wraps.
  function Wraps(money: nat): nat {
    money / 10000 * 10000 / 0x1_0000_0000
  }

  // With q crystal coins wrapping w times, 2^32 per wrap stays behind with the rest.
  lemma LeftBehind(money: nat)
    requires money / 10000 < 0x1_0000_0000
    ensures CrystalCount(money) == money / 10000
    ensures AfterCrystals(money) == money % 10000 + 0x1_0000_0000 * Wraps(money)
  {
  }

  // Multiples of 256 so close to each other are the same.
  lemma MultiplesNear(a: int, b: int, w: int, u: int, s: int)
    requires 25 * a + b == 0x4000_0000 * w && 0 <= b <= 24 && 0 <= s <= 3 && a == 256 * u - s
    ensures b == 25 * s
  {
    var k := 4194304 * w - 25 * u;
    assert b - 25 * s == 256 * k;
  }

  lemma ModTwice(x: nat)
    ensures x % 0x1_0000 % 0x100 == x % 0x100
  {
    assert x == 0x1_0000 * (x / 0x1_0000) + x % 0x1_0000;
    assert x % 0x1_0000 == x - 0x100 * (0x100 * (x / 0x1_0000));
  }

  // Wrapping a number of times that is no multiple of 25 moves the platinum coins too far.
  lemma TooFar(rest: nat, w: nat)
    requires rest < 10000 && w % 25 != 0
    ensures ChangeWorth(rest + 0x1_0000_0000 * w) != rest
  {
    var m := rest + 0x1_0000_0000 * w;
    var h := m / 100;
    ModTwice(h);
    var p := h % 0x100;
    var g := ChangeWorth(m) - 100 * p;
    assert 0 <= g < 0x100;
    if ChangeWorth(m) == rest {
      var a, b := 0x4000_0000 * w / 25, 0x4000_0000 * w % 25;
      assert b != 0 by { NotDivisible(w); }
      var carry := h - rest / 100 - a;
      assert 0 <= carry <= 1;
      var d := rest / 100 - p;
      assert 0 <= d <= 2;
      MultiplesNear(a, b, w, h / 0x100, carry + d);
    }
  }

  lemma NotDivisible(w: nat)
    requires w % 25 != 0
    ensures 0x4000_0000 * w % 25 != 0
  {
    var k, r := w / 25, w % 25;
    assert 0x4000_0000 * w == 25 * (0x4000_0000 * k + 42949672 * r) + 24 * r;
    assert 24 * r == 25 * r - r;
  }

  lemma LowPart(k: nat, x: nat)
    requires x < 0x1_0000
    ensures (0x1_0000 * k + x) % 0x1_0000 == x
  {
  }

  lemma Hundreds(a: nat, c: nat)
    requires c < 100
    ensures (100 * a + c) / 100 == a
  {
  }

  // Wrapping 25 k times only makes the gold coins wrong, when there should be none.
  lemma JustRight(rest: nat, k: nat)
    requires rest < 10000 && k > 0
    ensures ChangeWorth(rest + 0x1_0000_0000 * (25 * k)) == rest + if rest % 100 == 0 then 1 else 0
  {
    var m, p, c := rest + 0x1_0000_0000 * (25 * k), rest / 100, rest % 100;
    Hundreds(p + 0x4000_0000 * k, c);
    assert m == 100 * (p + 0x4000_0000 * k) + c;
    LowPart(0x4000 * k, p);
    assert p + 0x4000_0000 * k == 0x1_0000 * (0x4000 * k) + p;
    var g := m - p * 100;
    assert g == 0x1_0000 * (0x19_0000 * k) + c;
    LowPart(0x19_0000 * k, c);
  }

  lemma ChangeIsSmall(m: nat)
    ensures ChangeWorth(m) < 10000 * 0x1_0000_0000
  {
  }

  lemma RestOfRest(money: nat)
    ensures money % 10000 % 100 == money % 100
  {
    assert money == 100 * (100 * (money / 10000)) + money % 10000;
  }

  lemma WrapsAtLeastOnce(money: nat)
    requires 4294970000 <= money
    ensures Wraps(money) > 0
  {
    assert money / 10000 >= 429497;
  }

  // Where the product wraps and the count of crystal coins still fits, only the change matters.
  lemma WrappedExactIff(money: nat, rest: nat, w: nat)
    requires 4294970000 <= money < 42949672960000 && rest == money % 10000 && w == Wraps(money)
    ensures Worth(Mint(money)) == money <==> w % 25 == 0 && rest % 100 != 0
  {
    MintWorth(money);
    LeftBehind(money);
    WrapsAtLeastOnce(money);
    var change := ChangeWorth(AfterCrystals(money));
    assert Worth(Mint(money)) == money <==> change == rest;
    if w % 25 == 0 {
      JustRight(rest, w / 25);
    } else {
      TooFar(rest, w);
    }
  }

  // Where the count itself is cut to 32 bits, far too little is created.
  lemma CutShort(money: nat)
    requires money >= 42949672960000
    ensures Worth(Mint(money)) < money
  {
    MintWorth(money);
    ChangeIsSmall(AfterCrystals(money));
    var q := money / 10000;
    assert CrystalCount(money) <= q - 0x1_0000_0000;
  }

  /** The coins are worth the money exactly when the 32-bit product does not wrap, or wraps a
      multiple of 25 times while the count of crystal coins still fits and some gold is due. */
  lemma MintExactIff(money: nat)
    ensures Worth(Mint(money)) == money <==>
      money < 4294970000 || (money < 42949672960000 && Wraps(money) % 25 == 0 && money % 100 != 0)
  {
    if money < 4294970000 {
      MintExact(money);
    } else if money < 42949672960000 {
      RestOfRest(money);
      WrappedExactIff(money, money % 10000, Wraps(money));
    } else {
      CutShort(money);
    }
  }

  lemma FirstChange(m: nat)
    requires m == 0x1_0000_0000
    ensures ChangeWorth(m) == 4096
  {
    assert m / 100 == 42949672;
    assert 42949672 % 0x1_0000 == 23592 && 23592 % 0x100 == 40;
    LowPart(65500, 96);
    assert m - 2359200 == 0x1_0000 * 65500 + 96;
  }

  /** At 4294970000 the coins created are worth 4294974096. */
  lemma MintWraps(money: nat)
    requires money == 4294970000
    ensures Worth(Mint(money)) == 4294974096
  {
    MintWorth(money);
    LeftBehind(money);
    assert money / 10000 == 429497 && money % 10000 == 0 && Wraps(money) == 1;
    FirstChange(AfterCrystals(money));
  }

  /** Far above that an amount is exact again. */
  lemma MintExactAgain(money: nat)
    requires money == 107374190001
    ensures Worth(Mint(money)) == money
  {
    MintExactIff(money);
  }

  /** A cylinder that coins are put into: what was minted, in order. */
  class Mintage {
    var coins: seq<Minted>

    constructor ()
      ensures coins == []
    {
      coins := [];
    }

    method AddCrystals(n: nat)
      modifies this
      ensures coins == old(coins) + Crystals(n)
    {
      var crystalCoins := n;
      while crystalCoins > 0
        invariant coins + Crystals(crystalCoins) == old(coins) + Crystals(n)
      {
        var count := if crystalCoins < 100 then crystalCoins else 100;
        ghost var was := coins;
        coins := coins + [CreateItem(CRYSTAL, count)];
        crystalCoins := crystalCoins - count;
        assert was + ([CreateItem(CRYSTAL, count)] + Crystals(crystalCoins)) == coins + Crystals(crystalCoins);
      }
      assert coins + [] == coins;
    }

    // What a caller below the bound gets.
    method AddSmallMoney(amount: nat)
      requires amount < 4294970000
      modifies this
      ensures Worth(coins) == old(Worth(coins)) + amount
    {
      ghost var before := coins;
      AddMoney(amount);
      WorthOfBoth(before, Mint(amount));
      MintExact(amount);
    }

    method AddStack(unit: nat, count: nat)
      modifies this
      ensures coins == old(coins) + StackIf(unit, count)
    {
      if count != 0 {
        coins := coins + [CreateItem(unit, count % 0x1_0000)];
      }
    }

    /** Puts coins for the money into the cylinder, or on the floor when they do not fit. */
    method AddMoney(amount: nat)
      requires amount < 0x1_0000_0000_0000_0000
      modifies this
      ensures coins == old(coins) + Mint(amount)
    {
      if amount == 0 {
        MintNothing(amount);
        return;
      }
      var crystalCoins, platinumCoins, goldCoins := Split(amount);
      AddParts(crystalCoins, platinumCoins, goldCoins);
      PartsAreMint(amount);
    }

    // Crystal, platinum and gold coins, in this order.
    method AddParts(crystalCoins: nat, platinumCoins: nat, goldCoins: nat)
      modifies this
      ensures coins == old(coins) + Parts(crystalCoins, platinumCoins, goldCoins)
    {
      AddCrystals(crystalCoins);
      AddStack(PLATINUM, platinumCoins);
      AddStack(GOLD, goldCoins);
      Assoc(old(coins), Crystals(crystalCoins), StackIf(PLATINUM, platinumCoins));
      Assoc(old(coins), Crystals(crystalCoins) + StackIf(PLATINUM, platinumCoins), StackIf(GOLD, goldCoins));
    }
  }

  // The coins due of each kind, in the source's machine arithmetic.
  method Split(amount: nat) returns (crystalCoins: nat, platinumCoins: nat, goldCoins: nat)
    ensures crystalCoins == CrystalCount(amount) && platinumCoins == PlatinumCount(amount)
    ensures goldCoins == AfterPlatinum(amount)
  {
    var money := amount;
    crystalCoins := Word(money / 10000);
    ProductFits(money, crystalCoins);
    money := money - Word(crystalCoins * 10000);
    platinumCoins := (money / 100) % 0x1_0000;
    PlatinumFits(money);
    goldCoins := money - platinumCoins * 100;
  }

  // One stack, of a 16-bit count, unless there are no coins of the kind.
  function StackIf(unit: nat, count: nat): seq<Minted> {
    if count != 0 then [CreateItem(unit, count % 0x1_0000)] else []
  }

  function Parts(crystalCoins: nat, platinumCoins: nat, goldCoins: nat): seq<Minted> {
    Crystals(crystalCoins) + StackIf(PLATINUM, platinumCoins) + StackIf(GOLD, goldCoins)
  }

  lemma PartsAreMint(money: nat)
    ensures Parts(CrystalCount(money), PlatinumCount(money), AfterPlatinum(money)) == Mint(money)
  {
    PlatinumFits(AfterCrystals(money));
  }

  lemma MintNothing(money: nat)
    requires money == 0
    ensures Mint(money) == []
  {
    MintParts(money);
  }

  // The 32-bit product never exceeds the money it is taken from.
  lemma ProductFits(money: nat, crystalCoins: nat)
    requires crystalCoins == CrystalCount(money)
    ensures Word(crystalCoins * 10000) <= money
    ensures money - Word(crystalCoins * 10000) == AfterCrystals(money)
  {
  }
}
