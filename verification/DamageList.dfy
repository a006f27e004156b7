/** How a total damage is spread over falling rounds. */
module DamageList {
  import opened Numbers

  const EVENT_CREATURE_THINK_INTERVAL := 1000

  function Abs(x: int): nat {
    if x < 0 then -x else x
  }

  function Sum(s: seq<int>): int {
    if s == [] then 0 else Sum(s[..|s| - 1]) + s[|s| - 1]
  }

  lemma SumOfOneMore(s: seq<int>, x: int)
    ensures Sum(s + [x]) == Sum(s) + x
  {
  }

  // 1 + 2 + ... + k
  function Rise(k: nat): nat {
    k * (k + 1) / 2
  }

  lemma {:induction false} RiseIs(k: nat)
    ensures 2 * Rise(k) == k * (k + 1)
  {
    if k > 0 {
      RiseIs(k - 1);
      assert k * (k + 1) == (k - 1) * k + 2 * k;
    }
  }

  lemma RiseStep(k: nat)
    requires k > 0
    ensures Rise(k) == Rise(k - 1) + k
  {
  }

  // The part of the amount that should have been dealt once the rounds of size i are done.
  function Target(amount: nat, start: nat, i: nat): int
    requires 1 <= i <= start
  {
    ((start + 1 - i) * amount) / start
  }

  lemma Division(x: nat, d: nat, q: nat)
    requires d > 0
    ensures x <= q * d ==> x / d <= q
    ensures x >= q * d ==> x / d >= q
  {
    var r := x / d;
    assert x == r * d + x % d;
    assert r >= q + 1 ==> r * d >= (q + 1) * d == q * d + d;
    assert r + 1 <= q ==> q * d >= (r + 1) * d == r * d + d;
  }

  lemma TargetBounds(amount: nat, start: nat, i: nat)
    requires 1 <= i <= start
    ensures Target(amount, start, i) <= amount
    ensures i == 1 ==> Target(amount, start, i) == amount
  {
    var n := start + 1 - i;
    assert n * amount <= amount * start;
    Division(n * amount, start, amount);
  }

  // With this much to deal the target rises by more than one round's size at every step.
  lemma TargetRises(amount: nat, start: nat, i: nat)
    requires 1 <= i < start && amount >= start * (start + 1)
    ensures Target(amount, start, i) >= Target(amount, start, i + 1) + start + 1
  {
  }

  lemma FirstTarget(amount: nat, start: nat)
    requires start >= 1 && amount >= start * (start + 1)
    ensures Target(amount, start, start) >= start + 1
  {
  }

  // Every size from start down to i + 1 in turn, each at least once.
  predicate Stairs(list: seq<int>, start: int, i: int) {
    && (forall j, k | 0 <= j < k < |list| :: list[j] >= list[k])
    && (forall k | 0 <= k < |list| :: i < list[k] <= start)
    && (forall v | i < v <= start :: v in list)
    && (list != [] ==> list[0] == start)
  }

  lemma OneMoreStair(list: seq<int>, start: int, i: int)
    requires 1 <= i <= start
    requires Stairs(list, start, i) || Stairs(list, start, i - 1)
    ensures Stairs(list + [i], start, i - 1)
  {
    var more := list + [i];
    forall v | i - 1 < v <= start ensures v in more {
      if v == i {
        assert more[|list|] == i;
      } else {
        assert v in list;
      }
    }
    assert i < start ==> start in list;
  }

  // Whether one more round of size i brings the sum nearer to the target.
  predicate Nearer(sum: int, i: int, med: int) {
    Abs(med - (sum + i)) < Abs(med - sum)
  }

  predicate Tie(sum: int, i: int, med: int) {
    Abs(med - (sum + i)) == Abs(med - sum)
  }

  // All of the amount is dealt, little more than that, and no more when there is enough to deal.
  predicate Deals(sum: int, amount: nat, start: nat) {
    && amount <= sum <= amount + Rise(start)
    && (amount >= start * (start + 1) ==> sum == amount)
  }

  /** Rounds of falling size that together deal the amount. The comparison of quotients is read as
      the exact one; where the two distances are equal, rounding decides, so either way may be taken. */
  method GenerateDamageList(amount: int, start: int) returns (list: seq<int>)
    ensures Stairs(list, start, 0)
    ensures start >= 1 ==> Deals(Sum(list), Abs(amount), start)
    ensures start <= 0 ==> list == []
    ensures start >= 1 ==>
      var dealt := if amount < 0 then -amount else amount;
      && dealt <= Sum(list) && 2 * (Sum(list) - dealt) <= start * (start + 1)
      && (dealt >= start * (start + 1) ==> Sum(list) == dealt)
    ensures start >= 1 ==>
      && list != [] && list[0] == start
      && (forall v | 1 <= v <= start :: v in list) && (forall v | v in list :: 1 <= v <= start)
      && forall j, k | 0 <= j < k < |list| :: list[k] <= list[j]
  {
    var total := Abs(amount);
    var sum := 0;
    list := [];
    var i := start;
    while i > 0
      invariant start <= 0 ==> i == start && list == []
      invariant start >= 1 ==> 0 <= i <= start && Stairs(list, start, i)
      invariant sum == Sum(list) && (start >= 1 ==> Spread(total, start, i, sum))
    {
      var n := start + 1 - i;
      var med := (n * total) / start;
      ghost var before := sum;
      var more := true;
      while more
        invariant sum == Sum(list)
        invariant Stairs(list, start, i) || Stairs(list, start, i - 1)
        invariant !more ==> sum != before && Stairs(list, start, i - 1) && 2 * sum + i >= 2 * med
        invariant sum == before || sum == before + i || 2 * (sum - i) + i <= 2 * med
        invariant more && sum != before ==> 2 * sum + i <= 2 * med
        decreases if more then Max(0, med - sum) + 1 else 0
      {
        OneMoreStair(list, start, i);
        SumOfOneMore(list, i);
        sum := sum + i;
        list := list + [i];
        more := Nearer(sum, i, med);
        if Tie(sum, i, med) {
          more := *;
        }
      }
      SpreadStep(total, start, i, before, sum);
      i := i - 1;
    }
    if start >= 1 {
      TargetBounds(total, start, 1);
      RiseIs(start);
      assert start in list;
    }
  }

  // How far the sum is from its targets once the rounds larger than i are done.
  predicate Spread(amount: nat, start: nat, i: nat, sum: int)
    requires i <= start && start >= 1
  {
    && sum <= amount + Rise(start) - Rise(i)
    && (if i == start then sum == 0
        else 2 * sum + (i + 1) >= 2 * Target(amount, start, i + 1)
             && (amount >= start * (start + 1) ==> 2 * sum <= 2 * Target(amount, start, i + 1) + (i + 1)))
  }

  lemma SpreadStep(amount: nat, start: nat, i: nat, before: int, sum: int)
    requires 1 <= i <= start && Spread(amount, start, i, before)
    requires 2 * sum + i >= 2 * Target(amount, start, i)
    requires sum == before + i || 2 * (sum - i) + i <= 2 * Target(amount, start, i)
    ensures Spread(amount, start, i - 1, sum)
  {
    RiseStep(i);
    TargetBounds(amount, start, i);
    RiseStep(start);
    RiseMonotone(i, start);
    if amount >= start * (start + 1) {
      if i < start {
        TargetRises(amount, start, i);
      } else {
        FirstTarget(amount, start);
      }
    }
  }

  lemma {:induction false} RiseMonotone(i: nat, k: nat)
    requires i <= k
    ensures Rise(i) <= Rise(k)
    decreases k - i
  {
    if i < k {
      RiseStep(k);
      RiseMonotone(i, k - 1);
    }
  }

  datatype IntervalInfo = IntervalInfo(timeLeft: int, value: int, interval: int)

  // What a list of rounds deals and how long it lasts.
  function Total(s: seq<IntervalInfo>): int {
    if s == [] then 0 else Total(s[..|s| - 1]) + s[|s| - 1].value
  }

  function Duration(s: seq<IntervalInfo>): int {
    if s == [] then 0 else Duration(s[..|s| - 1]) + s[|s| - 1].interval
  }

  // rounds copies of one round
  function Rounds(rounds: nat, info: IntervalInfo): (s: seq<IntervalInfo>)
    ensures |s| == rounds
  {
    seq(rounds, _ => info)
  }

  // So many equal rounds, a second apart at least.
  lemma RoundsAre(rounds: int, time: int, value: int)
    ensures var interval := Max(time, EVENT_CREATURE_THINK_INTERVAL);
      var s := Rounds(Max(rounds, 0), IntervalInfo(interval, value, interval));
      && |s| == (if rounds > 0 then rounds else 0)
      && forall k | 0 <= k < |s| ::
           s[k].value == value && s[k].interval == s[k].timeLeft == if time < 1000 then 1000 else time
  {
  }

  /** A damage condition, as far as its list of rounds goes. */
  class ConditionDamage {
    var maxDamage: int
    var minDamage: int
    var startDamage: int
    var periodDamage: int
    var tickInterval: int
    var ticks: int
    var damageList: seq<IntervalInfo>

    method AddDamage(rounds: int, time: int, value: int) returns (ok: bool)
      modifies this
      ensures var interval := Max(time, EVENT_CREATURE_THINK_INTERVAL);
        if rounds == -1 then
          ok && periodDamage == value && tickInterval == interval && ticks == -1 && damageList == old(damageList)
        else if old(periodDamage) > 0 then
          !ok && damageList == old(damageList) && ticks == old(ticks) && periodDamage == old(periodDamage)
        else
          && ok && periodDamage == old(periodDamage) && tickInterval == old(tickInterval)
          && damageList == old(damageList) + Rounds(Max(rounds, 0), IntervalInfo(interval, value, interval))
          && (old(ticks) >= 0 ==> ticks == old(ticks) + Duration(damageList) - Duration(old(damageList)))
          && (old(ticks) == -1 ==> ticks == -1)
      ensures (minDamage, maxDamage, startDamage) == old((minDamage, maxDamage, startDamage))
    {
      var interval := Max(time, EVENT_CREATURE_THINK_INTERVAL);
      if rounds == -1 {
        periodDamage := value;
        tickInterval := interval;
        ticks := -1;
        return true;
      }
      if periodDamage > 0 {
        return false;
      }
      var i := 0;
      while i < rounds
        invariant i == 0 || i <= rounds
        invariant i >= 0 && damageList == old(damageList) + Rounds(i, IntervalInfo(interval, value, interval))
        invariant old(ticks) >= 0 ==> 0 <= ticks == old(ticks) + Duration(damageList) - Duration(old(damageList))
        invariant old(ticks) == -1 ==> ticks == -1
        invariant periodDamage == old(periodDamage) && tickInterval == old(tickInterval)
        invariant (minDamage, maxDamage, startDamage) == old((minDamage, maxDamage, startDamage))
      {
        var damageInfo := IntervalInfo(interval, value, interval);
        DurationOfOneMore(damageList, damageInfo);
        assert Rounds(i, damageInfo) + [damageInfo] == Rounds(i + 1, damageInfo);
        damageList := damageList + [damageInfo];
        if ticks != -1 {
          ticks := ticks + damageInfo.interval;
        }
        i := i + 1;
      }
      ok := true;
    }

    // Adds one round for each value, an interval apart.
    method AddRounds(list: seq<int>)
      requires periodDamage == 0 && damageList == [] && ticks == 0
      modifies this
      ensures periodDamage == 0 && (minDamage, maxDamage, startDamage) == old((minDamage, maxDamage, startDamage))
      ensures Mirrors(damageList, list) && ticks == Duration(damageList)
    {
      for k := 0 to |list|
        invariant periodDamage == 0 && (minDamage, maxDamage, startDamage) == old((minDamage, maxDamage, startDamage))
        invariant Mirrors(damageList, list[..k])
        invariant 0 <= ticks == Duration(damageList)
      {
        ghost var was := damageList;
        var _ := AddDamage(1, tickInterval, -list[k]);
        ghost var x := damageList[|was|];
        assert damageList == was + [x];
        MirrorsOneMore(was, list, k, x);
      }
      assert list[..|list|] == list;
    }

    /** Fills an empty list from an amount between the two bounds, given as `amount`: the rounds
        deal it all, and nothing but rounds that weaken from the first down to 1. When the first
        round comes to nothing, or less, no round is dealt at all. */
    method Init(amount: int) returns (ok: bool)
      modifies this
      ensures ok == (old(periodDamage) != 0 || damageList != [])
        && (minDamage, maxDamage) == old((minDamage, maxDamage))
      ensures old(periodDamage) != 0 || old(damageList) != [] ==>
        damageList == old(damageList) && ticks == old(ticks) && startDamage == old(startDamage)
      ensures old(periodDamage) == 0 && old(damageList) == [] ==>
        && startDamage == FirstRound(old(startDamage), maxDamage, amount)
        && ticks == Duration(damageList)
        && if amount == 0 || startDamage < 1 then damageList == []
           else Weakens(damageList, startDamage) && Deals(-Total(damageList), Abs(amount), startDamage)
    {
      if periodDamage != 0 {
        return true;
      }
      if damageList == [] {
        ticks := 0;
        if amount != 0 {
          if startDamage > maxDamage {
            startDamage := maxDamage;
          } else if startDamage == 0 {
            startDamage := Max(1, CeilingOfTwentieth(amount));
          }
          var list := GenerateDamageList(amount, startDamage);
          AddRounds(list);
        }
      }
      ok := damageList != [];
    }
  }

  // The strength of the first round: what was set, but no more than the most; a twentieth of the
  // amount when nothing was set.
  function FirstRound(start: int, most: int, amount: int): int {
    if amount == 0 then start
    else if start > most then most
    else if start == 0 then Max(1, CeilingOfTwentieth(amount))
    else start
  }

  /** An amount is dealt exactly when the strength set is not negative, or, where it is more than
      the most, when the most is positive. So nothing is dealt when the bounds are negative. */
  lemma DealtIff(start: int, most: int, amount: int)
    requires amount != 0
    ensures FirstRound(start, most, amount) >= 1 <==> if start > most then most >= 1 else start >= 0
    ensures most < 0 ==> FirstRound(start, most, amount) < 1
  {
  }

  /** With no strength set the first round is a twentieth of the damage, rounded up and no less than one;
      a strength that is set is kept, and either is cut to the most. */
  lemma FirstRoundIs(start: int, most: int, amount: int)
    requires amount != 0
    ensures start > most ==> FirstRound(start, most, amount) == most
    ensures start <= most && start != 0 ==> FirstRound(start, most, amount) == start
    ensures start == 0 <= most && amount > 0 ==>
      var s := FirstRound(start, most, amount); 20 * (s - 1) < amount <= 20 * s
    ensures start == 0 <= most && amount < 0 ==> FirstRound(start, most, amount) == 1
  {
  }

  function CeilingOfTwentieth(x: int): int {
    -(-x / 20)
  }

  // The rounds are negative, never stronger than the ones before, and go from start down to 1.
  ghost predicate Weakens(s: seq<IntervalInfo>, start: int) {
    exists list :: Mirrors(s, list) && Stairs(list, start, 0)
  }

  predicate Mirrors(s: seq<IntervalInfo>, list: seq<int>) {
    && |s| == |list|
    && (forall k | 0 <= k < |s| :: s[k].value == -list[k])
    && Total(s) == -Sum(list)
  }

  lemma MirrorsOneMore(s: seq<IntervalInfo>, list: seq<int>, k: nat, x: IntervalInfo)
    requires k < |list| && Mirrors(s, list[..k]) && x.value == -list[k]
    ensures Mirrors(s + [x], list[..k + 1])
    ensures Duration(s + [x]) == Duration(s) + x.interval
  {
    assert list[..k + 1] == list[..k] + [list[k]];
    SumOfOneMore(list[..k], list[k]);
    DurationOfOneMore(s, x);
  }

  lemma DurationOfOneMore(s: seq<IntervalInfo>, x: IntervalInfo)
    ensures Duration(s + [x]) == Duration(s) + x.interval
    ensures Total(s + [x]) == Total(s) + x.value
  {
  }
}
