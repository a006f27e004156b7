/** The modifiers of a creature as the sum of what its conditions stored. */
module Ledger {
  import opened Options
  import opened Sequences

  // Damage and mana shields are merged, and given their ticks, by rules of their own.
  datatype ConditionType = ATTRIBUTES | HASTE | PARALYZE | OWN(code: nat) | OTHER(code: nat)

  const SKILLS := 13
  const STATS := 5
  const BUFFS := 2

  // The attributes of a creature: skills, then stats, then amounts.
  const SLOTS := SKILLS + STATS + BUFFS

  // A condition as a value.
  datatype Entry = Entry(kind: ConditionType, id: int, subId: nat, ticks: int, endTime: int,
                         amounts: seq<int>, percents: seq<int>, speedDelta: int)
  {
    predicate WellFormed() {
      |amounts| == SLOTS && |percents| == SLOTS
    }

    predicate SameKey(e: Entry) {
      kind == e.kind && id == e.id && subId == e.subId
    }

    // What it adds to an attribute, or to the speed, which is the slot after the attributes.
    function Amount(slot: nat): int
      requires WellFormed() && slot <= SLOTS
    {
      if slot < SLOTS then if kind == ATTRIBUTES then amounts[slot] else 0
      else if kind == HASTE || kind == PARALYZE then speedDelta
      else 0
    }
  }

  predicate AllWellFormed(es: seq<Entry>) {
    forall k | 0 <= k < |es| :: es[k].WellFormed()
  }

  function Sum(es: seq<Entry>, slot: nat): int
    requires AllWellFormed(es) && slot <= SLOTS
  {
    if es == [] then 0 else Sum(es[..|es| - 1], slot) + es[|es| - 1].Amount(slot)
  }

  lemma {:induction false} SumOfBoth(a: seq<Entry>, b: seq<Entry>, slot: nat)
    requires AllWellFormed(a) && AllWellFormed(b) && slot <= SLOTS
    ensures AllWellFormed(a + b) && Sum(a + b, slot) == Sum(a, slot) + Sum(b, slot)
  {
    if b == [] {
      assert a + b == a;
    } else {
      var m := |b| - 1;
      assert (a + b)[..|a| + m] == a + b[..m];
      SumOfBoth(a, b[..m], slot);
    }
  }

  lemma SumOfOneMore(es: seq<Entry>, e: Entry, slot: nat)
    requires AllWellFormed(es) && e.WellFormed() && slot <= SLOTS
    ensures AllWellFormed(es + [e]) && Sum(es + [e], slot) == Sum(es, slot) + e.Amount(slot)
  {
  }

  lemma SumOfOneLess(es: seq<Entry>, k: nat, slot: nat)
    requires AllWellFormed(es) && k < |es| && slot <= SLOTS
    ensures AllWellFormed(DropAt(es, k)) && Sum(DropAt(es, k), slot) == Sum(es, slot) - es[k].Amount(slot)
  {
    assert es == es[..k] + [es[k]] + es[k + 1..];
    SumOfOneMore(es[..k], es[k], slot);
    SumOfBoth(es[..k] + [es[k]], es[k + 1..], slot);
    SumOfBoth(es[..k], es[k + 1..], slot);
  }

  lemma SumOfChanged(es: seq<Entry>, k: nat, e: Entry, slot: nat)
    requires AllWellFormed(es) && k < |es| && e.WellFormed() && slot <= SLOTS
    ensures AllWellFormed(es[k := e])
    ensures Sum(es[k := e], slot) == Sum(es, slot) - es[k].Amount(slot) + e.Amount(slot)
  {
    assert es == es[..k] + [es[k]] + es[k + 1..];
    assert es[k := e] == es[..k] + [e] + es[k + 1..];
    SumOfOneMore(es[..k], es[k], slot);
    SumOfOneMore(es[..k], e, slot);
    SumOfBoth(es[..k] + [es[k]], es[k + 1..], slot);
    SumOfBoth(es[..k] + [e], es[k + 1..], slot);
  }

  // No two conditions share type, id and sub-id.
  ghost predicate Unique(es: seq<Entry>) {
    forall j, k | 0 <= j < k < |es| :: !es[j].SameKey(es[k])
  }

  // Every level is what others contributed plus what the conditions stored.
  ghost predicate Balanced(levels: seq<int>, base: seq<int>, es: seq<Entry>) {
    && |levels| == |base| == SLOTS + 1 && AllWellFormed(es)
    && forall slot: nat | slot <= SLOTS :: levels[slot] == base[slot] + Sum(es, slot)
  }

  // The levels moved by one condition's stored amounts, up or down.
  ghost predicate Moved(before: seq<int>, after: seq<int>, down: Entry, up: Entry) {
    && |before| == |after| == SLOTS + 1 && down.WellFormed() && up.WellFormed()
    && forall slot: nat | slot <= SLOTS :: after[slot] == before[slot] - down.Amount(slot) + up.Amount(slot)
  }

  // A condition that adds nothing.
  const NOTHING := Entry(OTHER(0), 0, 0, 0, 0, ZEROS, ZEROS, 0)
  const ZEROS: seq<int> := [0, 0, 0, 0, 0, 0, 0, 0, 0, 0, 0, 0, 0, 0, 0, 0, 0, 0, 0, 0]

  lemma AddedBalances(before: seq<int>, after: seq<int>, base: seq<int>, es: seq<Entry>, e: Entry)
    requires Balanced(before, base, es) && Moved(before, after, NOTHING, e)
    requires Unique(es) && forall k | 0 <= k < |es| :: !es[k].SameKey(e)
    ensures Balanced(after, base, es + [e]) && Unique(es + [e])
  {
  }

  lemma RemovedBalances(before: seq<int>, after: seq<int>, base: seq<int>, es: seq<Entry>, k: nat)
    requires Balanced(before, base, es) && k < |es| && Moved(before, after, es[k], NOTHING) && Unique(es)
    ensures Balanced(after, base, DropAt(es, k)) && Unique(DropAt(es, k))
  {
    forall slot: nat | slot <= SLOTS
      ensures AllWellFormed(DropAt(es, k)) && after[slot] == base[slot] + Sum(DropAt(es, k), slot)
    {
      SumOfOneLess(es, k, slot);
    }
    SumOfOneLess(es, k, 0);
  }

  lemma ChangedBalances(before: seq<int>, after: seq<int>, base: seq<int>, es: seq<Entry>, k: nat, e: Entry)
    requires Balanced(before, base, es) && k < |es| && Moved(before, after, es[k], e) && Unique(es)
    requires es[k].SameKey(e)
    ensures Balanced(after, base, es[k := e]) && Unique(es[k := e])
  {
    forall slot: nat | slot <= SLOTS
      ensures AllWellFormed(es[k := e]) && after[slot] == base[slot] + Sum(es[k := e], slot)
    {
      SumOfChanged(es, k, e, slot);
    }
    SumOfChanged(es, k, e, 0);
  }

  /** With no conditions left every level is back to what others contributed. */
  lemma NothingLeft(levels: seq<int>, base: seq<int>)
    requires Balanced(levels, base, [])
    ensures levels == base
  {
  }

  // What removing a type, or a type with one id, leaves.
  predicate Matches(e: Entry, kind: ConditionType, id: int, anyId: bool) {
    e.kind == kind && (anyId || e.id == id)
  }

  function Remaining(es: seq<Entry>, kind: ConditionType, id: int, anyId: bool): seq<Entry> {
    if es == [] then []
    else (if Matches(es[0], kind, id, anyId) then [] else [es[0]]) + Remaining(es[1..], kind, id, anyId)
  }

  // What a think interval makes of one condition, and which conditions are left after it.
  function Ticked(e: Entry, interval: nat): Entry {
    if e.ticks == -1 then e else e.(ticks := if e.ticks - interval > 0 then e.ticks - interval else 0)
  }

  predicate Lives(e: Entry, now: int) {
    e.ticks == -1 || e.endTime >= now
  }

  function Executed(es: seq<Entry>, interval: nat, now: int): seq<Entry> {
    if es == [] then []
    else (if Lives(es[0], now) then [Ticked(es[0], interval)] else []) + Executed(es[1..], interval, now)
  }

  lemma {:induction false} RemainingWithout(es: seq<Entry>, k: nat, kind: ConditionType, id: int, anyId: bool)
    requires k < |es| && Matches(es[k], kind, id, anyId)
    ensures Remaining(DropAt(es, k), kind, id, anyId) == Remaining(es, kind, id, anyId)
  {
    if k == 0 {
      assert DropAt(es, k) == es[1..];
    } else {
      RemainingWithout(es[1..], k - 1, kind, id, anyId);
      assert DropAt(es, k)[1..] == DropAt(es[1..], k - 1);
    }
  }

  // Exactly what does not match is left.
  lemma {:induction false} RemainingHas(es: seq<Entry>, kind: ConditionType, id: int, anyId: bool, e: Entry)
    ensures e in Remaining(es, kind, id, anyId) <==> e in es && (e.kind != kind || (!anyId && e.id != id))
  {
    if es != [] {
      RemainingHas(es[1..], kind, id, anyId, e);
      assert e in es <==> e == es[0] || e in es[1..];
    }
  }

  lemma {:induction false} NoneToRemove(es: seq<Entry>, kind: ConditionType, id: int, anyId: bool)
    requires forall k | 0 <= k < |es| :: !Matches(es[k], kind, id, anyId)
    ensures Remaining(es, kind, id, anyId) == es
  {
    if es != [] {
      NoneToRemove(es[1..], kind, id, anyId);
    }
  }

  ghost predicate HasKey(es: seq<Entry>, e: Entry) {
    exists k :: 0 <= k < |es| && es[k].SameKey(e)
  }

  // Whether a condition of the type is running.
  ghost predicate Runs(es: seq<Entry>, kind: ConditionType, subId: nat, now: int) {
    exists k :: 0 <= k < |es| && es[k].kind == kind && es[k].subId == subId
      && (es[k].endTime >= now || es[k].ticks == -1)
  }

  // What is stored of the attributes: a percentage is worked out from the current level.
  function StoredAmounts(amounts: seq<int>, percents: seq<int>, current: seq<int>, scale: (nat, int, int) -> int)
    : (s: seq<int>)
    requires |amounts| == |percents| == |current| == SLOTS
    ensures |s| == SLOTS
  {
    seq(SLOTS, slot requires 0 <= slot < SLOTS => Stored(slot, amounts[slot], percents[slot], current[slot], scale))
  }

  function Stored(slot: nat, amount: int, percent: int, current: int, scale: (nat, int, int) -> int): int {
    if percent == 0 then amount else scale(slot, current, percent)
  }

  // The levels with a condition's own amounts taken back.
  function Without(current: seq<int>, amounts: seq<int>): (s: seq<int>)
    requires |current| == |amounts| == SLOTS
    ensures |s| == SLOTS
  {
    seq(SLOTS, slot requires 0 <= slot < SLOTS => current[slot] - amounts[slot])
  }

  // What the world supplies: the time, how long a walk still takes, whether the creature is immune,
  // the speed rolled from a formula, whether the condition starts at all, and what rules of its own
  // make of a condition's ticks, if they change them.
  datatype World = World(now: int, walkDelay: int, suppressed: bool, rolledSpeed: int, starts: bool,
                         lasts: Option<int>)

  function Lasting(e: Entry, ticks: int, now: int): Entry {
    e.(ticks := ticks, endTime := ticks + now)
  }

  // A condition as it is once started, on a creature with these attributes.
  function Started(e: Entry, w: World, current: seq<int>, scale: (nat, int, int) -> int): (s: Entry)
    requires e.WellFormed() && |current| == SLOTS
    ensures s.WellFormed() && s.SameKey(e)
  {
    var t := if e.ticks > 0 then e.(endTime := e.ticks + w.now) else e;
    match e.kind
    case ATTRIBUTES => t.(amounts := StoredAmounts(e.amounts, e.percents, current, scale))
    case OTHER(_) => t
    case OWN(_) => if w.lasts.Some? then Lasting(t, w.lasts.value, w.now) else t
    case _ => if e.speedDelta == 0 then t.(speedDelta := w.rolledSpeed) else t
  }

  // Whether a new condition takes the place of a running one: not when the running one outlasts it.
  predicate Updates(e: Entry, other: Entry, now: int) {
    && e.kind == other.kind
    && !(e.ticks == -1 && other.ticks > 0)
    && !(other.ticks >= 0 && e.endTime > now + other.ticks)
  }

  // A running condition once another with its key has been merged into it. Percentages are worked
  // out with the running one's own amounts taken back.
  function Merged(e: Entry, other: Entry, w: World, current: seq<int>, scale: (nat, int, int) -> int): (m: Entry)
    requires e.WellFormed() && other.WellFormed() && |current| == SLOTS
    ensures m.WellFormed() && m.SameKey(e)
  {
    match e.kind
    case ATTRIBUTES =>
      if !Updates(e, other, w.now) then e
      else
        Lasting(e, other.ticks, w.now).(
          percents := other.percents,
          amounts := StoredAmounts(other.amounts, other.percents, Without(current, e.amounts), scale))
    case OTHER(_) => if Updates(e, other, w.now) then Lasting(e, other.ticks, w.now) else e
    case OWN(_) => if w.lasts.Some? then Lasting(e, w.lasts.value, w.now) else e
    case _ =>
      if e.ticks == -1 && other.ticks > 0 then e
      else
        Lasting(e, other.ticks, w.now).(speedDelta := if other.speedDelta == 0 then w.rolledSpeed else other.speedDelta)
  }

  // The levels and the conditions at a moment, and what can happen next.
  datatype Account = Account(levels: seq<int>, entries: seq<Entry>)

  datatype Event = Add(e: Entry) | Change(at: nat, e: Entry) | Remove(at: nat)

  ghost predicate Follows(a: Account, event: Event, b: Account) {
    match event
    case Add(e) =>
      Moved(a.levels, b.levels, NOTHING, e) && !HasKey(a.entries, e) && b.entries == a.entries + [e]
    case Change(at, e) =>
      && at < |a.entries| && a.entries[at].SameKey(e)
      && Moved(a.levels, b.levels, a.entries[at], e) && b.entries == a.entries[at := e]
    case Remove(at) =>
      && at < |a.entries|
      && Moved(a.levels, b.levels, a.entries[at], NOTHING) && b.entries == DropAt(a.entries, at)
  }

  /** In every run of adds, merges, removals and expiries, the levels are what others contributed plus
      what the running conditions stored, and no two conditions share a key. */
  lemma {:induction false} RunBalances(run: seq<Account>, events: seq<Event>, base: seq<int>, k: nat)
    requires |run| == |events| + 1 && k < |run|
    requires forall j {:trigger events[j]} | 0 <= j < |events| :: Follows(run[j], events[j], run[j + 1])
    requires Balanced(run[0].levels, base, run[0].entries) && Unique(run[0].entries)
    ensures Balanced(run[k].levels, base, run[k].entries) && Unique(run[k].entries)
  {
    if k > 0 {
      RunBalances(run, events, base, k - 1);
      var a, b := run[k - 1], run[k];
      assert Follows(a, events[k - 1], run[(k - 1) + 1]);
      match events[k - 1]
      case Add(e) =>
        forall j | 0 <= j < |a.entries| ensures !a.entries[j].SameKey(e) {
        }
        AddedBalances(a.levels, b.levels, base, a.entries, e);
      case Change(at, e) => ChangedBalances(a.levels, b.levels, base, a.entries, at, e);
      case Remove(at) => RemovedBalances(a.levels, b.levels, base, a.entries, at);
    }
  }

  // ---- How long a condition lasts ----

  // One think: the interval since the last one, and the time.
  datatype Think = Think(interval: nat, now: int)

  function Passed(thinks: seq<Think>): nat {
    if thinks == [] then 0 else Passed(thinks[..|thinks| - 1]) + thinks[|thinks| - 1].interval
  }

  // Of the conditions of a creature that thinks, each goes on or ends by itself.
  lemma {:induction false} ThinkOfOne(es: seq<Entry>, s: Entry, interval: nat, now: int)
    requires s in es
    ensures s.ticks == -1 ==> s in Executed(es, interval, now)
    ensures s.ticks >= 0 && now <= s.endTime ==>
      s.(ticks := if s.ticks > interval then s.ticks - interval else 0) in Executed(es, interval, now)
  {
    if es[0] != s {
      assert s in es[1..];
      ThinkOfOne(es[1..], s, interval, now);
    }
  }

  lemma {:induction false} ThinkLeaves(es: seq<Entry>, s: Entry, interval: nat, now: int)
    requires s in Executed(es, interval, now)
    ensures exists e :: e in es && e.SameKey(s) && e.endTime == s.endTime && (e.ticks == -1 || now <= e.endTime)
  {
    var first := if Lives(es[0], now) then [Ticked(es[0], interval)] else [];
    if s in first {
      assert es[0].SameKey(s);
    } else {
      assert s in Executed(es[1..], interval, now);
      ThinkLeaves(es[1..], s, interval, now);
      var e :| e in es[1..] && e.SameKey(s) && e.endTime == s.endTime && (e.ticks == -1 || now <= e.endTime);
      assert e in es;
    }
  }

  // The condition with key e is listed with these ticks and this end.
  ghost predicate Lasts(es: seq<Entry>, e: Entry, ticks: int, end: int) {
    exists s :: s in es && s.SameKey(e) && s.ticks == ticks && s.endTime == end
  }

  ghost predicate Gone(es: seq<Entry>, e: Entry) {
    forall s | s in es :: !s.SameKey(e)
  }

  lemma ThinkLasts(es: seq<Entry>, e: Entry, ticks: int, end: int, interval: nat, now: int)
    requires Unique(es) && Lasts(es, e, ticks, end) && ticks >= -1
    ensures ticks == -1 ==> Lasts(Executed(es, interval, now), e, -1, end)
    ensures ticks >= 0 && now <= end ==>
      Lasts(Executed(es, interval, now), e, if ticks > interval then ticks - interval else 0, end)
    ensures ticks >= 0 && now > end ==> Gone(Executed(es, interval, now), e)
  {
    var s :| s in es && s.SameKey(e) && s.ticks == ticks && s.endTime == end;
    ThinkOfOne(es, s, interval, now);
    if ticks >= 0 && now > end {
      forall x | x in Executed(es, interval, now) ensures !x.SameKey(e) {
        ThinkLeaves(es, x, interval, now);
        var y :| y in es && y.SameKey(x) && y.endTime == x.endTime && (y.ticks == -1 || now <= y.endTime);
        assert y.SameKey(s) ==> y == s;
      }
    }
  }

  lemma ThinkStaysGone(es: seq<Entry>, e: Entry, interval: nat, now: int)
    requires Gone(es, e)
    ensures Gone(Executed(es, interval, now), e)
  {
    forall x | x in Executed(es, interval, now) ensures !x.SameKey(e) {
      ThinkLeaves(es, x, interval, now);
    }
  }

  /** When a running condition that ends is met by another of its type that does not last for ever, the later
      end wins; a change of speed always takes the new end. What is stored is what the winner brings. */
  lemma LaterEndWins(e: Entry, other: Entry, w: World, current: seq<int>, scale: (nat, int, int) -> int)
    requires e.WellFormed() && other.WellFormed() && |current| == SLOTS && e.SameKey(other) && !e.kind.OWN?
    requires e.ticks != -1 && other.ticks >= 0
    ensures var m := Merged(e, other, w, current, scale);
      && m.SameKey(e)
      && (e.kind != HASTE && e.kind != PARALYZE ==>
            m.endTime == if e.endTime > w.now + other.ticks then e.endTime else w.now + other.ticks)
      && (e.kind == HASTE || e.kind == PARALYZE ==>
            m.endTime == w.now + other.ticks && (other.speedDelta != 0 ==> m.speedDelta == other.speedDelta))
      && (e.kind == ATTRIBUTES && e.endTime <= w.now + other.ticks ==>
            forall k | 0 <= k < SLOTS && other.percents[k] == 0 :: m.amounts[k] == other.amounts[k])
      && (e.kind == ATTRIBUTES && e.endTime > w.now + other.ticks ==> m == e)
  {
  }

  // What is left when the new condition takes over: its time and its amounts, the percentages worked out
  // from the levels without the old amounts.
  lemma NewOneTakesOver(e: Entry, other: Entry, w: World, current: seq<int>, scale: (nat, int, int) -> int)
    requires e.WellFormed() && other.WellFormed() && |current| == SLOTS && e.SameKey(other) && !e.kind.OWN?
    requires e.ticks == -1 ==> other.ticks <= 0
    requires e.kind != HASTE && e.kind != PARALYZE ==> other.ticks < 0 || e.endTime <= w.now + other.ticks
    ensures var m := Merged(e, other, w, current, scale);
      && m.ticks == other.ticks && m.endTime == w.now + other.ticks
      && (e.kind == HASTE || e.kind == PARALYZE ==>
            m.speedDelta == if other.speedDelta != 0 then other.speedDelta else w.rolledSpeed)
      && (e.kind == ATTRIBUTES ==>
            && m.percents == other.percents
            && forall k | 0 <= k < SLOTS :: m.amounts[k] ==
                 if other.percents[k] == 0 then other.amounts[k]
                 else scale(k, current[k] - e.amounts[k], other.percents[k]))
  {
  }

  // A condition with a rule of its own goes by that rule alone.
  lemma OwnRule(e: Entry, other: Entry, w: World, current: seq<int>, scale: (nat, int, int) -> int)
    requires e.WellFormed() && other.WellFormed() && |current| == SLOTS && e.kind.OWN?
    ensures var m := Merged(e, other, w, current, scale);
      && (w.lasts == None ==> m == e)
      && (w.lasts.Some? ==> m == e.(ticks := w.lasts.value, endTime := w.now + w.lasts.value))
  {
  }

  /** A condition that lasts for ever gives way only to one that does too, or to one with no time. */
  lemma EndlessStays(e: Entry, other: Entry, w: World, current: seq<int>, scale: (nat, int, int) -> int)
    requires e.WellFormed() && other.WellFormed() && |current| == SLOTS && e.SameKey(other) && !e.kind.OWN?
    requires e.ticks == -1 && other.ticks > 0
    ensures Merged(e, other, w, current, scale) == e
  {
  }
}
