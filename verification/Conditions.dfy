/** A creature's conditions: adding, merging, removing and expiry, with the modifiers they set. */
module Conditions {
  import opened Sequences
  import opened Ledger

  class Condition {
    const kind: ConditionType
    const id: int
    const subId: nat
    var ticks: int
    var endTime: int
    var amounts: seq<int>
    var percents: seq<int>
    var speedDelta: int

    constructor (kind: ConditionType, id: int, subId: nat, ticks: int, amounts: seq<int>, percents: seq<int>,
                 speedDelta: int)
      requires |amounts| == |percents| == SLOTS
      ensures AsEntry() == Entry(kind, id, subId, ticks, 0, amounts, percents, speedDelta)
    {
      this.kind, this.id, this.subId := kind, id, subId;
      this.ticks, this.endTime := ticks, 0;
      this.amounts, this.percents, this.speedDelta := amounts, percents, speedDelta;
    }

    ghost function AsEntry(): Entry
      reads this
    {
      Entry(kind, id, subId, ticks, endTime, amounts, percents, speedDelta)
    }

    ghost predicate WellFormed()
      reads this
    {
      AsEntry().WellFormed()
    }

    method SetTicks(newTicks: int, now: int)
      modifies this
      ensures AsEntry() == old(AsEntry()).(ticks := newTicks, endTime := newTicks + now)
    {
      ticks := newTicks;
      endTime := newTicks + now;
    }

    // Whether another condition of the type should take the place of this one.
    function UpdateCondition(other: Condition, now: int): (takes: bool)
      reads this, other
      ensures takes <==> Updates(AsEntry(), other.AsEntry(), now)
    {
      && kind == other.kind
      && !(ticks == -1 && other.ticks > 0)
      && !(other.ticks >= 0 && endTime > now + other.ticks)
    }

    // A think interval; false when the condition is over.
    method ExecuteCondition(interval: nat, now: int) returns (alive: bool)
      modifies this
      ensures alive == Lives(old(AsEntry()), now)
      ensures AsEntry() == Ticked(old(AsEntry()), interval)
    {
      if ticks == -1 {
        return true;
      }
      ticks := if ticks - interval > 0 then ticks - interval else 0;
      alive := endTime >= now;
    }
  }

  class Creature {
    var conditions: seq<Condition>
    var attributes: seq<int>
    var varSpeed: int
    const baseSpeed: int
    // How a percentage of an attribute is computed: of the level itself, or of a base of its own.
    const scale: (nat, int, int) -> int

    // The conditions as values, and the part of every level that is not theirs.
    ghost var entries: seq<Entry>
    ghost var base: seq<int>

    constructor (baseSpeed: int, varSpeed: int, attributes: seq<int>, scale: (nat, int, int) -> int)
      requires |attributes| == SLOTS
      ensures Valid() && conditions == [] && Levels() == base == attributes + [varSpeed]
    {
      this.baseSpeed, this.varSpeed, this.attributes, this.scale := baseSpeed, varSpeed, attributes, scale;
      conditions, entries, base := [], [], attributes + [varSpeed];
    }

    // The attributes and the speed offset.
    ghost function Levels(): seq<int>
      reads this
    {
      attributes + [varSpeed]
    }

    ghost predicate Mirrored(k: nat)
      requires k < |conditions| == |entries|
      reads this, conditions[k]
    {
      conditions[k].AsEntry() == entries[k]
    }

    ghost predicate Listed()
      reads this, conditions
    {
      && |attributes| == SLOTS && |entries| == |conditions|
      && (forall j, k | 0 <= j < k < |conditions| :: conditions[j] != conditions[k])
      && forall k: nat {:trigger Mirrored(k)} | k < |conditions| :: Mirrored(k)
    }

    ghost predicate Valid()
      reads this, conditions
    {
      Listed() && Balanced(Levels(), base, entries) && Unique(entries)
    }

    method SetAttribute(slot: nat, modifier: int)
      requires slot < |attributes|
      modifies this`attributes
      ensures attributes == old(attributes)[slot := old(attributes[slot]) + modifier]
    {
      attributes := attributes[slot := attributes[slot] + modifier];
    }

    // The speed offset is worked out from the speed itself.
    method ChangeSpeed(delta: int)
      modifies this`varSpeed
      ensures varSpeed == old(varSpeed) + delta
    {
      var speed := (baseSpeed + varSpeed) - baseSpeed;
      speed := speed + delta;
      varSpeed := speed;
    }

    // Every stored amount is taken into the creature's attributes, or out of them.
    method UpdateAttributes(condition: Condition, sign: int)
      requires condition.WellFormed() && |attributes| == SLOTS
      modifies this`attributes
      ensures |attributes| == SLOTS
      ensures forall b | 0 <= b < SLOTS :: attributes[b] == old(attributes[b]) + sign * condition.amounts[b]
    {
      for i := 0 to SLOTS
        invariant |attributes| == SLOTS
        invariant forall b | 0 <= b < SLOTS ::
          attributes[b] == if b < i then old(attributes[b]) + sign * condition.amounts[b] else old(attributes[b])
      {
        if condition.amounts[i] != 0 {
          SetAttribute(i, sign * condition.amounts[i]);
        }
      }
    }

    method UpdatePercents(condition: Condition)
      requires condition.WellFormed() && |attributes| == SLOTS
      modifies condition`amounts
      ensures condition.amounts == StoredAmounts(old(condition.amounts), condition.percents, attributes, scale)
    {
      for i := 0 to SLOTS
        invariant condition.WellFormed()
        invariant forall b | 0 <= b < i ::
          condition.amounts[b] == Stored(b, old(condition.amounts[b]), condition.percents[b], attributes[b], scale)
        invariant forall b | i <= b < SLOTS :: condition.amounts[b] == old(condition.amounts[b])
      {
        if condition.percents[i] != 0 {
          condition.amounts := condition.amounts[i := scale(i, attributes[i], condition.percents[i])];
        }
      }
    }

    // Starts a condition that is not in the list; its stored amounts are now in the levels.
    method StartCondition(condition: Condition, w: World) returns (ok: bool)
      requires condition.WellFormed() && |attributes| == SLOTS
      modifies this`attributes, this`varSpeed, condition
      ensures |attributes| == SLOTS
      ensures condition.AsEntry() == Started(old(condition.AsEntry()), w, old(attributes), scale)
      ensures ok == (condition.kind.OTHER? || condition.kind.OWN? ==> w.starts)
      ensures condition.WellFormed()
        && Moved(old(Levels()), Levels(), NOTHING, if ok then condition.AsEntry() else NOTHING)
      ensures condition.kind == ATTRIBUTES ==> forall k | 0 <= k < SLOTS ::
        attributes[k] == old(attributes[k]) + if condition.percents[k] == 0 then old(condition.amounts[k])
                                              else scale(k, old(attributes[k]), condition.percents[k])
      ensures condition.kind != ATTRIBUTES ==> attributes == old(attributes)
      ensures varSpeed == old(varSpeed) +
        if condition.kind != HASTE && condition.kind != PARALYZE then 0
        else if old(condition.speedDelta) != 0 then old(condition.speedDelta) else w.rolledSpeed
    {
      if condition.ticks > 0 {
        condition.endTime := condition.ticks + w.now;
      }
      match condition.kind {
        case ATTRIBUTES =>
          UpdatePercents(condition);
          UpdateAttributes(condition, 1);
          ok := true;
        case OTHER(_) =>
          ok := w.starts;
        case OWN(_) =>
          if w.lasts.Some? {
            condition.SetTicks(w.lasts.value, w.now);
          }
          ok := w.starts;
        case _ =>
          if condition.speedDelta == 0 {
            condition.speedDelta := w.rolledSpeed;
          }
          ChangeSpeed(condition.speedDelta);
          ok := true;
      }
    }

    // Takes a condition's stored amounts back out of the levels.
    method EndCondition(condition: Condition)
      requires condition.WellFormed() && |attributes| == SLOTS
      modifies this`attributes, this`varSpeed
      ensures |attributes| == SLOTS && Moved(old(Levels()), Levels(), condition.AsEntry(), NOTHING)
      ensures forall k | 0 <= k < SLOTS ::
        attributes[k] == old(attributes[k]) - if condition.kind == ATTRIBUTES then condition.amounts[k] else 0
      ensures varSpeed == old(varSpeed) -
        if condition.kind == HASTE || condition.kind == PARALYZE then condition.speedDelta else 0
    {
      match condition.kind {
        case ATTRIBUTES => UpdateAttributes(condition, -1);
        case OTHER(_) =>
        case OWN(_) =>
        case _ => ChangeSpeed(-condition.speedDelta);
      }
    }

    // Merges a new condition into one with the same key; the new one is then thrown away.
    method Merge(condition: Condition, other: Condition, w: World)
      requires condition != other && condition.AsEntry().SameKey(other.AsEntry())
      requires condition.WellFormed() && other.WellFormed() && |attributes| == SLOTS
      modifies this`attributes, this`varSpeed, condition
      ensures |attributes| == SLOTS
      ensures condition.AsEntry() ==
        Merged(old(condition.AsEntry()), other.AsEntry(), w, old(attributes), scale)
      ensures Moved(old(Levels()), Levels(), old(condition.AsEntry()), condition.AsEntry())
    {
      match condition.kind {
        case ATTRIBUTES =>
          if condition.UpdateCondition(other, w.now) {
            condition.SetTicks(other.ticks, w.now);
            ghost var before := Levels();
            EndCondition(condition);
            assert attributes == Without(old(attributes), condition.amounts) by {
              assert forall slot | 0 <= slot < SLOTS :: Levels()[slot] == attributes[slot];
            }
            condition.amounts, condition.percents := other.amounts, other.percents;
            UpdatePercents(condition);
            UpdateAttributes(condition, 1);
          }
        case OTHER(_) =>
          if condition.UpdateCondition(other, w.now) {
            condition.SetTicks(other.ticks, w.now);
          }
        case OWN(_) =>
          if w.lasts.Some? {
            condition.SetTicks(w.lasts.value, w.now);
          }
        case _ => MergeSpeed(condition, other, w);
      }
    }

    method MergeSpeed(condition: Condition, other: Condition, w: World)
      requires condition != other && condition.AsEntry().SameKey(other.AsEntry())
        && (condition.kind == HASTE || condition.kind == PARALYZE)
      requires condition.WellFormed() && other.WellFormed() && |attributes| == SLOTS
      modifies this`varSpeed, condition
      ensures condition.AsEntry() ==
        Merged(old(condition.AsEntry()), other.AsEntry(), w, old(attributes), scale)
      ensures Moved(old(Levels()), Levels(), old(condition.AsEntry()), condition.AsEntry())
    {
      if condition.ticks == -1 && other.ticks > 0 {
        return;
      }
      condition.SetTicks(other.ticks, w.now);
      var oldSpeedDelta := condition.speedDelta;
      condition.speedDelta := other.speedDelta;
      if condition.speedDelta == 0 {
        condition.speedDelta := w.rolledSpeed;
      }
      var newSpeedChange := condition.speedDelta - oldSpeedDelta;
      if newSpeedChange != 0 {
        ChangeSpeed(newSpeedChange);
      }
    }

    method FindCondition(kind: ConditionType, id: int, subId: nat) returns (at: int)
      requires Valid()
      ensures -1 <= at < |conditions|
      ensures at >= 0 ==> entries[at].kind == kind && entries[at].id == id && entries[at].subId == subId
      ensures at == -1 ==> forall k | 0 <= k < |entries| ::
        !(entries[k].kind == kind && entries[k].id == id && entries[k].subId == subId)
    {
      for k := 0 to |conditions|
        invariant forall j | 0 <= j < k ::
          !(entries[j].kind == kind && entries[j].id == id && entries[j].subId == subId)
      {
        assert Mirrored(k);
        if conditions[k].kind == kind && conditions[k].id == id && conditions[k].subId == subId {
          return k;
        }
      }
      at := -1;
    }

    // Erases a condition and takes its amounts back.
    method Drop(k: nat)
      requires Valid() && k < |conditions|
      modifies this
      ensures Valid() && conditions == DropAt(old(conditions), k) && entries == DropAt(old(entries), k)
      ensures base == old(base)
    {
      assert Mirrored(k) && entries[k].WellFormed();
      ghost var before := Levels();
      var condition := conditions[k];
      EndCondition(condition);
      RemovedBalances(before, Levels(), base, entries, k);
      conditions := conditions[..k] + conditions[k + 1..];
      entries := DropAt(entries, k);
      forall j: nat | j < |conditions| ensures Mirrored(j) {
        assert old(Mirrored(if j < k then j else j + 1));
      }
    }

    /** Adds a condition, or merges it into the one with the same key; a haste waits for a paralysed
        creature's walk to end. */
    method AddCondition(condition: Condition, force: bool, w: World) returns (ok: bool)
      requires Valid() && condition !in conditions && condition.WellFormed()
      modifies this, conditions, condition
      ensures Valid() && base == old(base)
      ensures forall c | c in conditions :: c in old(conditions) || c == condition
      ensures var e := old(condition.AsEntry());
        if old(Delayed(condition, force, w)) then !ok && entries == old(entries)
        else if HasKey(old(entries), e) then
          && ok && |entries| == |old(entries)| && e.WellFormed() && AllWellFormed(old(entries))
          && |old(attributes)| == SLOTS
          && forall k | 0 <= k < |entries| :: entries[k] ==
               if old(entries)[k].SameKey(e) then Merged(old(entries)[k], e, w, old(attributes), scale)
               else old(entries)[k]
        else
          && ok == (e.kind.OTHER? || e.kind.OWN? ==> w.starts) && e.WellFormed() && |old(attributes)| == SLOTS
          && entries == old(entries) +
               if ok then [Started(e, w, old(attributes), scale)] else []
      ensures ok && (forall e | e in old(entries) :: !e.SameKey(old(condition.AsEntry()))) ==>
        && |attributes| == |old(attributes)| == SLOTS
        && (forall k | 0 <= k < SLOTS :: attributes[k] == old(attributes[k]) +
              if condition.kind != ATTRIBUTES then 0
              else if old(condition.percents[k]) == 0 then old(condition.amounts[k])
              else scale(k, old(attributes[k]), old(condition.percents[k])))
        && varSpeed == old(varSpeed) +
             if condition.kind != HASTE && condition.kind != PARALYZE then 0
             else if old(condition.speedDelta) != 0 then old(condition.speedDelta) else w.rolledSpeed
    {
      assert old(condition.WellFormed());
      if !force && condition.kind == HASTE {
        var paralysed := HasCondition(PARALYZE, 0, w);
        if paralysed && w.walkDelay > 0 {
          return false;
        }
      }
      var at := FindCondition(condition.kind, condition.id, condition.subId);
      if at >= 0 {
        assert HasKey(entries, condition.AsEntry());
        MergeAt(at, condition, w);
        return true;
      }
      assert !HasKey(entries, condition.AsEntry());
      ok := Append(condition, w);
    }

    ghost predicate Delayed(condition: Condition, force: bool, w: World)
      reads this
    {
      !force && condition.kind == HASTE && !w.suppressed && Runs(entries, PARALYZE, 0, w.now) && w.walkDelay > 0
    }

    // Only a haste waits, and only for a paralysis that is running while a walk is under way.
    lemma DelayedIff(condition: Condition, force: bool, w: World)
      ensures Delayed(condition, force, w) <==>
        && condition.kind == HASTE && !force && !w.suppressed && w.walkDelay > 0
        && exists e :: e in entries && e.kind == PARALYZE && e.subId == 0 && (e.ticks == -1 || w.now <= e.endTime)
    {
      if e :| e in entries && e.kind == PARALYZE && e.subId == 0 && (e.ticks == -1 || w.now <= e.endTime) {
        var k :| 0 <= k < |entries| && entries[k] == e;
      }
    }

    method HasCondition(kind: ConditionType, subId: nat, w: World) returns (has: bool)
      requires Valid()
      ensures has == (!w.suppressed && Runs(entries, kind, subId, w.now))
      ensures has <==>
        && !w.suppressed
        && exists k :: 0 <= k < |entries| && entries[k].kind == kind && entries[k].subId == subId
             && (entries[k].ticks == -1 || w.now <= entries[k].endTime)
    {
      if w.suppressed {
        return false;
      }
      for k := 0 to |conditions|
        invariant forall j | 0 <= j < k ::
          !(entries[j].kind == kind && entries[j].subId == subId
            && (entries[j].endTime >= w.now || entries[j].ticks == -1))
      {
        assert Mirrored(k);
        if conditions[k].kind == kind && conditions[k].subId == subId {
          if conditions[k].endTime >= w.now || conditions[k].ticks == -1 {
            return true;
          }
        }
      }
      has := false;
    }

    method MergeAt(at: nat, condition: Condition, w: World)
      requires Valid() && at < |conditions| && condition !in conditions && condition.WellFormed()
      requires entries[at].SameKey(condition.AsEntry())
      modifies this`attributes, this`varSpeed, this`entries, conditions
      ensures Valid() && base == old(base) && |old(attributes)| == SLOTS && old(entries)[at].WellFormed()
      ensures entries == old(entries)[at :=
        Merged(old(entries[at]), condition.AsEntry(), w, old(attributes), scale)]
    {
      assert Mirrored(at) && entries[at].WellFormed();
      ghost var before := Levels();
      Merge(conditions[at], condition, w);
      ghost var e := conditions[at].AsEntry();
      ChangedBalances(before, Levels(), base, entries, at, e);
      entries := entries[at := e];
      forall j: nat | j < |conditions| ensures Mirrored(j) {
        assert old(Mirrored(j));
      }
    }

    method Append(condition: Condition, w: World) returns (ok: bool)
      requires Valid() && condition !in conditions && condition.AsEntry().WellFormed()
      requires forall k | 0 <= k < |entries| :: !entries[k].SameKey(condition.AsEntry())
      modifies this, condition
      ensures Valid() && base == old(base)
      ensures ok == (condition.kind.OTHER? || condition.kind.OWN? ==> w.starts) && |old(attributes)| == SLOTS
      ensures entries == old(entries) +
        if ok then [Started(old(condition.AsEntry()), w, old(attributes), scale)] else []
      ensures conditions == old(conditions) + if ok then [condition] else []
      ensures ok ==>
        && |attributes| == |old(attributes)| == SLOTS && |old(condition.percents)| == |old(condition.amounts)| == SLOTS
        && (forall k | 0 <= k < SLOTS :: attributes[k] == old(attributes[k]) +
              if condition.kind != ATTRIBUTES then 0
              else if old(condition.percents[k]) == 0 then old(condition.amounts[k])
              else scale(k, old(attributes[k]), old(condition.percents[k])))
        && varSpeed == old(varSpeed) +
             if condition.kind != HASTE && condition.kind != PARALYZE then 0
             else if old(condition.speedDelta) != 0 then old(condition.speedDelta) else w.rolledSpeed
    {
      ghost var before := Levels();
      ok := StartCondition(condition, w);
      if ok {
        ghost var e := condition.AsEntry();
        AddedBalances(before, Levels(), base, entries, e);
        conditions := conditions + [condition];
        entries := entries + [e];
      }
      forall j: nat | j < |conditions| ensures Mirrored(j) {
        assert j < |old(conditions)| ==> old(Mirrored(j));
      }
    }

    /** Removes the conditions of a type, or of a type and an id; paralysis waits for the walk to end. */
    method RemoveConditions(kind: ConditionType, id: int, anyId: bool, force: bool, w: World)
      requires Valid()
      modifies this
      ensures Valid() && base == old(base)
      ensures entries == if !force && kind == PARALYZE && w.walkDelay > 0 then old(entries)
                         else Remaining(old(entries), kind, id, anyId)
      ensures forall e :: e in entries <==>
        && e in old(entries)
        && ((!force && kind == PARALYZE && w.walkDelay > 0) || e.kind != kind || (!anyId && e.id != id))
    {
      var it: nat := 0;
      while it < |conditions|
        invariant Valid() && base == old(base) && it <= |conditions|
        invariant forall k | 0 <= k < it :: !Matches(entries[k], kind, id, anyId)
        invariant Remaining(entries, kind, id, anyId) == Remaining(old(entries), kind, id, anyId)
        invariant !force && kind == PARALYZE && w.walkDelay > 0 ==> entries == old(entries)
        decreases |conditions| - it
      {
        assert Mirrored(it);
        var condition := conditions[it];
        if condition.kind != kind || (!anyId && condition.id != id) {
          it := it + 1;
          continue;
        }
        if !force && kind == PARALYZE && w.walkDelay > 0 {
          return;
        }
        RemainingWithout(entries, it, kind, id, anyId);
        Drop(it);
      }
      NoneToRemove(entries, kind, id, anyId);
      forall e ensures e in Remaining(old(entries), kind, id, anyId) <==>
        e in old(entries) && (e.kind != kind || (!anyId && e.id != id))
      {
        RemainingHas(old(entries), kind, id, anyId, e);
      }
    }

    /** Removes one condition, if the creature has it. */
    method RemoveCondition(condition: Condition, force: bool, w: World)
      requires Valid()
      modifies this
      ensures Valid() && base == old(base)
      ensures condition !in old(conditions) || (!force && condition.kind == PARALYZE && w.walkDelay > 0) ==>
        entries == old(entries) && conditions == old(conditions)
      ensures condition in old(conditions) && (force || condition.kind != PARALYZE || w.walkDelay <= 0) ==>
        exists k: nat :: k < |old(conditions)| == |old(entries)| && old(conditions)[k] == condition
          && conditions == DropAt(old(conditions), k) && entries == DropAt(old(entries), k)
    {
      if condition !in conditions {
        return;
      }
      if !force && condition.kind == PARALYZE && w.walkDelay > 0 {
        return;
      }
      var k := 0;
      while conditions[k] != condition
        invariant 0 <= k < |conditions|
        invariant forall j | 0 <= j < k :: conditions[j] != condition
        decreases |conditions| - k
      {
        k := k + 1;
      }
      Drop(k);
    }

    /** A think interval: every condition ticks, and those that are over end. */
    method ExecuteConditions(interval: nat, now: int)
      requires Valid()
      modifies this, conditions
      ensures Valid() && base == old(base) && forall c | c in conditions :: c in old(conditions)
      ensures entries == Executed(old(entries), interval, now)
    {
      var it: nat := 0;
      ghost var left := entries;
      while it < |conditions|
        invariant Valid() && base == old(base) && it <= |conditions|
        invariant forall c | c in conditions :: c in old(conditions)
        invariant entries[it..] == left
        invariant entries[..it] + Executed(left, interval, now) == Executed(old(entries), interval, now)
        decreases |conditions| - it
      {
        assert entries[it] == left[0] && conditions[it] in conditions;
        var alive := ExecuteAt(it, interval, now);
        if alive {
          it := it + 1;
        } else {
          Drop(it);
        }
        left := left[1..];
      }
    }

    method ExecuteAt(k: nat, interval: nat, now: int) returns (alive: bool)
      requires Valid() && k < |conditions|
      modifies conditions[k], this`entries
      ensures Valid() && alive == Lives(old(entries[k]), now)
      ensures entries == old(entries)[k := Ticked(old(entries[k]), interval)]
    {
      assert Mirrored(k) && entries[k].WellFormed();
      alive := conditions[k].ExecuteCondition(interval, now);
      ghost var e := conditions[k].AsEntry();
      ChangedBalances(Levels(), Levels(), base, entries, k, e);
      entries := entries[k := e];
      forall j: nat | j < |conditions| ensures Mirrored(j) {
        assert old(Mirrored(j));
      }
    }
  }

  /** A condition of a new key is added with ticks t at time n, and the creature thinks any number of
      times. It is listed as long as every think so far was at n + t or before, with t less the time
      passed as its ticks, and at least none; after the first later think it is gone, and what it
      stored with it. One that lasts for ever stays. */
  method AddThenThink(creature: Creature, condition: Condition, force: bool, w: World, thinks: seq<Think>)
    requires creature.Valid() && condition !in creature.conditions && condition.WellFormed()
    requires forall e | e in creature.entries :: !e.SameKey(condition.AsEntry())
    requires condition.ticks > 0 || condition.ticks == -1
    requires !condition.kind.OWN? && (condition.kind.OTHER? ==> w.starts)
    requires condition.kind == HASTE && !force ==>
      w.walkDelay <= 0 || forall e | e in creature.entries :: e.kind != PARALYZE
    modifies creature, (set c | c in creature.conditions), condition
    ensures creature.Valid() && creature.base == old(creature.base)
    ensures var e, t, end := old(condition.AsEntry()), old(condition.ticks), w.now + old(condition.ticks);
      if t == -1 then exists s :: s in creature.entries && s.SameKey(e) && s.ticks == -1
      else if forall k | 0 <= k < |thinks| :: thinks[k].now <= end then
        exists s :: s in creature.entries && s.SameKey(e) && s.endTime == end
          && s.ticks == if t > Passed(thinks) then t - Passed(thinks) else 0
      else forall s | s in creature.entries :: !s.SameKey(e)
    ensures old(creature.conditions) == [] && creature.conditions == [] ==> creature.Levels() == old(creature.Levels())
  {
    ghost var e, t, end := condition.AsEntry(), condition.ticks, if condition.ticks > 0 then w.now + condition.ticks
                                                                   else condition.endTime;
    ghost var levels, was := creature.Levels(), creature.entries;
    var ok := creature.AddCondition(condition, force, w);
    assert Lasts(creature.entries, e, t, end) by {
      assert creature.entries[|was|].SameKey(e);
      assert creature.entries[|was|] in creature.entries;
    }
    assert thinks[..0] == [];
    for k := 0 to |thinks|
      invariant creature.Valid() && creature.base == old(creature.base)
      invariant forall c | c in creature.conditions :: c in old(creature.conditions) || c == condition
      invariant Goes(creature.entries, e, t, end, thinks[..k])
    {
      assert thinks[..k + 1] == thinks[..k] + [thinks[k]];
      ghost var before := creature.entries;
      assert forall c | c in creature.conditions :: c in old(creature.conditions) || c == condition;
      creature.ExecuteConditions(thinks[k].interval, thinks[k].now);
      GoesOn(before, e, t, end, thinks[..k], thinks[k]);
    }
    assert thinks[..|thinks|] == thinks;
    if old(creature.conditions) == [] && creature.conditions == [] {
      NothingLeft(creature.Levels(), creature.base);
      NothingLeft(levels, creature.base);
    }
  }

  // What has become of a condition after some thinks.
  ghost predicate Goes(es: seq<Entry>, e: Entry, t: int, end: int, thinks: seq<Think>) {
    if t == -1 then Lasts(es, e, -1, end)
    else if forall k | 0 <= k < |thinks| :: thinks[k].now <= end then
      Lasts(es, e, if t > Passed(thinks) then t - Passed(thinks) else 0, end)
    else Gone(es, e)
  }

  lemma GoesOn(es: seq<Entry>, e: Entry, t: int, end: int, thinks: seq<Think>, next: Think)
    requires Unique(es) && Goes(es, e, t, end, thinks) && (t == -1 || t > 0)
    ensures Goes(Executed(es, next.interval, next.now), e, t, end, thinks + [next])
  {
    var more := thinks + [next];
    assert more[..|thinks|] == thinks && more[|thinks|] == next;
    if t == -1 {
      ThinkLasts(es, e, -1, end, next.interval, next.now);
    } else if forall k | 0 <= k < |thinks| :: thinks[k].now <= end {
      ThinkLasts(es, e, if t > Passed(thinks) then t - Passed(thinks) else 0, end, next.interval, next.now);
    } else {
      var k :| 0 <= k < |thinks| && thinks[k].now > end;
      assert more[k].now > end;
      ThinkStaysGone(es, e, next.interval, next.now);
    }
  }
}
