/** Saving a player's conditions and loading them gives them back. */
module ConditionRoundTrip {
  import opened Options
  import opened Sequences
  import opened Bytes
  import opened DamageList
  import opened PropStreams
  import opened ConditionFormat

  // What a saved condition is when it is loaded: a damage condition lasts as long as its intervals.
  function Restored(c: Condition): Condition {
    if c.body.Damage? then c.(ticks := Duration(c.body.damageList)) else c
  }

  // ---- One attribute ----

  lemma PatternBack(x: int)
    requires IsInt32(x)
    ensures Signed(Pattern(x)) == x && Pattern(x) < Range(4)
  {
  }

  lemma ByteBack(id: int)
    requires -128 <= id < 128
    ensures SignedByte(Pattern(id)) == id
  {
  }

  // Reading one attribute takes the condition c and the stream s to c2 and t.
  predicate StepTo(c: Condition, s: seq<Byte>, c2: Condition, t: seq<Byte>) {
    s != [] && s[0] != END && ReadProp(c, s[0], s[1..]) == Read(true, c2, t)
  }

  lemma FieldOf(c: Condition, tag: Byte, number: seq<Byte>, tail: seq<Byte>, c2: Condition)
    requires tag != END && ReadProp(c, tag, number + tail) == Read(true, c2, tail)
    ensures StepTo(c, [tag] + number + tail, c2, tail)
  {
    var s := [tag] + number + tail;
    assert s[0] == tag && s[1..] == number + tail;
  }

  lemma Field(c: Condition, tag: Byte, width: nat, v: nat, tail: seq<Byte>, c2: Condition)
    requires tag != END && ReadProp(c, tag, Little(width, v) + tail) == Read(true, c2, tail)
    ensures StepTo(c, Tagged(tag, width, v) + tail, c2, tail)
  {
    FieldOf(c, tag, Little(width, v), tail, c2);
  }

  lemma OneStep(c: Condition, s: seq<Byte>, c2: Condition, t: seq<Byte>)
    requires StepTo(c, s, c2, t)
    ensures Unserialized(c, s) == Unserialized(c2, t)
  {
  }

  lemma TwoSteps(c: Condition, s: seq<Byte>, c1: Condition, s1: seq<Byte>, c2: Condition, s2: seq<Byte>)
    requires StepTo(c, s, c1, s1) && StepTo(c1, s1, c2, s2)
    ensures Unserialized(c, s) == Unserialized(c2, s2)
  {
  }

  lemma FourSteps(c: Condition, s: seq<Byte>, c1: Condition, s1: seq<Byte>, c2: Condition, s2: seq<Byte>,
                  c3: Condition, s3: seq<Byte>, c4: Condition, s4: seq<Byte>)
    requires StepTo(c, s, c1, s1) && StepTo(c1, s1, c2, s2) && StepTo(c2, s2, c3, s3) && StepTo(c3, s3, c4, s4)
    ensures Unserialized(c, s) == Unserialized(c4, s4)
  {
    TwoSteps(c, s, c1, s1, c2, s2);
    TwoSteps(c2, s2, c3, s3, c4, s4);
  }

  lemma AtEnd(c: Condition, tail: seq<Byte>)
    ensures Unserialized(c, [END] + tail) == Read(true, c, tail)
  {
  }

  // ---- Each kind of body ----

  lemma RegenerationBack(c: Condition, b: Body, tail: seq<Byte>)
    requires c.body.Regeneration? && b.Regeneration? && BodyFits(b)
    ensures Unserialized(c, BodyBytes(b) + tail) == Unserialized(c.(body := b), tail)
  {
    RangeOf4();
    var w4 := Tagged(MANAGAIN, 4, b.manaGain);
    var w3 := Tagged(MANATICKS, 4, b.manaTicks);
    var w2 := Tagged(HEALTHGAIN, 4, b.healthGain);
    var w1 := Tagged(HEALTHTICKS, 4, b.healthTicks);
    var t3 := w4 + tail;
    var t2 := w3 + t3;
    var t1 := w2 + t2;
    assert BodyBytes(b) + tail == w1 + t1 by {
      Assoc(w1, w2 + (w3 + w4), tail);
      Assoc(w2, w3 + w4, tail);
      Assoc(w3, w4, tail);
    }
    var c1 := c.(body := c.body.(healthTicks := b.healthTicks));
    var c2 := c1.(body := c1.body.(healthGain := b.healthGain));
    var c3 := c2.(body := c2.body.(manaTicks := b.manaTicks));
    assert StepTo(c, Tagged(HEALTHTICKS, 4, b.healthTicks) + t1, c1, t1) by {
      NumberRoundTrip(4, b.healthTicks, t1);
      Field(c, HEALTHTICKS, 4, b.healthTicks, t1, c1);
    }
    assert StepTo(c1, Tagged(HEALTHGAIN, 4, b.healthGain) + t2, c2, t2) by {
      NumberRoundTrip(4, b.healthGain, t2);
      Field(c1, HEALTHGAIN, 4, b.healthGain, t2, c2);
    }
    assert StepTo(c2, Tagged(MANATICKS, 4, b.manaTicks) + t3, c3, t3) by {
      NumberRoundTrip(4, b.manaTicks, t3);
      Field(c2, MANATICKS, 4, b.manaTicks, t3, c3);
    }
    assert StepTo(c3, Tagged(MANAGAIN, 4, b.manaGain) + tail, c.(body := b), tail) by {
      NumberRoundTrip(4, b.manaGain, tail);
      Field(c3, MANAGAIN, 4, b.manaGain, tail, c.(body := b));
    }
    FourSteps(c, w1 + t1, c1, t1, c2, t2, c3, t3, c.(body := b), tail);
  }

  lemma SoulBack(c: Condition, b: Body, tail: seq<Byte>)
    requires c.body.Soul? && b.Soul? && BodyFits(b)
    ensures Unserialized(c, BodyBytes(b) + tail) == Unserialized(c.(body := b), tail)
  {
    RangeOf4();
    var t1 := Tagged(SOULTICKS, 4, b.soulTicks) + tail;
    Assoc(Tagged(SOULGAIN, 4, b.soulGain), Tagged(SOULTICKS, 4, b.soulTicks), tail);
    var c1 := c.(body := c.body.(soulGain := b.soulGain));
    assert StepTo(c, Tagged(SOULGAIN, 4, b.soulGain) + t1, c1, t1) by {
      NumberRoundTrip(4, b.soulGain, t1);
      Field(c, SOULGAIN, 4, b.soulGain, t1, c1);
    }
    assert StepTo(c1, Tagged(SOULTICKS, 4, b.soulTicks) + tail, c.(body := b), tail) by {
      NumberRoundTrip(4, b.soulTicks, tail);
      Field(c1, SOULTICKS, 4, b.soulTicks, tail, c.(body := b));
    }
    TwoSteps(c, Tagged(SOULGAIN, 4, b.soulGain) + t1, c1, t1, c.(body := b), tail);
  }

  lemma ManaShieldBack(c: Condition, b: Body, tail: seq<Byte>)
    requires c.body.ManaShield? && b.ManaShield? && BodyFits(b)
    ensures Unserialized(c, BodyBytes(b) + tail) == Unserialized(c.(body := b), tail)
  {
    RangeOf4();
    assert StepTo(c, Tagged(MANASHIELD, 2, b.shield) + tail, c.(body := b), tail) by {
      NumberRoundTrip(2, b.shield, tail);
      Field(c, MANASHIELD, 2, b.shield, tail, c.(body := b));
    }
    OneStep(c, Tagged(MANASHIELD, 2, b.shield) + tail, c.(body := b), tail);
  }

  lemma OutfitBack(c: Condition, b: Body, tail: seq<Byte>)
    requires c.body.Outfit? && b.Outfit? && BodyFits(b)
    ensures Unserialized(c, BodyBytes(b) + tail) == Unserialized(c.(body := b), tail)
  {
    assert StepTo(c, Tagged(OUTFIT, OUTFIT_SIZE, b.look) + tail, c.(body := b), tail) by {
      NumberRoundTrip(OUTFIT_SIZE, b.look, tail);
      Field(c, OUTFIT, OUTFIT_SIZE, b.look, tail, c.(body := b));
    }
    OneStep(c, Tagged(OUTFIT, OUTFIT_SIZE, b.look) + tail, c.(body := b), tail);
  }

  function FormulaBytes(b: Body): seq<Byte>
    requires b.Speed?
  {
    Tagged(FORMULA_MINA, 4, b.mina) + (Tagged(FORMULA_MINB, 4, b.minb)
      + (Tagged(FORMULA_MAXA, 4, b.maxa) + Tagged(FORMULA_MAXB, 4, b.maxb)))
  }

  lemma FormulaBack(c: Condition, b: Body, tail: seq<Byte>)
    requires c.body.Speed? && b.Speed? && BodyFits(b) && c.body.delta == b.delta
    ensures Unserialized(c, FormulaBytes(b) + tail) == Unserialized(c.(body := b), tail)
  {
    RangeOf4();
    var w4 := Tagged(FORMULA_MAXB, 4, b.maxb);
    var w3 := Tagged(FORMULA_MAXA, 4, b.maxa);
    var w2 := Tagged(FORMULA_MINB, 4, b.minb);
    var w1 := Tagged(FORMULA_MINA, 4, b.mina);
    var t3 := w4 + tail;
    var t2 := w3 + t3;
    var t1 := w2 + t2;
    assert FormulaBytes(b) + tail == w1 + t1 by {
      Assoc(w1, w2 + (w3 + w4), tail);
      Assoc(w2, w3 + w4, tail);
      Assoc(w3, w4, tail);
    }
    var c1 := c.(body := c.body.(mina := b.mina));
    var c2 := c1.(body := c1.body.(minb := b.minb));
    var c3 := c2.(body := c2.body.(maxa := b.maxa));
    assert StepTo(c, Tagged(FORMULA_MINA, 4, b.mina) + t1, c1, t1) by {
      NumberRoundTrip(4, b.mina, t1);
      Field(c, FORMULA_MINA, 4, b.mina, t1, c1);
    }
    assert StepTo(c1, Tagged(FORMULA_MINB, 4, b.minb) + t2, c2, t2) by {
      NumberRoundTrip(4, b.minb, t2);
      Field(c1, FORMULA_MINB, 4, b.minb, t2, c2);
    }
    assert StepTo(c2, Tagged(FORMULA_MAXA, 4, b.maxa) + t3, c3, t3) by {
      NumberRoundTrip(4, b.maxa, t3);
      Field(c2, FORMULA_MAXA, 4, b.maxa, t3, c3);
    }
    assert StepTo(c3, Tagged(FORMULA_MAXB, 4, b.maxb) + tail, c.(body := b), tail) by {
      NumberRoundTrip(4, b.maxb, tail);
      Field(c3, FORMULA_MAXB, 4, b.maxb, tail, c.(body := b));
    }
    FourSteps(c, w1 + t1, c1, t1, c2, t2, c3, t3, c.(body := b), tail);
  }

  lemma SpeedBack(c: Condition, b: Body, tail: seq<Byte>)
    requires c.body.Speed? && b.Speed? && BodyFits(b)
    ensures Unserialized(c, BodyBytes(b) + tail) == Unserialized(c.(body := b), tail)
  {
    RangeOf4();
    PatternBack(b.delta);
    var w, t := Tagged(SPEEDDELTA, 4, Pattern(b.delta)), FormulaBytes(b) + tail;
    Assoc(w, FormulaBytes(b), tail);
    var c1 := c.(body := c.body.(delta := b.delta));
    assert StepTo(c, w + t, c1, t) by {
      NumberRoundTrip(4, Pattern(b.delta), t);
      Field(c, SPEEDDELTA, 4, Pattern(b.delta), t, c1);
    }
    OneStep(c, w + t, c1, t);
    FormulaBack(c1, b, tail);
  }

  // Colour and level keep the low byte of what is read, which is all of them.
  lemma LightHeadBack(c: Condition, color: nat, level: nat, t: seq<Byte>)
    requires c.body.Light? && color < 0x100 && level < 0x100
    ensures Unserialized(c, Tagged(LIGHTCOLOR, 4, color) + (Tagged(LIGHTLEVEL, 4, level) + t))
         == Unserialized(c.(body := c.body.(color := color, level := level)), t)
  {
    RangeOf4();
    var t1 := Tagged(LIGHTLEVEL, 4, level) + t;
    var c1 := c.(body := c.body.(color := color));
    var c2 := c.(body := c.body.(color := color, level := level));
    assert StepTo(c, Tagged(LIGHTCOLOR, 4, color) + t1, c1, t1) by {
      NumberRoundTrip(4, color, t1);
      Field(c, LIGHTCOLOR, 4, color, t1, c1);
    }
    assert StepTo(c1, t1, c2, t) by {
      NumberRoundTrip(4, level, t);
      Field(c1, LIGHTLEVEL, 4, level, t, c2);
    }
    TwoSteps(c, Tagged(LIGHTCOLOR, 4, color) + t1, c1, t1, c2, t);
  }

  lemma LightBack(c: Condition, b: Body, tail: seq<Byte>)
    requires c.body.Light? && b.Light? && BodyFits(b)
    ensures Unserialized(c, BodyBytes(b) + tail) == Unserialized(c.(body := b), tail)
  {
    RangeOf4();
    var w4 := Tagged(LIGHTINTERVAL, 4, b.lightInterval);
    var w3 := Tagged(LIGHTTICKS, 4, b.lightTicks);
    var w2 := Tagged(LIGHTLEVEL, 4, b.level);
    var w1 := Tagged(LIGHTCOLOR, 4, b.color);
    var t3 := w4 + tail;
    var t2 := w3 + t3;
    assert BodyBytes(b) + tail == w1 + (w2 + t2) by {
      Assoc(w1, w2 + (w3 + w4), tail);
      Assoc(w2, w3 + w4, tail);
      Assoc(w3, w4, tail);
    }
    var c2 := c.(body := c.body.(color := b.color, level := b.level));
    var c3 := c2.(body := c2.body.(lightTicks := b.lightTicks));
    LightHeadBack(c, b.color, b.level, t2);
    assert StepTo(c2, t2, c3, t3) by {
      NumberRoundTrip(4, b.lightTicks, t3);
      Field(c2, LIGHTTICKS, 4, b.lightTicks, t3, c3);
    }
    assert StepTo(c3, t3, c.(body := b), tail) by {
      NumberRoundTrip(4, b.lightInterval, tail);
      Field(c3, LIGHTINTERVAL, 4, b.lightInterval, tail, c.(body := b));
    }
    TwoSteps(c2, t2, c3, t3, c.(body := b), tail);
  }

  // Which array of an attribute condition a tag fills, and the condition with it replaced.
  function ArrayOf(b: Body, tag: Byte): seq<int>
    requires b.Attributes?
  {
    if tag == SKILLS then b.skills else if tag == STATS then b.stats else b.buffs
  }

  function CountOf(tag: Byte): nat {
    if tag == SKILLS then SKILL_COUNT else if tag == STATS then STAT_COUNT else BUFF_COUNT
  }

  function WithArray(c: Condition, tag: Byte, values: seq<int>): Condition
    requires c.body.Attributes?
  {
    c.(body := if tag == SKILLS then c.body.(skills := values)
               else if tag == STATS then c.body.(stats := values)
               else c.body.(buffs := values))
  }

  lemma OneValue(c: Condition, tag: Byte, v: int, rest: seq<Byte>)
    requires c.body.Attributes? && (tag == SKILLS || tag == STATS || tag == BUFFS) && IsInt32(v)
    requires |ArrayOf(c.body, tag)| < CountOf(tag)
    ensures Unserialized(c, Tagged(tag, 4, Pattern(v)) + rest)
         == Unserialized(WithArray(c, tag, ArrayOf(c.body, tag) + [v]), rest)
  {
    PatternBack(v);
    NumberRoundTrip(4, Pattern(v), rest);
    Field(c, tag, 4, Pattern(v), rest, WithArray(c, tag, ArrayOf(c.body, tag) + [v]));
    OneStep(c, Tagged(tag, 4, Pattern(v)) + rest, WithArray(c, tag, ArrayOf(c.body, tag) + [v]), rest);
  }

  lemma OneThenValues(have: seq<int>, values: seq<int>)
    requires values != []
    ensures (have + [values[0]]) + values[1..] == have + values
  {
  }

  // The values of an array arrive one by one, in order.
  lemma {:induction false} ArrayBack(c: Condition, tag: Byte, values: seq<int>, tail: seq<Byte>)
    requires c.body.Attributes? && (tag == SKILLS || tag == STATS || tag == BUFFS) && AllInt32(values)
    requires |ArrayOf(c.body, tag)| + |values| <= CountOf(tag)
    ensures Unserialized(c, Array(tag, values) + tail)
         == Unserialized(WithArray(c, tag, ArrayOf(c.body, tag) + values), tail)
    decreases |values|
  {
    var have := ArrayOf(c.body, tag);
    if values == [] {
      assert [] + tail == tail && have + [] == have;
    } else {
      var v, rest := values[0], Array(tag, values[1..]) + tail;
      var c1 := WithArray(c, tag, have + [v]);
      Assoc(Tagged(tag, 4, Pattern(v)), Array(tag, values[1..]), tail);
      OneValue(c, tag, v, rest);
      ArrayBack(c1, tag, values[1..], tail);
      OneThenValues(have, values);
    }
  }

  lemma AttributesBack(c: Condition, b: Body, tail: seq<Byte>)
    requires c.body == Attributes([], [], []) && b.Attributes? && BodyFits(b)
    ensures Unserialized(c, BodyBytes(b) + tail) == Unserialized(c.(body := b), tail)
  {
    var w1, w2, w3 := Array(SKILLS, b.skills), Array(STATS, b.stats), Array(BUFFS, b.buffs);
    assert BodyBytes(b) + tail == w1 + (w2 + (w3 + tail)) by {
      Assoc(w1, w2 + w3, tail);
      Assoc(w2, w3, tail);
    }
    assert [] + b.skills == b.skills && [] + b.stats == b.stats && [] + b.buffs == b.buffs;
    var c1 := c.(body := Attributes(b.skills, [], []));
    var c2 := c.(body := Attributes(b.skills, b.stats, []));
    ArrayBack(c, SKILLS, b.skills, w2 + (w3 + tail));
    ArrayBack(c1, STATS, b.stats, w3 + tail);
    ArrayBack(c2, BUFFS, b.buffs, tail);
  }

  lemma IntervalBack(info: IntervalInfo, tail: seq<Byte>)
    requires IntervalFits(info)
    ensures var s := Interval(info) + tail; |s| >= 12 && TakeInterval(s) == info && s[12..] == tail
  {
    var a, b, d := Little(4, Pattern(info.timeLeft)), Little(4, Pattern(info.value)), Little(4, Pattern(info.interval));
    var s := Interval(info) + tail;
    assert s == a + (b + (d + tail)) by {
      Assoc(a, b + d, tail);
      Assoc(b, d, tail);
    }
    assert s[..4] == a && s[4..] == b + (d + tail);
    assert s[4..][..4] == b && s[8..] == d + tail;
    assert s[8..][..4] == d && s[12..] == tail;
    NumberIs(info.timeLeft);
    NumberIs(info.value);
    NumberIs(info.interval);
  }

  lemma NumberIs(x: int)
    requires IsInt32(x)
    ensures Signed(Value(Little(4, Pattern(x)))) == x
  {
    PatternBack(x);
    ValueOfLittle(4, Pattern(x));
  }

  // The condition once more intervals have been read.
  function WithIntervals(c: Condition, list: seq<IntervalInfo>): Condition
    requires c.body.Damage?
  {
    c.(body := c.body.(damageList := c.body.damageList + list), ticks := c.ticks + Duration(list))
  }

  lemma {:induction false} SumFromFront(list: seq<IntervalInfo>)
    requires list != []
    ensures Duration(list) == list[0].interval + Duration(list[1..])
  {
    if |list| > 1 {
      var m := |list| - 1;
      SumFromFront(list[..m]);
      assert list[..m][1..] == list[1..][..m - 1];
      assert list[1..][m - 1] == list[m];
    }
  }

  lemma OneInterval(c: Condition, info: IntervalInfo, rest: seq<Byte>)
    requires c.body.Damage? && IntervalFits(info)
    ensures Unserialized(c, [INTERVALDATA] + (Interval(info) + rest)) == Unserialized(WithInterval(c, info), rest)
  {
    var s := [INTERVALDATA] + (Interval(info) + rest);
    assert s[0] == INTERVALDATA && s[1..] == Interval(info) + rest;
    IntervalBack(info, rest);
    assert StepTo(c, s, WithInterval(c, info), rest);
    OneStep(c, s, WithInterval(c, info), rest);
  }

  lemma OneThenRest(c: Condition, list: seq<IntervalInfo>)
    requires c.body.Damage? && c.ticks >= 0 && list != []
    ensures WithIntervals(WithInterval(c, list[0]), list[1..]) == WithIntervals(c, list)
  {
    SumFromFront(list);
    assert (c.body.damageList + [list[0]]) + list[1..] == c.body.damageList + list;
  }

  // Any number of intervals arrives in order, and each adds its length.
  lemma {:induction false} IntervalsBack(c: Condition, list: seq<IntervalInfo>, tail: seq<Byte>)
    requires c.body.Damage? && c.ticks >= 0 && IntervalsFit(list)
    ensures Unserialized(c, Intervals(list) + tail) == Unserialized(WithIntervals(c, list), tail)
    decreases |list|
  {
    if list == [] {
      assert [] + tail == tail && c.body.damageList + [] == c.body.damageList;
    } else {
      var rest := Intervals(list[1..]) + tail;
      assert Intervals(list) + tail == [INTERVALDATA] + (Interval(list[0]) + rest) by {
        Assoc([INTERVALDATA], Interval(list[0]) + Intervals(list[1..]), tail);
        Assoc(Interval(list[0]), Intervals(list[1..]), tail);
      }
      OneInterval(c, list[0], rest);
      IntervalsBack(WithInterval(c, list[0]), list[1..], tail);
      OneThenRest(c, list);
    }
  }

  lemma DamageHeadBack(c: Condition, delayed: bool, period: int, list: seq<IntervalInfo>, t: seq<Byte>)
    requires c.body == Damage(false, 0, list) && IsInt32(period)
    ensures Unserialized(c, Tagged(DELAYED, 1, Bit(delayed)) + (Tagged(PERIODDAMAGE, 4, Pattern(period)) + t))
         == Unserialized(c.(body := Damage(delayed, period, list)), t)
  {
    RangeOf4();
    PatternBack(period);
    var t1 := Tagged(PERIODDAMAGE, 4, Pattern(period)) + t;
    var c1 := c.(body := Damage(delayed, 0, list));
    var c2 := c.(body := Damage(delayed, period, list));
    assert StepTo(c, Tagged(DELAYED, 1, Bit(delayed)) + t1, c1, t1) by {
      NumberRoundTrip(1, Bit(delayed), t1);
      Field(c, DELAYED, 1, Bit(delayed), t1, c1);
    }
    assert StepTo(c1, t1, c2, t) by {
      NumberRoundTrip(4, Pattern(period), t);
      Field(c1, PERIODDAMAGE, 4, Pattern(period), t, c2);
    }
    TwoSteps(c, Tagged(DELAYED, 1, Bit(delayed)) + t1, c1, t1, c2, t);
  }

  lemma AllIntervals(c: Condition, b: Body)
    requires c.ticks == 0 && b.Damage?
    ensures WithIntervals(c.(body := Damage(b.delayed, b.periodDamage, [])), b.damageList)
         == c.(body := b, ticks := Duration(b.damageList))
  {
  }

  lemma DamageBack(c: Condition, b: Body, tail: seq<Byte>)
    requires c.body == Damage(false, 0, []) && c.ticks == 0 && b.Damage? && BodyFits(b)
    ensures Unserialized(c, BodyBytes(b) + tail) == Unserialized(c.(body := b, ticks := Duration(b.damageList)), tail)
  {
    var w1, w2 := Tagged(DELAYED, 1, Bit(b.delayed)), Tagged(PERIODDAMAGE, 4, Pattern(b.periodDamage));
    var w3 := Intervals(b.damageList);
    assert BodyBytes(b) + tail == w1 + (w2 + (w3 + tail)) by {
      Assoc(w1, w2 + w3, tail);
      Assoc(w2, w3, tail);
    }
    DamageHeadBack(c, b.delayed, b.periodDamage, [], w3 + tail);
    IntervalsBack(c.(body := Damage(b.delayed, b.periodDamage, [])), b.damageList, tail);
    AllIntervals(c, b);
  }

  // ---- A whole condition ----

  // What the header alone makes of a condition.
  function Fresh(c: Condition): Condition
    requires BodyOf(c.kind).Some?
  {
    c.(body := BodyOf(c.kind).value, ticks := if c.body.Damage? then 0 else c.ticks)
  }

  lemma BodyBack(c: Condition, tail: seq<Byte>)
    requires Fits(c)
    ensures Unserialized(Fresh(c), BodyBytes(c.body) + tail) == Unserialized(Restored(c), tail)
  {
    var f := Fresh(c);
    match c.body
    case Generic => assert [] + tail == tail;
    case Regeneration(_, _, _, _) => RegenerationBack(f, c.body, tail);
    case Soul(_, _) => SoulBack(f, c.body, tail);
    case ManaShield(_) => ManaShieldBack(f, c.body, tail);
    case Outfit(_) => OutfitBack(f, c.body, tail);
    case Speed(_, _, _, _, _) => SpeedBack(f, c.body, tail);
    case Light(_, _, _, _) => LightBack(f, c.body, tail);
    case Attributes(_, _, _) => AttributesBack(f, c.body, tail);
    case Damage(_, _, _) => DamageBack(f, c.body, tail);
  }

  lemma TaggedBack(tag: Byte, width: nat, v: nat, tail: seq<Byte>)
    requires v < Range(width)
    ensures TakeTagged(tag, width, Tagged(tag, width, v) + tail) == Some((v, tail))
  {
    var s := Tagged(tag, width, v) + tail;
    assert s[0] == tag && s[1..] == Little(width, v) + tail;
    NumberRoundTrip(width, v, tail);
  }

  lemma HeaderBack(c: Condition, tail: seq<Byte>)
    requires Fits(c)
    ensures Create(Header(c) + tail) == Some((Fresh(c), tail))
  {
    RangeOf4();
    PatternBack(c.id);
    PatternBack(c.ticks);
    ByteBack(c.id);
    var w1, w2, w3 := Tagged(TYPE, 4, c.kind), Tagged(ID, 4, Pattern(c.id)), Tagged(TICKS, 4, Pattern(c.ticks));
    var w4, w5 := Tagged(ISBUFF, 1, Bit(c.isBuff)), Tagged(SUBID, 4, c.subId);
    var t4 := w5 + tail;
    var t3 := w4 + t4;
    var t2 := w3 + t3;
    var t1 := w2 + t2;
    assert Header(c) + tail == w1 + t1 by {
      Assoc(w1, w2 + (w3 + (w4 + w5)), tail);
      Assoc(w2, w3 + (w4 + w5), tail);
      Assoc(w3, w4 + w5, tail);
      Assoc(w4, w5, tail);
    }
    TaggedBack(TYPE, 4, c.kind, t1);
    TaggedBack(ID, 4, Pattern(c.id), t2);
    TaggedBack(TICKS, 4, Pattern(c.ticks), t3);
    TaggedBack(ISBUFF, 1, Bit(c.isBuff), t4);
    TaggedBack(SUBID, 4, c.subId, tail);
  }

  /** A serialized condition with its end mark is read back, and nothing behind it is touched. */
  lemma ConditionBack(c: Condition, tail: seq<Byte>)
    requires Fits(c)
    ensures var s := Serialized(c) + [END] + tail;
      && Create(s) == Some((Fresh(c), BodyBytes(c.body) + ([END] + tail)))
      && Unserialized(Fresh(c), BodyBytes(c.body) + ([END] + tail)) == Read(true, Restored(c), tail)
  {
    var rest := BodyBytes(c.body) + ([END] + tail);
    assert Serialized(c) + [END] + tail == Header(c) + rest;
    HeaderBack(c, rest);
    BodyBack(c, [END] + tail);
    AtEnd(Restored(c), tail);
  }

  lemma LoadOne(c: Condition, tail: seq<Byte>, list: seq<Condition>)
    requires Fits(c)
    ensures Load(Serialized(c) + [END] + tail, list) == Load(tail, [Restored(c)] + list)
  {
    ConditionBack(c, tail);
  }

  // The loader's list: the persistent conditions as restored, last one first.
  function LoadedList(cs: seq<Condition>): seq<Condition> {
    if cs == [] then [] else LoadedList(cs[1..]) + if IsPersistent(cs[0]) then [Restored(cs[0])] else []
  }

  lemma InFront(a: seq<Condition>, c: Condition, b: seq<Condition>)
    ensures a + ([c] + b) == (a + [c]) + b
  {
  }

  lemma {:induction false} LoadAfterSave(cs: seq<Condition>, list: seq<Condition>)
    requires forall k | 0 <= k < |cs| :: Fits(cs[k])
    ensures Load(Save(cs), list) == LoadedList(cs) + list
  {
    if cs == [] {
      assert [] + list == list;
    } else {
      var c, tail := cs[0], Save(cs[1..]);
      if IsPersistent(c) {
        LoadOne(c, tail, list);
        LoadAfterSave(cs[1..], [Restored(c)] + list);
        InFront(LoadedList(cs[1..]), Restored(c), list);
      } else {
        assert Save(cs) == tail by {
          assert [] + tail == tail;
        }
        LoadAfterSave(cs[1..], list);
        assert LoadedList(cs) == LoadedList(cs[1..]);
      }
    }
  }

  /** Every list of conditions, saved back to back and loaded, comes back: the persistent ones, all
      fields restored, in reverse order; damage conditions last as long as their intervals. */
  lemma SaveLoad(cs: seq<Condition>)
    requires forall k | 0 <= k < |cs| :: Fits(cs[k])
    ensures Load(Save(cs), []) == LoadedList(cs)
  {
    LoadAfterSave(cs, []);
    assert LoadedList(cs) + [] == LoadedList(cs);
  }

  // ---- The stored form ----

  function Power(n: nat): nat {
    if n == 0 then 1 else 2 * Power(n - 1)
  }

  lemma Bits()
    ensures Power(0) == 1 && Power(1) == 2 && Power(2) == 4 && Power(3) == 8
    ensures Power(4) == 0x10 && Power(5) == 0x20 && Power(6) == 0x40 && Power(7) == 0x80
    ensures Power(8) == 0x100 && Power(9) == 0x200 && Power(10) == 0x400 && Power(11) == 0x800
    ensures Power(12) == 0x1000 && Power(13) == 0x2000 && Power(14) == 0x4000 && Power(15) == 0x8000
    ensures Power(16) == 0x1_0000 && Power(17) == 0x2_0000 && Power(18) == 0x4_0000 && Power(19) == 0x8_0000
    ensures Power(20) == 0x10_0000 && Power(21) == 0x20_0000 && Power(22) == 0x40_0000 && Power(23) == 0x80_0000
    ensures Power(24) == 0x100_0000 && Power(25) == 0x200_0000 && Power(26) == 0x400_0000 && Power(27) == 0x800_0000
  {
  }

  // The kinds that can be loaded are the 28 single bits.
  lemma KnownKinds(kind: nat)
    ensures BodyOf(kind).Some? <==> exists n | 0 <= n < 28 :: kind == Power(n)
  {
    Bits();
  }

  // What the kind of each bit is.
  lemma KindOfBit(n: nat)
    requires n < 28
    ensures BodyOf(Power(n)).Some?
    ensures var b := BodyOf(Power(n)).value;
      && (b.Damage? <==> n < 4 || n == 15 || 20 <= n <= 22)
      && (b.Speed? <==> n == 4 || n == 5) && (b.Outfit? <==> n == 6) && (b.Light? <==> n == 8)
      && (b.ManaShield? <==> n == 9) && (b.Regeneration? <==> n == 13) && (b.Soul? <==> n == 14)
      && (b.Attributes? <==> n == 19)
  {
    Bits();
  }

  // The tags of the header.
  lemma StoredHeader(c: Condition)
    requires IsInt32(c.id) && IsInt32(c.ticks)
    ensures var kind, id, ticks := [1] + Little(4, c.kind), [2] + Little(4, Pattern(c.id)),
        [3] + Little(4, Pattern(c.ticks));
      Header(c) == kind + id + ticks + [27, if c.isBuff then 1 else 0] + [28] + Little(4, c.subId)
  {
  }

  lemma StoredInterval(list: seq<IntervalInfo>)
    requires list != [] && IntervalsFit(list)
    ensures var info := list[0];
      var fields := Little(4, Pattern(info.timeLeft)) + Little(4, Pattern(info.value))
        + Little(4, Pattern(info.interval));
      Intervals(list) == [10] + fields + Intervals(list[1..])
  {
  }

  lemma StoredSpeed(b: Body)
    requires b.Speed? && BodyFits(b)
    ensures var min, max := [12] + Little(4, b.mina) + [13] + Little(4, b.minb),
        [14] + Little(4, b.maxa) + [15] + Little(4, b.maxb);
      BodyBytes(b) == [11] + Little(4, Pattern(b.delta)) + min + max
  {
  }

  lemma StoredRegeneration(b: Body)
    requires b.Regeneration? && BodyFits(b)
    ensures var health, mana := [4] + Little(4, b.healthTicks) + [5] + Little(4, b.healthGain),
        [6] + Little(4, b.manaTicks) + [7] + Little(4, b.manaGain);
      BodyBytes(b) == health + mana
  {
  }

  lemma StoredLight(b: Body)
    requires b.Light? && BodyFits(b)
    ensures var look, times := [16] + Little(4, b.color) + [17] + Little(4, b.level),
        [18] + Little(4, b.lightTicks) + [19] + Little(4, b.lightInterval);
      BodyBytes(b) == look + times
  {
  }

  lemma StoredDamage(b: Body)
    requires b.Damage? && BodyFits(b)
    ensures var head := [8, if b.delayed then 1 else 0] + [26] + Little(4, Pattern(b.periodDamage));
      BodyBytes(b) == head + Intervals(b.damageList)
  {
  }

  // The tags of the other kinds.
  lemma StoredOthers(b: Body)
    requires BodyFits(b)
    ensures b.Soul? ==> BodyBytes(b) == [21] + Little(4, b.soulGain) + [20] + Little(4, b.soulTicks)
    ensures b.ManaShield? ==> BodyBytes(b) == [29] + Little(2, b.shield)
    ensures b.Outfit? ==> BodyBytes(b) == [25] + Little(18, b.look)
    ensures b.Attributes? ==> BodyBytes(b) == Array(22, b.skills) + (Array(23, b.stats) + Array(24, b.buffs))
  {
  }

  lemma TakesTagged(tag: Byte, width: nat, s: seq<Byte>, at: nat)
    requires at <= |s|
    ensures TakeTagged(tag, width, s[at..]).Some? <==> at + 1 + width <= |s| && s[at] == tag
    ensures at + 1 + width <= |s| && s[at] == tag ==>
      TakeTagged(tag, width, s[at..]) == Some((Value(s[at + 1..at + 1 + width]), s[at + 1 + width..]))
  {
    if at + 1 + width <= |s| {
      assert s[at..][1..] == s[at + 1..] && s[at + 1..][..width] == s[at + 1..at + 1 + width];
      assert s[at + 1..][width..] == s[at + 1 + width..];
    }
  }

  // A condition is made exactly from a header whose five tags are in their places and whose kind is known.
  lemma CreatesIff(s: seq<Byte>)
    ensures Create(s).Some? <==>
      && |s| >= 22 && s[0] == 1 && s[5] == 2 && s[10] == 3 && s[15] == 27 && s[17] == 28
      && BodyOf(Value(s[1..5])).Some?
  {
    assert s[0..] == s;
    TakesTagged(TYPE, 4, s, 0);
    if |s| >= 5 && s[0] == 1 {
      TakesTagged(ID, 4, s, 5);
      if |s| >= 10 && s[5] == 2 {
        TakesTagged(TICKS, 4, s, 10);
        if |s| >= 15 && s[10] == 3 {
          TakesTagged(ISBUFF, 1, s, 15);
          if |s| >= 17 && s[15] == 27 {
            TakesTagged(SUBID, 4, s, 17);
          }
        }
      }
    }
  }

  // The attributes that a kind of condition understands, beside those of every condition.
  lemma OthersRefused(c: Condition, tag: Byte, s: seq<Byte>)
    requires ReadProp(c, tag, s).ok && tag !in {1, 2, 3, 27, 28, 254}
    ensures match c.body
            case Regeneration(_, _, _, _) => 4 <= tag <= 7
            case Speed(_, _, _, _, _) => 11 <= tag <= 15
            case Light(_, _, _, _) => 16 <= tag <= 19
            case Soul(_, _) => tag == 20 || tag == 21
            case Attributes(skills, stats, buffs) =>
              (tag == 22 && |skills| < 13) || (tag == 23 && |stats| < 5) || (tag == 24 && |buffs| < 2)
            case Outfit(_) => tag == 25
            case ManaShield(_) => tag == 29
            case Damage(_, _, _) => 8 <= tag <= 10 || tag == 26
            case Generic => false
  {
  }

  // Lists saved one after the other come back one after the other, the later one first.
  lemma {:induction false} LoadedOfBoth(a: seq<Condition>, b: seq<Condition>)
    ensures LoadedList(a + b) == LoadedList(b) + LoadedList(a)
  {
    if a == [] {
      assert a + b == b && LoadedList(b) + [] == LoadedList(b);
    } else {
      assert (a + b)[0] == a[0] && (a + b)[1..] == a[1..] + b;
      LoadedOfBoth(a[1..], b);
    }
  }

  // What a condition is when it has been saved and loaded.
  predicate ComesBackAs(c: Condition, x: Condition) {
    && c.ticks != -1 && (c.id == -1 || c.id == 0)
    && x == if c.body.Damage? then c.(ticks := Duration(c.body.damageList)) else c
  }

  /** What is in the loaded list: every condition of the two ids that are not of worn items, unless
      it runs for ever, and no other. */
  lemma {:induction false} LoadedIff(cs: seq<Condition>, x: Condition)
    ensures x in LoadedList(cs) <==> exists c | c in cs :: ComesBackAs(c, x)
  {
    if cs != [] {
      LoadedIff(cs[1..], x);
      assert cs == [cs[0]] + cs[1..];
      assert IsPersistent(cs[0]) && x == Restored(cs[0]) <==> ComesBackAs(cs[0], x);
    }
  }

  // Conditions other than damage come back unchanged.
  lemma {:induction false} UnchangedUnlessDamage(cs: seq<Condition>, c: Condition)
    requires c in cs && IsPersistent(c) && !c.body.Damage?
    ensures c in LoadedList(cs)
  {
    if cs[0] != c {
      UnchangedUnlessDamage(cs[1..], c);
    }
  }
}
