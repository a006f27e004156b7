/** Conditions written to and read from property streams. */
module ConditionStream {
  import opened Options
  import opened Sequences
  import opened Bytes
  import opened DamageList
  import opened PropStreams
  import opened ConditionFormat
  import opened ConditionRoundTrip

  // Four appended parts, and five.
  lemma Assoc4(o: seq<Byte>, a: seq<Byte>, b: seq<Byte>, c: seq<Byte>, d: seq<Byte>)
    ensures o + a + b + c + d == o + (a + (b + (c + d)))
  {
  }

  lemma Assoc5(o: seq<Byte>, a: seq<Byte>, b: seq<Byte>, c: seq<Byte>, d: seq<Byte>, e: seq<Byte>)
    ensures o + a + b + c + d + e == o + (a + (b + (c + (d + e))))
  {
  }

  method WriteTagged(out: PropWriteStream, tag: Byte, width: nat, v: nat)
    modifies out
    ensures out.buffer == old(out.buffer) + Tagged(tag, width, v)
  {
    assert Little(1, tag) == [tag];
    out.Write(1, tag);
    out.Write(width, v);
  }

  method WriteHeader(c: Condition, out: PropWriteStream)
    requires IsInt32(c.id) && IsInt32(c.ticks)
    modifies out
    ensures out.buffer == old(out.buffer) + Header(c)
  {
    WriteTagged(out, TYPE, 4, c.kind);
    WriteTagged(out, ID, 4, Pattern(c.id));
    WriteTagged(out, TICKS, 4, Pattern(c.ticks));
    WriteTagged(out, ISBUFF, 1, Bit(c.isBuff));
    WriteTagged(out, SUBID, 4, c.subId);
    Assoc5(old(out.buffer), Tagged(TYPE, 4, c.kind), Tagged(ID, 4, Pattern(c.id)), Tagged(TICKS, 4, Pattern(c.ticks)),
           Tagged(ISBUFF, 1, Bit(c.isBuff)), Tagged(SUBID, 4, c.subId));
  }

  method WriteArray(out: PropWriteStream, tag: Byte, values: seq<int>)
    requires AllInt32(values)
    modifies out
    ensures out.buffer == old(out.buffer) + Array(tag, values)
  {
    assert values[0..] == values;
    for i := 0 to |values|
      invariant out.buffer + Array(tag, values[i..]) == old(out.buffer) + Array(tag, values)
    {
      assert values[i..][0] == values[i] && values[i..][1..] == values[i + 1..];
      ghost var was, one, rest := out.buffer, Tagged(tag, 4, Pattern(values[i])), Array(tag, values[i + 1..]);
      WriteTagged(out, tag, 4, Pattern(values[i]));
      assert was + (one + rest) == (was + one) + rest;
    }
    assert out.buffer + [] == out.buffer;
  }

  method WriteIntervals(out: PropWriteStream, list: seq<IntervalInfo>)
    requires IntervalsFit(list)
    modifies out
    ensures out.buffer == old(out.buffer) + Intervals(list)
  {
    assert list[0..] == list;
    for i := 0 to |list|
      invariant out.buffer + Intervals(list[i..]) == old(out.buffer) + Intervals(list)
    {
      assert list[i..][0] == list[i] && list[i..][1..] == list[i + 1..];
      ghost var was, one, rest := out.buffer, Interval(list[i]), Intervals(list[i + 1..]);
      WriteInterval(out, list[i]);
      assert was + ([INTERVALDATA] + (one + rest)) == (was + ([INTERVALDATA] + one)) + rest;
    }
    assert out.buffer + [] == out.buffer;
  }

  method WriteInterval(out: PropWriteStream, info: IntervalInfo)
    requires IntervalFits(info)
    modifies out
    ensures out.buffer == old(out.buffer) + ([INTERVALDATA] + Interval(info))
  {
    assert Little(1, INTERVALDATA) == [INTERVALDATA];
    out.Write(1, INTERVALDATA);
    out.Write(4, Pattern(info.timeLeft));
    out.Write(4, Pattern(info.value));
    out.Write(4, Pattern(info.interval));
    Assoc4(old(out.buffer), [INTERVALDATA], Little(4, Pattern(info.timeLeft)), Little(4, Pattern(info.value)),
           Little(4, Pattern(info.interval)));
  }

  method WriteRegeneration(b: Body, out: PropWriteStream)
    requires b.Regeneration? && BodyFits(b)
    modifies out
    ensures out.buffer == old(out.buffer) + BodyBytes(b)
  {
    WriteTagged(out, HEALTHTICKS, 4, b.healthTicks);
    WriteTagged(out, HEALTHGAIN, 4, b.healthGain);
    WriteTagged(out, MANATICKS, 4, b.manaTicks);
    WriteTagged(out, MANAGAIN, 4, b.manaGain);
    Assoc4(old(out.buffer), Tagged(HEALTHTICKS, 4, b.healthTicks), Tagged(HEALTHGAIN, 4, b.healthGain),
           Tagged(MANATICKS, 4, b.manaTicks), Tagged(MANAGAIN, 4, b.manaGain));
  }

  method WriteSoul(b: Body, out: PropWriteStream)
    requires b.Soul? && BodyFits(b)
    modifies out
    ensures out.buffer == old(out.buffer) + BodyBytes(b)
  {
    WriteTagged(out, SOULGAIN, 4, b.soulGain);
    WriteTagged(out, SOULTICKS, 4, b.soulTicks);
    Assoc(old(out.buffer), Tagged(SOULGAIN, 4, b.soulGain), Tagged(SOULTICKS, 4, b.soulTicks));
  }

  method WriteSpeed(b: Body, out: PropWriteStream)
    requires b.Speed? && BodyFits(b)
    modifies out
    ensures out.buffer == old(out.buffer) + BodyBytes(b)
  {
    WriteTagged(out, SPEEDDELTA, 4, Pattern(b.delta));
    WriteTagged(out, FORMULA_MINA, 4, b.mina);
    WriteTagged(out, FORMULA_MINB, 4, b.minb);
    WriteTagged(out, FORMULA_MAXA, 4, b.maxa);
    WriteTagged(out, FORMULA_MAXB, 4, b.maxb);
    Assoc5(old(out.buffer), Tagged(SPEEDDELTA, 4, Pattern(b.delta)), Tagged(FORMULA_MINA, 4, b.mina),
           Tagged(FORMULA_MINB, 4, b.minb), Tagged(FORMULA_MAXA, 4, b.maxa), Tagged(FORMULA_MAXB, 4, b.maxb));
  }

  method WriteLight(b: Body, out: PropWriteStream)
    requires b.Light? && BodyFits(b)
    modifies out
    ensures out.buffer == old(out.buffer) + BodyBytes(b)
  {
    WriteTagged(out, LIGHTCOLOR, 4, b.color);
    WriteTagged(out, LIGHTLEVEL, 4, b.level);
    WriteTagged(out, LIGHTTICKS, 4, b.lightTicks);
    WriteTagged(out, LIGHTINTERVAL, 4, b.lightInterval);
    Assoc4(old(out.buffer), Tagged(LIGHTCOLOR, 4, b.color), Tagged(LIGHTLEVEL, 4, b.level),
           Tagged(LIGHTTICKS, 4, b.lightTicks), Tagged(LIGHTINTERVAL, 4, b.lightInterval));
  }

  method WriteAttributes(b: Body, out: PropWriteStream)
    requires b.Attributes? && BodyFits(b)
    modifies out
    ensures out.buffer == old(out.buffer) + BodyBytes(b)
  {
    WriteArray(out, SKILLS, b.skills);
    WriteArray(out, STATS, b.stats);
    WriteArray(out, BUFFS, b.buffs);
    Assoc(old(out.buffer) + Array(SKILLS, b.skills), Array(STATS, b.stats), Array(BUFFS, b.buffs));
    Assoc(old(out.buffer), Array(SKILLS, b.skills), Array(STATS, b.stats) + Array(BUFFS, b.buffs));
  }

  method WriteDamage(b: Body, out: PropWriteStream)
    requires b.Damage? && BodyFits(b)
    modifies out
    ensures out.buffer == old(out.buffer) + BodyBytes(b)
  {
    WriteTagged(out, DELAYED, 1, Bit(b.delayed));
    WriteTagged(out, PERIODDAMAGE, 4, Pattern(b.periodDamage));
    WriteIntervals(out, b.damageList);
    ghost var w1, w2 := Tagged(DELAYED, 1, Bit(b.delayed)), Tagged(PERIODDAMAGE, 4, Pattern(b.periodDamage));
    Assoc(old(out.buffer) + w1, w2, Intervals(b.damageList));
    Assoc(old(out.buffer), w1, w2 + Intervals(b.damageList));
  }

  method WriteBody(b: Body, out: PropWriteStream)
    requires BodyFits(b)
    modifies out
    ensures out.buffer == old(out.buffer) + BodyBytes(b)
  {
    match b {
      case Generic => assert out.buffer + [] == out.buffer;
      case Regeneration(_, _, _, _) => WriteRegeneration(b, out);
      case Soul(_, _) => WriteSoul(b, out);
      case ManaShield(v) => WriteTagged(out, MANASHIELD, 2, v);
      case Outfit(look) => WriteTagged(out, OUTFIT, OUTFIT_SIZE, look);
      case Speed(_, _, _, _, _) => WriteSpeed(b, out);
      case Light(_, _, _, _) => WriteLight(b, out);
      case Attributes(_, _, _) => WriteAttributes(b, out);
      case Damage(_, _, _) => WriteDamage(b, out);
    }
  }

  method Serialize(c: Condition, out: PropWriteStream)
    requires Fits(c)
    modifies out
    ensures out.buffer == old(out.buffer) + Serialized(c)
  {
    ghost var was := out.buffer;
    WriteHeader(c, out);
    WriteBody(c.body, out);
    Assoc(was, Header(c), BodyBytes(c.body));
  }

  // One condition of the list: only a persistent one is written, with its end mark.
  method SaveOne(c: Condition, out: PropWriteStream)
    requires Fits(c)
    modifies out
    ensures out.buffer == old(out.buffer) + if IsPersistent(c) then Serialized(c) + [END] else []
  {
    if IsPersistent(c) {
      Serialize(c, out);
      assert Little(1, END) == [END];
      out.Write(1, END);
      Assoc(old(out.buffer), Serialized(c), [END]);
    } else {
      assert out.buffer + [] == out.buffer;
    }
  }

  /** The player's conditions into one stream, each with its end mark. */
  method SaveConditions(cs: seq<Condition>, out: PropWriteStream)
    requires forall k | 0 <= k < |cs| :: Fits(cs[k])
    modifies out
    ensures out.buffer == old(out.buffer) + Save(cs)
  {
    assert cs[0..] == cs;
    for i := 0 to |cs|
      invariant out.buffer + Save(cs[i..]) == old(out.buffer) + Save(cs)
    {
      assert cs[i..][0] == cs[i] && cs[i..][1..] == cs[i + 1..];
      ghost var one := if IsPersistent(cs[i]) then Serialized(cs[i]) + [END] else [];
      ghost var was, rest := out.buffer, Save(cs[i + 1..]);
      SaveOne(cs[i], out);
      Assoc(was, one, rest);
    }
    assert out.buffer + [] == out.buffer;
  }

  // The attributes every condition understands.
  method ReadCommonProp(c: Condition, tag: Byte, stream: PropStream) returns (ok: bool, c2: Condition)
    requires stream.Valid()
    modifies stream
    ensures stream.Valid() && ReadCommon(c, tag, old(stream.Rest())) == Read(ok, c2, stream.Rest())
  {
    c2 := c;
    if tag == END {
      return true, c2;
    }
    if tag != TYPE && tag != ID && tag != TICKS && tag != ISBUFF && tag != SUBID {
      return false, c2;
    }
    var v := stream.Read(if tag == ISBUFF then 1 else 4);
    if v == None {
      return false, c2;
    }
    ok := true;
    if tag == TYPE {
      c2 := c.(kind := v.value);
    } else if tag == ID {
      c2 := c.(id := SignedByte(v.value));
    } else if tag == TICKS {
      c2 := c.(ticks := Signed(v.value));
    } else if tag == ISBUFF {
      c2 := c.(isBuff := v.value != 0);
    } else {
      c2 := c.(subId := v.value);
    }
  }

  method ReadRegenerationProp(c: Condition, tag: Byte, stream: PropStream) returns (ok: bool, c2: Condition)
    requires stream.Valid() && c.body.Regeneration?
    modifies stream
    ensures stream.Valid() && ReadRegeneration(c, tag, old(stream.Rest())) == Read(ok, c2, stream.Rest())
  {
    c2 := c;
    if tag != HEALTHTICKS && tag != HEALTHGAIN && tag != MANATICKS && tag != MANAGAIN {
      ok, c2 := ReadCommonProp(c, tag, stream);
      return;
    }
    var v := stream.Read(4);
    if v == None {
      return false, c2;
    }
    ok := true;
    if tag == HEALTHTICKS {
      c2 := c.(body := c.body.(healthTicks := v.value));
    } else if tag == HEALTHGAIN {
      c2 := c.(body := c.body.(healthGain := v.value));
    } else if tag == MANATICKS {
      c2 := c.(body := c.body.(manaTicks := v.value));
    } else {
      c2 := c.(body := c.body.(manaGain := v.value));
    }
  }

  method ReadSpeedProp(c: Condition, tag: Byte, stream: PropStream) returns (ok: bool, c2: Condition)
    requires stream.Valid() && c.body.Speed?
    modifies stream
    ensures stream.Valid() && ReadSpeed(c, tag, old(stream.Rest())) == Read(ok, c2, stream.Rest())
  {
    c2 := c;
    if tag != SPEEDDELTA && tag != FORMULA_MINA && tag != FORMULA_MINB && tag != FORMULA_MAXA && tag != FORMULA_MAXB {
      ok, c2 := ReadCommonProp(c, tag, stream);
      return;
    }
    var v := stream.Read(4);
    if v == None {
      return false, c2;
    }
    ok := true;
    if tag == SPEEDDELTA {
      c2 := c.(body := c.body.(delta := Signed(v.value)));
    } else if tag == FORMULA_MINA {
      c2 := c.(body := c.body.(mina := v.value));
    } else if tag == FORMULA_MINB {
      c2 := c.(body := c.body.(minb := v.value));
    } else if tag == FORMULA_MAXA {
      c2 := c.(body := c.body.(maxa := v.value));
    } else {
      c2 := c.(body := c.body.(maxb := v.value));
    }
  }

  method ReadLightProp(c: Condition, tag: Byte, stream: PropStream) returns (ok: bool, c2: Condition)
    requires stream.Valid() && c.body.Light?
    modifies stream
    ensures stream.Valid() && ReadLight(c, tag, old(stream.Rest())) == Read(ok, c2, stream.Rest())
  {
    c2 := c;
    if tag != LIGHTCOLOR && tag != LIGHTLEVEL && tag != LIGHTTICKS && tag != LIGHTINTERVAL {
      ok, c2 := ReadCommonProp(c, tag, stream);
      return;
    }
    var v := stream.Read(4);
    if v == None {
      return false, c2;
    }
    ok := true;
    if tag == LIGHTCOLOR {
      c2 := c.(body := c.body.(color := v.value % 256));
    } else if tag == LIGHTLEVEL {
      c2 := c.(body := c.body.(level := v.value % 256));
    } else if tag == LIGHTTICKS {
      c2 := c.(body := c.body.(lightTicks := v.value));
    } else {
      c2 := c.(body := c.body.(lightInterval := v.value));
    }
  }

  method ReadAttributesProp(c: Condition, tag: Byte, stream: PropStream) returns (ok: bool, c2: Condition)
    requires stream.Valid() && c.body.Attributes?
    modifies stream
    ensures stream.Valid() && ReadAttributes(c, tag, old(stream.Rest())) == Read(ok, c2, stream.Rest())
  {
    c2 := c;
    if tag != SKILLS && tag != STATS && tag != BUFFS {
      ok, c2 := ReadCommonProp(c, tag, stream);
      return;
    }
    if (tag == SKILLS && |c.body.skills| >= SKILL_COUNT) || (tag == STATS && |c.body.stats| >= STAT_COUNT)
       || (tag == BUFFS && |c.body.buffs| >= BUFF_COUNT) {
      return false, c2;
    }
    var v := stream.Read(4);
    if v == None {
      return false, c2;
    }
    ok := true;
    if tag == SKILLS {
      c2 := c.(body := c.body.(skills := c.body.skills + [Signed(v.value)]));
    } else if tag == STATS {
      c2 := c.(body := c.body.(stats := c.body.stats + [Signed(v.value)]));
    } else {
      c2 := c.(body := c.body.(buffs := c.body.buffs + [Signed(v.value)]));
    }
  }

  // The twelve bytes of an interval, or nothing.
  method ReadInterval(stream: PropStream) returns (info: Option<IntervalInfo>)
    requires stream.Valid()
    modifies stream
    ensures stream.Valid()
    ensures var s := old(stream.Rest());
      if |s| < 12 then info == None && stream.Rest() == s else info == Some(TakeInterval(s)) && stream.Rest() == s[12..]
  {
    ghost var s := stream.Rest();
    var size := stream.Size();
    if size < 12 {
      return None;
    }
    var timeLeft := stream.Read(4);
    assert stream.Rest() == s[4..];
    var value := stream.Read(4);
    assert stream.Rest() == s[8..] by {
      assert s[4..][4..] == s[8..];
    }
    var interval := stream.Read(4);
    assert s[8..][4..] == s[12..];
    info := Some(IntervalInfo(Signed(timeLeft.value), Signed(value.value), Signed(interval.value)));
  }

  method ReadDamageProp(c: Condition, tag: Byte, stream: PropStream) returns (ok: bool, c2: Condition)
    requires stream.Valid() && c.body.Damage?
    modifies stream
    ensures stream.Valid() && ReadDamage(c, tag, old(stream.Rest())) == Read(ok, c2, stream.Rest())
  {
    c2 := c;
    if tag == DELAYED {
      var v := stream.Read(1);
      if v == None {
        return false, c2;
      }
      c2 := c.(body := c.body.(delayed := v.value != 0));
      ok := true;
    } else if tag == PERIODDAMAGE {
      var v := stream.Read(4);
      if v == None {
        return false, c2;
      }
      c2 := c.(body := c.body.(periodDamage := Signed(v.value)));
      ok := true;
    } else if tag == OWNER {
      ok := stream.Skip(4);
    } else if tag == INTERVALDATA {
      var info := ReadInterval(stream);
      if info == None {
        return false, c2;
      }
      c2 := c.(body := c.body.(damageList := c.body.damageList + [info.value]));
      if c.ticks != -1 {
        c2 := c2.(ticks := c.ticks + info.value.interval);
      }
      ok := true;
    } else {
      ok, c2 := ReadCommonProp(c, tag, stream);
    }
  }

  // The remaining kinds have one or two fields of their own, or none.
  method ReadSmallProp(c: Condition, tag: Byte, stream: PropStream) returns (ok: bool, c2: Condition)
    requires stream.Valid() && (c.body.Soul? || c.body.ManaShield? || c.body.Outfit? || c.body.Generic?)
    modifies stream
    ensures stream.Valid() && ReadProp(c, tag, old(stream.Rest())) == Read(ok, c2, stream.Rest())
  {
    c2 := c;
    if c.body.Soul? && (tag == SOULGAIN || tag == SOULTICKS) {
      var v := stream.Read(4);
      if v == None {
        return false, c2;
      }
      c2 := c.(body := if tag == SOULGAIN then c.body.(soulGain := v.value) else c.body.(soulTicks := v.value));
      ok := true;
    } else if c.body.ManaShield? && tag == MANASHIELD {
      var v := stream.Read(2);
      if v == None {
        return false, c2;
      }
      c2 := c.(body := ManaShield(v.value));
      ok := true;
    } else if c.body.Outfit? && tag == OUTFIT {
      var v := stream.Read(OUTFIT_SIZE);
      if v == None {
        return false, c2;
      }
      c2 := c.(body := Outfit(v.value));
      ok := true;
    } else {
      ok, c2 := ReadCommonProp(c, tag, stream);
    }
  }

  method UnserializeProp(c: Condition, tag: Byte, stream: PropStream) returns (ok: bool, c2: Condition)
    requires stream.Valid()
    modifies stream
    ensures stream.Valid() && ReadProp(c, tag, old(stream.Rest())) == Read(ok, c2, stream.Rest())
  {
    match c.body {
      case Regeneration(_, _, _, _) => ok, c2 := ReadRegenerationProp(c, tag, stream);
      case Speed(_, _, _, _, _) => ok, c2 := ReadSpeedProp(c, tag, stream);
      case Light(_, _, _, _) => ok, c2 := ReadLightProp(c, tag, stream);
      case Attributes(_, _, _) => ok, c2 := ReadAttributesProp(c, tag, stream);
      case Damage(_, _, _) => ok, c2 := ReadDamageProp(c, tag, stream);
      case _ => ok, c2 := ReadSmallProp(c, tag, stream);
    }
  }

  lemma OneByte(s: seq<Byte>)
    requires |s| >= 1
    ensures TakeNumber(s, 1) == Some((s[0] as nat, s[1..]))
  {
    assert s[..1] == [s[0]];
    assert Value([s[0]]) == s[0] + 256 * Value([s[0]][1..]);
  }

  /** Attributes into a condition until the end mark; false when one cannot be read. */
  method Unserialize(c: Condition, stream: PropStream) returns (ok: bool, c2: Condition)
    requires stream.Valid()
    modifies stream
    ensures stream.Valid() && Unserialized(c, old(stream.Rest())) == Read(ok, c2, stream.Rest())
  {
    c2 := c;
    ghost var goal := Unserialized(c, stream.Rest());
    while true
      invariant stream.Valid() && Unserialized(c2, stream.Rest()) == goal
      decreases |stream.Rest()|
    {
      ghost var s := stream.Rest();
      var tag := stream.Read(1);
      if tag == None {
        return true, c2;
      }
      OneByte(s);
      if tag.value == END {
        return true, c2;
      }
      ok, c2 := UnserializeProp(c2, tag.value, stream);
      if !ok {
        return false, c2;
      }
    }
  }

  method ReadTagged(tag: Byte, width: nat, stream: PropStream) returns (v: Option<nat>)
    requires stream.Valid()
    modifies stream
    ensures stream.Valid()
    ensures match TakeTagged(tag, width, old(stream.Rest()))
            case None => v == None
            case Some((x, rest)) => v == Some(x) && stream.Rest() == rest
  {
    ghost var s := stream.Rest();
    var attr := stream.Read(1);
    if attr == None {
      return None;
    }
    OneByte(s);
    if attr.value != tag {
      return None;
    }
    v := stream.Read(width);
  }

  /** The header of a saved condition; nothing when it is not one. */
  method CreateCondition(stream: PropStream) returns (c: Option<Condition>)
    requires stream.Valid()
    modifies stream
    ensures stream.Valid()
    ensures match Create(old(stream.Rest()))
            case None => c == None
            case Some((made, rest)) => c == Some(made) && stream.Rest() == rest
  {
    var kind := ReadTagged(TYPE, 4, stream);
    if kind == None {
      return None;
    }
    var id := ReadTagged(ID, 4, stream);
    if id == None {
      return None;
    }
    var ticks := ReadTagged(TICKS, 4, stream);
    if ticks == None {
      return None;
    }
    var buff := ReadTagged(ISBUFF, 1, stream);
    if buff == None {
      return None;
    }
    var subId := ReadTagged(SUBID, 4, stream);
    if subId == None {
      return None;
    }
    var body := BodyOf(kind.value);
    if body == None {
      return None;
    }
    c := Some(Condition(kind.value, SignedByte(id.value), if body.value.Damage? then 0 else Signed(ticks.value),
                        buff.value != 0, subId.value, body.value));
  }

  /** The stored conditions of a player, each put in front; one that cannot be read is dropped. */
  method LoadConditions(stream: PropStream) returns (list: seq<Condition>)
    requires stream.Valid()
    modifies stream
    ensures list == Load(old(stream.Rest()), [])
  {
    ghost var goal := Load(stream.Rest(), []);
    list := [];
    ghost var s := stream.Rest();
    var condition := CreateCondition(stream);
    while condition.Some?
      invariant stream.Valid()
      invariant match Create(s)
                case None => condition == None && goal == list
                case Some((c, rest)) => condition == Some(c) && stream.Rest() == rest
      invariant Load(s, list) == goal
      decreases |s|
    {
      var ok, c := Unserialize(condition.value, stream);
      if ok {
        list := [c] + list;
      }
      s := stream.Rest();
      condition := CreateCondition(stream);
    }
  }

  /** Conditions saved into a stream and loaded from its bytes: the persistent ones, every field
      restored, last one first; damage conditions last as long as their intervals. */
  method SaveThenLoad(cs: seq<Condition>) returns (list: seq<Condition>)
    requires forall k | 0 <= k < |cs| :: Fits(cs[k])
    ensures list == LoadedList(cs)
    ensures forall c | c in cs && c.ticks != -1 && (c.id == -1 || c.id == 0) && !c.body.Damage? :: c in list
    ensures forall x :: x in list <==> exists c | c in cs :: ComesBackAs(c, x)
  {
    var out := new PropWriteStream();
    SaveConditions(cs, out);
    assert out.buffer == Save(cs);
    var stream := new PropStream();
    stream.Init(out.buffer, |out.buffer|);
    assert stream.Rest() == Save(cs);
    list := LoadConditions(stream);
    SaveLoad(cs);
    forall c | c in cs && IsPersistent(c) && !c.body.Damage? ensures c in list {
      UnchangedUnlessDamage(cs, c);
    }
    forall x ensures x in list <==> exists c | c in cs :: ComesBackAs(c, x) {
      LoadedIff(cs, x);
    }
  }
}
