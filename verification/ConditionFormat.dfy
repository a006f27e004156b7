/** The tagged format in which a player's conditions are saved. */
module ConditionFormat {
  import opened Options
  import opened Bytes
  import opened DamageList
  import opened PropStreams

  // Attribute tags.
  const TYPE: Byte := 1
  const ID: Byte := 2
  const TICKS: Byte := 3
  const HEALTHTICKS: Byte := 4
  const HEALTHGAIN: Byte := 5
  const MANATICKS: Byte := 6
  const MANAGAIN: Byte := 7
  const DELAYED: Byte := 8
  const OWNER: Byte := 9
  const INTERVALDATA: Byte := 10
  const SPEEDDELTA: Byte := 11
  const FORMULA_MINA: Byte := 12
  const FORMULA_MINB: Byte := 13
  const FORMULA_MAXA: Byte := 14
  const FORMULA_MAXB: Byte := 15
  const LIGHTCOLOR: Byte := 16
  const LIGHTLEVEL: Byte := 17
  const LIGHTTICKS: Byte := 18
  const LIGHTINTERVAL: Byte := 19
  const SOULTICKS: Byte := 20
  const SOULGAIN: Byte := 21
  const SKILLS: Byte := 22
  const STATS: Byte := 23
  const BUFFS: Byte := 24
  const OUTFIT: Byte := 25
  const PERIODDAMAGE: Byte := 26
  const ISBUFF: Byte := 27
  const SUBID: Byte := 28
  const MANASHIELD: Byte := 29
  const END: Byte := 254

  const SKILL_COUNT := 13
  const STAT_COUNT := 5
  const BUFF_COUNT := 2

  // The bytes of an outfit record, its one byte of padding included.
  const OUTFIT_SIZE := 18

  // The fields of each kind of condition; the formula numbers of a speed condition are bit
  // patterns, an outfit is its record taken as one, and the arrays of an attribute condition are
  // filled from the front while loading.
  datatype Body =
    | Generic
    | Regeneration(healthTicks: nat, healthGain: nat, manaTicks: nat, manaGain: nat)
    | Soul(soulTicks: nat, soulGain: nat)
    | ManaShield(shield: nat)
    | Speed(delta: int, mina: nat, minb: nat, maxa: nat, maxb: nat)
    | Outfit(look: nat)
    | Light(color: nat, level: nat, lightTicks: nat, lightInterval: nat)
    | Attributes(skills: seq<int>, stats: seq<int>, buffs: seq<int>)
    | Damage(delayed: bool, periodDamage: int, damageList: seq<IntervalInfo>)

  datatype Condition = Condition(kind: nat, id: int, ticks: int, isBuff: bool, subId: nat, body: Body)

  // The body a condition of a type starts with when it is loaded; other types are unknown.
  function BodyOf(kind: nat): Option<Body> {
    if kind in {0x1, 0x2, 0x4, 0x8, 0x8000, 0x10_0000, 0x20_0000, 0x40_0000} then Some(Damage(false, 0, []))
    else if kind == 0x10 || kind == 0x20 then Some(Speed(0, 0, 0, 0, 0))
    else if kind == 0x40 then Some(Outfit(0))
    else if kind == 0x100 then Some(Light(0, 0, 0, 0))
    else if kind == 0x200 then Some(ManaShield(0))
    else if kind == 0x2000 then Some(Regeneration(1000, 0, 1000, 0))
    else if kind == 0x4000 then Some(Soul(0, 0))
    else if kind == 0x8_0000 then Some(Attributes([], [], []))
    else if kind in {0x80, 0x400, 0x800, 0x1000, 0x1_0000, 0x2_0000, 0x4_0000, 0x80_0000, 0x100_0000, 0x200_0000,
                     0x400_0000, 0x800_0000}
      then Some(Generic)
    else None
  }

  // ---- Writing ----

  function Tagged(tag: Byte, width: nat, v: nat): (s: seq<Byte>)
    ensures |s| == 1 + width
  {
    [tag] + Little(width, v)
  }

  function Bit(b: bool): nat {
    if b then 1 else 0
  }

  function Header(c: Condition): seq<Byte>
    requires IsInt32(c.id) && IsInt32(c.ticks)
  {
    Tagged(TYPE, 4, c.kind) + (Tagged(ID, 4, Pattern(c.id)) + (Tagged(TICKS, 4, Pattern(c.ticks))
      + (Tagged(ISBUFF, 1, Bit(c.isBuff)) + Tagged(SUBID, 4, c.subId))))
  }

  predicate AllInt32(s: seq<int>) {
    forall k | 0 <= k < |s| :: IsInt32(s[k])
  }

  function Array(tag: Byte, values: seq<int>): seq<Byte>
    requires AllInt32(values)
  {
    if values == [] then [] else Tagged(tag, 4, Pattern(values[0])) + Array(tag, values[1..])
  }

  predicate IntervalFits(info: IntervalInfo) {
    IsInt32(info.timeLeft) && IsInt32(info.value) && IsInt32(info.interval) && info.interval >= 0
  }

  predicate IntervalsFit(list: seq<IntervalInfo>) {
    forall k | 0 <= k < |list| :: IntervalFits(list[k])
  }

  function Interval(info: IntervalInfo): (s: seq<Byte>)
    requires IntervalFits(info)
    ensures |s| == 12
  {
    Little(4, Pattern(info.timeLeft)) + (Little(4, Pattern(info.value)) + Little(4, Pattern(info.interval)))
  }

  function Intervals(list: seq<IntervalInfo>): seq<Byte>
    requires IntervalsFit(list)
  {
    if list == [] then [] else [INTERVALDATA] + (Interval(list[0]) + Intervals(list[1..]))
  }

  function BodyBytes(b: Body): seq<Byte>
    requires BodyFits(b)
  {
    match b
    case Generic => []
    case Regeneration(ht, hg, mt, mg) =>
      Tagged(HEALTHTICKS, 4, ht) + (Tagged(HEALTHGAIN, 4, hg) + (Tagged(MANATICKS, 4, mt) + Tagged(MANAGAIN, 4, mg)))
    case Soul(t, g) => Tagged(SOULGAIN, 4, g) + Tagged(SOULTICKS, 4, t)
    case ManaShield(v) => Tagged(MANASHIELD, 2, v)
    case Outfit(look) => Tagged(OUTFIT, OUTFIT_SIZE, look)
    case Speed(d, mina, minb, maxa, maxb) =>
      Tagged(SPEEDDELTA, 4, Pattern(d)) + (Tagged(FORMULA_MINA, 4, mina) + (Tagged(FORMULA_MINB, 4, minb)
        + (Tagged(FORMULA_MAXA, 4, maxa) + Tagged(FORMULA_MAXB, 4, maxb))))
    case Light(color, level, t, interval) =>
      Tagged(LIGHTCOLOR, 4, color) + (Tagged(LIGHTLEVEL, 4, level) + (Tagged(LIGHTTICKS, 4, t)
        + Tagged(LIGHTINTERVAL, 4, interval)))
    case Attributes(skills, stats, buffs) => Array(SKILLS, skills) + (Array(STATS, stats) + Array(BUFFS, buffs))
    case Damage(delayed, period, list) =>
      Tagged(DELAYED, 1, Bit(delayed)) + (Tagged(PERIODDAMAGE, 4, Pattern(period)) + Intervals(list))
  }

  predicate IsWord(v: nat) {
    v < 0x1_0000_0000
  }

  // The values a field of each width can have.
  predicate BodyFits(b: Body) {
    match b
    case Generic => true
    case Regeneration(ht, hg, mt, mg) => IsWord(ht) && IsWord(hg) && IsWord(mt) && IsWord(mg)
    case Soul(t, g) => IsWord(t) && IsWord(g)
    case ManaShield(v) => v < 0x1_0000
    case Outfit(look) => look < Range(OUTFIT_SIZE)
    case Speed(d, mina, minb, maxa, maxb) => IsInt32(d) && IsWord(mina) && IsWord(minb) && IsWord(maxa) && IsWord(maxb)
    case Light(color, level, t, interval) => color < 0x100 && level < 0x100 && IsWord(t) && IsWord(interval)
    case Attributes(skills, stats, buffs) =>
      && |skills| == SKILL_COUNT && |stats| == STAT_COUNT && |buffs| == BUFF_COUNT
      && AllInt32(skills) && AllInt32(stats) && AllInt32(buffs)
    case Damage(_, period, list) => IsInt32(period) && IntervalsFit(list)
  }

  predicate SameForm(a: Body, b: Body) {
    match a
    case Generic => b.Generic?
    case Regeneration(_, _, _, _) => b.Regeneration?
    case Soul(_, _) => b.Soul?
    case ManaShield(_) => b.ManaShield?
    case Outfit(_) => b.Outfit?
    case Speed(_, _, _, _, _) => b.Speed?
    case Light(_, _, _, _) => b.Light?
    case Attributes(_, _, _) => b.Attributes?
    case Damage(_, _, _) => b.Damage?
  }

  predicate Fits(c: Condition) {
    && IsWord(c.kind) && -128 <= c.id < 128 && IsInt32(c.ticks) && IsWord(c.subId)
    && BodyOf(c.kind).Some? && SameForm(BodyOf(c.kind).value, c.body) && BodyFits(c.body)
  }

  function Serialized(c: Condition): seq<Byte>
    requires Fits(c)
  {
    Header(c) + BodyBytes(c.body)
  }

  // Conditions that run for ever, or come from worn items, are not saved.
  predicate IsPersistent(c: Condition) {
    c.ticks != -1 && (c.id == -1 || c.id == 0)
  }

  function Save(cs: seq<Condition>): seq<Byte>
    requires forall k | 0 <= k < |cs| :: Fits(cs[k])
  {
    if cs == [] then []
    else (if IsPersistent(cs[0]) then Serialized(cs[0]) + [END] else []) + Save(cs[1..])
  }

  // ---- Reading ----

  datatype Read = Read(ok: bool, c: Condition, rest: seq<Byte>)

  // One number into a field.
  function Take(c: Condition, s: seq<Byte>, width: nat, put: nat -> Condition): (r: Read)
    ensures |r.rest| <= |s|
  {
    match TakeNumber(s, width)
    case None => Read(false, c, s)
    case Some((v, rest)) => Read(true, put(v), rest)
  }

  function SignedByte(v: nat): int {
    if v % 256 < 128 then v % 256 else v % 256 - 256
  }

  // The attributes every condition understands.
  function ReadCommon(c: Condition, tag: Byte, s: seq<Byte>): (r: Read)
    ensures |r.rest| <= |s|
  {
    if tag == TYPE then Take(c, s, 4, (v: nat) => c.(kind := v))
    else if tag == ID then Take(c, s, 4, (v: nat) => c.(id := SignedByte(v)))
    else if tag == TICKS then Take(c, s, 4, (v: nat) => c.(ticks := Signed(v)))
    else if tag == ISBUFF then Take(c, s, 1, (v: nat) => c.(isBuff := v != 0))
    else if tag == SUBID then Take(c, s, 4, (v: nat) => c.(subId := v))
    else if tag == END then Read(true, c, s)
    else Read(false, c, s)
  }

  // One more number into an array, when there is room.
  function ReadInto(c: Condition, s: seq<Byte>, values: seq<int>, count: nat, put: seq<int> -> Condition): (r: Read)
    ensures |r.rest| <= |s|
  {
    if |values| >= count then Read(false, c, s) else Take(c, s, 4, (v: nat) => put(values + [Signed(v)]))
  }

  function TakeInterval(s: seq<Byte>): IntervalInfo
    requires |s| >= 12
  {
    IntervalInfo(Signed(Value(s[..4])), Signed(Value(s[4..][..4])), Signed(Value(s[8..][..4])))
  }

  // A damage condition lasts as long as its intervals, unless it lasts for ever.
  function WithInterval(c: Condition, info: IntervalInfo): Condition
    requires c.body.Damage?
  {
    c.(body := c.body.(damageList := c.body.damageList + [info]),
       ticks := if c.ticks != -1 then c.ticks + info.interval else -1)
  }

  function ReadDamage(c: Condition, tag: Byte, s: seq<Byte>): (r: Read)
    requires c.body.Damage?
    ensures |r.rest| <= |s|
  {
    if tag == DELAYED then Take(c, s, 1, (v: nat) => c.(body := c.body.(delayed := v != 0)))
    else if tag == PERIODDAMAGE then Take(c, s, 4, (v: nat) => c.(body := c.body.(periodDamage := Signed(v))))
    else if tag == OWNER then if |s| < 4 then Read(false, c, s) else Read(true, c, s[4..])
    else if tag == INTERVALDATA then
      if |s| < 12 then Read(false, c, s) else Read(true, WithInterval(c, TakeInterval(s)), s[12..])
    else ReadCommon(c, tag, s)
  }

  function ReadAttributes(c: Condition, tag: Byte, s: seq<Byte>): (r: Read)
    requires c.body.Attributes?
    ensures |r.rest| <= |s|
  {
    if tag == SKILLS then ReadInto(c, s, c.body.skills, SKILL_COUNT, a => c.(body := c.body.(skills := a)))
    else if tag == STATS then ReadInto(c, s, c.body.stats, STAT_COUNT, a => c.(body := c.body.(stats := a)))
    else if tag == BUFFS then ReadInto(c, s, c.body.buffs, BUFF_COUNT, a => c.(body := c.body.(buffs := a)))
    else ReadCommon(c, tag, s)
  }

  function ReadRegeneration(c: Condition, tag: Byte, s: seq<Byte>): (r: Read)
    requires c.body.Regeneration?
    ensures |r.rest| <= |s|
  {
    if tag == HEALTHTICKS then Take(c, s, 4, (v: nat) => c.(body := c.body.(healthTicks := v)))
    else if tag == HEALTHGAIN then Take(c, s, 4, (v: nat) => c.(body := c.body.(healthGain := v)))
    else if tag == MANATICKS then Take(c, s, 4, (v: nat) => c.(body := c.body.(manaTicks := v)))
    else if tag == MANAGAIN then Take(c, s, 4, (v: nat) => c.(body := c.body.(manaGain := v)))
    else ReadCommon(c, tag, s)
  }

  function ReadSpeed(c: Condition, tag: Byte, s: seq<Byte>): (r: Read)
    requires c.body.Speed?
    ensures |r.rest| <= |s|
  {
    if tag == SPEEDDELTA then Take(c, s, 4, (v: nat) => c.(body := c.body.(delta := Signed(v))))
    else if tag == FORMULA_MINA then Take(c, s, 4, (v: nat) => c.(body := c.body.(mina := v)))
    else if tag == FORMULA_MINB then Take(c, s, 4, (v: nat) => c.(body := c.body.(minb := v)))
    else if tag == FORMULA_MAXA then Take(c, s, 4, (v: nat) => c.(body := c.body.(maxa := v)))
    else if tag == FORMULA_MAXB then Take(c, s, 4, (v: nat) => c.(body := c.body.(maxb := v)))
    else ReadCommon(c, tag, s)
  }

  // Colour and level keep the low byte of what is read.
  function ReadLight(c: Condition, tag: Byte, s: seq<Byte>): (r: Read)
    requires c.body.Light?
    ensures |r.rest| <= |s|
  {
    if tag == LIGHTCOLOR then Take(c, s, 4, (v: nat) => c.(body := c.body.(color := v % 256)))
    else if tag == LIGHTLEVEL then Take(c, s, 4, (v: nat) => c.(body := c.body.(level := v % 256)))
    else if tag == LIGHTTICKS then Take(c, s, 4, (v: nat) => c.(body := c.body.(lightTicks := v)))
    else if tag == LIGHTINTERVAL then Take(c, s, 4, (v: nat) => c.(body := c.body.(lightInterval := v)))
    else ReadCommon(c, tag, s)
  }

  // unserializeProp of each kind of condition.
  function ReadProp(c: Condition, tag: Byte, s: seq<Byte>): (r: Read)
    ensures |r.rest| <= |s|
  {
    match c.body
    case Regeneration(_, _, _, _) => ReadRegeneration(c, tag, s)
    case Speed(_, _, _, _, _) => ReadSpeed(c, tag, s)
    case Light(_, _, _, _) => ReadLight(c, tag, s)
    case Attributes(_, _, _) => ReadAttributes(c, tag, s)
    case Damage(_, _, _) => ReadDamage(c, tag, s)
    case Soul(_, _) =>
      if tag == SOULGAIN then Take(c, s, 4, (v: nat) => c.(body := c.body.(soulGain := v)))
      else if tag == SOULTICKS then Take(c, s, 4, (v: nat) => c.(body := c.body.(soulTicks := v)))
      else ReadCommon(c, tag, s)
    case ManaShield(_) =>
      if tag == MANASHIELD then Take(c, s, 2, (v: nat) => c.(body := ManaShield(v))) else ReadCommon(c, tag, s)
    case Outfit(_) =>
      if tag == OUTFIT then Take(c, s, OUTFIT_SIZE, (v: nat) => c.(body := Outfit(v))) else ReadCommon(c, tag, s)
    case Generic => ReadCommon(c, tag, s)
  }

  // Attributes up to the end mark; a stream that just stops is taken as ended.
  function Unserialized(c: Condition, s: seq<Byte>): (r: Read)
    ensures |r.rest| <= |s|
    decreases |s|
  {
    if s == [] then Read(true, c, s)
    else if s[0] == END then Read(true, c, s[1..])
    else
      var r := ReadProp(c, s[0], s[1..]);
      if r.ok then Unserialized(r.c, r.rest) else r
  }

  // A number behind the tag it must have.
  function TakeTagged(tag: Byte, width: nat, s: seq<Byte>): (r: Option<(nat, seq<Byte>)>)
    ensures r.Some? ==> |r.value.1| < |s|
  {
    if s == [] || s[0] != tag then None else TakeNumber(s[1..], width)
  }

  // The header, and the condition it stands for.
  function Create(s: seq<Byte>): (r: Option<(Condition, seq<Byte>)>)
    ensures r.Some? ==> |r.value.1| < |s|
  {
    match TakeTagged(TYPE, 4, s) case None => None case Some((kind, s1)) =>
    match TakeTagged(ID, 4, s1) case None => None case Some((id, s2)) =>
    match TakeTagged(TICKS, 4, s2) case None => None case Some((ticks, s3)) =>
    match TakeTagged(ISBUFF, 1, s3) case None => None case Some((buff, s4)) =>
    match TakeTagged(SUBID, 4, s4) case None => None case Some((subId, s5)) =>
      match BodyOf(kind)
      case None => None
      case Some(body) =>
        Some((Condition(kind, SignedByte(id), if body.Damage? then 0 else Signed(ticks), buff != 0, subId, body), s5))
  }

  // The stored list of a player: each condition read goes to the front.
  function Load(s: seq<Byte>, list: seq<Condition>): seq<Condition>
    decreases |s|
  {
    match Create(s)
    case None => list
    case Some((c, rest)) =>
      var r := Unserialized(c, rest);
      Load(r.rest, if r.ok then [r.c] + list else list)
  }
}
