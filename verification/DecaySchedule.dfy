/** When an item on the decay wheel is due: the closed form behind the four buckets. */
module DecaySchedule {
  import opened Numbers

  const EVENT_DECAYINTERVAL := 250
  const EVENT_DECAY_BUCKETS := 4
  const PERIOD := EVENT_DECAYINTERVAL * EVENT_DECAY_BUCKETS

  // Checks until the bucket comes round, when `last` was checked last.
  function Distance(bucket: int, last: int): (n: int)
    requires 0 <= bucket < EVENT_DECAY_BUCKETS && 0 <= last < EVENT_DECAY_BUCKETS
    ensures 1 <= n <= EVENT_DECAY_BUCKETS
  {
    if bucket > last then bucket - last else bucket - last + EVENT_DECAY_BUCKETS
  }

  // Checks until an item with duration d in the bucket expires, the last one included.
  function Left(bucket: int, last: int, d: int): (n: int)
    requires 0 <= bucket < EVENT_DECAY_BUCKETS && 0 <= last < EVENT_DECAY_BUCKETS
    ensures n >= 1
  {
    Distance(bucket, last)
    + if d < PERIOD then 0 else 4 * (d / 1000 - 1) + if d % 1000 < 875 then 0 else 1
  }

  function Next(last: int): (b: int)
    requires 0 <= last < EVENT_DECAY_BUCKETS
    ensures 0 <= b < EVENT_DECAY_BUCKETS
  {
    (last + 1) % EVENT_DECAY_BUCKETS
  }

  // An item in another bucket is one check nearer.
  lemma PassedOver(bucket: int, last: int, d: int)
    requires 0 <= bucket < EVENT_DECAY_BUCKETS && 0 <= last < EVENT_DECAY_BUCKETS
    requires bucket != Next(last)
    ensures Left(bucket, last, d) > 1
    ensures Left(bucket, Next(last), d) == Left(bucket, last, d) - 1
  {
  }

  // What a check leaves of a duration.
  function Remaining(d: int): int {
    d - Min(PERIOD, d)
  }

  function Rebucket(bucket: int, rest: int): (b: int)
    requires 0 <= bucket < EVENT_DECAY_BUCKETS && 0 <= rest
    ensures 0 <= b < EVENT_DECAY_BUCKETS
  {
    (bucket + (rest + EVENT_DECAYINTERVAL / 2) / 1000) % EVENT_DECAY_BUCKETS
  }

  // Whether the check of its bucket expires an item.
  predicate ExpiresNow(bucket: int, d: int)
    requires 0 <= bucket < EVENT_DECAY_BUCKETS
  {
    var rest := Remaining(d);
    rest <= 0 || (rest < PERIOD && Rebucket(bucket, rest) == bucket)
  }

  // The check of its own bucket expires an item when one check was left, and otherwise takes
  // one check off.
  lemma Checked(last: int, d: int)
    requires 0 <= last < EVENT_DECAY_BUCKETS
    ensures var b := Next(last); var rest := Remaining(d);
      && (ExpiresNow(b, d) <==> Left(b, last, d) == 1)
      && (!ExpiresNow(b, d) ==>
          Left(if rest < PERIOD then Rebucket(b, rest) else b, b, rest) == Left(b, last, d) - 1)
  {
    var b, rest := Next(last), Remaining(d);
    if PERIOD < d < 2 * PERIOD {
      assert d / 1000 == 1 && d % 1000 == rest;
      assert (rest + 125) / 1000 == if rest < 875 then 0 else 1;
    } else if d >= 2 * PERIOD {
      assert rest / 1000 == d / 1000 - 1 && rest % 1000 == d % 1000;
    }
  }

  // The bucket a new item is put in.
  function FirstBucket(last: int, dur: int): (b: int)
    requires 0 <= last < EVENT_DECAY_BUCKETS && dur >= 0
    ensures 0 <= b < EVENT_DECAY_BUCKETS
  {
    if dur >= PERIOD then last else (last + 1 + dur / 1000) % EVENT_DECAY_BUCKETS
  }

  // The check at which a new item with duration d expires, counted from when it is put in.
  function Due(d: int): int {
    if d < 0 then 4
    else if d < 1000 then 1
    else 4 * (d / 1000) + if d % 1000 < 875 then 0 else 1
  }

  /** The first bucket makes a new item due when it should be; a negative duration, which reads as
      a huge unsigned one when the item is put in, is due at the fourth check. */
  lemma DueIn(last: int, d: int)
    requires 0 <= last < EVENT_DECAY_BUCKETS && -0x8000_0000 <= d < 0x8000_0000
    ensures Left(FirstBucket(last, d % 0x1_0000_0000), last, d) == Due(d)
  {
  }

  /** What the closed form comes to in time: an item that has at least a second decays by the end of its
      duration and less than 875 milliseconds before it; one with less decays at the next check. */
  lemma DueInTime(d: int)
    ensures d >= 1000 ==> 0 <= d - EVENT_DECAYINTERVAL * Due(d) < 875
    ensures 0 <= d < 1000 ==> Due(d) == 1
    ensures d < 0 ==> EVENT_DECAYINTERVAL * Due(d) == 1000
  {
    if d >= 1000 {
      assert d == 1000 * (d / 1000) + d % 1000;
    }
  }
}
