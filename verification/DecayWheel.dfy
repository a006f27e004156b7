/** The decay wheel: four buckets checked in turn, and the references it holds. */
module DecayWheel {
  import opened Numbers
  import opened Options
  import opened Sequences
  import opened Bytes
  import opened DecayFiling
  import opened DecaySchedule

  class Item {
    var duration: int
    var canDecay: bool
    var decaying: bool
    var references: int

    // The duration as the unsigned number that getDuration gives.
    function GetDuration(): nat
      reads this
    {
      duration % 0x1_0000_0000
    }
  }

  // An item handed over to decay: when due, by the wheel, or at once because it had no time left.
  datatype Decay = Decay(item: Item, due: bool)

  // The items that decayed when due, as often as they did.
  function Fired(log: seq<Decay>): multiset<Item> {
    if log == [] then multiset{}
    else
      var d := log[|log| - 1];
      Fired(log[..|log| - 1]) + if d.due then multiset{d.item} else multiset{}
  }

  ghost predicate Logged(log: seq<Decay>, i: Item) {
    exists k :: 0 <= k < |log| && log[k].item == i
  }

  lemma {:induction false} FiredOfBoth(a: seq<Decay>, b: seq<Decay>)
    ensures Fired(a + b) == Fired(a) + Fired(b)
  {
    if b == [] {
      assert a + b == a;
    } else {
      assert (a + b)[..|a + b| - 1] == a + b[..|b| - 1];
      FiredOfBoth(a, b[..|b| - 1]);
    }
  }

  lemma LoggedInBoth(a: seq<Decay>, b: seq<Decay>, i: Item)
    ensures Logged(a + b, i) <==> Logged(a, i) || Logged(b, i)
  {
    if k :| 0 <= k < |a| && a[k].item == i {
      assert (a + b)[k].item == i;
    } else if k :| 0 <= k < |b| && b[k].item == i {
      assert (a + b)[|a| + k].item == i;
    }
  }

  lemma {:induction false} FiredIsLogged(log: seq<Decay>, i: Item)
    requires !Logged(log, i)
    ensures Fired(log)[i] == 0
  {
    if log != [] {
      var n := |log| - 1;
      assert log[n].item != i && forall k | 0 <= k < n :: log[..n][k] == log[k];
      FiredIsLogged(log[..n], i);
    }
  }

  // Nothing decayed when due, and what decayed at once was not on the wheel.
  ghost predicate AtOnce(a: Standing, log: seq<Decay>) {
    forall k | 0 <= k < |log| :: !log[k].due && log[k].item in a.slots && a.slots[log[k].item] == OUT
  }

  ghost predicate GrowsAtOnce(was: seq<Decay>, now: seq<Decay>, a: Standing) {
    was <= now && AtOnce(a, now[|was|..])
  }

  lemma GrowsTwice(was: seq<Decay>, mid: seq<Decay>, now: seq<Decay>, a: Standing, b: Standing)
    requires GrowsAtOnce(was, mid, a) && Undisturbed(a, b) && GrowsAtOnce(mid, now, b)
    ensures GrowsAtOnce(was, now, a)
  {
    var log := now[|was|..];
    forall k | 0 <= k < |log| ensures !log[k].due && log[k].item in a.slots && a.slots[log[k].item] == OUT {
      if |was| + k < |mid| {
        assert log[k] == mid[|was|..][k];
      } else {
        assert log[k] == now[|mid|..][|was| + k - |mid|];
        assert StaysPut(a, b, log[k].item);
      }
    }
  }

  lemma {:induction false} NoneFired(a: Standing, log: seq<Decay>)
    requires AtOnce(a, log)
    ensures Fired(log) == multiset{}
  {
    if log != [] {
      NoneFired(a, log[..|log| - 1]);
    }
  }

  // Where the items are, how long they last, which cannot decay, and how often each was made so.
  datatype Standing = Standing(slots: map<Item, int>, durations: map<Item, int>, spoilt: set<Item>,
                               spoilings: multiset<Item>)

  // An item that has not left the wheel cannot decay exactly when it could not, or was spoilt since.
  ghost predicate SpoiltSince(a: Standing, b: Standing, i: Item) {
    i in b.spoilt <==> i in a.spoilt || b.spoilings[i] > a.spoilings[i]
  }

  // An item that was put on the wheel since could decay then.
  ghost predicate SoundIfNew(a: Standing, b: Standing, i: Item) {
    b.spoilings[i] == a.spoilings[i] ==> i !in b.spoilt
  }

  // What cleaning up does: each new item goes to its first bucket.
  ghost predicate Settled(a: Standing, b: Standing, last: int)
    requires 0 <= last < EVENT_DECAY_BUCKETS
  {
    && a.slots.Keys == a.durations.Keys == b.slots.Keys == b.durations.Keys
    && a.spoilt == b.spoilt && a.spoilings == b.spoilings && a.durations == b.durations
    && forall i {:trigger SettledAt(a, b, last, i)} | i in a.slots :: SettledAt(a, b, last, i)
  }

  ghost predicate SettledAt(a: Standing, b: Standing, last: int, i: Item)
    requires 0 <= last < EVENT_DECAY_BUCKETS && i in a.slots && i in b.slots && i in a.durations
  {
    b.slots[i] == if a.slots[i] == NEW then FirstBucket(last, a.durations[i] % 0x1_0000_0000) else a.slots[i]
  }

  // What is on the wheel stays where it is and as it is; only new items join.
  ghost predicate Undisturbed(a: Standing, b: Standing) {
    && a.slots.Keys == a.durations.Keys == b.slots.Keys == b.durations.Keys
    && a.spoilings <= b.spoilings
    && forall i {:trigger StaysPut(a, b, i)} | i in a.slots :: StaysPut(a, b, i)
  }

  ghost predicate StaysPut(a: Standing, b: Standing, i: Item)
    requires a.slots.Keys == a.durations.Keys == b.slots.Keys == b.durations.Keys && i in a.slots
  {
    if a.slots[i] == OUT then Anew(a, b, i)
    else b.slots[i] == a.slots[i] && b.durations[i] == a.durations[i] && SpoiltSince(a, b, i)
  }

  // Off the wheel, or queued since.
  ghost predicate Anew(a: Standing, b: Standing, i: Item)
    requires i in b.slots
  {
    b.slots[i] == OUT || (b.slots[i] == NEW && SoundIfNew(a, b, i))
  }

  lemma UndisturbedTwice(a: Standing, b: Standing, c: Standing)
    requires Undisturbed(a, b) && Undisturbed(b, c)
    ensures Undisturbed(a, c)
  {
    forall i | i in a.slots ensures StaysPut(a, c, i) {
      assert StaysPut(a, b, i) && StaysPut(b, c, i);
    }
  }

  // New attributes for an item that is not on the wheel.
  lemma RenewedAside(a: Standing, b: Standing, i: Item)
    requires a.slots.Keys == a.durations.Keys == b.durations.Keys && i in a.slots && a.slots[i] == OUT
    requires b == a.(durations := b.durations, spoilt := b.spoilt)
    requires forall j | j in a.slots && j != i :: b.durations[j] == a.durations[j]
    requires forall j | j != i :: j in b.spoilt <==> j in a.spoilt
    ensures Undisturbed(a, b)
  {
    forall j | j in a.slots ensures StaysPut(a, b, j) {
    }
  }

  ghost predicate OthersStay(a: Standing, b: Standing, x: Item) {
    && a.slots.Keys == a.durations.Keys == b.slots.Keys == b.durations.Keys && x in a.slots
    && a.spoilings <= b.spoilings
    && forall i {:trigger StaysPut(a, b, i)} | i in a.slots && i != x :: StaysPut(a, b, i)
  }

  // Of the items on the wheel only x may have decayed.
  ghost predicate Quiet(a: Standing, x: Item, log: seq<Decay>) {
    forall i {:trigger Logged(log, i)} | i in a.slots && i != x && a.slots[i] != OUT :: !Logged(log, i)
  }

  // x decayed when due, once; it is off the wheel, unless a script started it anew.
  ghost predicate ItemExpired(a: Standing, b: Standing, x: Item, log: seq<Decay>) {
    && OthersStay(a, b, x) && Quiet(a, x, log)
    && Fired(log) == multiset{x} && Anew(a, b, x)
  }

  lemma ExpiredAside(a: Standing, m: Standing, b: Standing, x: Item, was: seq<Decay>, now: seq<Decay>)
    returns (log: seq<Decay>)
    requires a.slots.Keys == a.durations.Keys && x in a.slots
    requires m == a.(slots := a.slots[x := OUT]) && Undisturbed(m, b)
    requires GrowsAtOnce(was + [Decay(x, true)], now, m)
    ensures now == was + log && ItemExpired(a, b, x, log)
  {
    log := now[|was|..];
    assert log[0] == (was + [Decay(x, true)])[|was|] && log[1..] == now[|was| + 1..];
    forall i | i in a.slots && i != x ensures StaysPut(a, b, i) {
      assert StaysPut(m, b, i);
    }
    assert StaysPut(m, b, x);
    var head, rest := [log[0]], log[1..];
    assert log == head + rest && head[..0] == [];
    FiredOfBoth(head, rest);
    NoneFired(m, rest);
    forall i | i in a.slots && i != x && a.slots[i] != OUT ensures !Logged(log, i) {
      LoggedInBoth(head, rest, i);
    }
  }

  // What checking the item x of a bucket does. An item that cannot decay is dropped: it gives up its
  // reference and does not decay. Any other expires, or stays for a later check. Nothing else on the
  // wheel moves or decays.
  ghost predicate ItemChecked(a: Standing, b: Standing, bucket: int, x: Item, log: seq<Decay>, freed: multiset<Item>)
    requires 0 <= bucket < EVENT_DECAY_BUCKETS
  {
    OthersStay(a, b, x) && Quiet(a, x, log) && HadItsTurn(a, b, bucket, x, log, freed)
  }

  ghost predicate HadItsTurn(a: Standing, b: Standing, bucket: int, x: Item, log: seq<Decay>, freed: multiset<Item>)
    requires 0 <= bucket < EVENT_DECAY_BUCKETS
    requires a.slots.Keys == a.durations.Keys == b.slots.Keys == b.durations.Keys && x in a.slots
  {
    var d := a.durations[x];
    var rest := Remaining(d);
    if x in a.spoilt then
      log == [] && freed == multiset{x} && b.slots[x] == OUT
    else if ExpiresNow(bucket, d) then
      Fired(log) == multiset{x} && freed == multiset{x} && Anew(a, b, x)
    else
      && log == [] && freed == multiset{} && SpoiltSince(a, b, x)
      && b.durations[x] == rest && b.slots[x] == if rest < PERIOD then Rebucket(bucket, rest) else bucket
  }

  lemma CheckedDropped(a: Standing, b: Standing, bucket: int, x: Item)
    requires 0 <= bucket < EVENT_DECAY_BUCKETS && a.slots.Keys == a.durations.Keys && x in a.slots
    requires x in a.spoilt && b == a.(slots := a.slots[x := OUT])
    ensures ItemChecked(a, b, bucket, x, [], multiset{x})
  {
  }

  lemma CheckedFired(a: Standing, m: Standing, b: Standing, bucket: int, x: Item, log: seq<Decay>)
    requires 0 <= bucket < EVENT_DECAY_BUCKETS && a.slots.Keys == a.durations.Keys && x in a.slots
    requires m == a.(durations := a.durations[x := Remaining(a.durations[x])])
    requires x !in a.spoilt && ItemExpired(m, b, x, log) && ExpiresNow(bucket, a.durations[x])
    ensures ItemChecked(a, b, bucket, x, log, multiset{x})
  {
    forall i | i in a.slots && i != x ensures StaysPut(a, b, i) {
      assert StaysPut(m, b, i);
    }
  }

  lemma CheckedKept(a: Standing, b: Standing, bucket: int, x: Item)
    requires 0 <= bucket < EVENT_DECAY_BUCKETS && a.slots.Keys == a.durations.Keys && x in a.slots
    requires x !in a.spoilt && !ExpiresNow(bucket, a.durations[x])
    requires var rest := Remaining(a.durations[x]);
      b == a.(slots := a.slots[x := if rest < PERIOD then Rebucket(bucket, rest) else bucket],
              durations := a.durations[x := rest])
    ensures ItemChecked(a, b, bucket, x, [], multiset{})
  {
  }

  // The state of a check: the first j items of the bucket, whose items were `orig`, are done.
  ghost predicate Progress(a: Standing, now: Standing, last: int, orig: seq<Item>, j: nat, log: seq<Decay>,
                           freed: multiset<Item>)
    requires 0 <= last < EVENT_DECAY_BUCKETS && j <= |orig|
  {
    && a.slots.Keys == a.durations.Keys == now.slots.Keys == now.durations.Keys && a.spoilings <= now.spoilings
    && (forall i | i in Fired(log) :: i in orig[..j] && LastCheck(a, last, i) && Fired(log)[i] == 1)
    && (forall i | i in orig[j..] :: i in a.slots && now.slots[i] == a.slots[i] == Next(last))
    && forall i {:trigger ProgressAt(a, now, last, orig, j, log, freed, i)} | i in a.slots && a.slots[i] != OUT ::
         ProgressAt(a, now, last, orig, j, log, freed, i)
  }

  // One check is left for the item, which can decay.
  ghost predicate LastCheck(a: Standing, last: int, i: Item)
    requires 0 <= last < EVENT_DECAY_BUCKETS
  {
    Awaits(a, last, i, 1) && i !in a.spoilt
  }

  // The item is in a bucket and has n checks left.
  ghost predicate Awaits(a: Standing, last: int, i: Item, n: int)
    requires 0 <= last < EVENT_DECAY_BUCKETS
  {
    i in a.slots && i in a.durations && 0 <= a.slots[i] < NEW && Left(a.slots[i], last, a.durations[i]) == n
  }

  ghost predicate Untouched(a: Standing, now: Standing, log: seq<Decay>, freed: multiset<Item>, i: Item)
    requires i in a.slots && a.slots.Keys == a.durations.Keys == now.slots.Keys == now.durations.Keys
  {
    && now.slots[i] == a.slots[i] && now.durations[i] == a.durations[i] && SpoiltSince(a, now, i)
    && !Logged(log, i) && freed[i] == 0
  }

  // The item gave up its reference, and decayed so often when due.
  ghost predicate Parted(log: seq<Decay>, freed: multiset<Item>, i: Item, times: nat) {
    Fired(log)[i] == times && freed[i] == 1
  }

  // What becomes of an item of the bucket: dropped when it cannot decay or was spoilt before its turn,
  // decayed on its last check, and one check nearer otherwise.
  ghost predicate Handled(a: Standing, now: Standing, last: int, log: seq<Decay>, freed: multiset<Item>, i: Item,
                          left: bool)
    requires 0 <= last < EVENT_DECAY_BUCKETS && i in a.slots && i in a.durations && 0 <= a.slots[i] < NEW
  {
    var n := Left(a.slots[i], last, a.durations[i]);
    if i in a.spoilt then left && Parted(log, freed, i, 0)
    else
      || (if n == 1 then left && Parted(log, freed, i, 1)
          else !Logged(log, i) && freed[i] == 0 && SpoiltSince(a, now, i) && Awaits(now, Next(last), i, n - 1))
      || (now.spoilings[i] > a.spoilings[i] && left && Parted(log, freed, i, 0))
  }

  ghost predicate ProgressAt(a: Standing, now: Standing, last: int, orig: seq<Item>, j: nat, log: seq<Decay>,
                             freed: multiset<Item>, i: Item)
    requires 0 <= last < EVENT_DECAY_BUCKETS && j <= |orig| && i in a.slots && a.slots[i] != OUT
    requires a.slots.Keys == a.durations.Keys == now.slots.Keys == now.durations.Keys
  {
    if i !in orig[..j] then Untouched(a, now, log, freed, i)
    else 0 <= a.slots[i] < NEW && Handled(a, now, last, log, freed, i, Anew(a, now, i))
  }

  // What its turn means for an item that nothing had happened to.
  lemma TurnHandles(a: Standing, was: Standing, now: Standing, last: int, log: seq<Decay>, freed: multiset<Item>,
                    more: seq<Decay>, gone: multiset<Item>, x: Item)
    requires 0 <= last < EVENT_DECAY_BUCKETS && x in a.slots && a.slots[x] == Next(last)
    requires a.slots.Keys == a.durations.Keys == was.slots.Keys == was.durations.Keys
    requires now.slots.Keys == now.durations.Keys == a.slots.Keys && a.spoilings <= was.spoilings <= now.spoilings
    requires Untouched(a, was, log, freed, x) && HadItsTurn(was, now, Next(last), x, more, gone)
    ensures Fired(log)[x] == 0 && (x in Fired(more) ==> LastCheck(a, last, x))
    ensures Handled(a, now, last, log + more, freed + gone, x, Anew(a, now, x))
  {
    FiredOfBoth(log, more);
    Checked(last, a.durations[x]);
    FiredIsLogged(log, x);
    LoggedInBoth(log, more, x);
  }

  // What a step of the loop means for the item checked ...
  lemma ProgressHere(a: Standing, was: Standing, now: Standing, last: int, orig: seq<Item>, j: nat,
                     log: seq<Decay>, freed: multiset<Item>, more: seq<Decay>, gone: multiset<Item>)
    requires 0 <= last < EVENT_DECAY_BUCKETS && j < |orig| && NoDup(orig)
    requires Progress(a, was, last, orig, j, log, freed)
    requires ItemChecked(was, now, Next(last), orig[j], more, gone)
    ensures var x := orig[j];
      && x in a.slots && 0 <= a.slots[x] < NEW && Fired(log)[x] == 0 && (x in Fired(more) ==> LastCheck(a, last, x))
      && ProgressAt(a, now, last, orig, j + 1, log + more, freed + gone, x)
  {
    var x := orig[j];
    assert orig[..j + 1] == orig[..j] + [x] && x !in orig[..j];
    assert x in orig[j..] && ProgressAt(a, was, last, orig, j, log, freed, x);
    TurnHandles(a, was, now, last, log, freed, more, gone, x);
  }

  // ... and for any other, which stays put and neither fires nor gives up a reference.
  lemma ProgressOf(a: Standing, was: Standing, now: Standing, last: int, orig: seq<Item>, j: nat,
                   log: seq<Decay>, freed: multiset<Item>, more: seq<Decay>, gone: multiset<Item>, i: Item)
    requires 0 <= last < EVENT_DECAY_BUCKETS && j < |orig| && i in a.slots && a.slots[i] != OUT && i != orig[j]
    requires a.slots.Keys == a.durations.Keys == was.slots.Keys == was.durations.Keys
    requires now.slots.Keys == now.durations.Keys == a.slots.Keys
    requires a.spoilings <= was.spoilings <= now.spoilings && ProgressAt(a, was, last, orig, j, log, freed, i)
    requires StaysPut(was, now, i) && Fired(more)[i] == 0 && gone[i] == 0
    requires was.slots[i] != OUT ==> !Logged(more, i)
    ensures ProgressAt(a, now, last, orig, j + 1, log + more, freed + gone, i)
  {
    FiredOfBoth(log, more);
    LoggedInBoth(log, more, i);
    assert orig[..j + 1] == orig[..j] + [orig[j]];
  }

  lemma ProgressThere(a: Standing, was: Standing, now: Standing, last: int, orig: seq<Item>, j: nat,
                      log: seq<Decay>, freed: multiset<Item>, more: seq<Decay>, gone: multiset<Item>, i: Item)
    requires 0 <= last < EVENT_DECAY_BUCKETS && j < |orig|
    requires Progress(a, was, last, orig, j, log, freed)
    requires ItemChecked(was, now, Next(last), orig[j], more, gone)
    requires i in a.slots && a.slots[i] != OUT && i != orig[j]
    ensures ProgressAt(a, now, last, orig, j + 1, log + more, freed + gone, i)
  {
    assert Fired(more) == multiset{} || Fired(more) == multiset{orig[j]};
    assert ProgressAt(a, was, last, orig, j, log, freed, i) && StaysPut(was, now, i);
    ProgressOf(a, was, now, last, orig, j, log, freed, more, gone, i);
  }

  // Only the item checked can have fired.
  lemma ProgressFired(a: Standing, was: Standing, now: Standing, last: int, orig: seq<Item>, j: nat,
                      log: seq<Decay>, freed: multiset<Item>, more: seq<Decay>, gone: multiset<Item>)
    requires 0 <= last < EVENT_DECAY_BUCKETS && j < |orig| && NoDup(orig)
    requires Progress(a, was, last, orig, j, log, freed)
    requires ItemChecked(was, now, Next(last), orig[j], more, gone)
    ensures forall i | i in Fired(log + more) ::
      i in orig[..j + 1] && LastCheck(a, last, i) && Fired(log + more)[i] == 1
  {
    var x := orig[j];
    FiredOfBoth(log, more);
    ProgressHere(a, was, now, last, orig, j, log, freed, more, gone);
    assert orig[..j + 1] == orig[..j] + [x];
    assert Fired(more) == multiset{} || Fired(more) == multiset{x};
  }

  // The items to come are still in the bucket.
  lemma ProgressRest(a: Standing, was: Standing, now: Standing, last: int, orig: seq<Item>, j: nat,
                     log: seq<Decay>, freed: multiset<Item>, more: seq<Decay>, gone: multiset<Item>)
    requires 0 <= last < EVENT_DECAY_BUCKETS && j < |orig| && NoDup(orig)
    requires Progress(a, was, last, orig, j, log, freed)
    requires ItemChecked(was, now, Next(last), orig[j], more, gone)
    ensures forall i | i in orig[j + 1..] :: i in a.slots && now.slots[i] == a.slots[i] == Next(last)
  {
    assert orig[j..] == [orig[j]] + orig[j + 1..] && orig[j] !in orig[j + 1..];
    forall i | i in orig[j + 1..] ensures i in a.slots && now.slots[i] == a.slots[i] == Next(last) {
      assert i in orig[j..] && StaysPut(was, now, i);
    }
  }

  lemma ProgressStep(a: Standing, was: Standing, now: Standing, last: int, orig: seq<Item>, j: nat,
                     log: seq<Decay>, freed: multiset<Item>, more: seq<Decay>, gone: multiset<Item>)
    requires 0 <= last < EVENT_DECAY_BUCKETS && j < |orig| && NoDup(orig)
    requires Progress(a, was, last, orig, j, log, freed)
    requires ItemChecked(was, now, Next(last), orig[j], more, gone)
    ensures Progress(a, now, last, orig, j + 1, log + more, freed + gone)
  {
    ProgressFired(a, was, now, last, orig, j, log, freed, more, gone);
    ProgressRest(a, was, now, last, orig, j, log, freed, more, gone);
    forall i | i in a.slots && a.slots[i] != OUT
      ensures ProgressAt(a, now, last, orig, j + 1, log + more, freed + gone, i)
    {
      if i == orig[j] {
        ProgressHere(a, was, now, last, orig, j, log, freed, more, gone);
      } else {
        ProgressThere(a, was, now, last, orig, j, log, freed, more, gone, i);
      }
    }
  }

  lemma ProgressStart(a: Standing, last: int, ls: seq<seq<Item>>)
    requires 0 <= last < EVENT_DECAY_BUCKETS && a.slots.Keys == a.durations.Keys && Filed(ls, a.slots)
    ensures NoDup(ls[Next(last)])
    ensures Progress(a, a, last, ls[Next(last)], 0, [], multiset{})
  {
    assert ListFiled(ls, a.slots, Next(last));
  }

  // Off the wheel, or put in since.
  ghost predicate PutInAnew(a: Standing, b: Standing, last: int, i: Item)
    requires 0 <= last < EVENT_DECAY_BUCKETS && i in b.slots && i in b.durations
  {
    || b.slots[i] == OUT
    || (b.slots[i] == FirstBucket(last, b.durations[i] % 0x1_0000_0000) && SoundIfNew(a, b, i))
  }

  // What one check does to an item of the wheel. A new one is put in; one in another bucket is one
  // check nearer. In the bucket that is checked, one that cannot decay is dropped: it gives up its one
  // reference and does not decay. Of the others one on its last check decays, once, and gives up its
  // one reference, and any other has one check less. Who left is off the wheel, or put in anew.
  ghost predicate Ticked(a: Standing, b: Standing, last: int, log: seq<Decay>, freed: multiset<Item>, i: Item)
    requires 0 <= last < EVENT_DECAY_BUCKETS && i in a.slots
    requires a.slots.Keys == a.durations.Keys == b.slots.Keys == b.durations.Keys
  {
    if a.slots[i] == NEW then
      && !Logged(log, i) && freed[i] == 0 && b.durations[i] == a.durations[i] && SpoiltSince(a, b, i)
      && b.slots[i] == FirstBucket(Next(last), a.durations[i] % 0x1_0000_0000)
    else
      && 0 <= a.slots[i] < NEW
      && if a.slots[i] == Next(last) then Handled(a, b, last, log, freed, i, PutInAnew(a, b, Next(last), i))
         else Untouched(a, b, log, freed, i) && Awaits(b, Next(last), i, Left(a.slots[i], last, a.durations[i]) - 1)
  }

  ghost predicate CheckTick(a: Standing, b: Standing, last: int, log: seq<Decay>, freed: multiset<Item>)
    requires 0 <= last < EVENT_DECAY_BUCKETS
  {
    && a.slots.Keys == a.durations.Keys == b.slots.Keys == b.durations.Keys && a.spoilings <= b.spoilings
    && (forall i | i in Fired(log) :: LastCheck(a, last, i) && Fired(log)[i] == 1)
    && forall i {:trigger Ticked(a, b, last, log, freed, i)} | i in a.slots && a.slots[i] != OUT ::
         Ticked(a, b, last, log, freed, i)
  }

  // With the bucket done and the new items put in, the whole wheel has ticked.
  lemma ProgressEnd(a: Standing, b: Standing, c: Standing, last: int, ls: seq<seq<Item>>, orig: seq<Item>,
                    log: seq<Decay>, freed: multiset<Item>)
    requires 0 <= last < EVENT_DECAY_BUCKETS && Filed(ls, a.slots) && orig == ls[Next(last)]
    requires Progress(a, b, last, orig, |orig|, log, freed)
    requires Settled(b, c, Next(last))
    ensures CheckTick(a, c, last, log, freed)
  {
    assert orig[..|orig|] == orig;
    assert ListFiled(ls, a.slots, Next(last));
    forall i | i in a.slots && a.slots[i] != OUT ensures Ticked(a, c, last, log, freed, i) {
      assert ProgressAt(a, b, last, orig, |orig|, log, freed, i) && SettledAt(b, c, Next(last), i);
      assert ItemFiled(ls, a.slots, i);
      if a.slots[i] != NEW && a.slots[i] != Next(last) {
        PassedOver(a.slots[i], last, a.durations[i]);
      }
    }
  }

  // What is left of the bucket from `it` on is what is left of the original from j on.
  ghost predicate SameRest(s: seq<Item>, it: nat, orig: seq<Item>, j: nat) {
    it <= |s| && j <= |orig| && s[it..] == orig[j..]
  }

  lemma NextInRest(s: seq<Item>, it: nat, orig: seq<Item>, j: nat)
    requires it < |s| && SameRest(s, it, orig, j)
    ensures j < |orig| && s[it] == orig[j] && SameRest(s, it + 1, orig, j + 1)
  {
  }

  lemma DroppedTail(s: seq<Item>, k: nat)
    requires k < |s|
    ensures DropAt(s, k)[k..] == s[k + 1..]
  {
  }

  class Wheel {
    var decayItems: seq<seq<Item>>
    var toDecayItems: seq<Item>
    var lastBucket: nat
    var ToReleaseItems: seq<Item>

    const world: set<Item>
    // The items that no script makes unable to decay while they are on the wheel.
    const safe: set<Item>
    // Where each item is and how long it lasts, what holds references to it beside the wheel, the
    // item that has left its list and still has its reference, the items that cannot decay, and how
    // often each was made unable to.
    ghost var slots: map<Item, int>
    ghost var durations: map<Item, int>
    ghost const others: map<Item, int>
    ghost var firing: Option<Item>
    ghost var spoilt: set<Item>
    ghost var spoilings: multiset<Item>
    // Every item that was handed over to decay, and every reference that was given up, in order.
    ghost var decayed: seq<Decay>
    ghost var released: seq<Item>

    /** An empty wheel over a world of items; `others` counts the references it does not hold. */
    constructor (world: set<Item>, safe: set<Item>, ghost others: map<Item, int>)
      requires others.Keys == world
      requires forall i | i in world :: IsInt32(i.duration) && i.references == others[i]
      ensures Valid() && firing == None && this.world == world && this.safe == safe
      ensures decayed == [] && released == [] && spoilings == multiset{}
      ensures decayItems == [[], [], [], []] && toDecayItems == [] && ToReleaseItems == []
    {
      this.world, this.safe, this.others := world, safe, others;
      decayItems, toDecayItems, lastBucket, ToReleaseItems := [[], [], [], []], [], 0, [];
      slots, durations := map i | i in world :: OUT, map i | i in world :: i.duration;
      firing, spoilt, spoilings := None, set i | i in world && !i.canDecay, multiset{};
      decayed, released := [], [];
      new;
      forall i | i in world ensures Kept(i) && ItemFiled(decayItems + [toDecayItems], slots, i) {
      }
    }

    ghost predicate Valid()
      reads this, world
    {
      && Shape()
      && forall i {:trigger Kept(i)} | i in world :: Kept(i)
    }

    ghost predicate Shape()
      reads this
    {
      && |decayItems| == EVENT_DECAY_BUCKETS && lastBucket < EVENT_DECAY_BUCKETS
      && slots.Keys == world && durations.Keys == world && others.Keys == world
      && Filed(decayItems + [toDecayItems], slots)
      && (forall i | i in ToReleaseItems :: i in world)
      && (firing.Some? ==> firing.value in world)
    }

    // The wheel's references to an item: one while it is in a list, one while it is being
    // expired, and one for every release still to be carried out.
    ghost function Held(i: Item): nat
      requires i in slots
      reads this
    {
      (if slots[i] == OUT then 0 else 1) + (if firing == Some(i) then 1 else 0) + multiset(ToReleaseItems)[i]
    }

    ghost predicate Kept(i: Item)
      requires i in slots && i in others && i in durations
      reads this, i
    {
      && IsInt32(i.duration) && i.duration == durations[i] && (i in spoilt <==> !i.canDecay)
      && (slots[i] != OUT ==> i.decaying)
      && (i in safe ==> spoilings[i] == 0 && (slots[i] != OUT ==> i.canDecay))
      && i.references == others[i] + Held(i)
    }

    ghost function Now(): Standing
      reads this
    {
      Standing(slots, durations, spoilt, spoilings)
    }

    // The references given up, or about to be.
    ghost function Gone(): multiset<Item>
      reads this
    {
      multiset(released) + multiset(ToReleaseItems)
    }

    ghost function Record(check: bool): Moment
      reads this, world
    {
      Moment(Now(), lastBucket, decayed, Gone(),
             (set i | i in world && i.canDecay && !i.decaying && i.GetDuration() > 0), check)
    }

    lemma IsProper(check: bool)
      requires Valid()
      ensures Record(check).Proper()
    {
      forall i | i in durations ensures IsInt32(durations[i]) {
        assert Kept(i);
      }
    }

    lemma IsGuarded(check: bool)
      requires Valid()
      ensures Guarded(Record(check), safe)
    {
      forall i | i in safe && i in slots ensures spoilings[i] == 0 && (slots[i] != OUT ==> i !in spoilt) {
        assert Kept(i);
      }
    }

    // The lists after a new item went to the front of toDecayItems.
    lemma PushedFront(item: Item)
      requires Shape() && item in world && slots[item] == OUT
      ensures Filed(decayItems + [[item] + toDecayItems], slots[item := NEW])
    {
      var ls := decayItems + [toDecayItems];
      FileIn(ls, slots, NEW, item, [item] + toDecayItems);
      assert ls[NEW := [item] + toDecayItems] == decayItems + [[item] + toDecayItems];
    }

    // Takes a reference and queues the item, when it may decay, is not decaying and has time left.
    method Enlist(item: Item)
      requires Valid() && item in world
      requires item.canDecay && !item.decaying && item.GetDuration() > 0
      modifies this`toDecayItems, this`slots, item
      ensures Valid() && toDecayItems == [item] + old(toDecayItems)
      ensures old(slots[item]) == OUT && slots == old(slots)[item := NEW]
      ensures Undisturbed(old(Now()), Now())
    {
      assert Kept(item);
      PushedFront(item);
      item.references := item.references + 1;
      item.decaying := true;
      toDecayItems := [item] + toDecayItems;
      slots := slots[item := NEW];
      forall i | i in world ensures Kept(i) {
        assert old(Kept(i));
      }
    }

    /** `chain` bounds how many items may decay at once, each started by the one before. */
    method StartDecay(item: Item?, chain: nat)
      requires Valid() && (item != null ==> item in world)
      modifies this`toDecayItems, this`slots, this`durations, this`spoilt, this`spoilings, this`decayed, world
      ensures Valid()
      ensures item != null && old(item.canDecay && !item.decaying && item.GetDuration() > 0) ==>
        && old(slots[item]) == OUT && slots == old(slots)[item := NEW] && toDecayItems == [item] + old(toDecayItems)
        && decayed == old(decayed) && durations == old(durations) && item !in spoilt && spoilings == old(spoilings)
      ensures item != null && old(item.canDecay && !item.decaying && item.GetDuration() == 0) ==>
        old(slots[item]) == OUT && old(decayed) + [Decay(item, false)] <= decayed
      ensures Undisturbed(old(Now()), Now()) && GrowsAtOnce(old(decayed), decayed, old(Now()))
      ensures item == null || old(!item.canDecay || item.decaying) ==>
        && toDecayItems == old(toDecayItems) && Now() == old(Now()) && decayed == old(decayed)
        && forall i | i in world :: unchanged(i)
      decreases chain, 2
    {
      if item == null || !item.canDecay {
        return;
      }
      assert Kept(item);
      if item.decaying {
        return;
      }
      if item.GetDuration() > 0 {
        Enlist(item);
      } else {
        InternalDecayItem(item, chain, false);
      }
    }

    // Transforms or removes an item: it is handed over to decay. What scripts then do is arbitrary,
    // but for the wheel: they may make any item that is not safe unable to decay, give new attributes
    // to items that are not on the wheel, and start the decay of others, the transformed item among
    // them. Items on the wheel keep their place and their duration.
    method InternalDecayItem(item: Item, chain: nat, ghost due: bool)
      requires Valid() && item in world && slots[item] == OUT
      modifies this`toDecayItems, this`slots, this`durations, this`spoilt, this`spoilings, this`decayed, world
      ensures Valid() && Undisturbed(old(Now()), Now())
      ensures GrowsAtOnce(old(decayed) + [Decay(item, due)], decayed, old(Now()))
      decreases chain, 1
    {
      HandOver(item, due);
      ghost var mark := decayed;
      assert GrowsAtOnce(mark, decayed, old(Now()));
      var n: nat :| 0 <= n;
      for k := 0 to n
        invariant Valid() && Undisturbed(old(Now()), Now()) && GrowsAtOnce(mark, decayed, old(Now()))
      {
        ghost var was, log := Now(), decayed;
        AnyScript(chain);
        UndisturbedTwice(old(Now()), was, Now());
        GrowsTwice(mark, log, decayed, old(Now()), was);
      }
    }

    ghost method HandOver(item: Item, due: bool)
      requires Valid() && item in world && slots[item] == OUT
      modifies this`decayed
      ensures Valid() && decayed == old(decayed) + [Decay(item, due)]
    {
      decayed := decayed + [Decay(item, due)];
      forall i | i in world ensures Kept(i) {
        assert old(Kept(i));
      }
    }

    // One thing that a script may do.
    method AnyScript(chain: nat)
      requires Valid()
      modifies this`toDecayItems, this`slots, this`durations, this`spoilt, this`spoilings, this`decayed, world
      ensures Valid() && Undisturbed(old(Now()), Now()) && GrowsAtOnce(old(decayed), decayed, old(Now()))
      decreases chain, 0
    {
      var any: Item?, action: int, duration: int, able: bool := *, *, *, *;
      if any == null || any !in world {
        return;
      }
      assert Kept(any);
      if action == 0 && any !in safe {
        Spoil(any);
      } else if action == 1 && IsInt32(duration) {
        Renew(any, duration, able);
      } else if chain > 0 {
        StartDecay(any, chain - 1);
      } else if any.canDecay && !any.decaying && any.GetDuration() > 0 {
        Enlist(any);
      }
    }

    // The only way in which an item on the wheel becomes unable to decay.
    method Spoil(i: Item)
      requires Valid() && i in world && i !in safe
      modifies i`canDecay, this`spoilt, this`spoilings
      ensures Valid() && Undisturbed(old(Now()), Now()) && !i.canDecay
      ensures Now() == old(Now()).(spoilt := old(spoilt) + {i}, spoilings := old(spoilings) + multiset{i})
    {
      assert Kept(i);
      i.canDecay := false;
      spoilt := spoilt + {i};
      spoilings := spoilings + multiset{i};
      forall j | j in world ensures Kept(j) {
        assert old(Kept(j));
      }
    }

    method IsListed(i: Item) returns (listed: bool)
      requires Valid() && i in world
      ensures !listed ==> slots[i] == OUT
    {
      listed := i in toDecayItems || exists k :: 0 <= k < |decayItems| && i in decayItems[k];
      assert ItemFiled(decayItems + [toDecayItems], slots, i);
    }

    method Renew(i: Item, duration: int, able: bool)
      requires Valid() && i in world && IsInt32(duration)
      modifies i, this`durations, this`spoilt
      ensures Valid() && Undisturbed(old(Now()), Now())
    {
      assert Kept(i);
      var listed := IsListed(i);
      if listed {
        return;
      }
      SetDuration(i, duration);
      SetAble(i, able);
      StopDecaying(i);
      RenewedAside(old(Now()), Now(), i);
    }

    method SetAble(i: Item, able: bool)
      requires Valid() && i in world && slots[i] == OUT
      modifies i`canDecay, this`spoilt
      ensures Valid() && i.canDecay == able
      ensures Now() == old(Now()).(spoilt := if able then old(spoilt) - {i} else old(spoilt) + {i})
    {
      i.canDecay := able;
      spoilt := if able then spoilt - {i} else spoilt + {i};
      forall j | j in world ensures Kept(j) {
        assert old(Kept(j));
      }
    }

    method ReleaseItem(item: Item)
      requires Valid() && firing == Some(item)
      modifies this`ToReleaseItems, this`firing
      ensures Valid() && firing == None && ToReleaseItems == old(ToReleaseItems) + [item]
      ensures Now() == old(Now())
    {
      ghost var was := ToReleaseItems;
      ToReleaseItems := ToReleaseItems + [item];
      firing := None;
      assert multiset(ToReleaseItems) == multiset(was) + multiset{item};
      forall i | i in world ensures Kept(i) {
        assert old(Kept(i));
      }
    }

    // Erases an item from its bucket; its reference is still to be released.
    method Erase(bucket: nat, k: nat)
      requires Valid() && firing == None && bucket < EVENT_DECAY_BUCKETS && k < |decayItems[bucket]|
      modifies this`decayItems, this`slots, this`firing
      ensures var x := old(decayItems[bucket][k]);
        && Valid() && firing == Some(x)
        && Now() == old(Now()).(slots := old(slots)[x := OUT])
        && decayItems == old(decayItems)[bucket := DropAt(old(decayItems[bucket]), k)]
    {
      ghost var x, ls := decayItems[bucket][k], decayItems + [toDecayItems];
      Unfile(ls, slots, bucket, k);
      ghost var list := DropAt(decayItems[bucket], k);
      assert ls[bucket := list] == decayItems[bucket := list] + [toDecayItems];
      decayItems := decayItems[bucket := decayItems[bucket][..k] + decayItems[bucket][k + 1..]];
      slots := slots[x := OUT];
      firing := Some(x);
      forall i | i in world ensures Kept(i) {
        assert old(Kept(i));
      }
    }

    // Puts an item that has just left a list at the back of a bucket.
    method PushBack(bucket: nat, item: Item)
      requires Valid() && firing == Some(item) && slots[item] == OUT && bucket < EVENT_DECAY_BUCKETS
      requires item.decaying && (item in safe ==> item.canDecay)
      modifies this`decayItems, this`slots, this`firing
      ensures Valid() && firing == None && Now() == old(Now()).(slots := old(slots)[item := bucket])
      ensures decayItems == old(decayItems)[bucket := old(decayItems[bucket]) + [item]]
    {
      ghost var ls := decayItems + [toDecayItems];
      FileIn(ls, slots, bucket, item, decayItems[bucket] + [item]);
      assert ls[bucket := decayItems[bucket] + [item]]
        == decayItems[bucket := decayItems[bucket] + [item]] + [toDecayItems];
      decayItems := decayItems[bucket := decayItems[bucket] + [item]];
      slots := slots[item := bucket];
      firing := None;
      forall i | i in world ensures Kept(i) {
        assert old(Kept(i));
      }
    }

    method SetDuration(item: Item, duration: int)
      requires Valid() && item in world && IsInt32(duration)
      modifies item`duration, this`durations
      ensures Valid() && item.duration == duration
      ensures Now() == old(Now()).(durations := old(durations)[item := duration])
    {
      item.duration := duration;
      durations := durations[item := duration];
      forall i | i in world ensures Kept(i) {
        assert old(Kept(i));
      }
    }

    // One turn of the loop over a bucket, at position k.
    method CheckItem(bucket: nat, k: nat) returns (next: nat, ghost log: seq<Decay>, ghost freed: multiset<Item>)
      requires Valid() && firing == None && bucket < EVENT_DECAY_BUCKETS && k < |decayItems[bucket]|
      modifies this, world
      ensures Valid() && firing == None && lastBucket == old(lastBucket) && released == old(released)
      ensures decayed == old(decayed) + log && Gone() == old(Gone()) + freed
      ensures ItemChecked(old(Now()), Now(), bucket, old(decayItems[bucket][k]), log, freed)
      ensures next <= |decayItems[bucket]| && decayItems[bucket][next..] == old(decayItems[bucket])[k + 1..]
    {
      var item := decayItems[bucket][k];
      OnWheel(bucket, k);
      next, log, freed := k, [], multiset{};
      if !item.canDecay {
        ghost var a := Now();
        Discard(bucket, k);
        freed := multiset{item};
        CheckedDropped(a, Now(), bucket, item);
        return;
      }
      ghost var a := Now();
      var duration := Age(item);
      ghost var m, expired := Now(), false;
      next, log, expired := Dispatch(bucket, k, duration);
      if expired {
        CheckedFired(a, m, Now(), bucket, item, log);
        freed := multiset{item};
      } else {
        CheckedKept(a, Now(), bucket, item);
      }
    }

    // Takes one period, or what is left, off the duration.
    method Age(item: Item) returns (duration: int)
      requires Valid() && item in world
      modifies item`duration, this`durations
      ensures Valid() && duration == Remaining(old(durations[item]))
      ensures Now() == old(Now()).(durations := old(durations)[item := duration])
    {
      assert Kept(item);
      duration := Signed(item.GetDuration());
      var decreaseTime := Min(EVENT_DECAYINTERVAL * EVENT_DECAY_BUCKETS, duration);
      duration := duration - decreaseTime;
      SetDuration(item, item.duration - decreaseTime);
    }

    // What becomes of an item with this much left.
    method Dispatch(bucket: nat, k: nat, duration: int) returns (next: nat, ghost log: seq<Decay>, ghost expired: bool)
      requires Valid() && firing == None && bucket < EVENT_DECAY_BUCKETS && k < |decayItems[bucket]|
      modifies this, world
      ensures Valid() && firing == None && lastBucket == old(lastBucket) && released == old(released)
      ensures expired <==> duration <= 0 || (duration < PERIOD && Rebucket(bucket, duration) == bucket)
      ensures next <= |decayItems[bucket]| && decayItems[bucket][next..] == old(decayItems[bucket])[k + 1..]
      ensures decayed == old(decayed) + log
      ensures var x := old(decayItems[bucket][k]);
        if expired then ItemExpired(old(Now()), Now(), x, log) && ToReleaseItems == old(ToReleaseItems) + [x]
        else
          && log == [] && ToReleaseItems == old(ToReleaseItems)
          && Now() ==
             old(Now()).(slots := old(slots)[x := if duration < PERIOD then Rebucket(bucket, duration) else bucket])
    {
      next, log, expired := k, [], false;
      if duration <= 0 {
        log := Expire(bucket, k);
        expired := true;
      } else if duration < EVENT_DECAYINTERVAL * EVENT_DECAY_BUCKETS {
        var newBucket := (bucket + (duration + EVENT_DECAYINTERVAL / 2) / 1000) % EVENT_DECAY_BUCKETS;
        if newBucket == bucket {
          log := Expire(bucket, k);
          expired := true;
        } else {
          Rehang(bucket, k, newBucket);
        }
      } else {
        OnWheel(bucket, k);
        assert slots == slots[decayItems[bucket][k] := bucket];
        next := k + 1;
      }
    }

    lemma OnWheel(bucket: nat, k: nat)
      requires Valid() && bucket < EVENT_DECAY_BUCKETS && k < |decayItems[bucket]|
      ensures var item := decayItems[bucket][k];
        item in world && slots[item] == bucket && Kept(item)
    {
      var item := decayItems[bucket][k];
      assert ListFiled(decayItems + [toDecayItems], slots, bucket) && item in (decayItems + [toDecayItems])[bucket];
      assert Kept(item);
    }

    // An item that can no longer decay is dropped where it is met.
    method Discard(bucket: nat, k: nat)
      requires Valid() && firing == None && bucket < EVENT_DECAY_BUCKETS && k < |decayItems[bucket]|
      modifies this`decayItems, this`ToReleaseItems, this`slots, this`firing, world
      ensures Valid() && firing == None
      ensures Now() == old(Now()).(slots := old(slots)[old(decayItems[bucket][k]) := OUT])
      ensures k <= |decayItems[bucket]| && decayItems[bucket][k..] == old(decayItems[bucket])[k + 1..]
      ensures ToReleaseItems == old(ToReleaseItems) + [old(decayItems[bucket][k])]
    {
      var item := decayItems[bucket][k];
      OnWheel(bucket, k);
      Erase(bucket, k);
      StopDecaying(item);
      ReleaseItem(item);
    }

    // An item that is due leaves its bucket, decays, and gives up the wheel's reference.
    method Expire(bucket: nat, k: nat) returns (ghost log: seq<Decay>)
      requires Valid() && firing == None && bucket < EVENT_DECAY_BUCKETS && k < |decayItems[bucket]|
      modifies this, world
      ensures Valid() && firing == None && lastBucket == old(lastBucket) && released == old(released)
      ensures decayed == old(decayed) + log && ItemExpired(old(Now()), Now(), old(decayItems[bucket][k]), log)
      ensures k <= |decayItems[bucket]| && decayItems[bucket][k..] == old(decayItems[bucket])[k + 1..]
      ensures ToReleaseItems == old(ToReleaseItems) + [old(decayItems[bucket][k])]
    {
      var item := decayItems[bucket][k];
      ghost var a := Now();
      OnWheel(bucket, k);
      Erase(bucket, k);
      DroppedTail(old(decayItems[bucket]), k);
      log := DecayWhenDue(item, a);
    }

    // Decays an item that has left its bucket, and gives up its reference.
    method DecayWhenDue(item: Item, ghost a: Standing) returns (ghost log: seq<Decay>)
      requires Valid() && firing == Some(item) && a.slots.Keys == a.durations.Keys && item in a.slots
      requires Now() == a.(slots := a.slots[item := OUT])
      modifies this`toDecayItems, this`slots, this`durations, this`spoilt, this`spoilings, this`decayed,
        this`ToReleaseItems, this`firing, world
      ensures Valid() && firing == None && decayed == old(decayed) + log && ItemExpired(a, Now(), item, log)
      ensures ToReleaseItems == old(ToReleaseItems) + [item]
    {
      ghost var m := Now();
      var chain: nat :| 0 <= chain;
      InternalDecayItem(item, chain, true);
      ghost var b := Now();
      log := ExpiredAside(a, m, b, item, old(decayed), decayed);
      ReleaseItem(item);
      assert Now() == b;
    }

    method Rehang(bucket: nat, k: nat, newBucket: nat)
      requires Valid() && firing == None && bucket < EVENT_DECAY_BUCKETS && k < |decayItems[bucket]|
      requires newBucket < EVENT_DECAY_BUCKETS && newBucket != bucket
      modifies this`decayItems, this`slots, this`firing
      ensures Valid() && firing == None
      ensures Now() == old(Now()).(slots := old(slots)[old(decayItems[bucket][k]) := newBucket])
      ensures k <= |decayItems[bucket]| && decayItems[bucket][k..] == old(decayItems[bucket])[k + 1..]
    {
      var item := decayItems[bucket][k];
      OnWheel(bucket, k);
      Erase(bucket, k);
      PushBack(newBucket, item);
    }

    method StopDecaying(item: Item)
      requires Valid() && item in world && slots[item] == OUT
      modifies item`decaying
      ensures Valid() && Now() == old(Now())
    {
      item.decaying := false;
      forall i | i in world ensures Kept(i) {
        assert old(Kept(i));
      }
    }

    // The progress of a check that began at a, with the logs d and g.
    ghost predicate Since(a: Standing, d: seq<Decay>, g: multiset<Item>, orig: seq<Item>, j: nat,
                          log: seq<Decay>, freed: multiset<Item>)
      requires Shape() && j <= |orig|
      reads this
    {
      decayed == d + log && Gone() == g + freed && Progress(a, Now(), lastBucket, orig, j, log, freed)
    }

    // One turn of the loop, and the progress it makes.
    method CheckNext(bucket: nat, k: nat, ghost a: Standing, ghost d: seq<Decay>, ghost g: multiset<Item>,
                     ghost orig: seq<Item>, ghost j: nat, ghost log: seq<Decay>, ghost freed: multiset<Item>)
      returns (next: nat, ghost log': seq<Decay>, ghost freed': multiset<Item>)
      requires Valid() && firing == None && bucket == Next(lastBucket) && k < |decayItems[bucket]|
      requires SameRest(decayItems[bucket], k, orig, j) && NoDup(orig)
      requires Since(a, d, g, orig, j, log, freed)
      modifies this, world
      ensures Valid() && firing == None && lastBucket == old(lastBucket)
      ensures j < |orig| && SameRest(decayItems[bucket], next, orig, j + 1)
      ensures Since(a, d, g, orig, j + 1, log', freed')
    {
      ghost var was, more, gone := Now(), [], multiset{};
      NextInRest(decayItems[bucket], k, orig, j);
      next, more, gone := CheckItem(bucket, k);
      ProgressStep(a, was, Now(), lastBucket, orig, j, log, freed, more, gone);
      log', freed' := log + more, freed + gone;
      Assoc(d, log, more);
    }

    // The loop over the bucket that is next.
    method CheckBucket(bucket: nat) returns (ghost log: seq<Decay>, ghost freed: multiset<Item>)
      requires Valid() && firing == None && bucket == Next(lastBucket)
      modifies this, world
      ensures Valid() && firing == None && lastBucket == old(lastBucket)
      ensures var orig := old(decayItems[bucket]);
        Since(old(Now()), old(decayed), old(Gone()), orig, |orig|, log, freed)
    {
      ghost var a, d, g, orig, j := Now(), decayed, Gone(), decayItems[bucket], 0;
      log, freed := [], multiset{};
      ProgressStart(a, lastBucket, decayItems + [toDecayItems]);
      var it: nat := 0;
      while it < |decayItems[bucket]|
        invariant Valid() && firing == None && lastBucket == old(lastBucket)
        invariant SameRest(decayItems[bucket], it, orig, j) && NoDup(orig)
        invariant Since(a, d, g, orig, j, log, freed)
        decreases |orig| - j
      {
        it, log, freed := CheckNext(bucket, it, a, d, g, orig, j, log, freed);
        j := j + 1;
      }
    }

    /** One check: the next bucket is gone through, and the new items are put in. */
    method CheckDecay() returns (ghost log: seq<Decay>, ghost freed: multiset<Item>)
      requires Valid() && firing == None
      modifies this, world
      ensures Valid() && firing == None && toDecayItems == [] && ToReleaseItems == []
      ensures lastBucket == Next(old(lastBucket))
      ensures decayed == old(decayed) + log && Gone() == old(Gone()) + freed
      ensures CheckTick(old(Now()), Now(), old(lastBucket), log, freed)
      ensures forall i | i in world :: i.references == others[i] + if slots[i] == OUT then 0 else 1
    {
      var bucket := (lastBucket + 1) % EVENT_DECAY_BUCKETS;
      ghost var a, ls := Now(), decayItems + [toDecayItems];
      log, freed := CheckBucket(bucket);
      ghost var b := Now();
      SetLastBucket(bucket);
      Cleanup();
      ProgressEnd(a, b, Now(), old(lastBucket), ls, ls[bucket], log, freed);
    }

    method SetLastBucket(bucket: nat)
      requires Valid() && bucket < EVENT_DECAY_BUCKETS
      modifies this`lastBucket
      ensures Valid() && lastBucket == bucket && Now() == old(Now())
    {
      lastBucket := bucket;
      forall i | i in world ensures Kept(i) {
        assert old(Kept(i));
      }
    }

    /** Carries out the releases and puts the new items in their first buckets. */
    method Cleanup()
      requires Valid() && firing == None
      modifies this`decayItems, this`toDecayItems, this`ToReleaseItems, this`slots, this`firing, this`released, world
      ensures Valid() && firing == None && toDecayItems == [] && ToReleaseItems == []
      ensures released == old(released) + old(ToReleaseItems)
      ensures Settled(old(Now()), Now(), lastBucket)
      ensures forall i | i in world :: i.references == others[i] + if slots[i] == OUT then 0 else 1
    {
      while ToReleaseItems != []
        invariant Valid() && firing == None && Now() == old(Now())
        invariant released + ToReleaseItems == old(released) + old(ToReleaseItems)
        decreases |ToReleaseItems|
      {
        DropReference();
      }
      while toDecayItems != []
        invariant Valid() && firing == None && ToReleaseItems == []
        invariant released == old(released) + old(ToReleaseItems)
        invariant Settling(old(Now()), Now(), lastBucket)
        decreases |toDecayItems|
      {
        ghost var was, x := Now(), toDecayItems[0];
        PlaceNew();
        SettleOne(old(Now()), was, Now(), lastBucket, x);
      }
      AllSettled(old(Now()), Now(), lastBucket, decayItems + [toDecayItems]);
      forall i | i in world ensures i.references == others[i] + if slots[i] == OUT then 0 else 1 {
        assert Kept(i);
      }
    }

    // One turn of the loop over the new items.
    method PlaceNew()
      requires Valid() && firing == None && toDecayItems != []
      modifies this`decayItems, this`toDecayItems, this`slots, this`firing
      ensures Valid() && firing == None && toDecayItems == old(toDecayItems)[1..]
      ensures var x := old(toDecayItems[0]);
        && x in old(slots) && old(slots[x]) == NEW && x in durations
        && Now() == old(Now()).(slots := old(slots)[x := FirstBucket(lastBucket, durations[x] % 0x1_0000_0000)])
    {
      var item := TakeNew();
      var dur := item.GetDuration();
      if dur >= EVENT_DECAYINTERVAL * EVENT_DECAY_BUCKETS {
        PushBack(lastBucket, item);
      } else {
        PushBack((lastBucket + 1 + dur / 1000) % EVENT_DECAY_BUCKETS, item);
      }
    }

    // The first pending release.
    method DropReference()
      requires Valid() && ToReleaseItems != []
      modifies this`ToReleaseItems, this`released, world
      ensures Valid() && ToReleaseItems == old(ToReleaseItems)[1..]
      ensures released == old(released) + [old(ToReleaseItems[0])]
      ensures Now() == old(Now())
    {
      var item := ToReleaseItems[0];
      ghost var was := ToReleaseItems;
      item.references := item.references - 1;
      ToReleaseItems := ToReleaseItems[1..];
      released := released + [item];
      assert was == [item] + ToReleaseItems;
      assert multiset(was) == multiset{item} + multiset(ToReleaseItems);
      forall i | i in world ensures Kept(i) {
        assert old(Kept(i));
      }
    }

    // Takes the first new item off its list.
    method TakeNew() returns (item: Item)
      requires Valid() && firing == None && toDecayItems != []
      modifies this`toDecayItems, this`slots, this`firing
      ensures item == old(toDecayItems[0]) && item in world && old(slots[item]) == NEW
      ensures Valid() && firing == Some(item) && Now() == old(Now()).(slots := old(slots)[item := OUT])
      ensures item.decaying && (item in safe ==> item.canDecay) && item.duration == durations[item]
      ensures toDecayItems == old(toDecayItems)[1..]
    {
      item := toDecayItems[0];
      ghost var ls := decayItems + [toDecayItems];
      Unfile(ls, slots, NEW, 0);
      assert Kept(item);
      assert DropAt(toDecayItems, 0) == toDecayItems[1..];
      assert ls[NEW := toDecayItems[1..]] == decayItems + [toDecayItems[1..]];
      toDecayItems := toDecayItems[1..];
      slots := slots[item := OUT];
      firing := Some(item);
      forall i | i in world ensures Kept(i) {
        assert old(Kept(i));
      }
    }
  }

  // Half way through cleaning up, some of the new items have been put in.
  ghost predicate Settling(a: Standing, b: Standing, last: int)
    requires 0 <= last < EVENT_DECAY_BUCKETS
  {
    && a.slots.Keys == a.durations.Keys == b.slots.Keys == b.durations.Keys
    && a.spoilt == b.spoilt && a.spoilings == b.spoilings && a.durations == b.durations
    && forall i {:trigger SettlingAt(a, b, last, i)} | i in a.slots :: SettlingAt(a, b, last, i)
  }

  ghost predicate SettlingAt(a: Standing, b: Standing, last: int, i: Item)
    requires 0 <= last < EVENT_DECAY_BUCKETS && i in a.slots && i in b.slots && i in a.durations
  {
    SettledAt(a, b, last, i) || (a.slots[i] == NEW && b.slots[i] == NEW)
  }

  lemma SettleOne(a: Standing, was: Standing, now: Standing, last: int, x: Item)
    requires 0 <= last < EVENT_DECAY_BUCKETS && Settling(a, was, last) && x in a.slots && was.slots[x] == NEW
    requires now == was.(slots := was.slots[x := FirstBucket(last, a.durations[x] % 0x1_0000_0000)])
    ensures Settling(a, now, last)
  {
    forall i | i in a.slots ensures SettlingAt(a, now, last, i) {
      assert SettlingAt(a, was, last, i);
    }
  }

  lemma AllSettled(a: Standing, b: Standing, last: int, ls: seq<seq<Item>>)
    requires 0 <= last < EVENT_DECAY_BUCKETS && Settling(a, b, last)
    requires Filed(ls, b.slots) && ls[NEW] == []
    ensures Settled(a, b, last)
  {
    forall i | i in a.slots ensures SettledAt(a, b, last, i) {
      assert SettlingAt(a, b, last, i) && ItemFiled(ls, b.slots, i);
    }
  }

  /** A new item gets its closed-form number of checks when it is put in. */
  lemma NewItemDue(last: int, d: int, b: Standing, i: Item)
    requires 0 <= last < EVENT_DECAY_BUCKETS && IsInt32(d) && i in b.slots && i in b.durations
    requires b.durations[i] == d && b.slots[i] == FirstBucket(last, d % 0x1_0000_0000)
    ensures Awaits(b, last, i, Due(d))
  {
    DueIn(last, d);
  }

  // Between checks an item in a bucket loses nothing, whatever is started, spoilt or put in.
  lemma BetweenChecks(a: Standing, b: Standing, last: int, i: Item, n: int)
    requires 0 <= last < EVENT_DECAY_BUCKETS && Awaits(a, last, i, n)
    requires Undisturbed(a, b) || Settled(a, b, last)
    ensures Awaits(b, last, i, n) && b.slots[i] == a.slots[i] && SpoiltSince(a, b, i)
  {
    if Undisturbed(a, b) {
      assert StaysPut(a, b, i);
    } else {
      assert SettledAt(a, b, last, i);
    }
  }

  // ---------------------------------------------------------------- runs

  // One moment of a run: the wheel, the items decayed and the references given up so far, the
  // items that can be queued, and whether a check led to it.
  datatype Moment = Moment(now: Standing, last: int, log: seq<Decay>, gone: multiset<Item>, able: set<Item>,
                           check: bool)
  {
    ghost predicate Proper() {
      && 0 <= last < EVENT_DECAY_BUCKETS && now.slots.Keys == now.durations.Keys
      && forall i | i in now.durations :: IsInt32(now.durations[i])
    }

    ghost predicate Waits(i: Item, n: int) {
      Proper() && Awaits(now, last, i, n)
    }

    // In a bucket, and not able to decay.
    ghost predicate Stuck(i: Item) {
      Proper() && i in now.slots && 0 <= now.slots[i] < NEW && i in now.spoilt
    }

    // Off the wheel, or put in with a duration of its own.
    ghost predicate LeftWheel(i: Item) {
      && i in now.slots && i in now.durations
      && (now.slots[i] == OUT || Waits(i, Due(now.durations[i])))
    }
  }

  ghost predicate Follows(a: Moment, b: Moment) {
    && a.Proper() && b.Proper() && a.log <= b.log && a.now.spoilings <= b.now.spoilings
    && if b.check then
         && b.last == Next(a.last) && a.gone <= b.gone
         && CheckTick(a.now, b.now, a.last, b.log[|a.log|..], b.gone - a.gone)
       else
         && b.last == a.last && b.gone == a.gone && AtOnce(a.now, b.log[|a.log|..])
         && (Undisturbed(a.now, b.now) || Settled(a.now, b.now, a.last))
  }

  ghost predicate IsRun(run: seq<Moment>) {
    run != [] && run[0].Proper()
    && forall k, m {:trigger run[k], run[m]} | 0 <= k < m == k + 1 < |run| :: Follows(run[k], run[m])
  }

  // How many checks a run has seen after moment p, up to moment k.
  function Checks(run: seq<Moment>, p: nat, k: nat): nat
    requires p <= k < |run|
  {
    if k == p then 0 else Checks(run, p, k - 1) + if run[k].check then 1 else 0
  }

  // Between two moments an item decayed so often when due, and its reference was given up so often.
  ghost predicate Counted(a: Moment, b: Moment, i: Item, n: int) {
    a.log <= b.log && Fired(b.log)[i] == Fired(a.log)[i] + n && b.gone[i] == a.gone[i] + n
  }

  // ... it gave up its reference without decaying when due ...
  ghost predicate Dropped(a: Moment, b: Moment, i: Item) {
    a.log <= b.log && Fired(b.log)[i] == Fired(a.log)[i] && b.gone[i] == a.gone[i] + 1
  }

  // ... and it was not handed over at all.
  ghost predicate Spared(a: Moment, b: Moment, i: Item) {
    Counted(a, b, i, 0) && !Logged(b.log[|a.log|..], i)
  }

  lemma SparedTwice(a: Moment, b: Moment, c: Moment, i: Item)
    requires Spared(a, b, i) && Spared(b, c, i)
    ensures Spared(a, c, i)
  {
    assert c.log[|a.log|..] == b.log[|a.log|..] + c.log[|b.log|..];
    LoggedInBoth(b.log[|a.log|..], c.log[|b.log|..], i);
  }

  lemma SparedStep(a: Moment, b: Moment, i: Item)
    requires a.log <= b.log && !Logged(b.log[|a.log|..], i) && b.gone[i] == a.gone[i]
    ensures Spared(a, b, i)
  {
    assert b.log == a.log + b.log[|a.log|..];
    FiredOfBoth(a.log, b.log[|a.log|..]);
    FiredIsLogged(b.log[|a.log|..], i);
  }

  // One step of a run, for an item in a bucket that can decay and is not spoilt in it.
  lemma OneStep(a: Moment, b: Moment, i: Item, n: int)
    requires Follows(a, b) && a.Waits(i, n) && i !in a.now.spoilt && b.now.spoilings[i] == a.now.spoilings[i]
    ensures i !in b.now.spoilt || b.now.slots[i] == OUT
    ensures !b.check ==> b.Waits(i, n) && Spared(a, b, i)
    ensures b.check && n != 1 ==> b.Waits(i, n - 1) && Spared(a, b, i)
    ensures b.check && n == 1 ==> Counted(a, b, i, 1) && b.LeftWheel(i)
  {
    var log := b.log[|a.log|..];
    if b.check {
      assert Ticked(a.now, b.now, a.last, log, b.gone - a.gone, i);
      if a.now.slots[i] != Next(a.last) {
        PassedOver(a.now.slots[i], a.last, a.now.durations[i]);
        SparedStep(a, b, i);
      } else if n == 1 {
        assert b.log == a.log + log;
        FiredOfBoth(a.log, log);
        if b.now.slots[i] != OUT {
          NewItemDue(b.last, b.now.durations[i], b.now, i);
        }
      } else {
        SparedStep(a, b, i);
      }
    } else {
      BetweenChecks(a.now, b.now, a.last, i, n);
      SparedStep(a, b, i);
    }
  }

  // The item can decay at moment p, and is not spoilt from then to moment k.
  ghost predicate Sound(run: seq<Moment>, i: Item, p: nat, k: nat)
    requires p <= k < |run|
  {
    i !in run[p].now.spoilt && run[k].now.spoilings[i] == run[p].now.spoilings[i]
  }

  lemma {:induction false} SpoilingsGrow(run: seq<Moment>, p: nat, k: nat)
    requires IsRun(run) && p <= k < |run|
    ensures run[p].now.spoilings <= run[k].now.spoilings
    decreases k
  {
    if p < k {
      SpoilingsGrow(run, p, k - 1);
      assert Follows(run[k - 1], run[k]);
    }
  }

  lemma SoundBetween(run: seq<Moment>, i: Item, p: nat, m: nat, k: nat)
    requires IsRun(run) && p <= m <= k < |run| && Sound(run, i, p, k)
    ensures run[m].now.spoilings[i] == run[p].now.spoilings[i] == run[k].now.spoilings[i]
  {
    SpoilingsGrow(run, p, m);
    SpoilingsGrow(run, m, k);
  }

  lemma {:induction false} CountsDown(run: seq<Moment>, i: Item, n: int, p: nat, k: nat)
    requires IsRun(run) && p <= k < |run| && run[p].Waits(i, n) && Checks(run, p, k) < n && Sound(run, i, p, k)
    ensures run[k].Waits(i, n - Checks(run, p, k)) && Spared(run[p], run[k], i) && i !in run[k].now.spoilt
    decreases k
  {
    if k == p {
      assert run[k].log[|run[p].log|..] == [];
    } else {
      assert Follows(run[k - 1], run[k]);
      SoundBetween(run, i, p, k - 1, k);
      CountsDown(run, i, n, p, k - 1);
      OneStep(run[k - 1], run[k], i, n - Checks(run, p, k - 1));
      SparedTwice(run[p], run[k - 1], run[k], i);
    }
  }

  // ---- Items that cannot decay

  // One step of a run, for an item in a bucket that cannot decay.
  lemma StuckStep(a: Moment, b: Moment, i: Item)
    requires Follows(a, b) && a.Stuck(i)
    ensures !b.check || a.now.slots[i] != Next(a.last) ==>
      b.Stuck(i) && b.now.slots[i] == a.now.slots[i] && Spared(a, b, i)
    ensures b.check && a.now.slots[i] == Next(a.last) ==> Dropped(a, b, i) && b.LeftWheel(i)
  {
    var log := b.log[|a.log|..];
    if b.check {
      assert Ticked(a.now, b.now, a.last, log, b.gone - a.gone, i);
      assert b.log == a.log + log;
      FiredOfBoth(a.log, log);
      if a.now.slots[i] != Next(a.last) {
        SparedStep(a, b, i);
      } else if b.now.slots[i] != OUT {
        NewItemDue(b.last, b.now.durations[i], b.now, i);
      }
    } else {
      BetweenChecks(a.now, b.now, a.last, i, Left(a.now.slots[i], a.last, a.now.durations[i]));
      SparedStep(a, b, i);
    }
  }

  lemma NextIsNearer(bucket: int, last: int)
    requires 0 <= bucket < EVENT_DECAY_BUCKETS && 0 <= last < EVENT_DECAY_BUCKETS
    ensures Distance(bucket, last) == 1 <==> bucket == Next(last)
    ensures bucket != Next(last) ==> Distance(bucket, Next(last)) == Distance(bucket, last) - 1
  {
  }

  lemma {:induction false} StuckUntilMet(run: seq<Moment>, i: Item, p: nat, k: nat)
    requires IsRun(run) && p <= k < |run| && run[p].Stuck(i)
    requires Checks(run, p, k) < Distance(run[p].now.slots[i], run[p].last)
    ensures run[k].Stuck(i) && run[k].now.slots[i] == run[p].now.slots[i] && Spared(run[p], run[k], i)
    ensures Distance(run[k].now.slots[i], run[k].last) ==
            Distance(run[p].now.slots[i], run[p].last) - Checks(run, p, k)
    decreases k
  {
    if k == p {
      assert run[k].log[|run[p].log|..] == [];
    } else {
      assert Follows(run[k - 1], run[k]);
      StuckUntilMet(run, i, p, k - 1);
      StuckStep(run[k - 1], run[k], i);
      NextIsNearer(run[k - 1].now.slots[i], run[k - 1].last);
      SparedTwice(run[p], run[k - 1], run[k], i);
    }
  }

  // What becomes of an item that cannot decay, from moment p to moment k of a run.
  ghost predicate DroppedInTurn(run: seq<Moment>, i: Item, p: nat, k: nat) {
    p < k < |run| && run[p].Stuck(i) ==>
      var n, checks := Distance(run[p].now.slots[i], run[p].last), Checks(run, p, k);
      && (checks < n ==> Spared(run[p], run[k], i) && run[k].Stuck(i) && run[k].now.slots[i] == run[p].now.slots[i])
      && (checks == n && run[k].check ==> Dropped(run[p], run[k], i) && run[k].LeftWheel(i))
  }

  /** An item in a bucket that cannot decay stays there until its bucket is checked. Then it gives up
      its one reference and does not decay; before that nothing happens to it. */
  lemma DroppedWhenMet(run: seq<Moment>, i: Item, p: nat, k: nat)
    requires IsRun(run)
    ensures DroppedInTurn(run, i, p, k)
  {
    if p < k < |run| && run[p].Stuck(i) {
      var n, checks := Distance(run[p].now.slots[i], run[p].last), Checks(run, p, k);
      if checks < n {
        StuckUntilMet(run, i, p, k);
      } else if checks == n && run[k].check {
        DroppedOnItsCheck(run, i, p, k);
      }
    }
  }

  lemma DroppedOnItsCheck(run: seq<Moment>, i: Item, p: nat, k: nat)
    requires IsRun(run) && p < k < |run| && run[p].Stuck(i) && run[k].check
    requires Checks(run, p, k) == Distance(run[p].now.slots[i], run[p].last)
    ensures Dropped(run[p], run[k], i) && run[k].LeftWheel(i)
  {
    var a, b := run[k - 1], run[k];
    StuckUntilMet(run, i, p, k - 1);
    NextIsNearer(a.now.slots[i], a.last);
    assert Follows(a, b);
    StuckStep(a, b, i);
  }

  // ---- Items that can decay

  // The item was queued as a new one, and the step to the next moment put it in.
  ghost predicate PutIn(run: seq<Moment>, i: Item, s: nat) {
    && s + 1 < |run| && i in run[s].now.slots && i in run[s].now.durations && run[s].now.slots[i] == NEW
    && i in run[s + 1].now.slots && run[s + 1].now.slots[i] != NEW
  }

  lemma StillNew(a: Standing, b: Standing, i: Item)
    requires Undisturbed(a, b) && i in a.slots && a.slots[i] == NEW
    ensures i in b.slots && b.slots[i] == NEW
  {
    assert StaysPut(a, b, i);
  }

  lemma PutInIsDue(run: seq<Moment>, i: Item, s: nat)
    requires IsRun(run) && PutIn(run, i, s)
    ensures run[s + 1].Waits(i, Due(run[s].now.durations[i])) && Spared(run[s], run[s + 1], i)
    ensures SpoiltSince(run[s].now, run[s + 1].now, i)
  {
    var a, b := run[s], run[s + 1];
    assert Follows(a, b);
    if b.check {
      assert Ticked(a.now, b.now, a.last, b.log[|a.log|..], b.gone - a.gone, i);
    } else if Settled(a.now, b.now, a.last) {
      assert SettledAt(a.now, b.now, a.last, i);
    } else {
      StillNew(a.now, b.now, i);
    }
    SparedStep(a, b, i);
    NewItemDue(b.last, a.now.durations[i], b.now, i);
  }

  // Up to the check before it is due nothing happens to it.
  lemma SparedUntilDue(run: seq<Moment>, i: Item, s: nat, k: nat)
    requires IsRun(run) && PutIn(run, i, s) && s + 1 <= k < |run| && Sound(run, i, s, k)
    requires Checks(run, s + 1, k) < Due(run[s].now.durations[i])
    ensures Spared(run[s], run[k], i) && run[k].Waits(i, Due(run[s].now.durations[i]) - Checks(run, s + 1, k))
    ensures i !in run[k].now.spoilt
  {
    PutInIsDue(run, i, s);
    SoundBetween(run, i, s, s + 1, k);
    CountsDown(run, i, Due(run[s].now.durations[i]), s + 1, k);
    SparedTwice(run[s], run[s + 1], run[k], i);
  }

  // What the length of its duration says of an item between the moments s and k of a run.
  ghost predicate DecaysWhenDue(run: seq<Moment>, i: Item, s: nat, k: nat)
    requires PutIn(run, i, s) && s + 1 < k < |run|
  {
    var n, checks := Due(run[s].now.durations[i]), Checks(run, s + 1, k);
    && (checks < n ==> Spared(run[s], run[k], i) && run[k].Waits(i, n - checks))
    && (checks == n && run[k].check ==> Counted(run[s], run[k], i, 1) && run[k].LeftWheel(i))
  }

  // ... when it can decay and is not spoilt meanwhile.
  ghost predicate Timely(run: seq<Moment>, i: Item, s: nat, k: nat) {
    PutIn(run, i, s) && s + 1 < k < |run| && Sound(run, i, s, k) ==> DecaysWhenDue(run, i, s, k)
  }

  lemma OnTheDueCheck(run: seq<Moment>, i: Item, s: nat, k: nat)
    requires IsRun(run) && PutIn(run, i, s) && s + 1 < k < |run| && Sound(run, i, s, k) && run[k].check
    requires Checks(run, s + 1, k) == Due(run[s].now.durations[i])
    ensures Counted(run[s], run[k], i, 1) && run[k].LeftWheel(i)
  {
    SoundBetween(run, i, s, k - 1, k);
    SparedUntilDue(run, i, s, k - 1);
    assert Follows(run[k - 1], run[k]);
    OneStep(run[k - 1], run[k], i, 1);
  }

  /** In any run, an item that is put in with duration D, and is not spoilt, decays when due at check
      Due(D) after that, once, and is not handed over before; exactly then the wheel gives up its one
      reference, and the item is off the wheel unless a script started it anew. */
  lemma ExpiresOnTime(run: seq<Moment>, i: Item, s: nat, k: nat)
    requires IsRun(run)
    ensures Timely(run, i, s, k)
  {
    if PutIn(run, i, s) && s + 1 < k < |run| && Sound(run, i, s, k) {
      var n, checks := Due(run[s].now.durations[i]), Checks(run, s + 1, k);
      if checks < n {
        SparedUntilDue(run, i, s, k);
      } else if checks == n && run[k].check {
        OnTheDueCheck(run, i, s, k);
      }
    }
  }

  lemma DueOnLastCheck(a: Moment, b: Moment, i: Item)
    requires Follows(a, b) && b.check && i in Fired(b.log[|a.log|..])
    ensures LastCheck(a.now, a.last, i)
  {
  }

  /** An item that is not on the wheel is not handed over by it, until it is started again. */
  lemma OffTheWheel(run: seq<Moment>, i: Item, k: nat)
    requires IsRun(run) && k + 1 < |run| && i in run[k].now.slots && !(0 <= run[k].now.slots[i] < NEW)
    ensures run[k].log <= run[k + 1].log && Fired(run[k + 1].log)[i] == Fired(run[k].log)[i]
  {
    var a, b := run[k], run[k + 1];
    assert Follows(a, b);
    var log := b.log[|a.log|..];
    assert b.log == a.log + log;
    FiredOfBoth(a.log, log);
    if !b.check {
      NoneFired(a.now, log);
    } else if i in Fired(log) {
      DueOnLastCheck(a, b, i);
    }
  }

  // ---------------------------------------------------------------- the runs of the methods

  // What can happen to a wheel from outside.
  datatype Event = Start(item: Item?, chain: nat) | Check | CleanUp | Script(chain: nat)

  // From one moment to the next the item was queued, with the duration it had.
  ghost predicate Queues(a: Moment, b: Moment, i: Item) {
    && i in b.now.slots && b.now.slots[i] == NEW
    && i in a.now.durations && i in b.now.durations && b.now.durations[i] == a.now.durations[i]
    && i !in b.now.spoilt && b.now.spoilings == a.now.spoilings
  }

  ghost predicate Queued(run: seq<Moment>, i: Item, k: nat) {
    k + 1 < |run| && Queues(run[k], run[k + 1], i)
  }

  lemma LogGrew(was: seq<Decay>, log: seq<Decay>)
    ensures was <= was + log && (was + log)[|was|..] == log
  {
  }

  lemma Settles(a: multiset<Item>, b: multiset<Item>)
    ensures a <= a + b && (a + b) - a == b
  {
  }

  method PlayOne(wheel: Wheel, e: Event)
    requires wheel.Valid() && wheel.firing == None && (e.Start? && e.item != null ==> e.item in wheel.world)
    modifies wheel, wheel.world
    ensures wheel.Valid() && wheel.firing == None
    ensures Follows(old(wheel.Record(false)), wheel.Record(e.Check?))
    ensures e.Start? && e.item in old(wheel.Record(false)).able ==>
      Queues(old(wheel.Record(false)), wheel.Record(e.Check?), e.item)
  {
    wheel.IsProper(false);
    match e {
      case Start(item, chain) => wheel.StartDecay(item, chain);
      case Check =>
        ghost var log, freed := wheel.CheckDecay();
        LogGrew(old(wheel.decayed), log);
        Settles(old(wheel.Gone()), freed);
      case CleanUp =>
        wheel.Cleanup();
        assert multiset(wheel.released) == multiset(old(wheel.released)) + multiset(old(wheel.ToReleaseItems));
      case Script(chain) => wheel.AnyScript(chain);
    }
    wheel.IsProper(e.Check?);
  }

  // The run so far: one moment for each event, and what was started is queued.
  ghost predicate Played(run: seq<Moment>, events: seq<Event>, n: nat) {
    && n <= |events| && |run| == n + 1 && IsRun(run)
    && (forall k | 0 <= k < n :: run[k + 1].check == events[k].Check?)
    && forall k | 0 <= k < n && events[k].Start? && events[k].item in run[k].able :: Queued(run, events[k].item, k)
  }

  lemma PlayedOneMore(run: seq<Moment>, events: seq<Event>, n: nat, before: Moment, after: Moment)
    requires Played(run, events, n) && n < |events| && before == run[n].(check := false) && Follows(before, after)
    requires after.check == events[n].Check?
    requires events[n].Start? && events[n].item in before.able ==> Queues(before, after, events[n].item)
    ensures Played(run + [after], events, n + 1)
  {
    var longer := run + [after];
    RunGoesOn(run, before, after);
    forall k | 0 <= k < n + 1 && events[k].Start? && events[k].item in longer[k].able
      ensures Queued(longer, events[k].item, k)
    {
      assert k < n ==> Queued(run, events[k].item, k);
    }
  }

  // The safe items were never spoilt, and those on the wheel can decay.
  ghost predicate Guarded(m: Moment, safe: set<Item>) {
    forall i | i in safe && i in m.now.slots ::
      m.now.spoilings[i] == 0 && (m.now.slots[i] != OUT ==> i !in m.now.spoilt)
  }

  ghost predicate AllGuarded(run: seq<Moment>, safe: set<Item>) {
    forall k | 0 <= k < |run| :: Guarded(run[k], safe)
  }

  // Every item that is put in decays on time.
  ghost predicate OnTime(run: seq<Moment>, i: Item, s: nat, k: nat) {
    PutIn(run, i, s) && s + 1 < k < |run| ==> DecaysWhenDue(run, i, s, k)
  }

  /** Whatever happens to a wheel, in whatever order: every safe item that is put in decays on time, so
      does any other that is not spoilt, and one that cannot decay is dropped when its bucket is checked. */
  method Play(wheel: Wheel, events: seq<Event>) returns (ghost run: seq<Moment>)
    requires wheel.Valid() && wheel.firing == None
    requires forall e | e in events :: e.Start? && e.item != null ==> e.item in wheel.world
    modifies wheel, wheel.world
    ensures wheel.Valid() && wheel.firing == None
    ensures Played(run, events, |events|)
    ensures run[0] == old(wheel.Record(false)) && run[|events|] == wheel.Record(run[|events|].check)
    ensures forall i, s: nat, k: nat {:trigger OnTime(run, i, s, k)} | i in wheel.safe :: OnTime(run, i, s, k)
    ensures forall i: Item, s: nat, k: nat {:trigger Timely(run, i, s, k)} :: Timely(run, i, s, k)
    ensures forall i: Item, p: nat, k: nat {:trigger DroppedInTurn(run, i, p, k)} :: DroppedInTurn(run, i, p, k)
  {
    wheel.IsProper(false);
    wheel.IsGuarded(false);
    run := [wheel.Record(false)];
    for n := 0 to |events|
      invariant wheel.Valid() && wheel.firing == None
      invariant Played(run, events, n) && run[0] == old(wheel.Record(false)) && run[n] == wheel.Record(run[n].check)
      invariant AllGuarded(run, wheel.safe)
    {
      ghost var before := wheel.Record(false);
      PlayOne(wheel, events[n]);
      PlayedOneMore(run, events, n, before, wheel.Record(events[n].Check?));
      wheel.IsGuarded(events[n].Check?);
      run := run + [wheel.Record(events[n].Check?)];
    }
    AllOnTime(run, wheel.safe);
  }

  lemma AllOnTime(run: seq<Moment>, safe: set<Item>)
    requires IsRun(run) && AllGuarded(run, safe)
    ensures forall i, s: nat, k: nat {:trigger OnTime(run, i, s, k)} | i in safe :: OnTime(run, i, s, k)
    ensures forall i: Item, s: nat, k: nat {:trigger Timely(run, i, s, k)} :: Timely(run, i, s, k)
    ensures forall i: Item, p: nat, k: nat {:trigger DroppedInTurn(run, i, p, k)} :: DroppedInTurn(run, i, p, k)
  {
    forall i: Item, s: nat, k: nat ensures Timely(run, i, s, k) && DroppedInTurn(run, i, s, k) {
      ExpiresOnTime(run, i, s, k);
      DroppedWhenMet(run, i, s, k);
    }
    forall i, s: nat, k: nat | i in safe ensures OnTime(run, i, s, k) {
      SafeOnTime(run, safe, i, s, k);
    }
  }

  lemma SafeOnTime(run: seq<Moment>, safe: set<Item>, i: Item, s: nat, k: nat)
    requires IsRun(run) && AllGuarded(run, safe) && i in safe
    ensures OnTime(run, i, s, k)
  {
    if PutIn(run, i, s) && s + 1 < k < |run| {
      SameItems(run, s, k);
      assert Guarded(run[s], safe) && Guarded(run[k], safe);
      ExpiresOnTime(run, i, s, k);
    }
  }

  lemma {:induction false} SameItems(run: seq<Moment>, p: nat, k: nat)
    requires IsRun(run) && p <= k < |run|
    ensures run[p].now.slots.Keys == run[k].now.slots.Keys
    decreases k
  {
    if p < k {
      SameItems(run, p, k - 1);
      assert Follows(run[k - 1], run[k]);
    }
  }

  lemma RunGoesOn(run: seq<Moment>, before: Moment, after: Moment)
    requires IsRun(run) && before == run[|run| - 1].(check := false) && Follows(before, after)
    ensures IsRun(run + [after])
  {
    var longer := run + [after];
    forall k, m | 0 <= k < m == k + 1 < |longer| ensures Follows(longer[k], longer[m]) {
      if m < |run| {
        assert Follows(run[k], run[m]);
      }
    }
  }
}
