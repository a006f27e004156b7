/** Paying from the coins in nested containers, and from the bank. */
module Payment {
  import opened Sequences

  /** A stack of coins in the world; a stack with no coins left is gone. */
  class Stack {
    const unit: nat
    var count: nat

    constructor (unit: nat, count: nat)
      ensures this.unit == unit && this.count == count
    {
      this.unit, this.count := unit, count;
    }

    function GetWorth(): nat
      reads this
    {
      count * unit
    }

    // No coins are worth nothing, and each is worth its unit.
    twostate lemma WorthOfCoins()
      ensures count == 0 ==> GetWorth() == 0
      ensures count == old(count) + 1 ==> GetWorth() == old(GetWorth()) + unit
    {
    }
  }

  // What a cylinder or a container holds.
  datatype Thing = Coins(stack: Stack) | Bag(contents: seq<Thing>) | Other

  // Every stack of coins inside, at any depth.
  function Stacks(ts: seq<Thing>): seq<Stack> {
    if ts == [] then []
    else
      (match ts[0]
       case Coins(s) => [s]
       case Bag(contents) => Stacks(contents)
       case Other => [])
      + Stacks(ts[1..])
  }

  function StacksOfAll(cs: seq<seq<Thing>>): seq<Stack> {
    if cs == [] then [] else Stacks(cs[0]) + StacksOfAll(cs[1..])
  }

  // What stands at the end of a path of positions through the containers.
  function Found(ts: seq<Thing>, path: seq<nat>): (t: Thing)
    decreases |path|
  {
    if path == [] || path[0] >= |ts| then Other
    else if |path| == 1 then ts[path[0]]
    else if ts[path[0]].Bag? then Found(ts[path[0]].contents, path[1..])
    else Other
  }

  /** The stacks are exactly the coins that some path leads to, however deep. */
  lemma {:induction false} StacksAtAnyDepth(ts: seq<Thing>, x: Stack)
    ensures x in Stacks(ts) <==> exists path :: Found(ts, path) == Coins(x)
    decreases ts
  {
    if x in Stacks(ts) {
      var path := PathTo(ts, x);
    }
    forall path | Found(ts, path) == Coins(x) ensures x in Stacks(ts) {
      FoundIsListed(ts, path, x);
    }
  }

  // One thing further to the left is one position less.
  lemma OneFurther(ts: seq<Thing>, later: seq<nat>, path: seq<nat>)
    requires ts != [] && later != [] && path == [later[0] + 1] + later[1..]
    ensures Found(ts, path) == Found(ts[1..], later)
  {
    assert path[1..] == later[1..];
    if later[0] < |ts[1..]| {
      assert ts[1..][later[0]] == ts[path[0]];
    }
  }

  lemma {:induction false} PathTo(ts: seq<Thing>, x: Stack) returns (path: seq<nat>)
    requires x in Stacks(ts)
    ensures path != [] && Found(ts, path) == Coins(x)
    decreases ts
  {
    if ts[0] == Coins(x) {
      path := [0];
    } else if ts[0].Bag? && x in Stacks(ts[0].contents) {
      var deeper := PathTo(ts[0].contents, x);
      path := [0] + deeper;
      assert path[1..] == deeper;
    } else {
      var later := PathTo(ts[1..], x);
      path := [later[0] + 1] + later[1..];
      OneFurther(ts, later, path);
    }
  }

  lemma {:induction false} FoundIsListed(ts: seq<Thing>, path: seq<nat>, x: Stack)
    requires Found(ts, path) == Coins(x)
    ensures x in Stacks(ts)
    decreases |path|, |ts|
  {
    if path[0] == 0 {
      if |path| > 1 {
        FoundIsListed(ts[0].contents, path[1..], x);
      }
    } else {
      var later := [path[0] - 1] + path[1..];
      assert later[1..] == path[1..];
      OneFurther(ts, later, path);
      FoundIsListed(ts[1..], later, x);
    }
  }

  // How many things there are, at any depth.
  function Size(ts: seq<Thing>): nat {
    if ts == [] then 0
    else 1 + (if ts[0].Bag? then 1 + Size(ts[0].contents) else 0) + Size(ts[1..])
  }

  function SizeOfAll(cs: seq<seq<Thing>>): nat {
    if cs == [] then 0 else 1 + Size(cs[0]) + SizeOfAll(cs[1..])
  }

  lemma {:induction false} OneMoreBag(cs: seq<seq<Thing>>, c: seq<Thing>)
    ensures StacksOfAll(cs + [c]) == StacksOfAll(cs) + Stacks(c)
  {
    if cs == [] {
      assert cs + [c] == [c] && StacksOfAll([c][1..]) == [];
    } else {
      var more := cs + [c];
      assert more[0] == cs[0] && more[1..] == cs[1..] + [c];
      OneMoreBag(cs[1..], c);
      assert StacksOfAll(more) == Stacks(cs[0]) + (StacksOfAll(cs[1..]) + Stacks(c));
    }
  }

  lemma {:induction false} OneMoreToOpen(cs: seq<seq<Thing>>, c: seq<Thing>)
    ensures SizeOfAll(cs + [c]) == SizeOfAll(cs) + 1 + Size(c)
  {
    if cs == [] {
      assert cs + [c] == [c] && SizeOfAll([c][1..]) == 0;
    } else {
      OneMoreToOpen(cs[1..], c);
      assert (cs + [c])[1..] == cs[1..] + [c];
    }
  }

  // What each stack is worth.
  type Worths = map<Stack, nat>

  ghost predicate Priced(w: Worths)
    reads w.Keys
  {
    forall s | s in w :: s.GetWorth() == w[s]
  }

  function Total(s: seq<Stack>, w: Worths): nat
    requires forall x | x in s :: x in w
  {
    if s == [] then 0 else w[s[0]] + Total(s[1..], w)
  }

  // The worths of the stacks that are worth something.
  function Worthy(s: seq<Stack>, w: Worths): seq<nat>
    requires forall x | x in s :: x in w
  {
    if s == [] then [] else (if w[s[0]] > 0 then [w[s[0]]] else []) + Worthy(s[1..], w)
  }

  lemma {:induction false} TotalOfBoth(a: seq<Stack>, b: seq<Stack>, w: Worths)
    requires forall x | x in a || x in b :: x in w
    ensures Total(a + b, w) == Total(a, w) + Total(b, w)
  {
    if a == [] {
      assert a + b == b;
    } else {
      TotalOfBoth(a[1..], b, w);
      assert (a + b)[1..] == a[1..] + b;
    }
  }

  lemma {:induction false} WorthyOfBoth(a: seq<Stack>, b: seq<Stack>, w: Worths)
    requires forall x | x in a || x in b :: x in w
    ensures Worthy(a + b, w) == Worthy(a, w) + Worthy(b, w)
  {
    if a == [] {
      assert a + b == b;
    } else {
      WorthyOfBoth(a[1..], b, w);
      assert (a + b)[1..] == a[1..] + b;
      Assoc(if w[a[0]] > 0 then [w[a[0]]] else [], Worthy(a[1..], w), Worthy(b, w));
    }
  }

  // How often each worth occurs.
  ghost function WorthBag(s: seq<Stack>, w: Worths): multiset<nat>
    requires forall x | x in s :: x in w
  {
    multiset(Worthy(s, w))
  }

  lemma BagOfBoth(a: seq<Stack>, b: seq<Stack>, w: Worths)
    requires forall x | x in a || x in b :: x in w
    ensures WorthBag(a + b, w) == WorthBag(a, w) + WorthBag(b, w)
  {
    WorthyOfBoth(a, b, w);
  }

  predicate Sorted(s: seq<Stack>, w: Worths) {
    && (forall x | x in s :: x in w)
    && forall j, k | 0 <= j < k < |s| :: w[s[j]] <= w[s[k]]
  }

  // x stands between what is not worth more and what is.
  predicate Fits(s: seq<Stack>, k: nat, x: Stack, w: Worths)
    requires k <= |s| && x in w && forall y | y in s :: y in w
  {
    (forall j | 0 <= j < k :: w[s[j]] <= w[x]) && forall j | k <= j < |s| :: w[s[j]] > w[x]
  }

  lemma InsertedSorted(s: seq<Stack>, k: nat, x: Stack, w: Worths)
    requires k <= |s| && Sorted(s, w) && x in w && Fits(s, k, x, w)
    ensures Sorted(InsertAt(s, k, x), w)
  {
    var t := InsertAt(s, k, x);
    forall y | y in t ensures y in w {
      assert y in s[..k] || y == x || y in s[k..];
    }
    forall j, m | 0 <= j < m < |t| ensures w[t[j]] <= w[t[m]] {
      InsertedAt(s, k, x, j);
      InsertedAt(s, k, x, m);
    }
  }

  lemma InsertedAt(s: seq<Stack>, k: nat, x: Stack, j: nat)
    requires k <= |s| && j <= |s|
    ensures InsertAt(s, k, x)[j] == if j < k then s[j] else if j == k then x else s[j - 1]
  {
  }

  lemma InsertedTotal(s: seq<Stack>, k: nat, x: Stack, w: Worths)
    requires k <= |s| && x in w && forall y | y in s :: y in w
    ensures multiset(InsertAt(s, k, x)) == multiset(s) + multiset{x}
    ensures forall y | y in InsertAt(s, k, x) :: y in w
    ensures Total(InsertAt(s, k, x), w) == Total(s, w) + w[x]
    ensures WorthBag(InsertAt(s, k, x), w) == WorthBag(s, w) + WorthBag([x], w)
  {
    var left, right := s[..k], s[k..];
    assert s == left + right;
    TotalOfBoth(left, right, w);
    TotalOfBoth(left + [x], right, w);
    TotalOfBoth(left, [x], w);
    BagOfBoth(left, right, w);
    BagOfBoth(left + [x], right, w);
    BagOfBoth(left, [x], w);
  }

  // The multimap's insertion: after every entry with the same or a smaller key.
  method Emplace(s: seq<Stack>, x: Stack, ghost w: Worths) returns (t: seq<Stack>)
    requires Priced(w) && Sorted(s, w) && x in w
    ensures Sorted(t, w) && multiset(t) == multiset(s) + multiset{x}
    ensures Total(t, w) == Total(s, w) + w[x] && WorthBag(t, w) == WorthBag(s, w) + WorthBag([x], w)
  {
    var k := |s|;
    while k > 0 && s[k - 1].GetWorth() > x.GetWorth()
      invariant 0 <= k <= |s|
      invariant forall j | k <= j < |s| :: w[s[j]] > w[x]
    {
      assert s[k - 1] in s;
      k := k - 1;
    }
    assert k > 0 ==> s[k - 1] in s;
    t := s[..k] + [x] + s[k..];
    InsertedSorted(s, k, x, w);
    InsertedTotal(s, k, x, w);
  }

  // The search so far: the stacks found and their worth, the containers still to be opened, and
  // the rest of the one being looked through.
  ghost predicate Accounts(all: seq<Stack>, found: seq<Stack>, money: nat, toOpen: seq<seq<Thing>>, rest: seq<Thing>,
                           w: Worths)
  {
    && InW(all, w) && InW(StacksOfAll(toOpen), w) && InW(Stacks(rest), w)
    && Sorted(found, w) && money == Total(found, w)
    && (forall x | x in found :: w[x] > 0)
    && multiset(found) + (multiset(StacksOfAll(toOpen)) + multiset(Stacks(rest))) <= multiset(all)
    && Total(all, w) == money + Total(StacksOfAll(toOpen), w) + Total(Stacks(rest), w)
    && WorthBag(all, w) == WorthBag(found, w) + (WorthBag(StacksOfAll(toOpen), w) + WorthBag(Stacks(rest), w))
  }

  predicate InW(s: seq<Stack>, w: Worths) {
    forall x | x in s :: x in w
  }

  // A container at the front goes over, as it is, to those opened later.
  lemma BagAhead(toOpen: seq<seq<Thing>>, rest: seq<Thing>, w: Worths)
    requires rest != [] && rest[0].Bag? && InW(StacksOfAll(toOpen), w) && InW(Stacks(rest), w)
    ensures var more, after := StacksOfAll(toOpen + [rest[0].contents]), Stacks(rest[1..]);
      && InW(more, w) && InW(after, w)
      && multiset(more) + multiset(after) == multiset(StacksOfAll(toOpen)) + multiset(Stacks(rest))
      && Total(more, w) + Total(after, w) == Total(StacksOfAll(toOpen), w) + Total(Stacks(rest), w)
      && WorthBag(more, w) + WorthBag(after, w) == WorthBag(StacksOfAll(toOpen), w) + WorthBag(Stacks(rest), w)
  {
    var open, inside, after := StacksOfAll(toOpen), Stacks(rest[0].contents), Stacks(rest[1..]);
    OneMoreBag(toOpen, rest[0].contents);
    assert Stacks(rest) == inside + after;
    forall x | x in inside || x in after ensures x in Stacks(rest) {
    }
    TotalOfBoth(inside, after, w);
    TotalOfBoth(open, inside, w);
    BagOfBoth(inside, after, w);
    BagOfBoth(open, inside, w);
    Together(multiset(open), multiset(inside), multiset(after));
    Together(WorthBag(open, w), WorthBag(inside, w), WorthBag(after, w));
  }

  lemma Together<T>(a: multiset<T>, b: multiset<T>, c: multiset<T>)
    ensures (a + b) + c == a + (b + c)
  {
  }

  // A part of the last sum goes over to the first summand.
  lemma GoesOver<T>(f: multiset<T>, a: multiset<T>, x: multiset<T>, b: multiset<T>)
    ensures f + (a + (x + b)) == (f + x) + (a + b)
  {
  }

  lemma OpenLater(all: seq<Stack>, found: seq<Stack>, money: nat, toOpen: seq<seq<Thing>>, rest: seq<Thing>, w: Worths)
    requires rest != [] && rest[0].Bag? && Accounts(all, found, money, toOpen, rest, w)
    ensures Accounts(all, found, money, toOpen + [rest[0].contents], rest[1..], w)
    ensures SizeOfAll(toOpen + [rest[0].contents]) + Size(rest[1..]) <= SizeOfAll(toOpen) + Size(rest)
  {
    BagAhead(toOpen, rest, w);
    OneMoreToOpen(toOpen, rest[0].contents);
  }

  // What a stack at the front adds to the rest.
  lemma StackAhead(rest: seq<Thing>, w: Worths)
    requires rest != [] && rest[0].Coins? && InW(Stacks(rest), w)
    ensures var x, after := rest[0].stack, Stacks(rest[1..]);
      && x in w && InW(after, w) && multiset(Stacks(rest)) == multiset{x} + multiset(after)
      && Total(Stacks(rest), w) == w[x] + Total(after, w)
      && WorthBag(Stacks(rest), w) == WorthBag([x], w) + WorthBag(after, w)
  {
    var x, after := rest[0].stack, Stacks(rest[1..]);
    assert Stacks(rest) == [x] + after;
    assert x in Stacks(rest);
    forall y | y in after ensures y in Stacks(rest) {
    }
    TotalOfBoth([x], after, w);
    BagOfBoth([x], after, w);
  }

  lemma FindNothing(all: seq<Stack>, found: seq<Stack>, money: nat, toOpen: seq<seq<Thing>>, rest: seq<Thing>,
                    w: Worths)
    requires rest != [] && rest[0].Coins? && Accounts(all, found, money, toOpen, rest, w)
    requires rest[0].stack in w && w[rest[0].stack] == 0
    ensures Accounts(all, found, money, toOpen, rest[1..], w)
  {
    StackAhead(rest, w);
    assert WorthBag([rest[0].stack], w) == multiset{};
  }

  lemma FindCoins(all: seq<Stack>, found: seq<Stack>, more: seq<Stack>, money: nat, toOpen: seq<seq<Thing>>,
                  rest: seq<Thing>, w: Worths)
    requires rest != [] && rest[0].Coins? && Accounts(all, found, money, toOpen, rest, w)
    requires rest[0].stack in w && w[rest[0].stack] > 0
    requires InW(more, w) && Sorted(more, w) && Total(more, w) == money + w[rest[0].stack]
    requires multiset(more) == multiset(found) + multiset{rest[0].stack}
    requires WorthBag(more, w) == WorthBag(found, w) + WorthBag([rest[0].stack], w)
    ensures Accounts(all, more, money + w[rest[0].stack], toOpen, rest[1..], w)
  {
    StackAhead(rest, w);
    var x, after, open := rest[0].stack, Stacks(rest[1..]), StacksOfAll(toOpen);
    GoesOver(multiset(found), multiset(open), multiset{x}, multiset(after));
    GoesOver(WorthBag(found, w), WorthBag(open, w), WorthBag([x], w), WorthBag(after, w));
    forall y | y in more ensures w[y] > 0 {
      assert y in multiset(more);
    }
  }

  lemma NoCoinsThere(ts: seq<Thing>)
    requires ts != [] && ts[0].Other?
    ensures Stacks(ts) == Stacks(ts[1..])
  {
    assert [] + Stacks(ts[1..]) == Stacks(ts[1..]);
  }

  lemma PassOver(all: seq<Stack>, found: seq<Stack>, money: nat, toOpen: seq<seq<Thing>>, rest: seq<Thing>, w: Worths)
    requires rest != [] && rest[0].Other? && Accounts(all, found, money, toOpen, rest, w)
    ensures Accounts(all, found, money, toOpen, rest[1..], w)
  {
    NoCoinsThere(rest);
  }

  lemma OpenNext(all: seq<Stack>, found: seq<Stack>, money: nat, toOpen: seq<seq<Thing>>, w: Worths)
    requires toOpen != [] && Accounts(all, found, money, toOpen, [], w)
    ensures Accounts(all, found, money, toOpen[1..], toOpen[0], w)
  {
    var inside, after := Stacks(toOpen[0]), StacksOfAll(toOpen[1..]);
    assert StacksOfAll(toOpen) == inside + after;
    TotalOfBoth(inside, after, w);
    BagOfBoth(inside, after, w);
    forall x | x in inside || x in after ensures x in StacksOfAll(toOpen) {
    }
  }

  lemma RestOfMore(cs: seq<seq<Thing>>, i: nat, c: seq<Thing>)
    requires i <= |cs|
    ensures (cs + [c])[i..] == cs[i..] + [c]
  {
  }

  // One thing on the way: a container is opened later, a stack with some worth is entered.
  method LookAt(containers: seq<seq<Thing>>, i: nat, moneyMap: seq<Stack>, moneyCount: nat, thing: Thing,
                ghost rest: seq<Thing>, ghost all: seq<Stack>, ghost w: Worths)
    returns (inner: seq<seq<Thing>>, found: seq<Stack>, money: nat)
    requires Priced(w) && i <= |containers| && rest != [] && rest[0] == thing
    requires Accounts(all, moneyMap, moneyCount, containers[i..], rest, w)
    ensures i <= |inner| && Accounts(all, found, money, inner[i..], rest[1..], w)
    ensures SizeOfAll(inner[i..]) + Size(rest[1..]) <= SizeOfAll(containers[i..]) + Size(rest)
  {
    inner, found, money := containers, moneyMap, moneyCount;
    match thing {
      case Bag(contents) =>
        OpenLater(all, found, money, containers[i..], rest, w);
        inner := inner + [contents];
        RestOfMore(containers, i, contents);
      case Coins(stack) =>
        assert stack in Stacks(rest);
        var worth := stack.GetWorth();
        if worth != 0 {
          found := Emplace(found, stack, w);
          FindCoins(all, moneyMap, found, money, containers[i..], rest, w);
        } else {
          FindNothing(all, found, money, containers[i..], rest, w);
        }
        money := money + worth;
      case Other =>
        PassOver(all, found, money, containers[i..], rest, w);
    }
  }

  // Goes through one container, or the cylinder itself.
  method Look(ts: seq<Thing>, containers: seq<seq<Thing>>, i: nat, moneyMap: seq<Stack>, moneyCount: nat,
              ghost all: seq<Stack>, ghost w: Worths)
    returns (inner: seq<seq<Thing>>, found: seq<Stack>, money: nat)
    requires Priced(w) && i <= |containers| && Accounts(all, moneyMap, moneyCount, containers[i..], ts, w)
    ensures i <= |inner| && Accounts(all, found, money, inner[i..], [], w)
    ensures SizeOfAll(inner[i..]) <= SizeOfAll(containers[i..]) + Size(ts)
  {
    inner, found, money := containers, moneyMap, moneyCount;
    var j := 0;
    assert ts[0..] == ts;
    while j < |ts|
      invariant 0 <= j <= |ts| && i <= |inner|
      invariant Accounts(all, found, money, inner[i..], ts[j..], w)
      invariant SizeOfAll(inner[i..]) + Size(ts[j..]) <= SizeOfAll(containers[i..]) + Size(ts)
    {
      OneLess(ts, j);
      inner, found, money := LookAt(inner, i, found, money, ts[j], ts[j..], all, w);
      j := j + 1;
    }
    assert ts[|ts|..] == [];
  }

  lemma NothingFound(all: seq<Stack>, things: seq<Thing>, w: Worths)
    requires all == Stacks(things) && InW(all, w)
    ensures Accounts(all, [], 0, [], things, w)
  {
    assert StacksOfAll([]) == [] && WorthBag([], w) == multiset{};
    GoesOver(multiset{}, multiset{}, multiset{}, multiset(all));
    GoesOver(multiset{}, multiset{}, multiset{}, WorthBag(all, w));
  }

  /** Every stack of coins with some worth, at any depth, by rising worth, and what they are worth
      together. */
  method Gather(things: seq<Thing>, ghost w: Worths) returns (moneyMap: seq<Stack>, moneyCount: nat)
    requires Priced(w) && InW(Stacks(things), w)
    ensures Sorted(moneyMap, w) && multiset(moneyMap) <= multiset(Stacks(things))
    ensures moneyCount == Total(moneyMap, w) == Total(Stacks(things), w)
    ensures WorthBag(moneyMap, w) == WorthBag(Stacks(things), w)
    ensures forall x | x in moneyMap :: w[x] > 0
  {
    ghost var all := Stacks(things);
    var containers: seq<seq<Thing>> := [];
    moneyMap, moneyCount := [], 0;
    NothingFound(all, things, w);
    assert containers[0..] == [];
    containers, moneyMap, moneyCount := Look(things, containers, 0, moneyMap, moneyCount, all, w);
    var i := 0;
    while i < |containers|
      invariant 0 <= i <= |containers|
      invariant Accounts(all, moneyMap, moneyCount, containers[i..], [], w)
      decreases SizeOfAll(containers[i..])
    {
      ghost var toOpen := containers[i..];
      OneLess(containers, i);
      OpenNext(all, moneyMap, moneyCount, toOpen, w);
      var container := containers[i];
      i := i + 1;
      containers, moneyMap, moneyCount := Look(container, containers, i, moneyMap, moneyCount, all, w);
    }
    assert containers[i..] == [];
  }

  // What is still to be paid once every stack worth less has gone whole, cheapest first.
  function Leftover(keys: seq<nat>, money: nat): nat {
    if keys == [] || keys[0] >= money then money else Leftover(keys[1..], money - keys[0])
  }

  function Keys(s: seq<Stack>, w: Worths): (keys: seq<nat>)
    requires InW(s, w)
    ensures |keys| == |s| && forall k | 0 <= k < |s| :: keys[k] == w[s[k]]
  {
    if s == [] then [] else [w[s[0]]] + Keys(s[1..], w)
  }

  function SumOf(keys: seq<nat>): nat {
    if keys == [] then 0 else keys[0] + SumOf(keys[1..])
  }

  predicate Rising(keys: seq<nat>) {
    keys != [] ==> (forall y | y in keys[1..] :: keys[0] <= y) && Rising(keys[1..])
  }

  lemma FirstIsLeast(keys: seq<nat>, y: nat)
    requires Rising(keys) && y in keys
    ensures keys[0] <= y
  {
    assert keys == [keys[0]] + keys[1..];
  }

  // A key at its place among others.
  function Ranked(keys: seq<nat>, x: nat): seq<nat> {
    if keys == [] || x <= keys[0] then [x] + keys else [keys[0]] + Ranked(keys[1..], x)
  }

  lemma {:induction false} RankedBag(keys: seq<nat>, x: nat)
    ensures multiset(Ranked(keys, x)) == multiset(keys) + multiset{x} && SumOf(Ranked(keys, x)) == SumOf(keys) + x
  {
    if keys != [] && x > keys[0] {
      RankedBag(keys[1..], x);
      assert keys == [keys[0]] + keys[1..];
      assert Ranked(keys, x)[1..] == Ranked(keys[1..], x);
    } else {
      assert Ranked(keys, x)[1..] == keys;
    }
  }

  lemma {:induction false} RankedRises(keys: seq<nat>, x: nat)
    requires Rising(keys)
    ensures Rising(Ranked(keys, x))
  {
    var r := Ranked(keys, x);
    if keys == [] || x <= keys[0] {
      assert r[1..] == keys;
      forall y | y in keys ensures x <= y {
        FirstIsLeast(keys, y);
      }
    } else {
      var rest := Ranked(keys[1..], x);
      RankedRises(keys[1..], x);
      RankedBag(keys[1..], x);
      assert r[1..] == rest;
      forall y | y in rest ensures keys[0] <= y {
        assert y in multiset(rest);
        if y != x {
          assert y in multiset(keys[1..]);
          assert y in keys[1..];
        }
      }
    }
  }

  // The same keys, rising.
  function InOrder(keys: seq<nat>): seq<nat> {
    if keys == [] then [] else Ranked(InOrder(keys[1..]), keys[0])
  }

  lemma {:induction false} InOrderRises(keys: seq<nat>)
    ensures Rising(InOrder(keys)) && multiset(InOrder(keys)) == multiset(keys) && SumOf(InOrder(keys)) == SumOf(keys)
  {
    if keys != [] {
      InOrderRises(keys[1..]);
      RankedRises(InOrder(keys[1..]), keys[0]);
      RankedBag(InOrder(keys[1..]), keys[0]);
      assert keys == [keys[0]] + keys[1..];
    }
  }

  lemma WithoutFirst(a: seq<nat>)
    requires a != []
    ensures multiset(a[1..]) == multiset(a) - multiset{a[0]}
  {
    assert a == [a[0]] + a[1..];
  }

  lemma SameFirst(a: seq<nat>, b: seq<nat>)
    requires Rising(a) && Rising(b) && multiset(a) == multiset(b) && a != []
    ensures b != [] && a[0] == b[0]
  {
    assert a[0] in multiset(a);
    assert a[0] in b;
    assert b[0] in multiset(b);
    assert b[0] in a;
    FirstIsLeast(b, a[0]);
    FirstIsLeast(a, b[0]);
  }

  // There is only one rising order.
  lemma {:induction false} RisingUnique(a: seq<nat>, b: seq<nat>)
    requires Rising(a) && Rising(b) && multiset(a) == multiset(b)
    ensures a == b
  {
    if a != [] {
      SameFirst(a, b);
      WithoutFirst(a);
      WithoutFirst(b);
      RisingUnique(a[1..], b[1..]);
      assert a == [a[0]] + a[1..] && b == [b[0]] + b[1..];
    } else if b != [] {
      SameFirst(b, a);
    }
  }

  // The worths of the stacks that are worth something, rising.
  function RisingWorths(s: seq<Stack>, w: Worths): seq<nat>
    requires forall x | x in s :: x in w
  {
    InOrder(Worthy(s, w))
  }

  lemma {:induction false} WorthySum(s: seq<Stack>, w: Worths)
    requires InW(s, w)
    ensures SumOf(Worthy(s, w)) == Total(s, w)
  {
    if s != [] {
      WorthySum(s[1..], w);
      if w[s[0]] > 0 {
        assert Worthy(s, w)[1..] == Worthy(s[1..], w);
      } else {
        assert Worthy(s, w) == Worthy(s[1..], w);
      }
    }
  }

  lemma RisingWorthsSum(s: seq<Stack>, w: Worths)
    requires InW(s, w)
    ensures SumOf(RisingWorths(s, w)) == Total(s, w)
  {
    InOrderRises(Worthy(s, w));
    WorthySum(s, w);
  }

  lemma {:induction false} SortedRises(s: seq<Stack>, w: Worths)
    requires Sorted(s, w)
    ensures Rising(Keys(s, w))
  {
    if s != [] {
      SortedRises(s[1..], w);
      assert Keys(s, w)[1..] == Keys(s[1..], w);
    }
  }

  lemma {:induction false} KeysAreWorthy(s: seq<Stack>, w: Worths)
    requires InW(s, w) && forall x | x in s :: w[x] > 0
    ensures Keys(s, w) == Worthy(s, w)
  {
    if s != [] {
      KeysAreWorthy(s[1..], w);
    }
  }

  // The keys of the multimap are the rising worths of all the stacks.
  lemma KeysAreRisingWorths(list: seq<Stack>, all: seq<Stack>, w: Worths)
    requires InW(all, w) && Sorted(list, w) && (forall x | x in list :: w[x] > 0)
    requires WorthBag(list, w) == WorthBag(all, w)
    ensures Keys(list, w) == RisingWorths(all, w)
  {
    KeysAreWorthy(list, w);
    SortedRises(list, w);
    InOrderRises(Worthy(all, w));
    RisingUnique(Keys(list, w), RisingWorths(all, w));
  }

  // With enough coins the leftover is at least one and comes out of a single stack.
  lemma {:induction false} LeftoverIsPartOfOne(keys: seq<nat>, money: nat)
    requires money > 0 && SumOf(keys) >= money
    ensures 1 <= Leftover(keys, money) <= money
    ensures exists k | 0 <= k < |keys| :: Leftover(keys, money) <= keys[k]
  {
    if keys[0] < money {
      LeftoverIsPartOfOne(keys[1..], money - keys[0]);
      var k :| 0 <= k < |keys[1..]| && Leftover(keys[1..], money - keys[0]) <= keys[1..][k];
      assert keys[k + 1] == keys[1..][k];
    } else {
      assert Leftover(keys, money) <= keys[0];
    }
  }

  /** The leftover is what is owed when the cheapest stacks have gone: the first stack that reaches the
      rest settles it. */
  lemma {:induction false} LeftoverOfFirst(keys: seq<nat>, money: nat) returns (k: nat)
    requires money > 0 && SumOf(keys) >= money
    ensures k < |keys| && Leftover(keys, money) == money - SumOf(keys[..k]) <= keys[k]
    ensures forall j | 0 <= j <= k :: SumOf(keys[..j]) < money
  {
    if keys[0] >= money {
      k := 0;
      assert keys[..0] == [];
    } else {
      var rest := keys[1..];
      var later := LeftoverOfFirst(rest, money - keys[0]);
      k := later + 1;
      forall j | 0 <= j <= k ensures SumOf(keys[..j]) < money {
        if j > 0 {
          assert keys[..j][0] == keys[0] && keys[..j][1..] == rest[..j - 1];
        }
      }
      assert keys[..k][0] == keys[0] && keys[..k][1..] == rest[..later];
    }
  }

  lemma {:induction false} TotalUnchanged(s: seq<Stack>, w: Worths, x: Stack, v: nat)
    requires InW(s, w) && x !in s
    ensures Total(s, w[x := v]) == Total(s, w)
  {
    if s != [] {
      TotalUnchanged(s[1..], w, x, v);
    }
  }

  // One stack is worth something else now.
  lemma {:induction false} TotalUpdated(s: seq<Stack>, w: Worths, x: Stack, v: nat)
    requires InW(s, w) && NoDup(s) && x in s
    ensures Total(s, w[x := v]) == Total(s, w) - w[x] + v
  {
    if s[0] == x {
      assert x !in s[1..];
      TotalUnchanged(s[1..], w, x, v);
    } else {
      TotalUpdated(s[1..], w, x, v);
    }
  }

  lemma ChangeDue(unit: nat, count: nat, money: nat) returns (r: nat)
    requires unit > 0 && 0 < money < count * unit
    ensures r == (money + unit - 1) / unit
    ensures 1 <= r <= count && money <= unit * r < money + unit
    ensures (count - r) * unit == count * unit - unit * r
  {
    r := (money + unit - 1) / unit;
    var rest := (money + unit - 1) % unit;
    assert unit * r + rest == money + unit - 1;
    assert r == 0 ==> unit * r == 0;
    assert r >= count + 1 ==> unit * r >= unit * (count + 1) == count * unit + unit;
  }
}
