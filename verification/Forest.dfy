/**
 * The container forest as a value: what a heap of items looks like at one moment.
 * Items are nodes; a container node owns an ordered list of items and caches the
 * weight of everything inside it.  Here the cache is an unbounded number; the 32-bit
 * word of the real cache is that number reduced, which the heap model keeps track of.
 *
 * A node also carries a rank that grows from parent to child.  Such a rank exists
 * exactly when the parent links have no cycle, so keeping one is keeping the forest
 * acyclic.
 */
module Forest {
  import opened Options
  import opened Sequences

  // What two items must share to be merged; `timed` says that they have a running duration.
  datatype ItemType = ItemType(id: nat, stackable: bool, pickupable: bool, moveable: bool,
                               ammunition: bool, quiver: bool, unitWeight: nat, timed: bool)

  const MAX_STACK: nat := 100

  // What an item weighs by itself.
  function OwnWeight(kind: ItemType, count: nat): nat {
    if kind.stackable then kind.unitWeight * (if count < 1 then 1 else count) else kind.unitWeight
  }

  // A stack weighs what its pieces weigh, an empty one as much as one piece; anything else weighs the
  // same whatever its count.
  lemma WeightsAdd(kind: ItemType, a: nat, b: nat)
    ensures kind.stackable && a >= 1 && b >= 1 ==>
      OwnWeight(kind, a + b) == OwnWeight(kind, a) + OwnWeight(kind, b)
    ensures OwnWeight(kind, 1) == OwnWeight(kind, 0) == kind.unitWeight
    ensures !kind.stackable ==> OwnWeight(kind, a) == kind.unitWeight
    ensures kind.stackable && a >= 1 ==> OwnWeight(kind, a) == kind.unitWeight * a
  {
    assert kind.unitWeight * (a + b) == kind.unitWeight * a + kind.unitWeight * b;
  }

  datatype Node<K> = Node(parent: Option<K>, items: seq<K>, kind: ItemType, count: nat,
                          container: bool, capacity: nat, total: int, rank: nat)
  {
    // The item with everything in it.
    function Weight(): int {
      OwnWeight(kind, count) + total
    }
  }

  type Forest<K> = map<K, Node<K>>

  // ---------------------------------------------------------------- invariants
  // Each quantified invariant is stated node by node, through a predicate of its own,
  // so that a proof says at which node it uses it.

  ghost predicate RankedAt<K>(f: Forest<K>, i: K)
    requires i in f
  {
    match f[i].parent
    case None => true
    case Some(p) => p in f && f[p].rank < f[i].rank
  }

  ghost predicate Ranked<K>(f: Forest<K>) {
    forall i {:trigger RankedAt(f, i)} | i in f :: RankedAt(f, i)
  }

  ghost predicate LinkedUp<K>(f: Forest<K>, i: K)
    requires i in f
  {
    match f[i].parent
    case None => true
    case Some(p) => p in f && i in f[p].items
  }

  ghost predicate LinkedDown<K>(f: Forest<K>, c: K)
    requires c in f
  {
    && NoDup(f[c].items)
    && (f[c].items != [] ==> f[c].container)
    && forall x | x in f[c].items :: x in f && f[x].parent == Some(c)
  }

  ghost predicate Linked<K>(f: Forest<K>) {
    && (forall i {:trigger LinkedUp(f, i)} | i in f :: LinkedUp(f, i))
    && (forall c {:trigger LinkedDown(f, c)} | c in f :: LinkedDown(f, c))
  }

  ghost predicate WeighsRight<K>(f: Forest<K>, c: K)
    requires c in f
  {
    f[c].total == SumWeight(f, f[c].items)
  }

  ghost predicate WeighsRightBut<K>(f: Forest<K>, s: set<K>) {
    forall c {:trigger WeighsRight(f, c)} | c in f && c !in s :: WeighsRight(f, c)
  }

  // The invariant of every operation on containers.
  ghost predicate Inv<K>(f: Forest<K>) {
    Ranked(f) && Linked(f) && WeighsRightBut(f, {})
  }

  // ---------------------------------------------------------------- ancestors

  // The item itself and everything it is inside of.
  ghost function Chain<K>(f: Forest<K>, i: K): (s: set<K>)
    requires i in f
    ensures i in s && s <= f.Keys
    decreases f[i].rank
  {
    if f[i].parent.Some? && RankedAt(f, i) then {i} + Chain(f, f[i].parent.value) else {i}
  }

  // The same chain in order, from the item outwards.
  ghost function Path<K>(f: Forest<K>, i: K): seq<K>
    requires i in f
    decreases f[i].rank
  {
    if f[i].parent.Some? && RankedAt(f, i) then [i] + Path(f, f[i].parent.value) else [i]
  }

  lemma {:induction false} PathIsChain<K>(f: Forest<K>, i: K)
    requires Ranked(f) && i in f
    ensures var s := Path(f, i);
      && (set a | a in s) == Chain(f, i)
      && NoDup(s) && s != [] && s[0] == i
      && (forall a | a in s :: a in f)
      && f[s[|s| - 1]].parent == None
      && forall k, m | 0 <= k < m == k + 1 < |s| :: f[s[k]].parent == Some(s[m])
    decreases f[i].rank
  {
    ChainStep(f, i);
    if f[i].parent.Some? {
      var p := f[i].parent.value;
      PathIsChain(f, p);
      assert RankedAt(f, i) && Path(f, i) == [i] + Path(f, p);
      var rest, all := Path(f, p), Path(f, i);
      assert forall a | a in rest :: a in (set b | b in rest);
      assert i !in rest;
      assert forall k | 0 < k < |all| :: all[k] == rest[k - 1];
      assert (set a | a in all) == {i} + (set a | a in rest);
      forall k, m | 0 <= k < m == k + 1 < |all| ensures f[all[k]].parent == Some(all[m]) {
        assert all[m] == rest[m - 1];
        if k > 0 {
          assert f[rest[k - 1]].parent == Some(rest[m - 1]);
        }
      }
    }
  }

  // Everything strictly inside a.
  ghost function Inside<K>(f: Forest<K>, a: K): set<K> {
    set i | i in f && i != a && a in Chain(f, i)
  }

  lemma {:induction false} ChainRank<K>(f: Forest<K>, i: K, a: K)
    requires Ranked(f) && i in f && a in Chain(f, i)
    ensures a == i || f[a].rank < f[i].rank
    decreases f[i].rank
  {
    assert RankedAt(f, i);
    if a != i {
      ChainRank(f, f[i].parent.value, a);
    }
  }

  lemma ChainStep<K>(f: Forest<K>, i: K)
    requires Ranked(f) && i in f
    ensures f[i].parent.None? ==> Chain(f, i) == {i}
    ensures f[i].parent.Some? ==>
      var p := f[i].parent.value;
      p in f && f[p].rank < f[i].rank && Chain(f, i) == {i} + Chain(f, p) && i !in Chain(f, p)
  {
    assert RankedAt(f, i);
    if f[i].parent.Some? && i in Chain(f, f[i].parent.value) {
      ChainRank(f, f[i].parent.value, i);
    }
  }

  // Changing only x's parent leaves the part below x below x, and the rest alone.
  lemma {:induction false} ChainReparent<K>(f: Forest<K>, g: Forest<K>, x: K, i: K)
    requires Ranked(f) && Ranked(g) && f.Keys == g.Keys && i in f
    requires forall j | j in f && j != x :: f[j].parent == g[j].parent
    ensures x in Chain(f, i) <==> x in Chain(g, i)
    ensures x !in Chain(f, i) ==> Chain(f, i) == Chain(g, i)
    decreases f[i].rank
  {
    assert RankedAt(f, i) && RankedAt(g, i);
    if i != x && f[i].parent.Some? {
      ChainReparent(f, g, x, f[i].parent.value);
    }
  }

  // Only one child of a node is on any given chain.
  lemma {:induction false} ChainOneChild<K>(f: Forest<K>, i: K, x: K, y: K)
    requires Ranked(f) && i in f
    requires x in Chain(f, i) && y in Chain(f, i)
    requires f[x].parent.Some? && f[x].parent == f[y].parent
    ensures x == y
    decreases f[i].rank
  {
    assert RankedAt(f, i) && RankedAt(f, x) && RankedAt(f, y);
    if x != i && y != i {
      ChainOneChild(f, f[i].parent.value, x, y);
    } else if x != y {
      var p := f[i].parent.value;
      ChainRank(f, p, if x == i then y else x);
    }
  }

  // A chain passes through a child of every ancestor on it, and contains their chains.
  lemma {:induction false} ChainUp<K>(f: Forest<K>, i: K, a: K) returns (y: K)
    requires Ranked(f) && i in f && a in Chain(f, i)
    ensures Chain(f, a) <= Chain(f, i)
    ensures a != i ==> y in Chain(f, i) && f[y].parent == Some(a)
    decreases f[i].rank
  {
    assert RankedAt(f, i);
    y := i;
    if a != i && f[i].parent != Some(a) {
      y := ChainUp(f, f[i].parent.value, a);
    }
  }

  // ---------------------------------------------------------------- weights

  ghost function WeightOf<K>(f: Forest<K>, x: K): int {
    if x in f then f[x].Weight() else 0
  }

  ghost function SumWeight<K>(f: Forest<K>, xs: seq<K>): int {
    if xs == [] then 0
    else SumWeight(f, xs[..|xs| - 1]) + WeightOf(f, xs[|xs| - 1])
  }

  lemma {:induction false} SumSame<K>(f: Forest<K>, g: Forest<K>, xs: seq<K>)
    requires forall x | x in xs :: WeightOf(f, x) == WeightOf(g, x)
    ensures SumWeight(f, xs) == SumWeight(g, xs)
  {
    if xs != [] {
      SumSame(f, g, xs[..|xs| - 1]);
    }
  }

  lemma {:induction false} SumOne<K>(f: Forest<K>, g: Forest<K>, xs: seq<K>, k: nat)
    requires k < |xs|
    requires forall j | 0 <= j < |xs| && j != k :: WeightOf(g, xs[j]) == WeightOf(f, xs[j])
    ensures SumWeight(g, xs) - WeightOf(g, xs[k]) == SumWeight(f, xs) - WeightOf(f, xs[k])
  {
    var n := |xs| - 1;
    if n == k {
      SumSame(f, g, xs[..n]);
    } else {
      SumOne(f, g, xs[..n], k);
    }
  }

  lemma {:induction false} SumConcat<K>(f: Forest<K>, xs: seq<K>, ys: seq<K>)
    ensures SumWeight(f, xs + ys) == SumWeight(f, xs) + SumWeight(f, ys)
  {
    if ys == [] {
      assert xs + ys == xs;
    } else {
      var n := |ys| - 1;
      assert (xs + ys)[..|xs + ys| - 1] == xs + ys[..n];
      SumConcat(f, xs, ys[..n]);
    }
  }

  lemma SumInsert<K>(f: Forest<K>, xs: seq<K>, k: nat, x: K)
    requires k <= |xs|
    ensures SumWeight(f, InsertAt(xs, k, x)) == SumWeight(f, xs) + WeightOf(f, x)
  {
    assert xs == xs[..k] + xs[k..];
    assert (xs[..k] + [x])[..k] == xs[..k];
    SumConcat(f, xs[..k], xs[k..]);
    SumConcat(f, xs[..k] + [x], xs[k..]);
  }

  lemma SumDrop<K>(f: Forest<K>, xs: seq<K>, k: nat)
    requires k < |xs|
    ensures SumWeight(f, DropAt(xs, k)) == SumWeight(f, xs) - WeightOf(f, xs[k])
  {
    assert InsertAt(DropAt(xs, k), k, xs[k]) == xs;
    SumInsert(f, DropAt(xs, k), k, xs[k]);
  }

  // ---------------------------------------------------------------- propagation

  // Adding diff to the cached weight of every node of a set.
  ghost function Bump<K>(f: Forest<K>, s: set<K>, diff: int): (g: Forest<K>)
    ensures g.Keys == f.Keys
  {
    map i | i in f :: if i in s then f[i].(total := f[i].total + diff) else f[i]
  }

  lemma BumpKeepsLinks<K>(f: Forest<K>, s: set<K>, diff: int)
    requires Ranked(f) && Linked(f)
    ensures Ranked(Bump(f, s, diff)) && Linked(Bump(f, s, diff))
  {
    var g := Bump(f, s, diff);
    forall i | i in g ensures RankedAt(g, i) && LinkedUp(g, i) && LinkedDown(g, i) {
      assert RankedAt(f, i) && LinkedUp(f, i) && LinkedDown(f, i);
    }
  }

  lemma BumpOffChain<K>(f: Forest<K>, c: K, diff: int, i: K)
    requires Ranked(f) && Linked(f) && c in f && i in f
    requires i == c || i !in Chain(f, c)
    ensures SumWeight(Bump(f, Chain(f, c), diff), f[i].items) == SumWeight(f, f[i].items)
  {
    assert LinkedDown(f, i);
    forall x | x in f[i].items ensures x !in Chain(f, c) {
      if x in Chain(f, c) {
        assert RankedAt(f, x);
        var y := ChainUp(f, c, x);
        assert i in Chain(f, x);
        ChainRank(f, c, x);
      }
    }
    SumSame(f, Bump(f, Chain(f, c), diff), f[i].items);
  }

  lemma BumpOnChain<K>(f: Forest<K>, c: K, diff: int, i: K)
    requires Ranked(f) && Linked(f) && c in f
    requires i != c && i in Chain(f, c)
    ensures SumWeight(Bump(f, Chain(f, c), diff), f[i].items) == SumWeight(f, f[i].items) + diff
  {
    var s := Chain(f, c);
    var g := Bump(f, s, diff);
    var y := ChainUp(f, c, i);
    assert LinkedDown(f, i) && LinkedUp(f, y);
    var k := IndexOf(f[i].items, y);
    forall j | 0 <= j < |f[i].items| && j != k
      ensures WeightOf(g, f[i].items[j]) == WeightOf(f, f[i].items[j])
    {
      var x := f[i].items[j];
      if x in s {
        ChainOneChild(f, c, x, y);
      }
    }
    SumOne(f, g, f[i].items, k);
  }

  // What updateItemWeight does: diff is pushed through c and all its ancestors.
  ghost function Push<K>(f: Forest<K>, c: K, diff: int): (g: Forest<K>)
    requires c in f
    ensures g.Keys == f.Keys
  {
    Bump(f, Chain(f, c), diff)
  }

  // If c alone is off by diff, pushing diff up c's chain makes every cache right.
  lemma Reweigh<K>(f: Forest<K>, c: K, diff: int)
    requires Ranked(f) && Linked(f) && c in f && WeighsRightBut(f, {c})
    requires f[c].total + diff == SumWeight(f, f[c].items)
    ensures Inv(Push(f, c, diff))
  {
    var g := Bump(f, Chain(f, c), diff);
    BumpKeepsLinks(f, Chain(f, c), diff);
    forall i | i in g ensures WeighsRight(g, i) {
      if i == c || i !in Chain(f, c) {
        BumpOffChain(f, c, diff, i);
        assert i == c || WeighsRight(f, i);
      } else {
        BumpOnChain(f, c, diff, i);
        assert WeighsRight(f, i);
      }
    }
  }

  // ---------------------------------------------------------------- edits

  ghost predicate Linkable<K>(f: Forest<K>, c: K, x: K) {
    && Ranked(f) && Linked(f)
    && c in f && x in f && f[c].container && f[x].parent.None? && x !in Chain(f, c)
  }

  // x becomes the k-th item of c; everything in x moves below c with it.
  ghost function Link<K>(f: Forest<K>, c: K, x: K, k: nat): (g: Forest<K>)
    requires c in f && k <= |f[c].items|
    ensures g.Keys == f.Keys
  {
    map i | i in f ::
      Node(if i == x then Some(c) else f[i].parent,
           if i == c then InsertAt(f[c].items, k, x) else f[i].items,
           f[i].kind, f[i].count, f[i].container, f[i].capacity, f[i].total,
           if x in Chain(f, i) then f[i].rank + f[c].rank + 1 else f[i].rank)
  }

  lemma LinkKeeps<K>(f: Forest<K>, c: K, x: K, k: nat)
    requires Linkable(f, c, x) && k <= |f[c].items|
    ensures Ranked(Link(f, c, x, k)) && Linked(Link(f, c, x, k))
  {
    var g := Link(f, c, x, k);
    assert LinkedDown(f, c);
    assert x !in f[c].items;
    NoDupInsert(f[c].items, k, x);
    forall i | i in g ensures RankedAt(g, i) {
      assert RankedAt(f, i);
    }
    forall i | i in g ensures LinkedUp(g, i) {
      assert LinkedUp(f, i);
    }
    forall i | i in g ensures LinkedDown(g, i) {
      assert LinkedDown(f, i);
    }
  }

  ghost function IndexOf<K>(xs: seq<K>, x: K): (k: nat)
    requires x in xs
    ensures k < |xs| && xs[k] == x && x !in xs[..k]
  {
    if xs[0] == x then 0 else 1 + IndexOf(xs[1..], x)
  }

  ghost predicate Placed<K>(f: Forest<K>, x: K) {
    x in f && f[x].parent.Some? && LinkedUp(f, x)
  }

  // x leaves the list of its parent.
  ghost function Unlink<K>(f: Forest<K>, x: K): (g: Forest<K>)
    requires Placed(f, x)
    ensures g.Keys == f.Keys
  {
    var p := f[x].parent.value;
    map i | i in f ::
      Node(if i == x then None else f[i].parent,
           if i == p then DropAt(f[p].items, IndexOf(f[p].items, x)) else f[i].items,
           f[i].kind, f[i].count, f[i].container, f[i].capacity, f[i].total, f[i].rank)
  }

  lemma UnlinkKeeps<K>(f: Forest<K>, x: K)
    requires Placed(f, x) && Ranked(f) && Linked(f)
    ensures Ranked(Unlink(f, x)) && Linked(Unlink(f, x))
  {
    var p := f[x].parent.value;
    var g := Unlink(f, x);
    assert LinkedDown(f, p);
    NoDupDrop(f[p].items, IndexOf(f[p].items, x));
    forall i | i in g ensures RankedAt(g, i) && LinkedUp(g, i) {
      assert RankedAt(f, i) && LinkedUp(f, i);
    }
    forall i | i in g ensures LinkedDown(g, i) {
      assert LinkedDown(f, i);
    }
  }

  // Only what a node weighs by itself changes.
  ghost function Restock<K>(f: Forest<K>, x: K, kind: ItemType, count: nat): Forest<K>
    requires x in f
  {
    f[x := f[x].(kind := kind, count := count)]
  }

  lemma RestockKeeps<K>(f: Forest<K>, x: K, kind: ItemType, count: nat)
    requires Ranked(f) && Linked(f) && x in f
    ensures Ranked(Restock(f, x, kind, count)) && Linked(Restock(f, x, kind, count))
  {
    var g := Restock(f, x, kind, count);
    forall i | i in g ensures RankedAt(g, i) && LinkedUp(g, i) && LinkedDown(g, i) {
      assert RankedAt(f, i) && LinkedUp(f, i) && LinkedDown(f, i);
    }
  }

  // A list whose members kept their weights still weighs the same.
  lemma SumUntouched<K>(f: Forest<K>, g: Forest<K>, c: K)
    requires c in f && c in g && Linked(f) && WeighsRight(f, c)
    requires g[c].items == f[c].items && g[c].total == f[c].total
    requires forall x | x in f && f[x].parent == Some(c) :: WeightOf(f, x) == WeightOf(g, x)
    ensures WeighsRight(g, c)
  {
    assert LinkedDown(f, c);
    SumSame(f, g, f[c].items);
  }

  lemma LinkWeights<K>(f: Forest<K>, c: K, x: K, k: nat)
    requires Linkable(f, c, x) && k <= |f[c].items| && WeighsRightBut(f, {c})
    ensures var g := Link(f, c, x, k);
      && WeighsRightBut(g, {c})
      && SumWeight(g, g[c].items) == SumWeight(f, f[c].items) + f[x].Weight()
  {
    var g := Link(f, c, x, k);
    forall i | i in g && i != c ensures WeighsRight(g, i) {
      assert WeighsRight(f, i);
      SumUntouched(f, g, i);
    }
    SumInsert(f, f[c].items, k, x);
    SumSame(f, g, g[c].items);
  }

  lemma UnlinkWeights<K>(f: Forest<K>, x: K)
    requires Placed(f, x) && Inv(f)
    ensures var g := Unlink(f, x);
      var p := f[x].parent.value;
      && WeighsRightBut(g, {p})
      && SumWeight(g, g[p].items) == SumWeight(f, f[p].items) - f[x].Weight()
  {
    var p := f[x].parent.value;
    var g := Unlink(f, x);
    forall i | i in g && i != p ensures WeighsRight(g, i) {
      assert WeighsRight(f, i);
      SumUntouched(f, g, i);
    }
    SumSame(f, g, g[p].items);
    SumDrop(f, f[p].items, IndexOf(f[p].items, x));
  }

  lemma RestockWeights<K>(f: Forest<K>, x: K, kind: ItemType, count: nat)
    requires Placed(f, x) && Inv(f)
    ensures var g := Restock(f, x, kind, count);
      var p := f[x].parent.value;
      && WeighsRightBut(g, {p})
      && SumWeight(g, g[p].items) == SumWeight(f, f[p].items) + g[x].Weight() - f[x].Weight()
  {
    var g := Restock(f, x, kind, count);
    var p := f[x].parent.value;
    forall i | i in g && i != p ensures WeighsRight(g, i) {
      assert WeighsRight(f, i);
      SumUntouched(f, g, i);
    }
    assert LinkedDown(f, p) && RankedAt(f, x);
    SumOne(f, g, f[p].items, IndexOf(f[p].items, x));
  }

  // ---------------------------------------------------------------- operations

  // How much heavier x is than y.
  ghost function Gain<K>(f: Forest<K>, x: K, y: K): int
    requires x in f && y in f
  {
    f[x].Weight() - f[y].Weight()
  }

  ghost function Attach<K>(f: Forest<K>, c: K, x: K, k: nat): Forest<K>
    requires c in f && x in f && k <= |f[c].items|
  {
    Push(Link(f, c, x, k), c, f[x].Weight())
  }

  ghost function Detach<K>(f: Forest<K>, x: K): Forest<K>
    requires Placed(f, x)
  {
    Push(Unlink(f, x), f[x].parent.value, 0 - f[x].Weight())
  }

  ghost function Update<K>(f: Forest<K>, x: K, kind: ItemType, count: nat): Forest<K>
    requires Placed(f, x)
  {
    var g := Restock(f, x, kind, count);
    Push(g, f[x].parent.value, g[x].Weight() - f[x].Weight())
  }

  // The k-th item of c gives its place to x.
  ghost function Swap<K>(f: Forest<K>, c: K, x: K, k: nat): (g: Forest<K>)
    requires c in f && k < |f[c].items|
    requires Placed(f, f[c].items[k]) && f[f[c].items[k]].parent == Some(c)
    ensures g.Keys == f.Keys
  {
    var u := Unlink(f, f[c].items[k]);
    Link(u, c, x, k)
  }

  ghost function Replace<K>(f: Forest<K>, c: K, x: K, k: nat): Forest<K>
    requires c in f && x in f && k < |f[c].items|
    requires Placed(f, f[c].items[k]) && f[f[c].items[k]].parent == Some(c)
  {
    Push(Swap(f, c, x, k), c, Gain(f, x, f[c].items[k]))
  }

  // What the four edits leave of the lists, parents, types and counts.
  lemma AttachIs<K>(f: Forest<K>, c: K, x: K, k: nat, i: K)
    requires c in f && x in f && k <= |f[c].items| && i in f
    ensures var g := Attach(f, c, x, k);
      && g.Keys == f.Keys && g[i].parent == (if i == x then Some(c) else f[i].parent)
      && g[i].items == (if i == c then f[c].items[..k] + [x] + f[c].items[k..] else f[i].items)
      && g[i].kind == f[i].kind && g[i].count == f[i].count
      && g[i].container == f[i].container && g[i].capacity == f[i].capacity
  {
  }

  lemma {:induction false} IndexIs<T>(s: seq<T>, x: T, k: nat)
    requires NoDup(s) && k < |s| && s[k] == x
    ensures IndexOf(s, x) == k
  {
  }

  lemma DetachedIs<K>(f: Forest<K>, x: K, k: nat, i: K)
    requires Placed(f, x) && i in f
    requires var s := f[f[x].parent.value].items; NoDup(s) && k < |s| && s[k] == x
    ensures var g, p := Detach(f, x), f[x].parent.value;
      && g.Keys == f.Keys && g[i].parent == (if i == x then None else f[i].parent)
      && g[i].items == (if i == p then f[p].items[..k] + f[p].items[k + 1..] else f[i].items)
      && g[i].kind == f[i].kind && g[i].count == f[i].count
      && g[i].container == f[i].container && g[i].capacity == f[i].capacity
  {
    IndexIs(f[f[x].parent.value].items, x, k);
  }

  lemma UpdatedIs<K>(f: Forest<K>, x: K, kind: ItemType, count: nat, i: K)
    requires Placed(f, x) && i in f
    ensures var g := Update(f, x, kind, count);
      && g.Keys == f.Keys && g[i].parent == f[i].parent && g[i].items == f[i].items
      && g[i].kind == (if i == x then kind else f[i].kind) && g[i].count == (if i == x then count else f[i].count)
      && g[i].container == f[i].container && g[i].capacity == f[i].capacity
  {
  }

  lemma PutInPlace<T>(s: seq<T>, k: nat, x: T)
    requires k < |s|
    ensures InsertAt(DropAt(s, k), k, x) == s[k := x]
  {
  }

  lemma SwappedIs<K>(f: Forest<K>, c: K, x: K, k: nat, i: K)
    requires c in f && k < |f[c].items| && NoDup(f[c].items) && i in f
    requires Placed(f, f[c].items[k]) && f[f[c].items[k]].parent == Some(c)
    ensures var g, y := Swap(f, c, x, k), f[c].items[k];
      && g[i].parent == (if i == x then Some(c) else if i == y then None else f[i].parent)
      && g[i].items == (if i == c then f[c].items[k := x] else f[i].items)
      && g[i] == f[i].(parent := g[i].parent, items := g[i].items, rank := g[i].rank)
  {
    IndexIs(f[c].items, f[c].items[k], k);
    PutInPlace(f[c].items, k, x);
  }

  lemma ReplacedIs<K>(f: Forest<K>, c: K, x: K, k: nat, i: K)
    requires c in f && x in f && k < |f[c].items| && NoDup(f[c].items) && i in f
    requires Placed(f, f[c].items[k]) && f[f[c].items[k]].parent == Some(c)
    ensures var g, y := Replace(f, c, x, k), f[c].items[k];
      && g.Keys == f.Keys && g[i].parent == (if i == x then Some(c) else if i == y then None else f[i].parent)
      && g[i].items == (if i == c then f[c].items[k := x] else f[i].items)
      && g[i] == f[i].(parent := g[i].parent, items := g[i].items, rank := g[i].rank, total := g[i].total)
  {
    SwappedIs(f, c, x, k, i);
  }

  lemma UnlinkKeepsChain<K>(f: Forest<K>, x: K)
    requires Placed(f, x) && Ranked(f) && Linked(f)
    ensures x !in Chain(f, f[x].parent.value)
    ensures Chain(Unlink(f, x), f[x].parent.value) == Chain(f, f[x].parent.value)
  {
    var p := f[x].parent.value;
    UnlinkKeeps(f, x);
    assert RankedAt(f, x);
    if x in Chain(f, p) {
      ChainRank(f, p, x);
    }
    ChainReparent(f, Unlink(f, x), x, p);
  }

  lemma BumpUnlinkCommute<K>(f: Forest<K>, x: K, s: set<K>, diff: int)
    requires Placed(f, x)
    ensures Placed(Bump(f, s, diff), x)
    ensures Unlink(Bump(f, s, diff), x) == Bump(Unlink(f, x), s, diff)
  {
    var b, p := Bump(f, s, diff), f[x].parent.value;
    assert b[x].parent == f[x].parent && b[p].items == f[p].items;
    var g, h := Unlink(b, x), Bump(Unlink(f, x), s, diff);
    forall i | i in f ensures g[i] == h[i] {
      assert b[i] == if i in s then f[i].(total := f[i].total + diff) else f[i];
    }
  }

  lemma AttachKeepsInv<K>(f: Forest<K>, c: K, x: K, k: nat)
    requires Linkable(f, c, x) && k <= |f[c].items| && Inv(f)
    ensures Inv(Attach(f, c, x, k))
  {
    LinkKeeps(f, c, x, k);
    LinkWeights(f, c, x, k);
    assert WeighsRight(f, c);
    Reweigh(Link(f, c, x, k), c, f[x].Weight());
  }

  lemma DetachKeepsInv<K>(f: Forest<K>, x: K)
    requires Placed(f, x) && Inv(f)
    ensures Inv(Detach(f, x))
  {
    var g, p, d := Unlink(f, x), f[x].parent.value, 0 - f[x].Weight();
    assert Detach(f, x) == Push(g, p, d);
    UnlinkKeeps(f, x);
    UnlinkWeights(f, x);
    assert WeighsRight(f, p);
    Reweigh(g, p, d);
  }

  lemma UpdateKeepsInv<K>(f: Forest<K>, x: K, kind: ItemType, count: nat)
    requires Placed(f, x) && Inv(f)
    ensures Inv(Update(f, x, kind, count))
  {
    RestockKeeps(f, x, kind, count);
    RestockWeights(f, x, kind, count);
    var g := Restock(f, x, kind, count);
    assert WeighsRight(f, f[x].parent.value) && RankedAt(f, x);
    Reweigh(g, f[x].parent.value, g[x].Weight() - f[x].Weight());
  }

  // removeThing pushes the weight first and takes the item out of the list afterwards.
  lemma DetachIs<K>(f: Forest<K>, g: Forest<K>, h: Forest<K>, x: K, p: K, d: int)
    requires Placed(f, x) && Inv(f) && f[x].parent == Some(p)
    requires d == 0 - f[x].Weight() && g == Push(f, p, d)
    requires Placed(g, x) && h == Unlink(g, x)
    ensures h == Detach(f, x) && Inv(h)
  {
    UnlinkKeepsChain(f, x);
    BumpUnlinkCommute(f, x, Chain(f, p), d);
    DetachKeepsInv(f, x);
  }

  lemma UpdateIs<K>(f: Forest<K>, g: Forest<K>, h: Forest<K>, x: K, p: K, kind: ItemType, count: nat, d: int)
    requires Placed(f, x) && Inv(f) && f[x].parent == Some(p)
    requires g == Restock(f, x, kind, count)
    requires d == g[x].Weight() - f[x].Weight() && h == Push(g, p, d)
    ensures h == Update(f, x, kind, count) && Inv(h)
  {
    UpdateKeepsInv(f, x, kind, count);
  }

  lemma ListedIsPlaced<K>(f: Forest<K>, c: K, k: nat)
    requires Linked(f) && c in f && k < |f[c].items|
    ensures Placed(f, f[c].items[k]) && f[f[c].items[k]].parent == Some(c)
  {
    assert LinkedDown(f, c) && LinkedUp(f, f[c].items[k]);
  }

  lemma UnlinkedIsLinkable<K>(f: Forest<K>, c: K, x: K, y: K)
    requires Linkable(f, c, x) && Placed(f, y) && f[y].parent == Some(c)
    ensures Linkable(Unlink(f, y), c, x)
  {
    UnlinkKeeps(f, y);
    UnlinkKeepsChain(f, y);
  }

  lemma SwapWeights<K>(f: Forest<K>, c: K, x: K, k: nat)
    requires Linkable(f, c, x) && Inv(f) && k < |f[c].items|
    requires Placed(f, f[c].items[k]) && f[f[c].items[k]].parent == Some(c)
    ensures var g := Swap(f, c, x, k);
      && Ranked(g) && Linked(g) && WeighsRightBut(g, {c}) && g[c].total == f[c].total
      && SumWeight(g, g[c].items)
         == SumWeight(f, f[c].items) + f[x].Weight() - f[f[c].items[k]].Weight()
  {
    var y := f[c].items[k];
    var u := Unlink(f, y);
    UnlinkedIsLinkable(f, c, x, y);
    UnlinkWeights(f, y);
    assert LinkedDown(f, c) && k <= |u[c].items|;
    LinkKeeps(u, c, x, k);
    LinkWeights(u, c, x, k);
  }

  lemma ReplaceKeepsInv<K>(f: Forest<K>, c: K, x: K, k: nat)
    requires Linkable(f, c, x) && Inv(f) && k < |f[c].items|
    requires Placed(f, f[c].items[k]) && f[f[c].items[k]].parent == Some(c)
    ensures Inv(Replace(f, c, x, k))
  {
    var g, y := Swap(f, c, x, k), f[c].items[k];
    var d := Gain(f, x, y);
    assert Replace(f, c, x, k) == Push(g, c, d);
    SwapWeights(f, c, x, k);
    assert WeighsRight(f, c);
    Reweigh(g, c, d);
  }

  // ---------------------------------------------------------------- what the cache means

  ghost predicate RanksBelow<K>(f: Forest<K>, n: nat) {
    forall i | i in f :: f[i].rank < n
  }

  // The weight of everything inside c, at any depth, in unbounded arithmetic.
  ghost function DeepWeight<K>(f: Forest<K>, n: nat, c: K): nat
    requires Ranked(f) && Linked(f) && RanksBelow(f, n) && c in f
    decreases n - f[c].rank, 1, 0
  {
    assert LinkedDown(f, c);
    DeepSum(f, n, c, f[c].items)
  }

  ghost function DeepSum<K>(f: Forest<K>, n: nat, c: K, xs: seq<K>): nat
    requires Ranked(f) && Linked(f) && RanksBelow(f, n) && c in f
    requires forall x | x in xs :: x in f && f[x].parent == Some(c)
    decreases n - f[c].rank, 0, |xs|
  {
    if xs == [] then 0
    else
      var x := xs[|xs| - 1];
      assert RankedAt(f, x);
      DeepSum(f, n, c, xs[..|xs| - 1]) + OwnWeight(f[x].kind, f[x].count) + DeepWeight(f, n, x)
  }

  // Whatever the depth, the cache is the recursive sum.
  lemma {:induction false} CachedWeightIsDeepWeight<K>(f: Forest<K>, n: nat, c: K)
    requires Inv(f) && RanksBelow(f, n) && c in f
    ensures f[c].total == DeepWeight(f, n, c)
    decreases n - f[c].rank, 1, 0
  {
    assert LinkedDown(f, c) && WeighsRight(f, c);
    CachedSumIsDeepSum(f, n, c, f[c].items);
  }

  lemma {:induction false} CachedSumIsDeepSum<K>(f: Forest<K>, n: nat, c: K, xs: seq<K>)
    requires Inv(f) && RanksBelow(f, n) && c in f
    requires forall x | x in xs :: x in f && f[x].parent == Some(c)
    ensures SumWeight(f, xs) == DeepSum(f, n, c, xs)
    decreases n - f[c].rank, 0, |xs|
  {
    if xs != [] {
      var x := xs[|xs| - 1];
      assert RankedAt(f, x);
      CachedSumIsDeepSum(f, n, c, xs[..|xs| - 1]);
      CachedWeightIsDeepWeight(f, n, x);
    }
  }
}
