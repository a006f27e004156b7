/** How many goods of each kind a container's own list holds, and what the operations do to that. */
module Stock {
  import opened Options
  import opened Sequences
  import opened Forest

  ghost function CountIf<K>(f: Forest<K>, x: K, kind: ItemType): nat {
    if x in f && f[x].kind == kind then f[x].count else 0
  }

  ghost function CountAll<K>(f: Forest<K>, xs: seq<K>, kind: ItemType): nat {
    if xs == [] then 0 else CountAll(f, xs[..|xs| - 1], kind) + CountIf(f, xs[|xs| - 1], kind)
  }

  ghost function StockOf<K>(f: Forest<K>, c: K, kind: ItemType): nat
    requires c in f
  {
    CountAll(f, f[c].items, kind)
  }

  lemma {:induction false} CountSame<K>(f: Forest<K>, g: Forest<K>, xs: seq<K>, kind: ItemType)
    requires forall x | x in xs :: CountIf(f, x, kind) == CountIf(g, x, kind)
    ensures CountAll(f, xs, kind) == CountAll(g, xs, kind)
  {
    if xs != [] {
      CountSame(f, g, xs[..|xs| - 1], kind);
    }
  }

  lemma {:induction false} CountConcat<K>(f: Forest<K>, xs: seq<K>, ys: seq<K>, kind: ItemType)
    ensures CountAll(f, xs + ys, kind) == CountAll(f, xs, kind) + CountAll(f, ys, kind)
  {
    if ys == [] {
      assert xs + ys == xs;
    } else {
      var n := |ys| - 1;
      assert (xs + ys)[..|xs + ys| - 1] == xs + ys[..n];
      CountConcat(f, xs, ys[..n], kind);
    }
  }

  lemma CountInsert<K>(f: Forest<K>, xs: seq<K>, k: nat, x: K, kind: ItemType)
    requires k <= |xs|
    ensures CountAll(f, InsertAt(xs, k, x), kind) == CountAll(f, xs, kind) + CountIf(f, x, kind)
  {
    assert xs == xs[..k] + xs[k..];
    assert (xs[..k] + [x])[..k] == xs[..k];
    CountConcat(f, xs[..k], xs[k..], kind);
    CountConcat(f, xs[..k] + [x], xs[k..], kind);
  }

  lemma CountDrop<K>(f: Forest<K>, xs: seq<K>, k: nat, kind: ItemType)
    requires k < |xs|
    ensures CountAll(f, DropAt(xs, k), kind) == CountAll(f, xs, kind) - CountIf(f, xs[k], kind)
  {
    assert InsertAt(DropAt(xs, k), k, xs[k]) == xs;
    CountInsert(f, DropAt(xs, k), k, xs[k], kind);
  }

  lemma {:induction false} CountOne<K>(f: Forest<K>, g: Forest<K>, xs: seq<K>, k: nat, kind: ItemType)
    requires k < |xs|
    requires forall j | 0 <= j < |xs| && j != k :: CountIf(g, xs[j], kind) == CountIf(f, xs[j], kind)
    ensures CountAll(g, xs, kind) - CountIf(g, xs[k], kind) == CountAll(f, xs, kind) - CountIf(f, xs[k], kind)
  {
    var n := |xs| - 1;
    if n == k {
      CountSame(f, g, xs[..n], kind);
    } else {
      CountOne(f, g, xs[..n], k, kind);
    }
  }

  // ---------------------------------------------------------------- the operations

  lemma AttachStock<K>(f: Forest<K>, c: K, x: K, k: nat, d: K, kind: ItemType)
    requires c in f && x in f && k <= |f[c].items| && d in f
    ensures StockOf(Attach(f, c, x, k), d, kind)
         == StockOf(f, d, kind) + if d == c then CountIf(f, x, kind) else 0
  {
    var g := Attach(f, c, x, k);
    CountSame(f, g, g[d].items, kind);
    CountInsert(f, f[c].items, k, x, kind);
  }

  lemma DetachStock<K>(f: Forest<K>, x: K, d: K, kind: ItemType)
    requires Placed(f, x) && d in f
    ensures StockOf(Detach(f, x), d, kind)
         == StockOf(f, d, kind) - if f[x].parent == Some(d) then CountIf(f, x, kind) else 0
  {
    var g, p := Detach(f, x), f[x].parent.value;
    CountSame(f, g, g[d].items, kind);
    CountDrop(f, f[p].items, IndexOf(f[p].items, x), kind);
  }

  lemma UpdateStock<K>(f: Forest<K>, x: K, count: nat, d: K, kind: ItemType)
    requires Placed(f, x) && Linked(f) && d in f
    ensures StockOf(Update(f, x, f[x].kind, count), d, kind)
         == StockOf(f, d, kind)
            + if f[x].parent == Some(d) && f[x].kind == kind then count - f[x].count else 0
  {
    var g, p := Update(f, x, f[x].kind, count), f[x].parent.value;
    assert LinkedDown(f, d);
    if d == p {
      CountOne(f, g, f[d].items, IndexOf(f[d].items, x), kind);
    } else {
      CountSame(f, g, f[d].items, kind);
    }
  }

  // ---------------------------------------------------------------- sizes

  // Stacks hold between 1 and 100, lists are within capacity, a stack is not a container.
  ghost predicate StockedAt<K>(f: Forest<K>, i: K)
    requires i in f
  {
    && (f[i].kind.stackable ==> 1 <= f[i].count <= MAX_STACK && !f[i].container)
    && |f[i].items| <= f[i].capacity
  }

  ghost predicate Stocked<K>(f: Forest<K>) {
    forall i {:trigger StockedAt(f, i)} | i in f :: StockedAt(f, i)
  }

  lemma AttachStocked<K>(f: Forest<K>, c: K, x: K, k: nat)
    requires c in f && x in f && k <= |f[c].items|
    requires Stocked(f) && |f[c].items| < f[c].capacity
    ensures Stocked(Attach(f, c, x, k))
  {
    var g := Attach(f, c, x, k);
    forall i | i in g ensures StockedAt(g, i) {
      assert StockedAt(f, i);
    }
  }

  lemma DetachStocked<K>(f: Forest<K>, x: K)
    requires Placed(f, x) && Stocked(f)
    ensures Stocked(Detach(f, x))
  {
    var g := Detach(f, x);
    forall i | i in g ensures StockedAt(g, i) {
      assert StockedAt(f, i);
    }
  }

  lemma UpdateStocked<K>(f: Forest<K>, x: K, count: nat)
    requires Placed(f, x) && Stocked(f) && 1 <= count <= MAX_STACK
    ensures Stocked(Update(f, x, f[x].kind, count))
  {
    var g := Update(f, x, f[x].kind, count);
    forall i | i in g ensures StockedAt(g, i) {
      assert StockedAt(f, i);
    }
  }

  // ---------------------------------------------------------------- a newly made item

  ghost predicate Fresh<K>(f: Forest<K>, x: K, n: Node<K>) {
    x !in f && n.parent.None? && n.items == [] && n.total == 0
  }

  lemma {:induction false} ChainEnlarged<K>(f: Forest<K>, x: K, n: Node<K>, i: K)
    requires Inv(f) && Fresh(f, x, n) && i in f
    ensures Chain(f[x := n], i) == Chain(f, i)
    decreases f[i].rank
  {
    var g := f[x := n];
    assert RankedAt(f, i) && RankedAt(g, i);
    if f[i].parent.Some? {
      ChainEnlarged(f, x, n, f[i].parent.value);
    }
  }

  lemma Enlarged<K>(f: Forest<K>, x: K, n: Node<K>)
    requires Inv(f) && Fresh(f, x, n)
    ensures Inv(f[x := n])
    ensures Stocked(f) && (n.kind.stackable ==> 1 <= n.count <= MAX_STACK && !n.container) ==> Stocked(f[x := n])
    ensures forall c, kind | c in f :: StockOf(f[x := n], c, kind) == StockOf(f, c, kind)
  {
    var g := f[x := n];
    forall i | i in g ensures RankedAt(g, i) && LinkedUp(g, i) && LinkedDown(g, i) {
      if i in f {
        assert RankedAt(f, i) && LinkedUp(f, i) && LinkedDown(f, i);
      }
    }
    forall i | i in g ensures WeighsRight(g, i) {
      if i in f {
        assert WeighsRight(f, i) && LinkedDown(f, i);
        SumSame(f, g, f[i].items);
      }
    }
    if Stocked(f) && (n.kind.stackable ==> 1 <= n.count <= MAX_STACK && !n.container) {
      forall i | i in g ensures StockedAt(g, i) {
        if i in f {
          assert StockedAt(f, i);
        }
      }
    }
    forall c, kind | c in f ensures StockOf(g, c, kind) == StockOf(f, c, kind) {
      assert LinkedDown(f, c);
      CountSame(f, g, f[c].items, kind);
    }
  }

  // ---------------------------------------------------------------- weights of stacks

  // A stack weighs its pieces and nothing else.
  lemma StackWeighs<K>(f: Forest<K>, x: K)
    requires Inv(f) && Stocked(f) && x in f && f[x].kind.stackable
    ensures f[x].Weight() == f[x].kind.unitWeight * f[x].count
  {
    assert StockedAt(f, x) && LinkedDown(f, x) && WeighsRight(f, x);
    WeightsAdd(f[x].kind, f[x].count, 1);
  }

  ghost predicate StacksOf<K>(f: Forest<K>, xs: seq<K>, kind: ItemType) {
    kind.stackable && forall x | x in xs :: x in f && f[x].kind == kind
  }

  lemma {:induction false} StacksWeigh<K>(f: Forest<K>, xs: seq<K>, kind: ItemType)
    requires Inv(f) && Stocked(f) && StacksOf(f, xs, kind)
    ensures SumWeight(f, xs) == kind.unitWeight * CountAll(f, xs, kind)
  {
    if xs != [] {
      var n := |xs| - 1;
      assert xs[n] in xs;
      StacksWeigh(f, xs[..n], kind);
      StackWeighs(f, xs[n]);
      assert kind.unitWeight * (CountAll(f, xs[..n], kind) + f[xs[n]].count)
          == kind.unitWeight * CountAll(f, xs[..n], kind) + kind.unitWeight * f[xs[n]].count;
    }
  }

  /** A container that holds only stacks of one kind weighs as much inside as its stock of them. */
  lemma PurseWeighs<K>(f: Forest<K>, c: K, kind: ItemType)
    requires Inv(f) && Stocked(f) && c in f && StacksOf(f, f[c].items, kind)
    ensures f[c].total == kind.unitWeight * StockOf(f, c, kind)
  {
    assert WeighsRight(f, c);
    StacksWeigh(f, f[c].items, kind);
  }
}
