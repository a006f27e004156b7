/** What adding, removing and restocking an item does to every cached weight. */
module Weights {
  import opened Options
  import opened Forest
  import opened Stock

  // The container c and those around it weigh n more inside; every other weighs as much as before.
  ghost predicate WeighsMore<K>(f: Forest<K>, g: Forest<K>, c: K, n: int) {
    && c in f && f.Keys <= g.Keys
    && forall d {:trigger WeighsMoreAt(f, g, c, n, d)} | d in f :: WeighsMoreAt(f, g, c, n, d)
  }

  ghost predicate WeighsMoreAt<K>(f: Forest<K>, g: Forest<K>, c: K, n: int, d: K)
    requires c in f && d in f && d in g
  {
    g[d].total == f[d].total + if d in Chain(f, c) then n else 0
  }

  // What n pieces weigh.
  function Pieces(unitWeight: nat, n: nat): nat {
    if n == 0 then 0 else Pieces(unitWeight, n - 1) + unitWeight
  }

  lemma {:induction false} PiecesAre(unitWeight: nat, n: nat)
    ensures Pieces(unitWeight, n) == unitWeight * n
  {
    if n > 0 {
      PiecesAre(unitWeight, n - 1);
    }
  }

  lemma {:induction false} PiecesAdd(unitWeight: nat, a: nat, b: nat)
    ensures Pieces(unitWeight, a + b) == Pieces(unitWeight, a) + Pieces(unitWeight, b)
  {
    if b > 0 {
      PiecesAdd(unitWeight, a, b - 1);
    }
  }

  lemma PiecesOfBoth(unitWeight: nat, n: nat, left: nat, m: nat, some: int, rest: int) returns (all: int)
    requires m == n + left && some == Pieces(unitWeight, n) && rest == Pieces(unitWeight, left)
    ensures all == some + rest == Pieces(unitWeight, m)
  {
    PiecesAdd(unitWeight, n, left);
    all := some + rest;
  }

  lemma PiecesPutBack(unitWeight: nat, count: nat, n: nat, total: nat, less: int, more: int) returns (w: int)
    requires total == count + n && less == 0 - Pieces(unitWeight, count) && more == Pieces(unitWeight, total)
    ensures w == less + more == Pieces(unitWeight, n)
  {
    PiecesAdd(unitWeight, count, n);
    w := less + more;
  }

  // A stack weighs its pieces and nothing else.
  lemma StackIsPieces<K>(f: Forest<K>, x: K)
    requires Inv(f) && Stocked(f) && x in f && f[x].kind.stackable
    ensures f[x].Weight() == OwnWeight(f[x].kind, f[x].count) == Pieces(f[x].kind.unitWeight, f[x].count)
  {
    assert StockedAt(f, x);
    StackWeighs(f, x);
    OwnIsPieces(f[x].kind, f[x].count);
  }

  lemma OwnIsPieces(kind: ItemType, n: nat)
    requires kind.stackable && n >= 1
    ensures OwnWeight(kind, n) == Pieces(kind.unitWeight, n)
  {
    WeightsAdd(kind, n, 1);
    PiecesAre(kind.unitWeight, n);
  }

  // The same containers are around c.
  ghost predicate SameAround<K>(f: Forest<K>, g: Forest<K>, c: K) {
    c in f && c in g && forall d {:trigger AroundAt(f, g, c, d)} | d in f :: AroundAt(f, g, c, d)
  }

  ghost predicate AroundAt<K>(f: Forest<K>, g: Forest<K>, c: K, d: K)
    requires c in f && c in g
  {
    d in Chain(g, c) <==> d in Chain(f, c)
  }

  lemma AroundTwice<K>(f: Forest<K>, g: Forest<K>, h: Forest<K>, c: K)
    requires SameAround(f, g, c) && SameAround(g, h, c) && f.Keys <= g.Keys
    ensures SameAround(f, h, c)
  {
    forall d | d in f ensures AroundAt(f, h, c, d) {
      assert AroundAt(f, g, c, d) && AroundAt(g, h, c, d);
    }
  }

  // What weighs w went from one container to another: the containers around both weigh as much as before.
  ghost predicate WeightMoved<K>(f: Forest<K>, g: Forest<K>, from: K, to: K, w: int) {
    && from in f && to in f && f.Keys <= g.Keys
    && forall d {:trigger g[d]} | d in f ::
         g[d].total == f[d].total - (if d in Chain(f, from) then w else 0) + (if d in Chain(f, to) then w else 0)
  }

  lemma WeighsMoreTwice<K>(f: Forest<K>, g: Forest<K>, h: Forest<K>, c: K, n: int, m: int, sum: int)
    requires WeighsMore(f, g, c, n) && SameAround(f, g, c) && WeighsMore(g, h, c, m) && sum == n + m
    ensures WeighsMore(f, h, c, sum)
  {
    forall d | d in f ensures WeighsMoreAt(f, h, c, sum, d) {
      assert WeighsMoreAt(f, g, c, n, d) && WeighsMoreAt(g, h, c, m, d) && AroundAt(f, g, c, d);
    }
  }

  lemma TakenAndGiven<K>(f: Forest<K>, g: Forest<K>, h: Forest<K>, from: K, to: K, less: int, w: int)
    requires WeighsMore(f, g, from, less) && SameAround(f, g, to) && WeighsMore(g, h, to, w) && less == 0 - w
    ensures WeightMoved(f, h, from, to, w)
  {
    forall d | d in f ensures h[d].total ==
      f[d].total - (if d in Chain(f, from) then w else 0) + (if d in Chain(f, to) then w else 0)
    {
      assert WeighsMoreAt(f, g, from, less, d) && WeighsMoreAt(g, h, to, w, d) && AroundAt(f, g, to, d);
    }
  }

  lemma DetachWeighs<K>(f: Forest<K>, g: Forest<K>, x: K, less: int)
    requires Inv(f) && Placed(f, x) && g == Detach(f, x) && less == 0 - f[x].Weight()
    ensures WeighsMore(f, g, f[x].parent.value, less)
  {
    UnlinkKeepsChain(f, x);
  }

  lemma DetachAround<K>(f: Forest<K>, g: Forest<K>, x: K, c: K)
    requires Inv(f) && Placed(f, x) && g == Detach(f, x) && c in f && x !in Chain(f, c)
    ensures SameAround(f, g, c)
  {
    DetachKeepsInv(f, x);
    ChainReparent(f, g, x, c);
  }

  lemma {:induction false} SameParents<K>(f: Forest<K>, g: Forest<K>, c: K)
    requires Ranked(f) && Ranked(g) && f.Keys <= g.Keys && c in f
    requires forall i | i in f :: g[i].parent == f[i].parent
    ensures SameAround(f, g, c) && Chain(g, c) == Chain(f, c)
    decreases f[c].rank
  {
    assert RankedAt(f, c) && RankedAt(g, c);
    if f[c].parent.Some? {
      SameParents(f, g, f[c].parent.value);
    }
  }

  lemma UpdateWeighs<K>(f: Forest<K>, g: Forest<K>, x: K, count: nat, n: int)
    requires Inv(f) && Placed(f, x) && g == Update(f, x, f[x].kind, count)
    requires n == OwnWeight(f[x].kind, count) - OwnWeight(f[x].kind, f[x].count)
    ensures WeighsMore(f, g, f[x].parent.value, n)
  {
    RestockKeeps(f, x, f[x].kind, count);
    SameParents(f, Restock(f, x, f[x].kind, count), f[x].parent.value);
  }

  lemma UpdateAround<K>(f: Forest<K>, g: Forest<K>, x: K, count: nat, c: K)
    requires Inv(f) && Placed(f, x) && g == Update(f, x, f[x].kind, count) && c in f
    ensures SameAround(f, g, c)
  {
    UpdateKeepsInv(f, x, f[x].kind, count);
    SameParents(f, g, c);
  }

  lemma AttachWeighs<K>(f: Forest<K>, g: Forest<K>, c: K, x: K, w: int)
    requires Inv(f) && Linkable(f, c, x) && g == Attach(f, c, x, 0) && w == f[x].Weight()
    ensures WeighsMore(f, g, c, w)
  {
    LinkKeeps(f, c, x, 0);
    ChainReparent(f, Link(f, c, x, 0), x, c);
  }

  lemma AttachAround<K>(f: Forest<K>, g: Forest<K>, c: K, x: K, i: K)
    requires Inv(f) && Linkable(f, c, x) && g == Attach(f, c, x, 0) && i in f && x !in Chain(f, i)
    ensures SameAround(f, g, i)
  {
    AttachKeepsInv(f, c, x, 0);
    ChainReparent(f, g, x, i);
  }
}
