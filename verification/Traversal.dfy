/**
 * What the queue iterator over a container must produce: the contents of the container
 * and of everything visited, list after list, in the order visited.  A sequence v that
 * satisfies v == Flatten([root] + v) is the breadth-first walk below root.
 */
module Traversal {
  import opened Options
  import opened Sequences
  import opened Forest

  ghost function ItemsOf<K>(f: Forest<K>, c: K): seq<K> {
    if c in f then f[c].items else []
  }

  // The lists of the given containers, one after the other.
  ghost function Flatten<K>(f: Forest<K>, cs: seq<K>): seq<K> {
    if cs == [] then [] else Flatten(f, cs[..|cs| - 1]) + ItemsOf(f, cs[|cs| - 1])
  }

  lemma {:induction false} FlattenConcat<K>(f: Forest<K>, a: seq<K>, b: seq<K>)
    ensures Flatten(f, a + b) == Flatten(f, a) + Flatten(f, b)
  {
    if b == [] {
      assert a + b == a;
    } else {
      assert (a + b)[..|a + b| - 1] == a + b[..|b| - 1];
      FlattenConcat(f, a, b[..|b| - 1]);
    }
  }

  lemma {:induction false} FlattenParent<K>(f: Forest<K>, cs: seq<K>, x: K)
    requires Linked(f)
    ensures x in Flatten(f, cs) <==> exists c :: c in cs && c in f && x in f && f[x].parent == Some(c)
  {
    if cs != [] {
      var c := cs[|cs| - 1];
      FlattenParent(f, cs[..|cs| - 1], x);
      if c in f {
        assert LinkedDown(f, c);
        if x in f && f[x].parent == Some(c) {
          assert LinkedUp(f, x);
        }
      }
      assert forall d :: d in cs <==> d == c || d in cs[..|cs| - 1];
    }
  }

  // v has been yielded and q is still queued, in a walk that started at root.
  ghost predicate Walking<K>(f: Forest<K>, root: K, v: seq<K>, q: seq<K>) {
    && Flatten(f, [root] + v) == v + q
    && NoDup(v + q)
    && forall x | x in v + q :: x in Inside(f, root)
  }

  lemma WalkStart<K>(f: Forest<K>, root: K)
    requires Inv(f) && root in f
    ensures Walking(f, root, [], f[root].items)
  {
    var v: seq<K> := [];
    assert [root] + v == [root];
    assert [root][..0] == [];
    assert LinkedDown(f, root);
    assert v + f[root].items == f[root].items;
    forall x | x in f[root].items ensures x in Inside(f, root) {
      ChildInside(f, root, root, x);
    }
  }

  lemma ChildInside<K>(f: Forest<K>, root: K, c: K, x: K)
    requires Ranked(f) && root in f && x in f && f[x].parent == Some(c)
    requires c == root || c in Inside(f, root)
    ensures x in Inside(f, root)
  {
    assert RankedAt(f, x);
    if c != root {
      ChainRank(f, c, root);
    }
  }

  // The front of the queue has not been yielded yet.
  lemma FrontIsNew<K>(v: seq<K>, q: seq<K>)
    requires q != [] && NoDup(v + q)
    ensures q[0] !in v
  {
    var all := v + q;
    forall k | 0 <= k < |v| ensures v[k] != q[0] {
      assert all[k] == v[k] && all[|v|] == q[0];
    }
  }

  // One advance: the front of the queue is yielded, its own items join the queue.
  lemma WalkStep<K>(f: Forest<K>, root: K, v: seq<K>, q: seq<K>)
    requires Inv(f) && root in f && Walking(f, root, v, q) && q != []
    ensures q[0] in f && Walking(f, root, v + [q[0]], q[1..] + f[q[0]].items)
  {
    var x, all := q[0], v + q;
    assert all[|v|] == x && x in all;
    assert LinkedDown(f, x);
    FrontIsNew(v, q);
    var v', q' := v + [x], q[1..] + f[x].items;
    assert [root] + v' == ([root] + v) + [x];
    assert v' + q' == all + f[x].items;
    forall y | y in f[x].items ensures y !in all && y in Inside(f, root) {
      ChildInside(f, root, x, y);
      if y in all {
        FlattenParent(f, [root] + v, y);
      }
    }
    NoDupConcat(all, f[x].items);
  }

  ghost function Elements<K>(s: seq<K>): set<K> {
    set x | x in s
  }

  lemma {:induction false} NoDupSize<K>(s: seq<K>)
    requires NoDup(s)
    ensures |Elements(s)| == |s|
  {
    if s != [] {
      var n := |s| - 1;
      NoDupSize(s[..n]);
      assert Elements(s) == Elements(s[..n]) + {s[n]};
    }
  }

  ghost function ContainersIn<K>(f: Forest<K>, s: set<K>): set<K> {
    set i | i in s && i in f && f[i].container
  }

  lemma CountOneMore<K>(f: Forest<K>, root: K, v: seq<K>, q: seq<K>)
    requires Walking(f, root, v, q) && q != [] && q[0] in f
    ensures |ContainersIn(f, Elements(v + [q[0]]))|
         == |ContainersIn(f, Elements(v))| + if f[q[0]].container then 1 else 0
  {
    var x, before := q[0], ContainersIn(f, Elements(v));
    FrontIsNew(v, q);
    assert Elements(v + [x]) == Elements(v) + {x};
    assert ContainersIn(f, Elements(v + [x])) == if f[x].container then before + {x} else before;
  }

  // No walk is longer than the forest, so it ends.
  lemma WalkBounded<K>(f: Forest<K>, root: K, v: seq<K>, q: seq<K>)
    requires Walking(f, root, v, q)
    ensures |v| + |q| <= |f|
  {
    var all := v + q;
    NoDupSize(all);
    assert Elements(all) <= f.Keys;
    SubsetSize(Elements(all), f.Keys);
  }

  lemma {:induction false} SubsetSize<K>(a: set<K>, b: set<K>)
    requires a <= b
    ensures |a| <= |b|
  {
    assert b == a + (b - a);
  }

  // The whole breadth-first walk.
  ghost predicate IsWalk<K>(f: Forest<K>, root: K, v: seq<K>) {
    && v == Flatten(f, [root] + v)
    && NoDup(v)
    && forall x | x in v :: x in Inside(f, root)
  }

  // When the queue runs dry everything inside root has been yielded, each item once.
  lemma WalkEnd<K>(f: Forest<K>, root: K, v: seq<K>)
    requires Inv(f) && root in f && Walking(f, root, v, [])
    ensures IsWalk(f, root, v)
    ensures Elements(v) == Inside(f, root) && |v| == |Inside(f, root)|
  {
    var none: seq<K> := [];
    assert v + none == v;
    forall x | x in Inside(f, root) ensures x in Elements(v) {
      PrefixReaches(f, root, v, x);
    }
    NoDupSize(v);
  }

  // There is only one such walk: the order is fixed, not only the set.
  lemma {:induction false} WalkUnique<K>(f: Forest<K>, root: K, v: seq<K>, w: seq<K>, n: nat)
    requires Inv(f) && root in f && IsWalk(f, root, v) && IsWalk(f, root, w)
    requires n <= |v| && n <= |w|
    ensures v[..n] == w[..n]
  {
    if n > 0 {
      WalkUnique(f, root, v, w, n - 1);
      NextIsFixed(f, root, v, n - 1);
      NextIsFixed(f, root, w, n - 1);
      OneMore(v, n - 1);
      OneMore(w, n - 1);
    }
  }

  lemma OneMore<K>(v: seq<K>, n: nat)
    requires n < |v|
    ensures v[..n + 1] == v[..n] + [v[n]]
  {
  }

  // The next item follows from the ones before.
  lemma NextIsFixed<K>(f: Forest<K>, root: K, v: seq<K>, n: nat)
    requires Inv(f) && root in f && IsWalk(f, root, v) && n < |v|
    ensures n < |Flatten(f, [root] + v[..n])| && v[n] == Flatten(f, [root] + v[..n])[n]
  {
    WalkPrefix(f, root, v, n);
  }

  // The lists of a proper prefix already contain the next item.
  lemma WalkPrefix<K>(f: Forest<K>, root: K, v: seq<K>, n: nat)
    requires Inv(f) && root in f && IsWalk(f, root, v) && n < |v|
    ensures var lists := Flatten(f, [root] + v[..n]);
      n < |lists| <= |v| && lists == v[..|lists|]
  {
    var p := v[..n];
    var lists := Flatten(f, [root] + p);
    ListsComeFirst(f, root, v, n);
    assert v[n] !in p by {
      assert p + v[n..] == v;
      FrontIsNew(p, v[n..]);
    }
    if |lists| <= n {
      assert lists == p[..|lists|];
      PrefixReaches(f, root, p, v[n]);
    }
  }

  lemma ListsComeFirst<K>(f: Forest<K>, root: K, v: seq<K>, n: nat)
    requires v == Flatten(f, [root] + v) && n <= |v|
    ensures var lists := Flatten(f, [root] + v[..n]);
      |lists| <= |v| && lists == v[..|lists|]
  {
    assert [root] + v == ([root] + v[..n]) + v[n..];
    FlattenConcat(f, [root] + v[..n], v[n..]);
  }

  // How many containers down from root an item is.
  ghost function DepthBelow<K>(f: Forest<K>, root: K, x: K): nat
    requires Ranked(f) && x in f
    decreases f[x].rank
  {
    assert RankedAt(f, x);
    if x == root || f[x].parent.None? then 0 else 1 + DepthBelow(f, root, f[x].parent.value)
  }

  // In the lists of some containers, one after the other, the items of a later list come later.
  lemma {:induction false} ListsInOrder<K>(f: Forest<K>, cs: seq<K>, j: nat, k: nat) returns (a: nat, b: nat)
    requires j < k < |Flatten(f, cs)|
    ensures a <= b < |cs| && Flatten(f, cs)[j] in ItemsOf(f, cs[a]) && Flatten(f, cs)[k] in ItemsOf(f, cs[b])
  {
    var m := |cs| - 1;
    var before := Flatten(f, cs[..m]);
    if k < |before| {
      a, b := ListsInOrder(f, cs[..m], j, k);
    } else if j < |before| {
      a := InSomeList(f, cs[..m], j);
      b := m;
    } else {
      a, b := m, m;
    }
  }

  lemma {:induction false} InSomeList<K>(f: Forest<K>, cs: seq<K>, j: nat) returns (a: nat)
    requires j < |Flatten(f, cs)|
    ensures a < |cs| && Flatten(f, cs)[j] in ItemsOf(f, cs[a])
  {
    var m := |cs| - 1;
    if j < |Flatten(f, cs[..m])| {
      a := InSomeList(f, cs[..m], j);
    } else {
      a := m;
    }
  }

  lemma OneDeeper<K>(f: Forest<K>, root: K, c: K, x: K)
    requires Inv(f) && root in f && x in Inside(f, root) && x in ItemsOf(f, c)
    ensures x in f && c in f && DepthBelow(f, root, x) == 1 + DepthBelow(f, root, c)
  {
    assert LinkedDown(f, c) && RankedAt(f, x);
  }

  /** The walk goes level by level: what is deeper comes later. */
  lemma {:induction false} WalkByDepth<K>(f: Forest<K>, root: K, v: seq<K>, j: nat, k: nat)
    requires Inv(f) && root in f && IsWalk(f, root, v) && j <= k < |v|
    ensures v[j] in f && v[k] in f && DepthBelow(f, root, v[j]) <= DepthBelow(f, root, v[k])
    decreases k
  {
    assert v[j] in v && v[k] in v;
    if j < k {
      var cs := [root] + v[..k];
      WalkPrefix(f, root, v, k);
      var lists := Flatten(f, cs);
      assert lists[j] == v[..|lists|][j] && lists[k] == v[..|lists|][k];
      var a, b := ListsInOrder(f, cs, j, k);
      OneDeeper(f, root, cs[a], v[j]);
      OneDeeper(f, root, cs[b], v[k]);
      if 0 < a {
        assert cs[a] == v[a - 1] && cs[b] == v[b - 1];
        WalkByDepth(f, root, v, a - 1, b - 1);
      }
    }
  }

  lemma {:induction false} PrefixReaches<K>(f: Forest<K>, root: K, p: seq<K>, x: K)
    requires Inv(f) && root in f && x in Inside(f, root)
    requires forall y | y in Flatten(f, [root] + p) :: y in p
    ensures x in p
    decreases f[x].rank
  {
    assert RankedAt(f, x) && LinkedUp(f, x);
    var c := f[x].parent.value;
    if c != root {
      PrefixReaches(f, root, p, c);
    }
    assert c in [root] + p;
    FlattenParent(f, [root] + p, x);
  }
}
