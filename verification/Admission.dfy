/**
 * What an accepted queryAdd guarantees about the forest after the item has been moved:
 * no container ends up inside itself, and the container whose contents were counted
 * stays within the configured limits.
 */
module Admission {
  import opened Options
  import opened Forest
  import opened Traversal

  datatype Limits = Limits(maxItem: nat, maxContainer: nat)

  // The container getTopParentContainer picks: c itself when nothing contains c, and
  // otherwise the ancestor just below the outermost container.
  ghost predicate IsTopChosen<K>(f: Forest<K>, c: K, t: K)
    requires c in f
  {
    && t in Chain(f, c)
    && match f[c].parent
       case None => t == c
       case Some(_) => f[t].parent.Some? && f[t].parent.value in f && f[f[t].parent.value].parent.None?
  }

  ghost predicate CountsFit<K>(f: Forest<K>, top: K, x: K, limits: Limits)
    requires x in f
  {
    && (f[x].container ==>
          && |ContainersIn(f, Inside(f, x))| + 1 + |ContainersIn(f, Inside(f, top))| <= limits.maxContainer
          && |Inside(f, x)| + 1 + |Inside(f, top)| <= limits.maxItem)
    && |Inside(f, top)| + 1 <= limits.maxItem
  }

  // Of two items around a third, one is around the other.
  lemma {:induction false} OneAroundOther<K>(f: Forest<K>, i: K, x: K, a: K)
    requires Ranked(f) && i in f && x in Chain(f, i) && a in Chain(f, i)
    ensures x in Chain(f, a) || a in Chain(f, x)
    decreases f[i].rank
  {
    assert RankedAt(f, i);
    if x != i && a != i {
      OneAroundOther(f, f[i].parent.value, x, a);
    }
  }

  // With a the outermost container around c: the one counted is a itself when c is not inside any
  // container, and otherwise lies in a.
  lemma TopChosenIsOutermost<K>(f: Forest<K>, c: K, t: K, a: K)
    requires Ranked(f) && c in f && IsTopChosen(f, c, t)
    requires a in Chain(f, c) && f[a].parent.None?
    ensures if f[c].parent.None? then t == c == a else f[t].parent == Some(a)
    ensures t == a <==> f[c].parent.None?
  {
    if f[c].parent.Some? {
      var p := f[t].parent.value;
      var y := ChainUp(f, c, t);
      ChainStep(f, t);
      OneAroundOther(f, c, a, p);
      ChainStep(f, a);
      ChainStep(f, p);
    }
  }

  lemma {:induction false} TopChosenUnique<K>(f: Forest<K>, c: K, t: K, u: K)
    requires Ranked(f) && c in f && IsTopChosen(f, c, t) && IsTopChosen(f, c, u)
    ensures t == u
    decreases f[c].rank
  {
    ChainStep(f, c);
    if f[c].parent.Some? {
      var p := f[c].parent.value;
      ChainStep(f, p);
      if f[p].parent.Some? {
        TopChosenUnique(f, p, t, u);
      }
    }
  }

  // A walk from child to parent, step by step.
  ghost predicate ParentWalk<K>(f: Forest<K>, s: seq<K>) {
    forall k, m | 0 <= k < m == k + 1 < |s| :: s[k] in f && f[s[k]].parent == Some(s[m])
  }

  lemma {:induction false} WalkClimbs<K>(f: Forest<K>, s: seq<K>, n: nat)
    requires Ranked(f) && ParentWalk(f, s) && 0 < n < |s|
    ensures s[0] in f && s[n] in f && f[s[n]].rank < f[s[0]].rank
  {
    var m := n - 1;
    assert s[m] in f && f[s[m]].parent == Some(s[n]);
    assert RankedAt(f, s[m]);
    if m > 0 {
      WalkClimbs(f, s, m);
    }
  }

  // No walk from child to parent ever returns to where it began.
  lemma NoCycle<K>(f: Forest<K>, s: seq<K>)
    requires Ranked(f) && ParentWalk(f, s) && |s| >= 2
    ensures s[0] != s[|s| - 1]
  {
    WalkClimbs(f, s, |s| - 1);
  }

  // The forest with x taken out of wherever it is.
  ghost function Freed<K>(f: Forest<K>, x: K): Forest<K>
    requires x in f && LinkedUp(f, x)
  {
    if f[x].parent.Some? then Detach(f, x) else f
  }

  ghost function Moved<K>(f: Forest<K>, c: K, x: K, k: nat): Forest<K>
    requires x in f && LinkedUp(f, x) && c in f && k <= |Freed(f, x)[c].items|
  {
    Attach(Freed(f, x), c, x, k)
  }

  lemma FreedIsLinkable<K>(f: Forest<K>, c: K, x: K)
    requires Inv(f) && c in f && x in f && f[c].container && x !in Chain(f, c)
    ensures LinkedUp(f, x) && Inv(Freed(f, x)) && Linkable(Freed(f, x), c, x)
  {
    assert LinkedUp(f, x);
    if f[x].parent.Some? {
      DetachKeepsInv(f, x);
      ChainReparent(f, Freed(f, x), x, c);
    }
  }

  lemma MovedParents<K>(f: Forest<K>, h: Forest<K>, c: K, x: K, k: nat)
    requires Ranked(f) && c in f && x in f && LinkedUp(f, x) && k <= |Freed(f, x)[c].items|
    requires h == Moved(f, c, x, k)
    ensures h.Keys == f.Keys && forall j | j in f && j != x :: f[j].parent == h[j].parent
  {
  }

  lemma SizeOfUnion<T>(a: set<T>, b: set<T>, x: T, s: set<T>)
    requires s <= a + {x} + b
    ensures |s| <= |a| + 1 + |b|
  {
    SubsetSize(s, a + {x} + b);
    assert |a + {x} + b| <= |a + {x}| + |b|;
    assert |a + {x}| <= |a| + 1;
  }

  lemma HolderIsContainer<K>(f: Forest<K>, i: K, x: K)
    requires Inv(f) && x in f && i in Inside(f, x)
    ensures f[x].container
  {
    var y := ChainUp(f, i, x);
    assert LinkedUp(f, y) && LinkedDown(f, x);
  }

  lemma PlainItemIsEmpty<K>(f: Forest<K>, x: K)
    requires Inv(f) && x in f && !f[x].container
    ensures Inside(f, x) == {}
  {
    forall i | i in Inside(f, x) ensures false {
      HolderIsContainer(f, i, x);
    }
  }

  lemma MovedKeepsInv<K>(f: Forest<K>, c: K, x: K, k: nat)
    requires Inv(f) && c in f && x in f && f[c].container && x !in Chain(f, c) && LinkedUp(f, x)
    requires k <= |Freed(f, x)[c].items|
    ensures var h := Moved(f, c, x, k);
      && Inv(h) && h.Keys == f.Keys && h[x].parent == Some(c)
      && forall a | a in f && a != x :: h[a].parent == f[a].parent
  {
    FreedIsLinkable(f, c, x);
    AttachKeepsInv(Freed(f, x), c, x, k);
  }

  lemma MovedContainers<K>(f: Forest<K>, c: K, x: K, k: nat)
    requires c in f && x in f && LinkedUp(f, x) && k <= |Freed(f, x)[c].items|
    ensures forall i | i in f :: i in Moved(f, c, x, k) && Moved(f, c, x, k)[i].container == f[i].container
  {
  }

  /** Accepting x into c (not below x, counts within limits) and then moving it there keeps the
      forest well-founded with exact weights, and keeps the counted container within MAX_ITEM
      and, when x is a container, within MAX_CONTAINER. */
  lemma AdmissionKeepsBounds<K>(f: Forest<K>, c: K, x: K, k: nat, t: K, limits: Limits)
    requires Inv(f) && c in f && x in f && f[c].container && x !in Chain(f, c) && LinkedUp(f, x)
    requires IsTopChosen(f, c, t) && CountsFit(f, t, x, limits)
    requires k <= |Freed(f, x)[c].items|
    ensures var h := Moved(f, c, x, k);
      && Inv(h) && h.Keys == f.Keys && h[x].parent == Some(c)
      && IsTopChosen(h, c, t)
      && |Inside(h, t)| <= limits.maxItem
      && (f[x].container ==> |ContainersIn(h, Inside(h, t))| <= limits.maxContainer)
  {
    MovedKeepsInv(f, c, x, k);
    MovedParents(f, Moved(f, c, x, k), c, x, k);
    InsideAfter(f, Moved(f, c, x, k), c, x, t);
    ChainReparent(f, Moved(f, c, x, k), x, c);
    assert forall i | i in f :: Moved(f, c, x, k)[i].container == f[i].container by {
      MovedContainers(f, c, x, k);
    }
    MovedCounts(f, Moved(f, c, x, k), x, t, limits);
    MovedTop(f, Moved(f, c, x, k), c, x, t);
  }

  lemma MovedTop<K>(f: Forest<K>, h: Forest<K>, c: K, x: K, t: K)
    requires Ranked(f) && Ranked(h) && f.Keys == h.Keys && c in f && IsTopChosen(f, c, t)
    requires Chain(h, c) == Chain(f, c) && x !in Chain(f, c)
    requires forall a | a in f && a != x :: h[a].parent == f[a].parent
    ensures IsTopChosen(h, c, t)
  {
    if f[c].parent.Some? {
      assert RankedAt(f, t);
      var y := ChainUp(f, c, t);
      assert f[t].parent.value in Chain(f, t);
    }
  }

  lemma MovedCounts<K>(f: Forest<K>, h: Forest<K>, x: K, t: K, limits: Limits)
    requires Inv(f) && x in f && CountsFit(f, t, x, limits) && h.Keys == f.Keys
    requires forall i | i in f :: h[i].container == f[i].container
    requires Inside(h, t) <= Inside(f, t) + {x} + Inside(f, x)
    ensures |Inside(h, t)| <= limits.maxItem
    ensures f[x].container ==> |ContainersIn(h, Inside(h, t))| <= limits.maxContainer
  {
    SizeOfUnion(Inside(f, t), Inside(f, x), x, Inside(h, t));
    if f[x].container {
      SizeOfUnion(ContainersIn(f, Inside(f, t)), ContainersIn(f, Inside(f, x)), x, ContainersIn(h, Inside(h, t)));
    } else {
      PlainItemIsEmpty(f, x);
    }
  }

  // ---- The containers around the counted one ----

  // After the move what is in x, and what was in a, is inside a.
  lemma ArrivesInside<K>(f: Forest<K>, h: Forest<K>, c: K, x: K, a: K, i: K)
    requires Ranked(f) && Ranked(h) && h.Keys == f.Keys && c in f && x in f && i in f
    requires forall j | j in f && j != x :: f[j].parent == h[j].parent
    requires h[x].parent == Some(c) && x !in Chain(f, c) && a in Chain(f, c)
    requires x in Chain(f, i) || i in Inside(f, a)
    ensures i in Inside(h, a)
  {
    ChainReparent(f, h, x, i);
    ChainReparent(f, h, x, c);
    var up := ChainUp(f, c, a);
    if x in Chain(f, i) {
      ChainStep(h, x);
      var y := ChainUp(h, i, x);
    }
  }

  // A container around c ends up with what it had, x, and all that is in x.
  lemma InsideAfter<K>(f: Forest<K>, h: Forest<K>, c: K, x: K, a: K)
    requires Ranked(f) && Ranked(h) && h.Keys == f.Keys && c in f && x in f
    requires forall j | j in f && j != x :: f[j].parent == h[j].parent
    requires h[x].parent == Some(c) && x !in Chain(f, c) && a in Chain(f, c)
    ensures Inside(h, a) == Inside(f, a) + {x} + Inside(f, x)
  {
    forall i | i in Inside(f, a) + {x} + Inside(f, x) ensures i in Inside(h, a) {
      ArrivesInside(f, h, c, x, a, i);
    }
    forall i | i in Inside(h, a) ensures i in Inside(f, a) + {x} + Inside(f, x) {
      ChainReparent(f, h, x, i);
    }
  }

  lemma SizeWithArrivals<K>(f: Forest<K>, x: K, a: K)
    requires Ranked(f) && x in f && a in f && x !in Chain(f, a)
    ensures |Inside(f, a) + {x} + Inside(f, x)| == |Inside(f, a)| + if x in Inside(f, a) then 0 else 1 + |Inside(f, x)|
  {
    if x in Inside(f, a) {
      forall i | i in Inside(f, x) ensures i in Inside(f, a) {
        var y := ChainUp(f, i, x);
      }
      assert Inside(f, a) + {x} + Inside(f, x) == Inside(f, a);
    } else {
      forall i | i in Inside(f, x) ensures i !in Inside(f, a) {
        if i in Inside(f, a) {
          OneAroundOther(f, i, x, a);
        }
      }
      assert Inside(f, a) !! {x} + Inside(f, x);
      assert Inside(f, a) + {x} + Inside(f, x) == Inside(f, a) + ({x} + Inside(f, x));
    }
  }

  /** What the move does to the contents of any container a around c, the outermost one included:
      they grow by x and all that is in x, unless x was inside a before. */
  lemma AroundGrowsBy<K>(f: Forest<K>, c: K, x: K, k: nat, a: K)
    requires Inv(f) && c in f && x in f && f[c].container && x !in Chain(f, c) && LinkedUp(f, x)
    requires k <= |Freed(f, x)[c].items| && a in Chain(f, c)
    ensures |Inside(Moved(f, c, x, k), a)| ==
            |Inside(f, a)| + if x in Inside(f, a) then 0 else 1 + |Inside(f, x)|
  {
    MovedKeepsInv(f, c, x, k);
    InsideAfter(f, Moved(f, c, x, k), c, x, a);
    var up := ChainUp(f, c, a);
    SizeWithArrivals(f, x, a);
  }

  /** So after the move a stays within a limit exactly when what it had and what arrives do. */
  lemma AroundWithinIff<K>(f: Forest<K>, c: K, x: K, k: nat, a: K, maxItem: nat)
    requires Inv(f) && c in f && x in f && f[c].container && x !in Chain(f, c) && LinkedUp(f, x)
    requires k <= |Freed(f, x)[c].items| && a in Chain(f, c)
    ensures |Inside(Moved(f, c, x, k), a)| <= maxItem
      <==> |Inside(f, a)| + (if x in Inside(f, a) then 0 else 1 + |Inside(f, x)|) <= maxItem
  {
    AroundGrowsBy(f, c, x, k, a);
  }

  // A box in a full chest, and a coin elsewhere.
  function FullChest<K>(chest: K, box: K, coin: K, kind: ItemType): Forest<K> {
    map[
      chest := Node(None, [box], kind, 1, true, 8, OwnWeight(kind, 1), 0),
      box := Node(Some(chest), [], kind, 1, true, 8, 0, 1),
      coin := Node(None, [], kind, 1, false, 0, 0, 0)
    ]
  }

  // The limit is not kept by the outermost container: the coin fits the box, and then the chest, at
  // its limit before, is above it.
  lemma OutermostOverLimit<K>(chest: K, box: K, coin: K, kind: ItemType, f: Forest<K>)
    requires chest != box && box != coin && chest != coin && f == FullChest(chest, box, coin, kind)
    ensures var limits := Limits(1, 1);
      && Inv(f) && LinkedUp(f, coin) && Chain(f, box) == {box, chest}
      && IsTopChosen(f, box, box) && CountsFit(f, box, coin, limits)
      && |Inside(f, chest)| == limits.maxItem
      && |Inside(Moved(f, box, coin, 0), chest)| > limits.maxItem
  {
    FullChestInv(chest, box, coin, kind, f);
    FullChestHolds(chest, box, coin, kind, f);
    assert LinkedUp(f, coin);
    AroundGrowsBy(f, box, coin, 0, chest);
  }

  lemma FullChestHolds<K>(chest: K, box: K, coin: K, kind: ItemType, f: Forest<K>)
    requires chest != box && box != coin && chest != coin && f == FullChest(chest, box, coin, kind) && Inv(f)
    ensures Chain(f, box) == {box, chest}
    ensures Inside(f, chest) == {box} && Inside(f, box) == {} && Inside(f, coin) == {}
  {
    ChainStep(f, chest);
    ChainStep(f, box);
    ChainStep(f, coin);
  }

  lemma FullChestInv<K>(chest: K, box: K, coin: K, kind: ItemType, f: Forest<K>)
    requires chest != box && box != coin && chest != coin && f == FullChest(chest, box, coin, kind)
    ensures Inv(f)
  {
    assert SumWeight(f, [box]) == OwnWeight(kind, 1) by {
      assert [box][..0] == [];
    }
  }
}
