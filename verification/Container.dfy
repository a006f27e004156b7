/**
 * Items and containers as heap objects that point to each other, with the operations
 * that edit them in place.  The ghost set `world` is the set of items in play; Snap is
 * the forest they make up, and every contract relates the forest after to the one before.
 */
module Containers {
  import opened Options
  import opened Sequences
  import opened Words
  import opened Forest

  const INDEX_WHEREEVER: int := -1

  ghost function Snap(world: set<Item>): (f: Forest<Item>)
    reads world
    ensures f.Keys == world
  {
    map i | i in world :: i.View()
  }

  // Every 32-bit cache is the unbounded cache of the forest, reduced to a word.
  ghost predicate Reduced(world: set<Item>)
    reads world
  {
    forall i | i in world :: i.totalWeight == Word(i.gross)
  }

  ghost predicate Sound(world: set<Item>)
    reads world
  {
    Inv(Snap(world)) && Reduced(world)
  }

  // The weight cache is the recursive sum of what the container holds, at any depth: as
  // 32-bit numbers always, and as plain numbers while the sum fits a word.
  lemma TotalWeightIsDeepWeight(world: set<Item>, c: Item, n: nat)
    requires Sound(world) && c in world && RanksBelow(Snap(world), n)
    ensures c.totalWeight == Word(DeepWeight(Snap(world), n, c))
    ensures DeepWeight(Snap(world), n, c) < WORD_SIZE ==> c.totalWeight == DeepWeight(Snap(world), n, c)
  {
    CachedWeightIsDeepWeight(Snap(world), n, c);
    assert Snap(world)[c] == c.View();
  }

  // The only change is the cached weight, of the item and of everything around it.
  lemma PushIs(f: Forest<Item>, g: Forest<Item>, c: Item, exact: int)
    requires Ranked(f) && c in f && g.Keys == f.Keys
    requires forall i {:trigger g[i]} | i in f ::
      g[i] == if i in Chain(f, c) then f[i].(total := f[i].total + exact) else f[i]
    ensures g == Push(f, c, exact)
  {
    var h := Push(f, c, exact);
    forall i | i in f ensures g[i] == h[i] {
      assert h[i] == if i in Chain(f, c) then f[i].(total := f[i].total + exact) else f[i];
    }
  }

  class Item {
    var kind: ItemType
    var count: nat
    var parent: Item?

    // the container part; a plain item never has contents
    const isContainer: bool
    const maxSize: nat
    const unlocked: bool
    const isInbox: bool
    var itemlist: seq<Item>
    var totalWeight: nat

    ghost var gross: int
    ghost var rank: nat

    constructor (kind: ItemType, count: nat, isContainer: bool, maxSize: nat, unlocked: bool, isInbox: bool)
      ensures this.kind == kind && this.count == count && parent == null
      ensures this.isContainer == isContainer && this.maxSize == maxSize
      ensures this.unlocked == unlocked && this.isInbox == isInbox
      ensures itemlist == [] && totalWeight == 0 && gross == 0 && rank == 0
    {
      this.kind, this.count, parent := kind, count, null;
      this.isContainer, this.maxSize, this.unlocked, this.isInbox := isContainer, maxSize, unlocked, isInbox;
      itemlist, totalWeight, gross, rank := [], 0, 0, 0;
    }

    ghost function View(): Node<Item>
      reads this
    {
      Node(if parent == null then None else Some(parent as Item), itemlist, kind, count,
           isContainer, maxSize, gross, rank)
    }

    // uint32: the item itself and, for a container, what is cached for its contents
    function GetWeight(): (w: nat)
      reads this
      ensures totalWeight == Word(gross) ==> w == Word(View().Weight())
    {
      WordAdd(gross, OwnWeight(kind, count));
      Word(OwnWeight(kind, count) + totalWeight)
    }

    // Every piece of a stack weighs, and so does what is inside.
    lemma WeighsByThePiece()
      ensures kind.stackable && count > 0 ==> GetWeight() == (kind.unitWeight * count + totalWeight) % 0x1_0000_0000
      ensures !kind.stackable || count == 0 ==> GetWeight() == (kind.unitWeight + totalWeight) % 0x1_0000_0000
    {
    }

    // ------------------------------------------------------------ weight propagation

    ghost predicate IsPath(path: seq<Item>)
      reads path
    {
      && path != [] && path[0] == this
      && (forall i, j | 0 <= i < j < |path| :: path[i] != path[j])
      && path[|path| - 1].parent == null
      && forall k, m | 0 <= k < m == k + 1 < |path| :: path[k].parent == path[m]
    }

    ghost function PathIn(world: set<Item>): (path: seq<Item>)
      requires this in world && Ranked(Snap(world))
      reads world, this
      ensures forall i | i in path :: i in world
      ensures (set i | i in path) == Chain(Snap(world), this)
      ensures IsPath(path)
    {
      PathIsChain(Snap(world), this);
      var s := Path(Snap(world), this);
      assert forall k | 0 <= k < |s| :: Snap(world)[s[k]] == s[k].View();
      s
    }

    // totalWeight += diff, here and in every container around this one.  The ghost caches
    // take the unbounded difference that diff stands for.
    method BumpAlong(diff: int, ghost exact: int, ghost path: seq<Item>)
      requires IsPath(path) && Word(diff) == Word(exact)
      requires forall k | 0 <= k < |path| :: path[k].totalWeight == Word(path[k].gross)
      modifies path`totalWeight, path`gross
      ensures forall k | 0 <= k < |path| ::
        path[k].gross == old(path[k].gross) + exact && path[k].totalWeight == Word(path[k].gross)
    {
      ghost var n := 1;
      WordSums(gross, diff, exact);
      totalWeight := Word(totalWeight + diff);
      gross := gross + exact;
      var c: Item? := parent;
      while c != null
        invariant 1 <= n <= |path|
        invariant c == if n < |path| then path[n] else null
        invariant forall k | 0 <= k < n ::
          path[k].gross == old(path[k].gross) + exact && path[k].totalWeight == Word(path[k].gross)
        invariant forall k | n <= k < |path| ::
          path[k].gross == old(path[k].gross) && path[k].totalWeight == Word(path[k].gross)
        decreases |path| - n
      {
        WordSums(c.gross, diff, exact);
        c.totalWeight := Word(c.totalWeight + diff);
        c.gross := c.gross + exact;
        c := c.parent;
        n := n + 1;
      }
    }

    method UpdateItemWeight(diff: int, ghost exact: int, ghost world: set<Item>)
      requires this in world && Ranked(Snap(world)) && Reduced(world) && Word(diff) == Word(exact)
      modifies world`totalWeight, world`gross
      ensures Snap(world) == Push(old(Snap(world)), this, exact) && Reduced(world)
    {
      ghost var f, path := Snap(world), PathIn(world);
      BumpAlong(diff, exact, path);
      PushIs(f, Snap(world), this, exact);
    }

    // ------------------------------------------------------------ list edits

    // setParent and an insertion into the list; the ghost ranks follow.
    method Place(item: Item, k: nat, ghost world: set<Item>)
      requires this in world && item in world && item != this && k <= |itemlist|
      requires Linkable(Snap(world), this, item)
      modifies this`itemlist, item`parent, world`rank
      ensures Snap(world) == Link(old(Snap(world)), this, item, k)
    {
      ghost var f := Snap(world);
      item.parent := this;
      itemlist := InsertAt(itemlist, k, item);
      forall i | i in world && item in Chain(f, i) {
        i.rank := f[i].rank + f[this].rank + 1;
      }
      ghost var g, h := Snap(world), Link(f, this, item, k);
      forall i | i in world ensures g[i] == h[i] {
        assert f[i] == old(i.View()) && g[i] == i.View();
        assert h[i].rank == i.rank;
      }
    }

    // Erasing the k-th entry, which is item, and clearing its parent.
    method Displace(item: Item, k: nat, ghost world: set<Item>)
      requires this in world && item in world && item != this && k < |itemlist|
      requires NoDup(itemlist) && itemlist[k] == item && item.parent == this
      modifies this`itemlist, item`parent
      ensures old(Placed(Snap(world), item))
      ensures Snap(world) == Unlink(old(Snap(world)), item)
    {
      ghost var f := Snap(world);
      assert f[item] == item.View() && f[this] == this.View();
      assert IndexOf(f[this].items, item) == k;
      itemlist := DropAt(itemlist, k);
      item.parent := null;
      ghost var g, h := Snap(world), Unlink(f, item);
      forall i | i in world ensures g[i] == h[i] {
        assert f[i] == old(i.View());
      }
    }

    method GetThingIndex(item: Item) returns (index: int)
      ensures index == -1 ==> item !in itemlist
      ensures index != -1 ==> 0 <= index < |itemlist| && itemlist[index] == item && item !in itemlist[..index]
    {
      index := 0;
      while index < |itemlist|
        invariant 0 <= index <= |itemlist| && item !in itemlist[..index]
      {
        if itemlist[index] == item {
          return;
        }
        index := index + 1;
      }
      index := -1;
    }

    // ------------------------------------------------------------ the cylinder operations

    method AddThing(index: int, item: Item, ghost world: set<Item>)
      requires this in world && item in world && item != this
      requires Sound(world) && Linkable(Snap(world), this, item)
      modifies world
      ensures Sound(world)
      ensures Snap(world) == if index >= maxSize then old(Snap(world)) else Attach(old(Snap(world)), this, item, 0)
    {
      if index >= maxSize {
        return;
      }
      Insert(item, 0, world);
    }

    method AddItemBack(item: Item, ghost world: set<Item>)
      requires this in world && item in world && item != this
      requires Sound(world) && Linkable(Snap(world), this, item)
      modifies world
      ensures Sound(world)
      ensures Snap(world) == Attach(old(Snap(world)), this, item, old(|itemlist|))
    {
      Insert(item, |itemlist|, world);
    }

    // The item is put into the list and its weight goes up from here.
    method Insert(item: Item, k: nat, ghost world: set<Item>)
      requires this in world && item in world && item != this && k <= |itemlist|
      requires Sound(world) && Linkable(Snap(world), this, item)
      modifies world
      ensures Sound(world)
      ensures Snap(world) == Attach(old(Snap(world)), this, item, k)
    {
      ghost var f := Snap(world);
      ghost var exact := f[item].Weight();
      var diff: int := item.GetWeight();
      assert Word(diff) == Word(exact) by { WordTwice(exact); }
      Place(item, k, world);
      ghost var g := Snap(world);
      LinkKeeps(f, this, item, k);
      UpdateItemWeight(diff, exact, world);
      ghost var h := Snap(world);
      assert h == Push(g, this, exact);
      assert h == Attach(f, this, item, k);
      AttachKeepsInv(f, this, item, k);
    }

    // setID and setSubType.
    method SetStock(item: Item, newKind: ItemType, newCount: nat, ghost world: set<Item>)
      requires item in world
      modifies item`kind, item`count
      ensures Snap(world) == Restock(old(Snap(world)), item, newKind, newCount)
    {
      item.kind := newKind;
      item.count := newCount;
    }

    // setID, setSubType and the weight update that goes with them, for an item of this list.
    method ChangeStock(item: Item, newKind: ItemType, newCount: nat, ghost world: set<Item>)
      requires this in world && item in world && Sound(world) && item in itemlist
      modifies world
      ensures Sound(world)
      ensures old(Placed(Snap(world), item))
      ensures Snap(world) == Update(old(Snap(world)), item, newKind, newCount)
    {
      ghost var f := Snap(world);
      assert f[this] == this.View() && f[item] == item.View();
      assert LinkedDown(f, this) && LinkedUp(f, item);
      var oldWeight: int := item.GetWeight();
      SetStock(item, newKind, newCount, world);
      ghost var g := Snap(world);
      assert g[item] == item.View();
      RestockKeeps(f, item, newKind, newCount);
      ghost var exact := g[item].Weight() - f[item].Weight();
      var diff := item.GetWeight() - oldWeight;
      assert Word(diff) == Word(exact) by { WordDifference(g[item].Weight(), f[item].Weight()); }
      UpdateItemWeight(diff, exact, world);
      UpdateIs(f, g, Snap(world), item, this, newKind, newCount, exact);
    }

    // The item at index leaves the container altogether.
    method TakeOut(item: Item, index: nat, ghost world: set<Item>)
      requires this in world && item in world && item != this && Sound(world)
      requires index < |itemlist| && itemlist[index] == item
      modifies world
      ensures Sound(world)
      ensures old(Placed(Snap(world), item))
      ensures Snap(world) == Detach(old(Snap(world)), item)
    {
      ghost var f := Snap(world);
      assert f[this] == this.View() && f[item] == item.View();
      assert LinkedDown(f, this) && LinkedUp(f, item);
      ghost var exact := 0 - f[item].Weight();
      var diff: int := item.GetWeight();
      diff := -diff;
      assert Word(diff) == Word(exact) by { WordDifference(0, f[item].Weight()); }
      UpdateItemWeight(diff, exact, world);
      ghost var g := Snap(world);
      assert g[this] == this.View() && g[item] == item.View();
      Displace(item, index, world);
      DetachIs(f, g, Snap(world), item, this, exact);
    }

    method UpdateThing(item: Item, newKind: ItemType, newCount: nat, ghost world: set<Item>)
      requires this in world && item in world && Sound(world)
      modifies world
      ensures Sound(world)
      ensures old(item !in itemlist) ==> Snap(world) == old(Snap(world))
      ensures old(item in itemlist) ==> old(Placed(Snap(world), item))
      ensures old(item in itemlist) ==> Snap(world) == Update(old(Snap(world)), item, newKind, newCount)
    {
      var index := GetThingIndex(item);
      if index != -1 {
        ChangeStock(item, newKind, newCount, world);
      }
    }

    // Part of a stack goes by lowering its count; anything else leaves the list.
    method RemoveThing(item: Item, n: nat, ghost world: set<Item>)
      requires this in world && item in world && item != this && Sound(world)
      modifies world
      ensures Sound(world)
      ensures old(item !in itemlist) ==> Snap(world) == old(Snap(world))
      ensures old(item in itemlist) ==> old(Placed(Snap(world), item))
      ensures old(item in itemlist && item.kind.stackable && n != item.count) ==>
        Snap(world) == Update(old(Snap(world)), item, old(item.kind),
                              if old(item.count) < n then 0 else old(item.count) - n)
      ensures old(item in itemlist && (!item.kind.stackable || n == item.count)) ==>
        Snap(world) == Detach(old(Snap(world)), item)
    {
      var index := GetThingIndex(item);
      if index == -1 {
        return;
      }
      if item.kind.stackable && n != item.count {
        ChangeStock(item, item.kind, if item.count < n then 0 else item.count - n, world);
      } else {
        TakeOut(item, index, world);
      }
    }

    // The slot at index is given from one item to the other, and so are the parents.
    method Exchange(replaced: Item, index: nat, item: Item, ghost world: set<Item>)
      requires this in world && replaced in world && item in world && item != this && replaced != this
      requires index < |itemlist| && itemlist[index] == replaced && replaced.parent == this
      requires Linked(Snap(world)) && Linkable(Snap(world), this, item)
      modifies this`itemlist, item`parent, replaced`parent, world`rank
      ensures old(Placed(Snap(world), replaced))
      ensures Snap(world) == Swap(old(Snap(world)), this, item, index)
    {
      ghost var f := Snap(world);
      assert f[this] == this.View() && f[replaced] == replaced.View();
      assert LinkedDown(f, this) && LinkedUp(f, replaced);
      UnlinkedIsLinkable(f, this, item, replaced);
      assert IndexOf(f[this].items, replaced) == index;
      Displace(replaced, index, world);
      Place(item, index, world);
    }

    // The entry at index gives way to item; one difference of weights goes up.
    method ReplaceThing(index: nat, item: Item, ghost world: set<Item>)
      requires this in world && item in world && item != this
      requires Sound(world) && Linkable(Snap(world), this, item)
      modifies world
      ensures Sound(world)
      ensures index >= old(|itemlist|) ==> Snap(world) == old(Snap(world))
      ensures index < old(|itemlist|) ==>
        var f, y := old(Snap(world)), old(itemlist)[index];
        && y in f && Placed(f, y) && f[y].parent == Some(this)
        && Snap(world) == Replace(f, this, item, index)
    {
      if index >= |itemlist| {
        return;
      }
      ghost var f := Snap(world);
      assert f[this] == this.View() && f[item] == item.View();
      var replaced := itemlist[index];
      ListedIsPlaced(f, this, index);
      assert f[replaced] == replaced.View();
      assert replaced != this by { assert RankedAt(f, replaced); }
      var diff: int := item.GetWeight();
      diff := diff - replaced.GetWeight();
      ghost var exact := Gain(f, item, replaced);
      assert Word(diff) == Word(exact) by { WordDifference(f[item].Weight(), f[replaced].Weight()); }
      Exchange(replaced, index, item, world);
      ghost var g := Snap(world);
      assert Ranked(g) by { SwapWeights(f, this, item, index); }
      UpdateItemWeight(diff, exact, world);
      ghost var h := Snap(world);
      assert h == Push(g, this, exact);
      assert h == Replace(f, this, item, index);
      ReplaceKeepsInv(f, this, item, index);
    }
  }
}
