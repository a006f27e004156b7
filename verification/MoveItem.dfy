/**
 * Moving an item, or part of a stack, from one container to another: the destination is
 * resolved, the move is admitted, and then stacks are split and merged.  Whatever branch is
 * taken the books balance for every container in play: what leaves the source arrives at
 * the destination, kind by kind, and nothing else changes.
 */
module MoveItem {
  import opened Numbers
  import opened Options
  import opened Forest
  import opened Admission
  import opened Containers
  import opened ContainerQueries
  import opened Stock
  import opened Weights

  const MAP_MAX_LAYERS: nat := 16

  // Only c's stock of one kind changes, by delta.
  ghost predicate StockDelta(f: Forest<Item>, g: Forest<Item>, c: Item, of: ItemType, delta: int) {
    && f.Keys <= g.Keys
    && forall d, kind {:trigger StockOf(g, d, kind)} | d in f ::
         StockOf(g, d, kind) == StockOf(f, d, kind) + if d == c && kind == of then delta else 0
  }

  // n pieces of one kind went from one container to another; every other stock is as before.
  ghost predicate MovedGoods(f: Forest<Item>, g: Forest<Item>, from: Item, to: Item, of: ItemType, n: nat) {
    && f.Keys <= g.Keys
    && forall d, kind {:trigger StockOf(g, d, kind)} | d in f ::
         StockOf(g, d, kind) == StockOf(f, d, kind)
           - (if d == from && kind == of then n else 0)
           + (if d == to && kind == of then n else 0)
  }

  // Taken together the two containers hold as many of each kind as before.
  lemma MoveConserves(f: Forest<Item>, g: Forest<Item>, from: Item, to: Item, of: ItemType, n: nat, kind: ItemType)
    requires MovedGoods(f, g, from, to, of, n) && from in f && to in f && from != to
    ensures StockOf(g, from, kind) + StockOf(g, to, kind) == StockOf(f, from, kind) + StockOf(f, to, kind)
  {
  }

  ghost predicate SameItems(f: Forest<Item>, g: Forest<Item>, but: Item) {
    && f.Keys <= g.Keys
    && forall i {:trigger g[i]} | i in f ::
         && g[i].kind == f[i].kind && g[i].container == f[i].container && g[i].capacity == f[i].capacity
         && (i != but ==> g[i].count == f[i].count && g[i].parent == f[i].parent)
  }

  // ---------------------------------------------------------------- taking

  lemma DetachTakes(f: Forest<Item>, g: Forest<Item>, item: Item)
    requires Inv(f) && Stocked(f) && Placed(f, item) && g == Detach(f, item)
    ensures Inv(g) && Stocked(g) && SameItems(f, g, item)
    ensures StockDelta(f, g, f[item].parent.value, f[item].kind, 0 - f[item].count)
    ensures forall d | d in f :: |g[d].items| <= |f[d].items|
    ensures forall d | d in f && Some(d) != f[item].parent :: g[d].items == f[d].items
  {
    DetachKeepsInv(f, item);
    DetachStocked(f, item);
    forall d, kind | d in f ensures StockOf(g, d, kind)
      == StockOf(f, d, kind) + if d == f[item].parent.value && kind == f[item].kind then 0 - f[item].count else 0
    {
      DetachStock(f, item, d, kind);
    }
  }

  lemma UpdateTakes(f: Forest<Item>, g: Forest<Item>, item: Item, count: nat)
    requires Inv(f) && Stocked(f) && Placed(f, item) && 1 <= count <= MAX_STACK
    requires g == Update(f, item, f[item].kind, count)
    ensures Inv(g) && Stocked(g) && SameItems(f, g, item)
    ensures StockDelta(f, g, f[item].parent.value, f[item].kind, count - f[item].count)
    ensures forall d | d in f :: g[d].items == f[d].items
  {
    UpdateKeepsInv(f, item, f[item].kind, count);
    UpdateStocked(f, item, count);
    forall d, kind | d in f ensures StockOf(g, d, kind)
      == StockOf(f, d, kind) + if d == f[item].parent.value && kind == f[item].kind then count - f[item].count else 0
    {
      UpdateStock(f, item, count, d, kind);
    }
  }

  lemma AttachGives(f: Forest<Item>, g: Forest<Item>, c: Item, item: Item, of: ItemType, n: nat)
    requires Inv(f) && Stocked(f) && Linkable(f, c, item) && |f[c].items| < f[c].capacity
    requires g == Attach(f, c, item, 0) && of == f[item].kind && n == f[item].count
    ensures Inv(g) && Stocked(g) && StockDelta(f, g, c, of, n) && item in g[c].items
  {
    AttachKeepsInv(f, c, item, 0);
    AttachStocked(f, c, item, 0);
    forall d, kind | d in f
      ensures StockOf(g, d, kind) == StockOf(f, d, kind) + if d == c && kind == of then n else 0
    {
      AttachStock(f, c, item, 0, d, kind);
    }
    assert LinkedUp(g, item);
  }

  // m pieces less of a stack make the containers around it lighter by theirs.
  lemma PiecesWeigh(f: Forest<Item>, g: Forest<Item>, item: Item, m: nat, less: int)
    requires Inv(f) && Stocked(f) && Placed(f, item) && f[item].kind.stackable && 1 <= m <= f[item].count
    requires g == if m == f[item].count then Detach(f, item) else Update(f, item, f[item].kind, f[item].count - m)
    requires less == 0 - Pieces(f[item].kind.unitWeight, m)
    ensures WeighsMore(f, g, f[item].parent.value, less)
  {
    StackIsPieces(f, item);
    if m == f[item].count {
      DetachWeighs(f, g, item, less);
    } else {
      OwnIsPieces(f[item].kind, f[item].count - m);
      PiecesAdd(f[item].kind.unitWeight, f[item].count - m, m);
      UpdateWeighs(f, g, item, f[item].count - m, less);
    }
  }

  lemma PiecesAround(f: Forest<Item>, g: Forest<Item>, item: Item, m: nat, c: Item)
    requires Inv(f) && Stocked(f) && Placed(f, item) && f[item].kind.stackable && 1 <= m <= f[item].count
    requires g == if m == f[item].count then Detach(f, item) else Update(f, item, f[item].kind, f[item].count - m)
    requires c in f && f[c].container
    ensures SameAround(f, g, c)
  {
    assert StockedAt(f, item);
    if m == f[item].count {
      if item in Chain(f, c) {
        HolderIsContainer(f, c, item);
      }
      DetachAround(f, g, item, c);
    } else {
      UpdateAround(f, g, item, f[item].count - m, c);
    }
  }

  lemma Balance(f: Forest<Item>, g: Forest<Item>, h: Forest<Item>, from: Item, to: Item, of: ItemType, n: nat)
    requires StockDelta(f, g, from, of, 0 - n) && StockDelta(g, h, to, of, n)
    ensures MovedGoods(f, h, from, to, of, n)
  {
  }

  // ---------------------------------------------------------------- transfer

  // An item that is not a stack moves as it is.
  method MoveWhole(from: Item, to: Item, index: int, item: Item, m: nat, ghost world: set<Item>)
    requires from in world && to in world && item in world && item != from && item != to
    requires Sound(world) && Stocked(Snap(world))
    requires item in from.itemlist && !item.kind.stackable
    requires to.isContainer && item !in Chain(Snap(world), to)
    requires index < to.maxSize && |to.itemlist| < to.maxSize
    modifies world
    ensures Sound(world) && Stocked(Snap(world))
    ensures MovedGoods(old(Snap(world)), Snap(world), from, to, old(item.kind), old(item.count))
    ensures WeightMoved(old(Snap(world)), Snap(world), from, to, old(item.View().Weight()))
    ensures item in to.itemlist && item.parent == to
  {
    ghost var f := Snap(world);
    assert f[from] == from.View() && f[item] == item.View() && f[to] == to.View();
    assert LinkedDown(f, from) && LinkedUp(f, item);
    FreedIsLinkable(f, to, item);
    from.RemoveThing(item, m, world);
    ghost var g := Snap(world);
    DetachTakes(f, g, item);
    to.AddThing(index, item, world);
    ghost var h := Snap(world);
    AttachGives(g, h, to, item, f[item].kind, f[item].count);
    assert h[to] == to.View() && h[item] == item.View() && LinkedDown(h, to);
    Balance(f, g, h, from, to, f[item].kind, f[item].count);
    WholeWeighs(f, g, h, from, to, item);
  }

  lemma WholeWeighs(f: Forest<Item>, g: Forest<Item>, h: Forest<Item>, from: Item, to: Item, item: Item)
    requires Inv(f) && Placed(f, item) && f[item].parent == Some(from) && to in f && item !in Chain(f, to)
    requires g == Detach(f, item) && Inv(g) && Linkable(g, to, item) && h == Attach(g, to, item, 0)
    ensures WeightMoved(f, h, from, to, f[item].Weight())
  {
    var w := f[item].Weight();
    DetachWeighs(f, g, item, 0 - w);
    DetachAround(f, g, item, to);
    UnlinkKeepsChain(f, item);
    AttachWeighs(g, h, to, item, w);
    TakenAndGiven(f, g, h, from, to, 0 - w, w);
  }

  // m pieces leave a stack; the stack leaves with them when they are all of it.
  method TakePieces(from: Item, item: Item, m: nat, ghost to: Item, ghost world: set<Item>)
    returns (ghost less: int)
    requires from in world && item in world && item != from
    requires Sound(world) && Stocked(Snap(world))
    requires item in from.itemlist && item.kind.stackable && 1 <= m <= item.count
    requires to in world && to.isContainer
    modifies world
    ensures Sound(world) && Stocked(Snap(world))
    ensures SameItems(old(Snap(world)), Snap(world), item)
    ensures StockDelta(old(Snap(world)), Snap(world), from, old(item.kind), 0 - m)
    ensures forall d | d in world :: |Snap(world)[d].items| <= |old(Snap(world))[d].items|
    ensures forall d | d in world && d != from :: Snap(world)[d].items == old(Snap(world))[d].items
    ensures WeighsMore(old(Snap(world)), Snap(world), from, less) && less == 0 - Pieces(old(item.kind.unitWeight), m)
    ensures SameAround(old(Snap(world)), Snap(world), to)
    ensures if m == old(item.count) then item.parent == null
            else item.parent == from && item.count == old(item.count) - m
  {
    ghost var f := Snap(world);
    assert f[from] == from.View() && f[item] == item.View() && f[to] == to.View();
    assert LinkedDown(f, from) && LinkedUp(f, item) && StockedAt(f, item);
    from.RemoveThing(item, m, world);
    TakenIs(f, Snap(world), item, m);
    less := 0 - Pieces(f[item].kind.unitWeight, m);
    PiecesWeigh(f, Snap(world), item, m, less);
    PiecesAround(f, Snap(world), item, m, to);
    assert Snap(world)[item] == item.View();
  }

  lemma TakenIs(f: Forest<Item>, g: Forest<Item>, item: Item, m: nat)
    requires Inv(f) && Stocked(f) && Placed(f, item) && f[item].kind.stackable && 1 <= m <= f[item].count <= MAX_STACK
    requires g == if m == f[item].count then Detach(f, item) else Update(f, item, f[item].kind, f[item].count - m)
    ensures Inv(g) && Stocked(g) && SameItems(f, g, item)
    ensures StockDelta(f, g, f[item].parent.value, f[item].kind, 0 - m)
    ensures forall d | d in f :: |g[d].items| <= |f[d].items|
    ensures forall d | d in f && Some(d) != f[item].parent :: g[d].items == f[d].items
    ensures if m == f[item].count then g[item].parent == None
            else g[item].parent == f[item].parent && g[item].count == f[item].count - m
  {
    if m == f[item].count {
      DetachTakes(f, g, item);
    } else {
      UpdateTakes(f, g, item, f[item].count - m);
    }
  }

  // n pieces join a stack of the destination: its count changes or, when a duration runs, it is made anew.
  method MergeInto(to: Item, index: int, toItem: Item, n: nat, ghost other: Item, ghost world: set<Item>)
    returns (ghost newWorld: set<Item>, ghost w: int)
    requires other in world && to in world && toItem in world && to.isContainer
    requires Sound(world) && Stocked(Snap(world))
    requires toItem in to.itemlist && toItem.kind.stackable && 1 <= toItem.count + n <= MAX_STACK && index < to.maxSize
    modifies world
    ensures world <= newWorld && fresh(newWorld - world)
    ensures Sound(newWorld) && Stocked(Snap(newWorld)) && |to.itemlist| == old(|to.itemlist|)
    ensures StockDelta(old(Snap(world)), Snap(newWorld), to, old(toItem.kind), n)
    ensures WeighsMore(old(Snap(world)), Snap(newWorld), to, w) && w == Pieces(old(toItem.kind.unitWeight), n)
    ensures SameAround(old(Snap(world)), Snap(newWorld), to)
    ensures if old(toItem.kind.timed) then toItem.parent == null
            else toItem.parent == to && toItem.count == old(toItem.count) + n
    ensures other != toItem ==> other.parent == old(other.parent) && other.count == old(other.count)
  {
    if toItem.kind.timed {
      newWorld, w := MakeAnew(to, index, toItem, n, other, world);
    } else {
      newWorld := world;
      w := RaiseCount(to, toItem, n, other, world);
    }
  }

  method RaiseCount(to: Item, toItem: Item, n: nat, ghost other: Item, ghost world: set<Item>) returns (ghost w: int)
    requires other in world && to in world && toItem in world
    requires Sound(world) && Stocked(Snap(world))
    requires toItem in to.itemlist && toItem.kind.stackable && 1 <= toItem.count + n <= MAX_STACK
    modifies world
    ensures Sound(world) && Stocked(Snap(world)) && |to.itemlist| == old(|to.itemlist|)
    ensures StockDelta(old(Snap(world)), Snap(world), to, old(toItem.kind), n)
    ensures WeighsMore(old(Snap(world)), Snap(world), to, w) && w == Pieces(old(toItem.kind.unitWeight), n)
    ensures SameAround(old(Snap(world)), Snap(world), to)
    ensures toItem.parent == to && toItem.count == old(toItem.count) + n
    ensures other != toItem ==> other.parent == old(other.parent) && other.count == old(other.count)
  {
    ghost var f := Snap(world);
    assert f[to] == to.View() && f[toItem] == toItem.View();
    assert LinkedDown(f, to) && LinkedUp(f, toItem);
    var count := toItem.count + n;
    to.UpdateThing(toItem, toItem.kind, count, world);
    UpdateTakes(f, Snap(world), toItem, count);
    assert Snap(world)[to] == to.View() && Snap(world)[toItem] == toItem.View();
    assert f[other] == old(other.View()) && Snap(world)[other] == other.View();
    w := Pieces(f[toItem].kind.unitWeight, n);
    RaiseWeighs(f, Snap(world), toItem, n, w);
    UpdateAround(f, Snap(world), toItem, count, to);
  }

  lemma RaiseWeighs(f: Forest<Item>, g: Forest<Item>, x: Item, n: nat, w: int)
    requires Inv(f) && Stocked(f) && Placed(f, x) && f[x].kind.stackable && g == Update(f, x, f[x].kind, f[x].count + n)
    requires w == Pieces(f[x].kind.unitWeight, n)
    ensures WeighsMore(f, g, f[x].parent.value, w)
  {
    assert StockedAt(f, x);
    OwnIsPieces(f[x].kind, f[x].count);
    OwnIsPieces(f[x].kind, f[x].count + n);
    PiecesAdd(f[x].kind.unitWeight, f[x].count, n);
    UpdateWeighs(f, g, x, f[x].count + n, w);
  }

  method MakeAnew(to: Item, index: int, toItem: Item, n: nat, ghost other: Item, ghost world: set<Item>)
    returns (ghost newWorld: set<Item>, ghost w: int)
    requires other in world && to in world && toItem in world && to.isContainer
    requires Sound(world) && Stocked(Snap(world))
    requires toItem in to.itemlist && toItem.kind.stackable && 1 <= toItem.count + n <= MAX_STACK && index < to.maxSize
    modifies world
    ensures world <= newWorld && fresh(newWorld - world)
    ensures Sound(newWorld) && Stocked(Snap(newWorld)) && |to.itemlist| == old(|to.itemlist|)
    ensures StockDelta(old(Snap(world)), Snap(newWorld), to, old(toItem.kind), n) && toItem.parent == null
    ensures WeighsMore(old(Snap(world)), Snap(newWorld), to, w) && w == Pieces(old(toItem.kind.unitWeight), n)
    ensures SameAround(old(Snap(world)), Snap(newWorld), to)
    ensures other != toItem ==> other.parent == old(other.parent) && other.count == old(other.count)
  {
    ghost var f := Snap(world);
    var kind, total := toItem.kind, toItem.count + n;
    ghost var count: int := toItem.count;
    ghost var less: int := Withdraw(to, toItem, other, world);
    ghost var g := Snap(world);
    assert g[toItem] == toItem.View() && g[other] == other.View();
    var clone;
    ghost var more: int;
    clone, newWorld, more := AddClone(to, index, kind, total, world);
    ghost var h := Snap(newWorld);
    assert h[toItem] == toItem.View() && h[other] == other.View();
    w := PiecesPutBack(kind.unitWeight, count, n, total, less, more);
    SumOfDeltas(f, g, h, to, kind, 0 - count, total);
    WeighsMoreTwice(f, g, h, to, less, more, w);
    AroundTwice(f, g, h, to);
  }

  // A whole stack leaves its container.
  method Withdraw(to: Item, toItem: Item, ghost other: Item, ghost world: set<Item>) returns (ghost less: int)
    requires other in world && to in world && toItem in world && Sound(world) && Stocked(Snap(world))
    requires toItem in to.itemlist && toItem.kind.stackable
    modifies world
    ensures Sound(world) && Stocked(Snap(world))
    ensures |to.itemlist| + 1 == old(|to.itemlist|) <= to.maxSize && toItem.parent == null
    ensures StockDelta(old(Snap(world)), Snap(world), to, old(toItem.kind), 0 - old(toItem.count))
    ensures WeighsMore(old(Snap(world)), Snap(world), to, less)
    ensures less == 0 - old(Pieces(toItem.kind.unitWeight, toItem.count))
    ensures SameAround(old(Snap(world)), Snap(world), to)
    ensures other != toItem ==> other.parent == old(other.parent) && other.count == old(other.count)
  {
    ghost var f := Snap(world);
    assert f[to] == to.View() && f[toItem] == toItem.View();
    assert LinkedDown(f, to) && LinkedUp(f, toItem) && RankedAt(f, toItem) && StockedAt(f, to);
    to.RemoveThing(toItem, toItem.count, world);
    DetachTakes(f, Snap(world), toItem);
    assert Snap(world)[to] == to.View() && Snap(world)[toItem] == toItem.View();
    assert Detach(f, toItem)[toItem].parent == None && StockedAt(f, toItem);
    assert f[other] == old(other.View()) && Snap(world)[other] == other.View();
    less := 0 - Pieces(toItem.kind.unitWeight, toItem.count);
    PiecesWeigh(f, Snap(world), toItem, toItem.count, less);
    PiecesAround(f, Snap(world), toItem, toItem.count, to);
  }

  lemma SumOfDeltas(f: Forest<Item>, g: Forest<Item>, h: Forest<Item>, c: Item, of: ItemType, n: int, m: int)
    requires StockDelta(f, g, c, of, n) && StockDelta(g, h, c, of, m)
    ensures StockDelta(f, h, c, of, n + m)
  {
  }

  // The pieces that did not merge arrive as a stack of their own.
  method AddClone(to: Item, index: int, kind: ItemType, n: nat, ghost world: set<Item>)
    returns (clone: Item, ghost newWorld: set<Item>, ghost w: int)
    requires to in world && to.isContainer && Sound(world) && Stocked(Snap(world))
    requires index < to.maxSize && |to.itemlist| < to.maxSize && 1 <= n <= MAX_STACK
    requires kind.stackable
    modifies world
    ensures fresh(clone) && newWorld == world + {clone} && Sound(newWorld) && Stocked(Snap(newWorld))
    ensures StockDelta(old(Snap(world)), Snap(newWorld), to, kind, n)
    ensures |to.itemlist| == |old(to.itemlist)| + 1 && LeavesOthers(old(Snap(world)), Snap(newWorld))
    ensures WeighsMore(old(Snap(world)), Snap(newWorld), to, w) && w == Pieces(kind.unitWeight, n)
    ensures SameAround(old(Snap(world)), Snap(newWorld), to)
  {
    ghost var f := Snap(world);
    assert f[to] == to.View();
    clone, newWorld := MakeStack(to, kind, n, world);
    ghost var g := Snap(newWorld);
    to.AddThing(index, clone, newWorld);
    ghost var h := Snap(newWorld);
    AttachGives(g, h, to, clone, kind, n);
    AttachLeaves(f, g, h, to, clone);
    w := Pieces(kind.unitWeight, n);
    CloneWeighs(f, g, h, to, clone, w);
    SumOfDeltas(f, g, h, to, kind, 0, n);
    assert h[to] == to.View();
  }

  lemma CloneWeighs(f: Forest<Item>, g: Forest<Item>, h: Forest<Item>, to: Item, clone: Item,
                   w: int)
    requires Inv(f) && Inv(g) && Stocked(g) && clone !in f && Linkable(g, to, clone) && to in f
    requires g == f[clone := g[clone]] && g[clone].kind.stackable && h == Attach(g, to, clone, 0)
    requires w == Pieces(g[clone].kind.unitWeight, g[clone].count)
    ensures WeighsMore(f, h, to, w) && SameAround(f, h, to)
  {
    assert forall i | i in f :: g[i] == f[i];
    SameParents(f, g, to);
    StackIsPieces(g, clone);
    AttachWeighs(g, h, to, clone, w);
    AttachAround(g, h, to, clone, to);
    forall d | d in f ensures WeighsMoreAt(f, h, to, w, d) {
      assert WeighsMoreAt(g, h, to, w, d);
    }
    AroundTwice(f, g, h, to);
  }

  ghost predicate LeavesOthers(f: Forest<Item>, g: Forest<Item>) {
    f.Keys <= g.Keys && forall i {:trigger g[i]} | i in f :: g[i].count == f[i].count && g[i].parent == f[i].parent
  }

  lemma AttachLeaves(f: Forest<Item>, g: Forest<Item>, h: Forest<Item>, c: Item, clone: Item)
    requires c in g && clone in g && clone !in f && LeavesOthers(f, g) && h == Attach(g, c, clone, 0)
    ensures LeavesOthers(f, h)
  {
  }

  method MakeStack(to: Item, kind: ItemType, n: nat, ghost world: set<Item>)
    returns (clone: Item, ghost newWorld: set<Item>)
    requires to in world && to.isContainer && Sound(world) && Stocked(Snap(world)) && 1 <= n <= MAX_STACK
    ensures fresh(clone) && newWorld == world + {clone} && Sound(newWorld) && Stocked(Snap(newWorld))
    ensures StockDelta(old(Snap(world)), Snap(newWorld), to, kind, 0)
    ensures LeavesOthers(old(Snap(world)), Snap(newWorld))
    ensures Snap(newWorld) == old(Snap(world))[clone := clone.View()]
    ensures clone.kind == kind && clone.count == n && clone.itemlist == [] && Linkable(Snap(newWorld), to, clone)
  {
    ghost var f := Snap(world);
    assert f[to] == to.View();
    clone := new Item(kind, n, false, 0, false, false);
    newWorld := world + {clone};
    assert Snap(newWorld) == f[clone := clone.View()];
    Enlarged(f, clone, clone.View());
    assert Reduced(newWorld);
    ChainEnlarged(f, clone, clone.View(), to);
  }

  // Part of a stack moves: as much as fits onto the stack aimed at, the rest as a new one.
  method MoveStack(from: Item, to: Item, index: int, item: Item, m: nat, toItem: Item?, ghost world: set<Item>)
    returns (ghost newWorld: set<Item>)
    requires from in world && to in world && item in world && item != from
    requires Sound(world) && Stocked(Snap(world))
    requires item in from.itemlist && item.kind.stackable && 1 <= m <= item.count
    requires to.isContainer && toItem != item && (toItem != null ==> toItem in to.itemlist)
    requires var merges := toItem != null && toItem.kind == item.kind;
      var n := if merges then Min(MAX_STACK - Min(MAX_STACK, toItem.count), m) else 0;
      && (merges ==> index < to.maxSize)
      && (n < m ==> index < to.maxSize && |to.itemlist| < to.maxSize)
    modifies world
    ensures world <= newWorld && fresh(newWorld - world)
    ensures Sound(newWorld) && Stocked(Snap(newWorld))
    ensures MovedGoods(old(Snap(world)), Snap(newWorld), from, to, old(item.kind), m)
    ensures Joined(old(Snap(world)), Snap(newWorld), to, toItem, old(item.kind), m)
    ensures from != to ==> Lengthened(old(Snap(world)), Snap(newWorld), to, toItem, old(item.kind), m)
    ensures WeightMoved(old(Snap(world)), Snap(newWorld), from, to, old(item.kind.unitWeight) * m)
    ensures if m == old(item.count) then item.parent == null
            else item.parent == from && item.count == old(item.count) - m
  {
    ghost var f := Snap(world);
    var kind := item.kind;
    assert f[to] == to.View() && LinkedDown(f, to) && f[item] == item.View() && StockedAt(f, item);
    assert m <= MAX_STACK;
    assert toItem != null ==> f[toItem] == toItem.View() && StockedAt(f, toItem);
    ghost var less: int := TakePieces(from, item, m, to, world);
    ghost var w: int;
    ghost var g := Snap(world);
    assert g[to] == to.View();
    if toItem != null {
      assert g[toItem] == toItem.View() && LinkedUp(g, toItem);
    }
    newWorld, w := GivePieces(to, index, kind, m, toItem, item, world);
    Balance(f, g, Snap(newWorld), from, to, kind, m);
    TakenAndGiven(f, g, Snap(newWorld), from, to, less, w);
    PiecesAre(kind.unitWeight, m);
  }

  // The stack aimed at, when it is of the kind, holds as many of the pieces as fit; one whose duration
  // runs was put in its place anew. The rest is a stack of its own.
  ghost predicate Joined(f: Forest<Item>, g: Forest<Item>, to: Item, toItem: Item?, kind: ItemType, m: nat) {
    toItem in f && f[toItem].kind == kind ==>
      && toItem in g
      && if kind.timed then g[toItem].parent == None
         else g[toItem].parent == Some(to) && g[toItem].count == f[toItem].count + Min(MAX_STACK - f[toItem].count, m)
  }

  ghost predicate Lengthened(f: Forest<Item>, g: Forest<Item>, to: Item, toItem: Item?, kind: ItemType, m: nat) {
    && to in f && to in g
    && |g[to].items| == |f[to].items|
                        + if toItem in f && f[toItem].kind == kind && f[toItem].count + m <= MAX_STACK then 0 else 1
  }

  // Pieces arrive: as many as fit join the stack aimed at, the rest become a stack of their own.
  method GivePieces(to: Item, index: int, kind: ItemType, m: nat, toItem: Item?,
                    ghost other: Item, ghost world: set<Item>)
    returns (ghost newWorld: set<Item>, ghost w: int)
    requires other in world && to in world && to.isContainer
    requires Sound(world) && Stocked(Snap(world)) && 1 <= m <= MAX_STACK
    requires kind.stackable
    requires toItem != null ==> toItem in world && toItem in to.itemlist
    requires var merges := toItem != null && toItem.kind == kind;
      var n := if merges then Min(MAX_STACK - toItem.count, m) else 0;
      && (merges ==> index < to.maxSize && 1 <= toItem.count <= MAX_STACK)
      && (n < m ==> index < to.maxSize && |to.itemlist| < to.maxSize)
    modifies world
    ensures world <= newWorld && fresh(newWorld - world)
    ensures Sound(newWorld) && Stocked(Snap(newWorld))
    ensures StockDelta(old(Snap(world)), Snap(newWorld), to, kind, m)
    ensures Joined(old(Snap(world)), Snap(newWorld), to, toItem, kind, m)
    ensures Lengthened(old(Snap(world)), Snap(newWorld), to, toItem, kind, m)
    ensures WeighsMore(old(Snap(world)), Snap(newWorld), to, w) && w == Pieces(kind.unitWeight, m)
    ensures other != toItem ==> other.parent == old(other.parent) && other.count == old(other.count)
  {
    newWorld, w := world, 0;
    ghost var g := Snap(world);
    assert g[to] == to.View() && (toItem != null ==> g[toItem] == toItem.View());
    var n: nat := 0;
    if toItem != null && toItem.kind == kind {
      n := Min(MAX_STACK - toItem.count, m);
      newWorld, w := MergeInto(to, index, toItem, n, other, world);
    }
    ghost var h := Snap(newWorld);
    assert StockDelta(g, h, to, kind, n) && WeighsMore(g, h, to, w) && SameAround(g, h, to);
    assert h[to] == to.View() && (toItem != null ==> h[toItem] == toItem.View()) && h[other] == other.View();
    if n < m {
      var clone;
      ghost var merged: int, rest: int := w, 0;
      var left := m - n;
      clone, newWorld, rest := AddClone(to, index, kind, left, newWorld);
      w := PiecesOfBoth(kind.unitWeight, n, left, m, merged, rest);
      SumOfDeltas(g, h, Snap(newWorld), to, kind, n, left);
      WeighsMoreTwice(g, h, Snap(newWorld), to, merged, rest, w);
      assert Snap(newWorld)[to] == to.View() && Snap(newWorld)[other] == other.View();
    }
  }

  // ---------------------------------------------------------------- the whole move

  // Where an item sent to a container ends up: there, or one hop further, where nothing is aimed at.
  ghost predicate Arrives(f: Forest<Item>, to: Item, index: int, item: Item, flags: Flags,
                          dest: Item, newIndex: int, toItem: Item?)
    requires to in f && item in f
  {
    if dest == to then Directs(f, to, index, item, !flags.ignoreAutoStack, to, newIndex, toItem)
    else
      && dest in f && Directs(f, to, index, item, !flags.ignoreAutoStack, dest, INDEX_WHEREEVER, null)
      && Directs(f, dest, INDEX_WHEREEVER, item, true, dest, newIndex, toItem)
  }

  /** The redirections of queryDestination, followed to the end.  A hop clears the index, and
      with no index there is no hop, so the loop guard for endless redirections never bites. */
  method ResolveDestination(to: Item, index: int, item: Item, flags: Flags, ghost world: set<Item>)
    returns (dest: Item, newIndex: int, toItem: Item?, newFlags: Flags, floorN: nat)
    requires to in world && item in world && to.isContainer && Inv(Snap(world))
    ensures dest in world && dest.isContainer && floorN <= 1
    ensures newFlags == if dest == to then flags else NO_FLAGS
    ensures dest.unlocked && toItem != null ==> 0 <= newIndex < |dest.itemlist| && dest.itemlist[newIndex] == toItem
    ensures dest.unlocked && toItem == null ==> newIndex < dest.maxSize && !(0 <= newIndex < |dest.itemlist|)
    ensures Arrives(Snap(world), to, index, item, flags, dest, newIndex, toItem)
  {
    dest, newFlags, floorN := to, flags, 0;
    var sub;
    sub, newIndex, toItem := QueryDestination(dest, index, item, newFlags, world);
    while sub != dest
      invariant dest in world && dest.isContainer && sub in world && sub.isContainer
      invariant floorN <= 1 && (floorN == 1 ==> sub == dest) && (floorN == 0 <==> dest == to)
      invariant newFlags == if dest == to then flags else NO_FLAGS
      invariant sub != dest ==> dest == to && newIndex == INDEX_WHEREEVER
      invariant sub != dest ==> Directs(Snap(world), to, index, item, !flags.ignoreAutoStack, sub, newIndex, null)
      invariant sub == dest ==> Arrives(Snap(world), to, index, item, flags, dest, newIndex, toItem)
      invariant sub == dest && dest.unlocked && toItem != null ==>
        0 <= newIndex < |dest.itemlist| && dest.itemlist[newIndex] == toItem
      invariant sub == dest && dest.unlocked && toItem == null ==>
        newIndex < dest.maxSize && !(0 <= newIndex < |dest.itemlist|)
      decreases 1 - floorN
    {
      dest, newFlags := sub, NO_FLAGS;
      floorN := floorN + 1;
      if floorN >= MAP_MAX_LAYERS {
        break;
      }
      sub, newIndex, toItem := QueryDestination(dest, newIndex, item, newFlags, world);
    }
  }

  // What the queries of internalMoveItem settle before anything is touched.
  datatype Plan = Plan(dest: Item, index: int, toItem: Item?, wanted: nat, m: nat, verdict: ReturnValue)

  // The plan can be carried out: the pieces are there, the destination takes them, and
  // whatever does not merge has a free slot.
  ghost predicate Feasible(f: Forest<Item>, from: Item, item: Item, p: Plan) {
    && from in f && item in f && p.dest in f && f[p.dest].container
    && item in f[from].items && item != from && item != p.toItem && item !in Chain(f, p.dest)
    && (p.toItem != null ==> p.toItem in f && p.toItem in f[p.dest].items && p.index < f[p.dest].capacity)
    && (f[item].kind.stackable ==>
          && 1 <= p.m <= f[item].count && p.m <= p.wanted && (p.verdict == NoError <==> p.m == p.wanted))
    && (!f[item].kind.stackable ==> p.verdict == NoError)
    && var n := if f[item].kind.stackable && p.toItem != null && f[p.toItem].kind == f[item].kind
                then Min(MAX_STACK - Min(MAX_STACK, f[p.toItem].count), p.m) else 0;
       (n < p.m || !f[item].kind.stackable ==> p.index < f[p.dest].capacity && |f[p.dest].items| < f[p.dest].capacity)
  }

  // The item being traded for this one must not be the destination, nor around it.
  method ClearOfTrade(dest: Item, tradeItem: Item?, ghost world: set<Item>) returns (clear: bool)
    requires dest in world && Inv(Snap(world))
    ensures clear <==> tradeItem == null || tradeItem !in Chain(Snap(world), dest)
  {
    if tradeItem == null {
      return true;
    }
    if dest == tradeItem {
      return false;
    }
    var ret := WalkUp(dest, tradeItem, false, world);
    return ret == NoError;
  }

  // How many pieces are asked of the source.
  ghost function Portion(f: Forest<Item>, dest: Item, i: int, item: Item, wanted: nat, limits: Limits,
                         carrier: ReturnValue): nat
    requires dest in f && item in f
  {
    if f[item].kind.stackable then Min(wanted, Allowed(f, dest, i, item, limits, carrier))
    else Allowed(f, dest, i, item, limits, carrier)
  }

  // Whether the source lets go of that many.
  ghost predicate Releases(f: Forest<Item>, from: Item, item: Item, m: nat, fl: Flags, house: ReturnValue)
    requires from in f && item in f
  {
    && item in f[from].items && m > 0 && (f[item].kind.stackable ==> m <= f[item].count)
    && (f[item].kind.moveable || fl.ignoreNotMoveable) && house == NoError
  }

  // What the source answers when asked for that many.
  ghost function RemoveAnswer(f: Forest<Item>, from: Item, item: Item, m: nat, fl: Flags, house: ReturnValue)
    : ReturnValue
    requires from in f && item in f
  {
    if item !in f[from].items || m == 0 || (f[item].kind.stackable && m > f[item].count) then NotPossible
    else if !(f[item].kind.moveable || fl.ignoreNotMoveable) then NotMoveable
    else house
  }

  // Whether an accepted item may go, and the answer: first the destination says how much it takes,
  // then the source whether it lets go of that.
  ghost function AmountAnswer(f: Forest<Item>, from: Item, item: Item, dest: Item, i: int, wanted: nat, fl: Flags,
                              limits: Limits, carrier: ReturnValue, house: ReturnValue): (bool, ReturnValue)
    requires from in f && item in f && dest in f
  {
    var m := Portion(f, dest, i, item, wanted, limits, carrier);
    var all := if f[item].kind.stackable then m == wanted else m > 0;
    var letGo := RemoveAnswer(f, from, item, m, fl, house);
    if m == 0 && !all then (false, ContainerNotEnoughRoom)
    else if letGo != NoError then (false, letGo)
    else (true, if all then NoError else ContainerNotEnoughRoom)
  }

  // The queries in order: the first that fails names the answer. The item must not go into the one it
  // is traded for. A stack that goes only in part is answered that there was not enough room.
  ghost function Verdict(f: Forest<Item>, from: Item, item: Item, dest: Item, i: int, wanted: nat, fl: Flags,
                         limits: Limits, carrier: ReturnValue, house: ReturnValue, tradeItem: Item?)
    : (bool, ReturnValue)
    requires from in f && item in f && dest in f
  {
    if !Accepts(f, dest, item, i, false, limits, carrier) then
      (false, AddAnswer(f, dest, item, i, false, limits, carrier))
    else
      var answer := AmountAnswer(f, from, item, dest, i, wanted, fl, limits, carrier, house);
      if answer.0 && tradeItem != null && tradeItem in Chain(f, dest) then (false, NotEnoughRoom) else answer
  }

  // The answer case by case, by what the destination allows and what the source holds.
  lemma VerdictIs(f: Forest<Item>, from: Item, item: Item, dest: Item, i: int, wanted: nat, fl: Flags,
                  limits: Limits, carrier: ReturnValue, house: ReturnValue, tradeItem: Item?)
    requires Ranked(f) && from in f && item in f && dest in f
    ensures var v := Verdict(f, from, item, dest, i, wanted, fl, limits, carrier, house, tradeItem);
      var added := AddAnswer(f, dest, item, i, false, limits, carrier);
      var allowed, stack := Allowed(f, dest, i, item, limits, carrier), f[item].kind.stackable;
      var m := if stack && wanted < allowed then wanted else allowed;
      var there := item in f[from].items && m > 0 && (stack ==> m <= f[item].count);
      var movable := f[item].kind.moveable || fl.ignoreNotMoveable;
      && m == Portion(f, dest, i, item, wanted, limits, carrier)
      && (added != NoError ==> v == (false, added))
      && (added == NoError && allowed == 0 && (stack ==> wanted > 0) ==> v == (false, ContainerNotEnoughRoom))
      && (added == NoError && (allowed > 0 || (stack && wanted == 0)) ==>
            && (!there ==> v == (false, NotPossible))
            && (there && !movable ==> v == (false, NotMoveable))
            && (there && movable && house != NoError ==> v == (false, house))
            && (there && movable && house == NoError ==>
                  v == if tradeItem != null && tradeItem in Chain(f, dest) then (false, NotEnoughRoom)
                       else (true, if stack && m < wanted then ContainerNotEnoughRoom else NoError)))
  {
    AcceptsIff(f, dest, item, i, false, limits, carrier);
  }

  // How much the destination takes of what is asked for, and whether that is all of it.
  method AskPortion(dest: Item, i: int, item: Item, wanted: nat, limits: Limits, carrier: ReturnValue,
                    ghost world: set<Item>)
    returns (m: nat, verdict: ReturnValue)
    requires item in world && dest in world && Inv(Snap(world))
    ensures m == Portion(Snap(world), dest, i, item, wanted, limits, carrier)
    ensures item.kind.stackable ==> m <= wanted
    ensures verdict ==
      if (if item.kind.stackable then m == wanted else m > 0) then NoError else ContainerNotEnoughRoom
  {
    assert Snap(world)[item] == item.View();
    var retMaxCount, maxQueryCount := QueryMaxCount(dest, i, item, wanted, limits, carrier, world);
    m := if item.kind.stackable then Min(wanted, maxQueryCount) else maxQueryCount;
    verdict := retMaxCount;
  }

  method AskSource(from: Item, item: Item, m: nat, fl: Flags, house: ReturnValue, ghost world: set<Item>)
    returns (ret: ReturnValue)
    requires from in world && item in world
    ensures ret == RemoveAnswer(Snap(world), from, item, m, fl, house)
  {
    assert Snap(world)[item] == item.View() && Snap(world)[from] == from.View();
    ret := QueryRemove(from, item, m, fl, house);
  }

  // How much may move, and whether the source lets go of it.
  method PlanAmount(from: Item, item: Item, dest: Item, i: int, toItem: Item?, wanted: nat, fl: Flags, limits: Limits,
                    carrier: ReturnValue, house: ReturnValue, ghost world: set<Item>)
    returns (go: bool, p: Plan)
    requires from in world && item in world && dest in world && dest.isContainer && item != toItem
    requires Inv(Snap(world)) && Stocked(Snap(world))
    requires Accepts(Snap(world), dest, item, i, false, limits, carrier)
    requires toItem != null ==> 0 <= i < |dest.itemlist| && dest.itemlist[i] == toItem
    requires toItem == null ==> i < dest.maxSize && !(0 <= i < |dest.itemlist|)
    ensures p.dest == dest && p.wanted == wanted && p.index == i && p.toItem == toItem
    ensures go ==> Feasible(Snap(world), from, item, p)
    ensures go ==> p.m == Portion(Snap(world), dest, i, item, wanted, limits, carrier)
    ensures (go, p.verdict) ==
      AmountAnswer(Snap(world), from, item, dest, i, wanted, fl, limits, carrier, house)
  {
    ghost var f := Snap(world);
    assert f[dest] == dest.View() && f[item] == item.View();
    var m, verdict := AskPortion(dest, i, item, wanted, limits, carrier, world);
    if verdict != NoError && m == 0 {
      return false, Plan(dest, i, toItem, wanted, 0, verdict);
    }
    var ret := AskSource(from, item, m, fl, house, world);
    if ret != NoError {
      return false, Plan(dest, i, toItem, wanted, m, ret);
    }
    go := true;
    p := Plan(dest, i, toItem, wanted, m, verdict);
    FeasiblePlan(f, from, item, p, limits, carrier);
  }

  lemma FeasiblePlan(f: Forest<Item>, from: Item, item: Item, p: Plan, limits: Limits, carrier: ReturnValue)
    requires Inv(f) && Stocked(f) && p.dest in f && item in f && from in f && f[p.dest].container
    requires item != p.toItem && item in f[from].items
    requires Accepts(f, p.dest, item, p.index, false, limits, carrier)
    requires 1 <= p.m <= Allowed(f, p.dest, p.index, item, limits, carrier)
    requires f[item].kind.stackable ==>
      p.m <= f[item].count && p.m <= p.wanted && (p.verdict == NoError <==> p.m == p.wanted)
    requires !f[item].kind.stackable ==> p.verdict == NoError
    requires p.toItem != null ==> 0 <= p.index < |f[p.dest].items| && f[p.dest].items[p.index] == p.toItem
    requires p.toItem == null ==> p.index < f[p.dest].capacity && !(0 <= p.index < |f[p.dest].items|)
    ensures Feasible(f, from, item, p)
  {
    assert LinkedDown(f, from) && RankedAt(f, item);
    RoomForRest(f, p.dest, p.index, item, p.m, p.toItem, Allowed(f, p.dest, p.index, item, limits, carrier), limits,
                carrier);
  }

  // A count of 255 stands for the whole stack when it leaves a container for the one around it.
  ghost function Wanted(f: Forest<Item>, from: Item, item: Item, dest: Item, count: nat): nat
    requires from in f && item in f
  {
    if f[item].kind.stackable && count == 255 && f[from].parent == Some(dest) then f[item].count else count
  }

  // When a move is carried out: the destination accepts the item, the source lets it go, and it
  // does not go into the item it is traded for.
  ghost predicate Permitted(f: Forest<Item>, from: Item, item: Item, p: Plan, fl: Flags, limits: Limits,
                            carrier: ReturnValue, house: ReturnValue, tradeItem: Item?)
    requires from in f && item in f && p.dest in f
  {
    && Accepts(f, p.dest, item, p.index, false, limits, carrier)
    && Releases(f, from, item, Portion(f, p.dest, p.index, item, p.wanted, limits, carrier), fl, house)
    && (tradeItem == null || tradeItem !in Chain(f, p.dest))
  }

  // The queries once the destination is known.
  method Judge(from: Item, dest: Item, i: int, toItem: Item?, item: Item, wanted: nat, fl: Flags, limits: Limits,
               carrier: ReturnValue, house: ReturnValue, tradeItem: Item?, ghost world: set<Item>)
    returns (go: bool, p: Plan)
    requires from in world && dest in world && item in world && dest.isContainer && toItem != item
    requires !fl.noLimit && !fl.childIsOwner && Inv(Snap(world)) && Stocked(Snap(world))
    requires dest.unlocked && toItem != null ==> 0 <= i < |dest.itemlist| && dest.itemlist[i] == toItem
    requires dest.unlocked && toItem == null ==> i < dest.maxSize && !(0 <= i < |dest.itemlist|)
    ensures p.dest == dest && p.index == i && p.toItem == toItem && p.wanted == wanted
    ensures go ==> Feasible(Snap(world), from, item, p)
    ensures go ==> p.m == Portion(Snap(world), dest, i, item, wanted, limits, carrier)
    ensures (go, p.verdict) ==
      Verdict(Snap(world), from, item, dest, i, wanted, fl, limits, carrier, house, tradeItem)
  {
    var ret := QueryAdd(dest, i, item, fl, limits, carrier, world);
    if ret != NoError {
      return false, Plan(dest, i, toItem, wanted, 0, ret);
    }
    go, p := PlanAccepted(from, dest, i, toItem, item, wanted, fl, limits, carrier, house, tradeItem, world);
  }

  method PlanAccepted(from: Item, dest: Item, i: int, toItem: Item?, item: Item, wanted: nat, fl: Flags,
                      limits: Limits, carrier: ReturnValue, house: ReturnValue, tradeItem: Item?,
                      ghost world: set<Item>)
    returns (go: bool, p: Plan)
    requires from in world && item in world && dest in world && dest.isContainer && item != toItem
    requires Inv(Snap(world)) && Stocked(Snap(world))
    requires Accepts(Snap(world), dest, item, i, false, limits, carrier)
    requires toItem != null ==> 0 <= i < |dest.itemlist| && dest.itemlist[i] == toItem
    requires toItem == null ==> i < dest.maxSize && !(0 <= i < |dest.itemlist|)
    ensures p.dest == dest && p.wanted == wanted && p.index == i && p.toItem == toItem
    ensures go ==> Feasible(Snap(world), from, item, p)
    ensures go ==> p.m == Portion(Snap(world), dest, i, item, wanted, limits, carrier)
    ensures (go, p.verdict) ==
      Verdict(Snap(world), from, item, dest, i, wanted, fl, limits, carrier, house, tradeItem)
  {
    go, p := PlanAmount(from, item, dest, i, toItem, wanted, fl, limits, carrier, house, world);
    if go {
      go := ClearOfTrade(dest, tradeItem, world);
      if !go {
        p := p.(verdict := NotEnoughRoom);
      }
    }
  }

  // What is answered without an error is carried out; what is carried out is permitted, and the other
  // way round.
  lemma CarriedIffPermitted(f: Forest<Item>, from: Item, item: Item, p: Plan, fl: Flags, limits: Limits,
                            carrier: ReturnValue, house: ReturnValue, tradeItem: Item?)
    requires from in f && item in f && p.dest in f
    ensures var v := Verdict(f, from, item, p.dest, p.index, p.wanted, fl, limits, carrier, house, tradeItem);
      && (v.0 <==> Permitted(f, from, item, p, fl, limits, carrier, house, tradeItem))
      && (v.1 == NoError ==> v.0)
  {
  }

  /** The queries of internalMoveItem in order.  Without a go-ahead the answer is final: either
      a refusal, or NoError because the item was dropped onto itself. */
  method PlanMove(from: Item, to: Item, index: int, item: Item, count: nat, flags: Flags, limits: Limits,
                  carrier: ReturnValue, house: ReturnValue, tradeItem: Item?, ghost world: set<Item>)
    returns (go: bool, p: Plan)
    requires from in world && to in world && item in world && to.isContainer
    requires !flags.noLimit && !flags.childIsOwner
    requires Inv(Snap(world)) && Stocked(Snap(world))
    ensures p.dest in world
    ensures go ==> Feasible(Snap(world), from, item, p)
    ensures p.toItem == item ==> !go && p.verdict == NoError && p.wanted == count
    ensures p.toItem != item ==>
      (go, p.verdict) == Verdict(Snap(world), from, item, p.dest, p.index, p.wanted,
                                 if p.dest == to then flags else NO_FLAGS, limits, carrier, house, tradeItem)
    ensures Arrives(Snap(world), to, index, item, flags, p.dest, p.index, p.toItem)
    ensures p.toItem != item ==> p.wanted == Wanted(Snap(world), from, item, p.dest, count)
    ensures go ==> p.m == Portion(Snap(world), p.dest, p.index, item, p.wanted, limits, carrier)
  {
    var dest, i, toItem, fl, hops := ResolveDestination(to, index, item, flags, world);
    if item == toItem {
      return false, Plan(dest, i, toItem, count, 0, NoError);
    }
    var wanted := PiecesWanted(from, item, dest, count, world);
    go, p := Judge(from, dest, i, toItem, item, wanted, fl, limits, carrier, house, tradeItem, world);
  }

  method PiecesWanted(from: Item, item: Item, dest: Item, count: nat, ghost world: set<Item>) returns (wanted: nat)
    requires from in world && item in world
    ensures wanted == Wanted(Snap(world), from, item, dest, count)
  {
    assert Snap(world)[item] == item.View() && Snap(world)[from] == from.View();
    wanted := if item.kind.stackable && count == 255 && from.parent == dest then item.count else count;
  }

  // A stack that is asked for whole, taken whole and let go goes whole.
  lemma WholeStackGoes(f: Forest<Item>, from: Item, item: Item, p: Plan, fl: Flags, limits: Limits,
                       carrier: ReturnValue, house: ReturnValue, tradeItem: Item?)
    requires from in f && item in f && p.dest in f && f[item].kind.stackable && p.wanted == f[item].count
    requires Accepts(f, p.dest, item, p.index, false, limits, carrier)
    requires Allowed(f, p.dest, p.index, item, limits, carrier) >= f[item].count
    requires Releases(f, from, item, f[item].count, fl, house)
    requires tradeItem == null || tradeItem !in Chain(f, p.dest)
    ensures Portion(f, p.dest, p.index, item, p.wanted, limits, carrier) == f[item].count
    ensures Verdict(f, from, item, p.dest, p.index, p.wanted, fl, limits, carrier, house, tradeItem) == (true, NoError)
  {
  }

  /** internalMoveItem between containers.  `carrier`, `house` and `tradeItem` are as in the
      queries; `moved` counts the pieces that changed hands, whatever the answer. */
  method InternalMoveItem(from: Item, to: Item, index: int, item: Item, count: nat, flags: Flags, limits: Limits,
                          carrier: ReturnValue, house: ReturnValue, tradeItem: Item?, ghost world: set<Item>)
    returns (ret: ReturnValue, plan: Plan, carried: bool, ghost moved: nat, ghost newWorld: set<Item>)
    requires from in world && to in world && item in world && to.isContainer
    requires !flags.noLimit && !flags.childIsOwner
    requires Sound(world) && Stocked(Snap(world))
    modifies world
    ensures world <= newWorld && fresh(newWorld - world) && plan.dest in world && ret == plan.verdict
    ensures Arrives(old(Snap(world)), to, index, item, flags, plan.dest, plan.index, plan.toItem)
    ensures plan.toItem != item ==> plan.wanted == Wanted(old(Snap(world)), from, item, plan.dest, count)
    ensures carried <==>
      && plan.toItem != item
      && Permitted(old(Snap(world)), from, item, plan, if plan.dest == to then flags else NO_FLAGS,
                   limits, carrier, house, tradeItem)
    ensures Sound(newWorld) && Stocked(Snap(newWorld))
    ensures MovedGoods(old(Snap(world)), Snap(newWorld), from, plan.dest, old(item.kind), moved)
    ensures !carried ==> moved == 0 && newWorld == world && Snap(world) == old(Snap(world))
    ensures plan.toItem == item ==> !carried && ret == NoError
    ensures plan.toItem != item ==>
      (carried, ret) == Verdict(old(Snap(world)), from, item, plan.dest, plan.index, plan.wanted,
                                if plan.dest == to then flags else NO_FLAGS, limits, carrier, house, tradeItem)
    ensures carried ==> old(item in from.itemlist) && moved <= old(item.count)
    ensures carried && old(item.kind.stackable) ==>
      && moved > 0 && (ret == NoError <==> moved == plan.wanted)
      && moved == Portion(old(Snap(world)), plan.dest, plan.index, item, plan.wanted, limits, carrier)
    ensures carried && old(item.kind.stackable) ==>
      && Joined(old(Snap(world)), Snap(newWorld), plan.dest, plan.toItem, old(item.kind), moved)
      && (from != plan.dest ==>
          Lengthened(old(Snap(world)), Snap(newWorld), plan.dest, plan.toItem, old(item.kind), moved))
    ensures carried && !old(item.kind.stackable) ==>
      ret == NoError && moved == old(item.count) && item in plan.dest.itemlist
    ensures plan.wanted ==
      if plan.toItem != item && old(item.kind.stackable) && count == 255 && old(from.parent) == plan.dest
      then old(item.count) else count
    ensures carried && old(item.kind.stackable) ==>
      if moved == old(item.count) then item !in from.itemlist
      else item in from.itemlist && item.count == old(item.count) - moved
    ensures carried && !old(item.kind.stackable) && from != plan.dest ==> item !in from.itemlist
    ensures carried ==> WeightMoved(old(Snap(world)), Snap(newWorld), from, plan.dest,
                                    if old(item.kind.stackable) then old(item.kind.unitWeight) * moved
                                    else old(item.View().Weight()))
  {
    moved, newWorld := 0, world;
    carried, plan := PlanMove(from, to, index, item, count, flags, limits, carrier, house, tradeItem, world);
    ret := plan.verdict;
    assert Snap(world)[from] == from.View() && Snap(world)[item] == item.View();
    CarriedIffPermitted(Snap(world), from, item, plan, if plan.dest == to then flags else NO_FLAGS, limits, carrier,
                        house, tradeItem);
    if carried {
      moved, newWorld := CarryOut(from, item, plan, world);
    }
  }

  /** "Move up": the client sends 255 for a stack, and all of it goes where the destination has the room
      and the source lets it go. */
  method MoveUp(from: Item, to: Item, index: int, item: Item, flags: Flags, limits: Limits, carrier: ReturnValue,
                house: ReturnValue, tradeItem: Item?, ghost world: set<Item>)
    returns (ret: ReturnValue, plan: Plan, carried: bool, ghost moved: nat, ghost newWorld: set<Item>)
    requires from in world && to in world && item in world && to.isContainer
    requires !flags.noLimit && !flags.childIsOwner
    requires Sound(world) && Stocked(Snap(world))
    modifies world
    ensures Sound(newWorld) && plan.dest in world
    ensures var f, fl := old(Snap(world)), if plan.dest == to then flags else NO_FLAGS;
      var movesUp := old(item.kind.stackable) && old(from.parent) == plan.dest && plan.toItem != item;
      var takes := Accepts(f, plan.dest, item, plan.index, false, limits, carrier)
        && Allowed(f, plan.dest, plan.index, item, limits, carrier) >= old(item.count);
      var gives := Releases(f, from, item, old(item.count), fl, house)
        && (tradeItem == null || tradeItem !in Chain(f, plan.dest));
      movesUp && takes && gives ==>
        carried && ret == NoError && moved == old(item.count) && item !in from.itemlist
  {
    ghost var f := Snap(world);
    assert f[from] == from.View() && f[item] == item.View();
    ret, plan, carried, moved, newWorld :=
      InternalMoveItem(from, to, index, item, 255, flags, limits, carrier, house, tradeItem, world);
    ghost var fl := if plan.dest == to then flags else NO_FLAGS;
    if f[item].kind.stackable && plan.wanted == f[item].count
       && Accepts(f, plan.dest, item, plan.index, false, limits, carrier)
       && Allowed(f, plan.dest, plan.index, item, limits, carrier) >= f[item].count
       && Releases(f, from, item, f[item].count, fl, house)
       && (tradeItem == null || tradeItem !in Chain(f, plan.dest)) {
      WholeStackGoes(f, from, item, plan, fl, limits, carrier, house, tradeItem);
    }
  }

  method CarryOut(from: Item, item: Item, p: Plan, ghost world: set<Item>)
    returns (ghost moved: nat, ghost newWorld: set<Item>)
    requires Sound(world) && Stocked(Snap(world)) && Feasible(Snap(world), from, item, p)
    modifies world
    ensures world <= newWorld && fresh(newWorld - world)
    ensures Sound(newWorld) && Stocked(Snap(newWorld))
    ensures MovedGoods(old(Snap(world)), Snap(newWorld), from, p.dest, old(item.kind), moved)
    ensures moved == if old(item.kind.stackable) then p.m else old(item.count)
    ensures old(item in from.itemlist)
    ensures !old(item.kind.stackable) ==>
      item in p.dest.itemlist && (from != p.dest ==> item !in from.itemlist)
    ensures old(item.kind.stackable) ==>
      if moved == old(item.count) then item !in from.itemlist
      else item in from.itemlist && item.count == old(item.count) - moved
    ensures WeightMoved(old(Snap(world)), Snap(newWorld), from, p.dest,
                        if old(item.kind.stackable) then old(item.kind.unitWeight) * moved
                        else old(item.View().Weight()))
    ensures old(item.kind.stackable) ==>
      && Joined(old(Snap(world)), Snap(newWorld), p.dest, p.toItem, old(item.kind), moved)
      && (from != p.dest ==>
          Lengthened(old(Snap(world)), Snap(newWorld), p.dest, p.toItem, old(item.kind), moved))
  {
    ghost var f := Snap(world);
    assert f[p.dest] == p.dest.View() && f[item] == item.View() && f[from] == from.View();
    assert p.toItem != null ==> f[p.toItem] == p.toItem.View();
    if item.kind.stackable {
      moved := p.m;
      newWorld := MoveStack(from, p.dest, p.index, item, p.m, p.toItem, world);
    } else {
      moved := item.count;
      newWorld := world;
      MoveWhole(from, p.dest, p.index, item, p.m, world);
    }
    StillListed(Snap(newWorld), from, item);
    assert Snap(newWorld)[from] == from.View() && Snap(newWorld)[item] == item.View();
  }

  lemma StillListed(f: Forest<Item>, c: Item, x: Item)
    requires Inv(f) && c in f && x in f
    ensures x in f[c].items <==> f[x].parent == Some(c)
  {
    assert LinkedDown(f, c) && LinkedUp(f, x);
  }

  // What the queries allowed is what the transfer needs: pieces left over have a free slot.
  lemma RoomForRest(f: Forest<Item>, dest: Item, i: int, item: Item, m: nat, toItem: Item?, maxQueryCount: nat,
                    limits: Limits, carrier: ReturnValue)
    requires dest in f && item in f && Stocked(f) && Inv(f)
    requires 1 <= m <= maxQueryCount
    requires Accepts(f, dest, item, i, false, limits, carrier)
    requires f[item].kind.stackable ==> m <= f[item].count
    requires maxQueryCount == Allowed(f, dest, i, item, limits, carrier)
    requires toItem != null ==> 0 <= i < |f[dest].items| && f[dest].items[i] == toItem
    requires toItem == null ==> i < f[dest].capacity && !(0 <= i < |f[dest].items|)
    ensures toItem != null ==> toItem in f && toItem in f[dest].items && i < f[dest].capacity
    ensures var n := if f[item].kind.stackable && toItem != null && f[toItem].kind == f[item].kind
                     then Min(MAX_STACK - Min(MAX_STACK, f[toItem].count), m) else 0;
      n < m || !f[item].kind.stackable ==> i < f[dest].capacity && |f[dest].items| < f[dest].capacity
  {
    assert LinkedDown(f, dest) && StockedAt(f, dest) && StockedAt(f, item);
  }
}
