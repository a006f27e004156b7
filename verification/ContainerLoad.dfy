/**
 * Loading a container from its saved node: every child is built, with its own contents,
 * before it is added and its weight pushed up.
 */
module ContainerLoad {
  import opened Options
  import opened Forest
  import opened Containers
  import opened Stock

  // A saved item; `readable` is whether its attributes can be read and its type exists.
  datatype ItemNode = ItemNode(isItem: bool, readable: bool, kind: ItemType, count: nat,
                               container: bool, capacity: nat, children: seq<ItemNode>)

  // The weight of everything saved below a node.
  function SavedWeight(node: ItemNode): nat {
    SavedSum(node.children)
  }

  function SavedSum(nodes: seq<ItemNode>): nat {
    if nodes == [] then 0
    else
      var last := nodes[|nodes| - 1];
      SavedSum(nodes[..|nodes| - 1]) + OwnWeight(last.kind, last.count)
        + if last.container then SavedWeight(last) else 0
  }

  // How many of the saved items cannot be read; what a plain item has below it is never looked at.
  function Faults(node: ItemNode): nat
    decreases node, 0, |node.children| + 1
  {
    (if node.readable then 0 else 1) + FaultsUpTo(node, |node.children|)
  }

  function FaultsUpTo(node: ItemNode, k: nat): nat
    requires k <= |node.children|
    decreases node, 0, k
  {
    if k == 0 then 0 else FaultsUpTo(node, k - 1) + FaultsIn(node.children[k - 1])
  }

  function FaultsIn(child: ItemNode): nat
    decreases child, 1
  {
    if !child.isItem || !child.readable then 1 else if child.container then Faults(child) else 0
  }

  // The data is good: the item can be read, and so can all that is saved in it, at any depth.
  predicate Readable(node: ItemNode) {
    && node.readable
    && forall k | 0 <= k < |node.children| ::
      var child := node.children[k]; child.isItem && child.readable && (child.container ==> Readable(child))
  }

  lemma {:induction false} ReadableIff(node: ItemNode)
    ensures Faults(node) == 0 <==> Readable(node)
    decreases node, |node.children| + 1
  {
    ReadableUpTo(node, |node.children|);
  }

  lemma {:induction false} ReadableUpTo(node: ItemNode, n: nat)
    requires n <= |node.children|
    ensures FaultsUpTo(node, n) == 0 <==> forall k | 0 <= k < n ::
      var child := node.children[k]; child.isItem && child.readable && (child.container ==> Readable(child))
    decreases node, n
  {
    if n > 0 {
      ReadableUpTo(node, n - 1);
      var child := node.children[n - 1];
      if child.container {
        ReadableIff(child);
      }
    }
  }

  // The items xs are the saved ones, in order, with everything saved inside them.
  ghost predicate Loaded(f: Forest<Item>, xs: seq<Item>, nodes: seq<ItemNode>)
    decreases nodes
  {
    && |xs| == |nodes|
    && forall k {:trigger LoadedAs(f, xs[k], nodes[k])} | 0 <= k < |xs| :: LoadedAs(f, xs[k], nodes[k])
  }

  ghost predicate LoadedAs(f: Forest<Item>, x: Item, node: ItemNode)
    decreases node
  {
    && x in f && f[x].kind == node.kind && f[x].count == node.count
    && f[x].container == node.container && f[x].capacity == node.capacity
    && if node.container then Loaded(f, f[x].items, node.children) else f[x].items == []
  }

  // Only c's list may differ, and where things are and what they weigh.
  ghost predicate SameGoods(f: Forest<Item>, h: Forest<Item>, c: Item) {
    && f.Keys <= h.Keys
    && forall i {:trigger h[i]} | i in f ::
         && h[i].kind == f[i].kind && h[i].count == f[i].count && h[i].container == f[i].container
         && h[i].capacity == f[i].capacity && (i != c ==> h[i].items == f[i].items)
  }

  // What has been loaded stays loaded while only a list outside of it changes.
  lemma {:induction false} LoadedStays(f: Forest<Item>, h: Forest<Item>, c: Item, x: Item, node: ItemNode)
    requires Inv(f) && c in f && LoadedAs(f, x, node) && x !in Chain(f, c) && SameGoods(f, h, c)
    ensures LoadedAs(h, x, node)
    decreases node
  {
    if node.container {
      var items := f[x].items;
      assert h[x].items == items && LinkedDown(f, x);
      forall k | 0 <= k < |items| ensures LoadedAs(h, items[k], node.children[k]) {
        assert LoadedAs(f, items[k], node.children[k]);
        OutsideToo(f, c, x, items[k]);
        LoadedStays(f, h, c, items[k], node.children[k]);
      }
    }
  }

  lemma OutsideToo(f: Forest<Item>, c: Item, x: Item, y: Item)
    requires Ranked(f) && c in f && x in f && y in f && f[y].parent == Some(x) && x !in Chain(f, c)
    ensures y !in Chain(f, c)
  {
    if y in Chain(f, c) {
      ChainStep(f, y);
      var z := ChainUp(f, c, y);
    }
  }

  // g is f with more below c: on what was there before, only the caches around c moved and
  // only c's own list grew, at its end.
  ghost predicate Grown(f: Forest<Item>, g: Forest<Item>, c: Item) {
    && f.Keys <= g.Keys && c in f && f[c].items <= g[c].items
    && forall i {:trigger g[i]} | i in f ::
         if i == c then g[i] == f[i].(items := g[i].items, total := g[i].total)
         else if i in Chain(f, c) then g[i] == f[i].(total := g[i].total)
         else g[i] == f[i]
  }

  lemma {:induction false} GrownChain(f: Forest<Item>, g: Forest<Item>, c: Item, i: Item)
    requires Ranked(f) && Ranked(g) && Grown(f, g, c) && i in f
    ensures Chain(g, i) == Chain(f, i)
    decreases f[i].rank
  {
    assert RankedAt(f, i) && RankedAt(g, i) && g[i].parent == f[i].parent;
    if f[i].parent.Some? {
      GrownChain(f, g, c, f[i].parent.value);
    }
  }

  ghost predicate SameSoFar(f: Forest<Item>, g: Forest<Item>) {
    f.Keys <= g.Keys && forall i {:trigger g[i]} | i in f :: g[i] == f[i]
  }

  lemma NewIsLinkable(f: Forest<Item>, g: Forest<Item>, c: Item, x: Item)
    requires Inv(f) && Inv(g) && c in f && f[c].container && x !in f && x in g && g[x].parent.None?
    requires SameSoFar(f, g)
    ensures Linkable(g, c, x)
  {
    GrownChain(f, g, c, c);
  }

  // The item as it stands on its own, with all its contents.
  lemma ChildLoaded(f: Forest<Item>, e: Forest<Item>, g: Forest<Item>, x: Item, child: ItemNode, good: bool)
    requires x !in f && e == f[x := Node(None, [], child.kind, child.count, child.container, child.capacity, 0, 0)]
    requires Inv(e) && (if child.container then Grown(e, g, x) else g == e)
    requires child.container && good ==> LoadedInto(e, g, x, child.children)
    ensures SameSoFar(f, g) && x in g && g[x].parent == None
    ensures good ==> LoadedAs(g, x, child) && g[x].Weight() == SavedSum([child])
  {
    ChainStep(e, x);
    assert [child][..0] == [];
    if good {
      assert g[x].items[0..] == g[x].items;
    }
  }

  // Such an item, attached to c, grows the forest below c.
  lemma AttachGrows(f: Forest<Item>, g: Forest<Item>, h: Forest<Item>, c: Item, x: Item, child: ItemNode)
    requires Inv(f) && Inv(g) && Linkable(g, c, x) && SameSoFar(f, g) && c in f && x !in f
    requires h == Attach(g, c, x, |g[c].items|)
    requires LoadedAs(g, x, child) && g[x].Weight() == SavedSum([child])
    ensures LoadedInto(f, h, c, [child])
  {
    AttachOnlyGrows(f, g, h, c, x);
    LoadedStays(g, h, c, x, child);
  }

  lemma AttachOnlyGrows(f: Forest<Item>, g: Forest<Item>, h: Forest<Item>, c: Item, x: Item)
    requires Inv(f) && Inv(g) && Linkable(g, c, x) && SameSoFar(f, g) && c in f && x !in f
    requires h == Attach(g, c, x, |g[c].items|)
    ensures Grown(f, h, c) && SameGoods(g, h, c)
    ensures h[c].items == f[c].items + [x] && h[c].total == f[c].total + g[x].Weight()
  {
    forall i | i in f ensures Chain(g, i) == Chain(f, i) {
      GrownChain(f, g, c, i);
    }
    LinkKeeps(g, c, x, |g[c].items|);
    ChainReparent(g, Link(g, c, x, |g[c].items|), x, c);
  }

  lemma GrownTwice(f: Forest<Item>, g: Forest<Item>, h: Forest<Item>, c: Item)
    requires Ranked(f) && Ranked(g) && Grown(f, g, c) && Grown(g, h, c)
    ensures Grown(f, h, c)
  {
    GrownChain(f, g, c, c);
    forall i | i in f
      ensures if i == c then h[i] == f[i].(items := h[i].items, total := h[i].total)
              else if i in Chain(f, c) then h[i] == f[i].(total := h[i].total)
              else h[i] == f[i]
    {
      assert g[i] == g[i] && h[i] == h[i];
    }
  }

  // Everything saved in `nodes` is at the end of c's list, and c's cached weight grew by theirs.
  ghost predicate LoadedInto(f: Forest<Item>, g: Forest<Item>, c: Item, nodes: seq<ItemNode>) {
    && Grown(f, g, c)
    && Loaded(g, g[c].items[|f[c].items|..], nodes)
    && g[c].total == f[c].total + SavedSum(nodes)
  }

  lemma NoneLoaded(f: Forest<Item>, c: Item)
    requires c in f
    ensures LoadedInto(f, f, c, [])
  {
  }

  lemma SavedOneMore(nodes: seq<ItemNode>, node: ItemNode)
    ensures SavedSum(nodes + [node]) == SavedSum(nodes) + SavedSum([node])
  {
  }

  lemma LoadedOneMore(f: Forest<Item>, g: Forest<Item>, h: Forest<Item>, c: Item, nodes: seq<ItemNode>, node: ItemNode)
    requires Ranked(f) && Inv(g) && LoadedInto(f, g, c, nodes) && LoadedInto(g, h, c, [node])
    ensures LoadedInto(f, h, c, nodes + [node])
  {
    GrownTwice(f, g, h, c);
    SavedOneMore(nodes, node);
    var n, xs := |f[c].items|, g[c].items[|f[c].items|..];
    assert h[c].items[n..] == xs + h[c].items[|g[c].items|..];
    forall k | 0 <= k < |xs| ensures LoadedAs(h, xs[k], nodes[k]) {
      assert xs[k] in g[c].items && LinkedDown(g, c) && LoadedAs(g, xs[k], nodes[k]);
      ChainStep(g, xs[k]);
      LoadedStays(g, h, c, xs[k], nodes[k]);
    }
  }

  // Making an item: the world is the same but for it.
  method CreateItem(node: ItemNode, ghost world: set<Item>) returns (item: Item, ghost newWorld: set<Item>)
    requires Sound(world)
    ensures fresh(item) && newWorld == world + {item} && Sound(newWorld)
    ensures Snap(newWorld) == Snap(world)[item := item.View()]
    ensures item.isContainer == node.container
    ensures item.View() == Node(None, [], node.kind, node.count, node.container, node.capacity, 0, 0)
  {
    item := new Item(node.kind, node.count, node.container, node.capacity, true, false);
    newWorld := world + {item};
    Enlarged(Snap(world), item, item.View());
    assert Snap(newWorld) == Snap(world)[item := item.View()];
  }

  lemma {:induction false} FaultsStay(node: ItemNode, k: nat)
    requires k <= |node.children|
    ensures FaultsUpTo(node, k) <= Faults(node)
    decreases |node.children| - k
  {
    if k < |node.children| {
      FaultsStay(node, k + 1);
    }
  }

  lemma OneMoreChild(nodes: seq<ItemNode>, k: nat)
    requires k < |nodes|
    ensures nodes[..k + 1] == nodes[..k] + [nodes[k]]
  {
  }

  lemma AllChildren(nodes: seq<ItemNode>)
    ensures nodes[..|nodes|] == nodes
  {
  }

  /** unserializeItemNode of a container.  Whether or not the data is good the cached weights are
      exact for what was loaded; when it is good everything saved is there, in order. */
  method UnserializeItemNode(c: Item, node: ItemNode, ghost world: set<Item>)
    returns (ok: bool, ghost newWorld: set<Item>)
    requires c in world && c.isContainer && Sound(world)
    modifies world
    ensures world <= newWorld && fresh(newWorld - world) && Sound(newWorld)
    ensures Grown(old(Snap(world)), Snap(newWorld), c)
    ensures ok ==> LoadedInto(old(Snap(world)), Snap(newWorld), c, node.children)
    ensures ok <==> Faults(node) == 0
    decreases node, 0
  {
    ghost var f := Snap(world);
    NoneLoaded(f, c);
    ok, newWorld := node.readable, world;
    var k := 0;
    while ok && k < |node.children|
      invariant 0 <= k <= |node.children|
      invariant world <= newWorld && fresh(newWorld - world) && Sound(newWorld)
      invariant Grown(f, Snap(newWorld), c)
      invariant ok ==> LoadedInto(f, Snap(newWorld), c, node.children[..k])
      invariant if ok then node.readable && FaultsUpTo(node, k) == 0 else Faults(node) > 0
    {
      ok, newWorld := LoadNext(c, node, k, f, newWorld);
      if ok {
        k := k + 1;
      } else {
        FaultsStay(node, k + 1);
      }
    }
    AllChildren(node.children);
  }

  // One round of the loop, seen from the state before the first.
  method LoadNext(c: Item, node: ItemNode, k: nat, ghost f: Forest<Item>, ghost world: set<Item>)
    returns (good: bool, ghost newWorld: set<Item>)
    requires c in world && c.isContainer && Sound(world)
    requires k < |node.children| && FaultsUpTo(node, k) == 0
    requires Ranked(f) && LoadedInto(f, Snap(world), c, node.children[..k])
    modifies world
    ensures world <= newWorld && fresh(newWorld - world) && Sound(newWorld)
    ensures Grown(f, Snap(newWorld), c)
    ensures good <==> FaultsUpTo(node, k + 1) == 0
    ensures good ==> LoadedInto(f, Snap(newWorld), c, node.children[..k + 1])
    decreases node.children[k], 2
  {
    var child := node.children[k];
    newWorld := world;
    if !child.isItem || !child.readable {
      return false, newWorld;
    }
    ghost var before := Snap(world);
    good, newWorld := LoadChild(c, child, world);
    GrownTwice(f, before, Snap(newWorld), c);
    if good {
      OneMoreChild(node.children, k);
      LoadedOneMore(f, before, Snap(newWorld), c, node.children[..k], child);
    }
  }

  // What that round does: build the child, load its contents, add it, push its weight.
  method LoadChild(c: Item, child: ItemNode, ghost world: set<Item>) returns (good: bool, ghost newWorld: set<Item>)
    requires c in world && c.isContainer && Sound(world) && child.readable
    modifies world
    ensures world <= newWorld && fresh(newWorld - world) && Sound(newWorld)
    ensures Grown(old(Snap(world)), Snap(newWorld), c)
    ensures good <==> child.container ==> Faults(child) == 0
    ensures good ==> LoadedInto(old(Snap(world)), Snap(newWorld), c, [child])
    decreases child, 1
  {
    ghost var f := Snap(world);
    var item;
    item, newWorld := CreateItem(child, world);
    ghost var e := Snap(newWorld);
    good := true;
    if child.container {
      good, newWorld := UnserializeItemNode(item, child, newWorld);
    }
    ghost var g := Snap(newWorld);
    ChildLoaded(f, e, g, item, child, good);
    if good {
      assert f[c] == old(c.View()) && g[item] == item.View() && g[c] == c.View();
      NewIsLinkable(f, g, c, item);
      c.AddItemBack(item, newWorld);
      AttachGrows(f, g, Snap(newWorld), c, item, child);
    }
  }
}
