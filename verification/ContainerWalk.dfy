/**
 * The hand-written iterator over a container, and the questions answered by walking it:
 * how many items are inside, how many of them are containers, and whether a given item is.
 */
module ContainerWalk {
  import opened Sequences
  import opened Forest
  import opened Traversal
  import opened Containers

  // What an iterator in state (over, cur) has still to yield before anything newly found.
  ghost function QueueOf(f: Forest<Item>, over: seq<Item>, cur: nat): seq<Item> {
    if over == [] then [] else
      var first := ItemsOf(f, over[0]);
      (if cur <= |first| then first[cur..] else []) + Flatten(f, over[1..])
  }

  // The item just read joins the queue exactly when it holds something.
  lemma QueueGrows(f: Forest<Item>, over: seq<Item>, i: Item, grown: seq<Item>)
    requires over != []
    requires grown == over + [i] || (grown == over && ItemsOf(f, i) == [])
    ensures grown != [] && grown[0] == over[0]
    ensures Flatten(f, grown[1..]) == Flatten(f, over[1..]) + ItemsOf(f, i)
  {
    if grown == over + [i] {
      assert grown[1..] == over[1..] + [i];
      assert grown[1..][..|grown[1..]| - 1] == over[1..];
    }
  }

  // Once the first list is done, the next one takes its place.
  lemma QueueTurns(f: Forest<Item>, over: seq<Item>)
    requires over != []
    ensures Flatten(f, over[1..]) == QueueOf(f, over[1..], 0)
  {
    var rest := over[1..];
    if rest != [] {
      var front := [rest[0]];
      assert front[..0] == [] && rest == front + rest[1..];
      FlattenConcat(f, front, rest[1..]);
      assert Flatten(f, front) == ItemsOf(f, rest[0]) == ItemsOf(f, rest[0])[0..];
    }
  }

  // One advance over the queue: the front leaves, and what it holds joins at the end.
  lemma QueueAdvances(f: Forest<Item>, over: seq<Item>, cur: nat, i: Item, grown: seq<Item>)
    requires over != [] && cur < |ItemsOf(f, over[0])| && i == ItemsOf(f, over[0])[cur]
    requires grown == over + [i] || (grown == over && ItemsOf(f, i) == [])
    ensures grown != [] && grown[0] == over[0]
    ensures QueueOf(f, over, cur) != [] && QueueOf(f, over, cur)[0] == i
    ensures cur + 1 < |ItemsOf(f, over[0])| ==>
      QueueOf(f, grown, cur + 1) == QueueOf(f, over, cur)[1..] + ItemsOf(f, i)
    ensures cur + 1 == |ItemsOf(f, over[0])| ==>
      QueueOf(f, grown[1..], 0) == QueueOf(f, over, cur)[1..] + ItemsOf(f, i)
  {
    var head, rest, more := ItemsOf(f, over[0])[cur..], Flatten(f, over[1..]), ItemsOf(f, i);
    var next := head[1..];
    assert next == ItemsOf(f, over[0])[cur + 1..];
    DropFront(head, rest);
    Assoc(next, rest, more);
    QueueGrows(f, over, i, grown);
    if cur + 1 == |ItemsOf(f, over[0])| {
      assert next + (rest + more) == rest + more;
      QueueTurns(f, grown);
    }
  }

  lemma DropFront(a: seq<Item>, b: seq<Item>)
    requires a != []
    ensures a + b != [] && (a + b)[0] == a[0] && (a + b)[1..] == a[1..] + b
  {
  }

  class ContainerIterator {
    var over: seq<Item>  // containers whose lists are still to be walked
    var cur: nat         // position in the list of the first of them

    // Container::iterator
    constructor (c: Item, ghost world: set<Item>)
      requires c in world
      ensures Valid(world)
      ensures QueueOf(Snap(world), over, cur) == c.itemlist
    {
      over, cur := if c.itemlist == [] then [] else [c], 0;
      new;
      assert Snap(world)[c] == c.View();
    }

    ghost predicate Valid(world: set<Item>)
      reads this, world
    {
      && (forall c | c in over :: c in world && c.itemlist != [])
      && (over != [] ==> cur < |over[0].itemlist|)
    }

    predicate HasNext()
      reads this
    {
      over != []
    }

    function Current(): Item
      requires over != [] && cur < |over[0].itemlist|
      reads this, over
    {
      over[0].itemlist[cur]
    }

    method Advance(ghost world: set<Item>, ghost f: Forest<Item>)
      requires Valid(world) && HasNext() && f == Snap(world) && Inv(f)
      modifies this
      ensures Valid(world)
      ensures old(QueueOf(f, over, cur)) != [] && old(Current()) == old(QueueOf(f, over, cur))[0]
      ensures QueueOf(f, over, cur) == old(QueueOf(f, over, cur))[1..] + ItemsOf(f, old(Current()))
    {
      ghost var before, at := over, cur;
      var i := Current();
      AllListed(world, over[0], i);
      if i.isContainer && i.itemlist != [] {
        over := over + [i];
      }
      ghost var grown := over;
      QueueAdvances(f, before, at, i, grown);
      cur := cur + 1;
      if cur == |over[0].itemlist| {
        over := over[1..];
        if over != [] {
          cur := 0;
        }
        assert QueueOf(f, over, cur) == QueueOf(f, grown[1..], 0);
      } else {
        assert QueueOf(f, over, cur) == QueueOf(f, grown, at + 1);
      }
    }
  }

  lemma AllListed(world: set<Item>, c: Item, i: Item)
    requires c in world && Inv(Snap(world)) && i in c.itemlist
    ensures i in world
    ensures ItemsOf(Snap(world), c) == c.itemlist && ItemsOf(Snap(world), i) == i.itemlist
    ensures i.itemlist != [] ==> i.isContainer
  {
    var f := Snap(world);
    assert f[c] == c.View() && LinkedDown(f, c);
    assert f[i] == i.View() && LinkedDown(f, i);
  }

  // One turn of a loop over the contents: what comes next, and the walk so far with it.
  method Next(it: ContainerIterator, c: Item, ghost v: seq<Item>, ghost world: set<Item>) returns (i: Item)
    requires c in world && Inv(Snap(world)) && it.Valid(world) && it.HasNext()
    requires Walking(Snap(world), c, v, QueueOf(Snap(world), it.over, it.cur))
    modifies it
    ensures it.Valid(world) && Snap(world) == old(Snap(world))
    ensures var q := old(QueueOf(Snap(world), it.over, it.cur)); q != [] && i == q[0]
    ensures i in world && |v| < |world|
    ensures Walking(Snap(world), c, v + [i], QueueOf(Snap(world), it.over, it.cur))
  {
    ghost var f := Snap(world);
    ghost var q := QueueOf(f, it.over, it.cur);
    WalkStep(f, c, v, q);
    WalkBounded(f, c, v, q);
    i := it.Current();
    it.Advance(world, f);
  }

  // getItemHoldingCount
  method GetItemHoldingCount(c: Item, ghost world: set<Item>) returns (counter: nat)
    requires c in world && Inv(Snap(world))
    ensures counter == |Inside(Snap(world), c)|
  {
    ghost var f, v := Snap(world), [];
    counter := 0;
    var it := new ContainerIterator(c, world);
    WalkStart(f, c);
    while it.HasNext()
      invariant it.Valid(world) && Snap(world) == f
      invariant Walking(f, c, v, QueueOf(f, it.over, it.cur)) && counter == |v|
      decreases |world| - |v|
    {
      var i := Next(it, c, v, world);
      v := v + [i];
      counter := counter + 1;
    }
    WalkEnd(f, c, v);
  }

  // getContainerHoldingCount
  method GetContainerHoldingCount(c: Item, ghost world: set<Item>) returns (counter: nat)
    requires c in world && Inv(Snap(world))
    ensures counter == |ContainersIn(Snap(world), Inside(Snap(world), c))|
  {
    ghost var f, v := Snap(world), [];
    counter := 0;
    var it := new ContainerIterator(c, world);
    WalkStart(f, c);
    assert Elements(v) == {};
    while it.HasNext()
      invariant it.Valid(world) && Snap(world) == f
      invariant Walking(f, c, v, QueueOf(f, it.over, it.cur))
      invariant counter == |ContainersIn(f, Elements(v))|
      decreases |world| - |v|
    {
      ghost var q := QueueOf(f, it.over, it.cur);
      var i := Next(it, c, v, world);
      CountOneMore(f, c, v, q);
      assert f[i] == i.View();
      v := v + [i];
      if i.isContainer {
        counter := counter + 1;
      }
    }
    WalkEnd(f, c, v);
  }

  // isHoldingItem
  method IsHoldingItem(c: Item, item: Item, ghost world: set<Item>) returns (held: bool)
    requires c in world && Inv(Snap(world))
    ensures held <==> item in Inside(Snap(world), c)
  {
    ghost var f, v := Snap(world), [];
    var it := new ContainerIterator(c, world);
    WalkStart(f, c);
    while it.HasNext()
      invariant it.Valid(world) && Snap(world) == f
      invariant Walking(f, c, v, QueueOf(f, it.over, it.cur)) && item !in v
      decreases |world| - |v|
    {
      var i := Next(it, c, v, world);
      v := v + [i];
      if i == item {
        assert i in v + QueueOf(f, it.over, it.cur);
        return true;
      }
    }
    WalkEnd(f, c, v);
    assert item !in Elements(v);
    return false;
  }

  // The loop head shared by everything that lists the contents: what comes out, in order.
  method Visit(c: Item, ghost world: set<Item>) returns (visited: seq<Item>)
    requires c in world && Inv(Snap(world))
    ensures IsWalk(Snap(world), c, visited)
    ensures Elements(visited) == Inside(Snap(world), c)
  {
    ghost var f := Snap(world);
    visited := [];
    var it := new ContainerIterator(c, world);
    WalkStart(f, c);
    while it.HasNext()
      invariant it.Valid(world) && Snap(world) == f
      invariant Walking(f, c, visited, QueueOf(f, it.over, it.cur))
      decreases |world| - |visited|
    {
      var i := Next(it, c, visited, world);
      visited := visited + [i];
    }
    WalkEnd(f, c, visited);
  }
}
