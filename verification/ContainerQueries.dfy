/** The admission queries a container answers before anything is moved into it or out of it. */
module ContainerQueries {
  import opened Options
  import opened Forest
  import opened Traversal
  import opened Containers
  import opened ContainerWalk
  import opened Admission

  datatype ReturnValue =
    | NoError
    | NotPossible
    | CannotPickup
    | ThisIsImpossible
    | ContainerNotEnoughRoom
    | OnlyAmmoInQuiver
    | NotMoveable
    | NotEnoughRoom
    | RefusedByCarrier

  datatype Flags = Flags(noLimit: bool, childIsOwner: bool, ignoreNotMoveable: bool, ignoreAutoStack: bool)

  const NO_FLAGS := Flags(false, false, false, false)

  lemma ParentIsContainer<K>(f: Forest<K>, x: K)
    requires Inv(f) && x in f
    ensures f[x].parent.Some? ==> f[x].parent.value in f && f[f[x].parent.value].container
  {
    assert LinkedUp(f, x);
    if f[x].parent.Some? {
      assert LinkedDown(f, f[x].parent.value);
    }
  }

  method GetTopParentContainer(c: Item, ghost world: set<Item>) returns (t: Item)
    requires c in world && Inv(Snap(world))
    ensures t in world && IsTopChosen(Snap(world), c, t)
  {
    ghost var f := Snap(world);
    assert f[c] == c.View();
    ChainStep(f, c);
    t := c;
    var thing: Item? := c.parent;
    if thing == null {
      return;
    }
    while thing.parent != null && thing.parent.isContainer
      invariant thing != null && thing in world && f[thing] == thing.View()
      invariant t in Chain(f, c) && f[t].parent == Some(thing) && thing in Chain(f, c)
      decreases f[thing].rank
    {
      ChainStep(f, thing);
      t := thing;
      var up := ChainUp(f, c, thing);
      thing := thing.parent;
      assert f[thing] == thing.View();
    }
    ParentIsContainer(f, thing);
    assert forall p {:trigger f[p]} | p in world :: f[p] == p.View();
  }

  // The containers around c, c itself excepted.
  ghost function Around(f: Forest<Item>, c: Item): set<Item>
    requires c in f
  {
    Chain(f, c) - {c}
  }

  // What a walk outwards from c that met the item, or an inbox, answers: the item is met first when
  // every inbox around c is around the item, or the item itself.
  ghost function StoppedBy(f: Forest<Item>, c: Item, item: Item, inboxMatters: bool): ReturnValue
    requires c in f
  {
    if item in Around(f, c) && (inboxMatters ==> forall a | a in Around(f, c) && a.isInbox :: a in Chain(f, item)) then
      ThisIsImpossible
    else ContainerNotEnoughRoom
  }

  // Is any cylinder around c the item itself, or an inbox?
  method WalkUp(c: Item, item: Item, inboxMatters: bool, ghost world: set<Item>) returns (ret: ReturnValue)
    requires c in world && Inv(Snap(world))
    ensures ret == NoError <==>
      item !in Around(Snap(world), c) && (inboxMatters ==> forall a | a in Around(Snap(world), c) :: !a.isInbox)
    ensures ret != NoError ==> ret == StoppedBy(Snap(world), c, item, inboxMatters)
  {
    ghost var f := Snap(world);
    assert f[c] == c.View();
    ChainStep(f, c);
    ghost var seen: set<Item> := {};
    var cylinder: Item? := c.parent;
    while cylinder != null
      invariant cylinder != null ==> cylinder in world && Around(f, c) == seen + Chain(f, cylinder)
      invariant cylinder == null ==> Around(f, c) == seen
      invariant item !in seen && (inboxMatters ==> forall a | a in seen :: !a.isInbox)
      decreases if cylinder == null then 0 else 1 + f[cylinder].rank
    {
      var here: Item := cylinder;
      assert here in Around(f, c);
      if here == item {
        return ThisIsImpossible;
      }
      if inboxMatters && here.isInbox {
        if item in Chain(f, here) && here in Chain(f, item) {
          ChainRank(f, here, item);
          ChainRank(f, item, here);
        }
        return ContainerNotEnoughRoom;
      }
      assert f[here] == here.View();
      ChainStep(f, here);
      seen := seen + {here};
      cylinder := here.parent;
    }
    return NoError;
  }

  /** When queryAdd says yes.  `carrier` is what the top parent answers for its child; it is
      NoError when the container is its own top parent. */
  ghost predicate Accepts(f: Forest<Item>, c: Item, item: Item, addIndex: int, noLimit: bool,
                          limits: Limits, carrier: ReturnValue)
    requires c in f && item in f
  {
    && c.unlocked && f[item].kind.pickupable && item !in Chain(f, c)
    && (noLimit || forall a | a in Around(f, c) :: !a.isInbox)
    && (noLimit || addIndex != INDEX_WHEREEVER || |f[c].items| < f[c].capacity)
    && (forall t {:trigger IsTopChosen(f, c, t)} | t in f && IsTopChosen(f, c, t) :: CountsFit(f, t, item, limits))
    && (f[c].kind.quiver ==> f[item].kind.ammunition)
    && carrier == NoError
  }

  /** Moving an item to where queryAdd accepts it: nothing ends up inside itself, and the container
      whose contents were counted stays within the limits. */
  lemma AcceptedKeepsBounds(f: Forest<Item>, c: Item, item: Item, addIndex: int, noLimit: bool, limits: Limits,
                            carrier: ReturnValue, k: nat, t: Item)
    requires Inv(f) && c in f && f[c].container && item in f && LinkedUp(f, item) && t in f && IsTopChosen(f, c, t)
    requires Accepts(f, c, item, addIndex, noLimit, limits, carrier)
    requires k <= |Freed(f, item)[c].items|
    ensures var h := Moved(f, c, item, k);
      && Inv(h) && h.Keys == f.Keys && h[item].parent == Some(c)
      && IsTopChosen(h, c, t)
      && |Inside(h, t)| <= limits.maxItem
      && (f[item].container ==> |ContainersIn(h, Inside(h, t))| <= limits.maxContainer)
  {
    AdmissionKeepsBounds(f, c, item, k, t, limits);
  }

  /** The container around everything is not kept within the limit: queryAdd accepts a coin into a box
      in a full chest, and the chest ends up above it. */
  lemma AcceptedOverLimit(chest: Item, box: Item, coin: Item, kind: ItemType, f: Forest<Item>)
    requires chest != box && box != coin && chest != coin && f == FullChest(chest, box, coin, kind)
    requires box.unlocked && !chest.isInbox && kind.pickupable && !kind.quiver
    ensures Accepts(f, box, coin, 0, false, Limits(1, 1), NoError)
    ensures |Inside(f, chest)| == 1 && |Inside(Moved(f, box, coin, 0), chest)| == 2
  {
    OutermostOverLimit(chest, box, coin, kind, f);
    forall t | t in f && IsTopChosen(f, box, t) ensures CountsFit(f, t, coin, Limits(1, 1)) {
      TopChosenUnique(f, box, t, box);
    }
    AroundGrowsBy(f, box, coin, 0, chest);
  }

  // The first check that fails names the answer; the carrier is asked last.
  ghost function AddAnswer(f: Forest<Item>, c: Item, item: Item, addIndex: int, noLimit: bool,
                           limits: Limits, carrier: ReturnValue): ReturnValue
    requires c in f && item in f
  {
    if !c.unlocked then NotPossible
    else if !f[item].kind.pickupable then CannotPickup
    else if item == c then ThisIsImpossible
    else if item in Around(f, c) || (!noLimit && exists a :: a in Around(f, c) && a.isInbox) then
      StoppedBy(f, c, item, !noLimit)
    else if !noLimit && addIndex == INDEX_WHEREEVER && |f[c].items| >= f[c].capacity then ContainerNotEnoughRoom
    else if exists t {:trigger IsTopChosen(f, c, t)} ::
      t in f && IsTopChosen(f, c, t) && !CountsFit(f, t, item, limits) then
      NotPossible
    else if f[c].kind.quiver && !f[item].kind.ammunition then OnlyAmmoInQuiver
    else carrier
  }

  // The checks in order: what is refused for itself or for what is around the container, ...
  lemma AddAnswerFirst(f: Forest<Item>, c: Item, item: Item, addIndex: int, noLimit: bool, limits: Limits,
                       carrier: ReturnValue)
    requires Ranked(f) && c in f && item in f
    ensures var ret := AddAnswer(f, c, item, addIndex, noLimit, limits, carrier);
      var around, inbox := item in Chain(f, c) && item != c, exists a :: a in Chain(f, c) && a != c && a.isInbox;
      var full := addIndex == -1 && |f[c].items| >= f[c].capacity;
      && (!c.unlocked ==> ret == NotPossible)
      && (c.unlocked && !f[item].kind.pickupable ==> ret == CannotPickup)
      && (c.unlocked && f[item].kind.pickupable ==>
            && (item == c ==> ret == ThisIsImpossible)
            && (around && (noLimit || !inbox) ==> ret == ThisIsImpossible)
            && (item != c && !around && !noLimit && (inbox || full) ==> ret == ContainerNotEnoughRoom))
    // with the item and an inbox on the way out, the nearer one names the answer
    ensures var nearer := exists a :: a in Chain(f, c) && a != c && a.isInbox && a !in Chain(f, item);
      c.unlocked && f[item].kind.pickupable && item in Chain(f, c) && item != c && !noLimit ==>
        AddAnswer(f, c, item, addIndex, noLimit, limits, carrier)
        == if nearer then ContainerNotEnoughRoom else ThisIsImpossible
  {
  }

  // ... and what is refused for the number of items; t is the container whose contents count.
  lemma AddAnswerLast(f: Forest<Item>, c: Item, item: Item, addIndex: int, noLimit: bool, limits: Limits,
                      carrier: ReturnValue, t: Item)
    requires Ranked(f) && c in f && item in f && t in f && IsTopChosen(f, c, t)
    requires c.unlocked && f[item].kind.pickupable && item !in Chain(f, c)
    requires noLimit || forall a | a in Chain(f, c) && a != c :: !a.isInbox
    requires noLimit || addIndex != -1 || |f[c].items| < f[c].capacity
    ensures var ret := AddAnswer(f, c, item, addIndex, noLimit, limits, carrier);
      var items := (if f[item].container then |Inside(f, item)| else 0) + 1 + |Inside(f, t)|;
      var boxes := |ContainersIn(f, Inside(f, item))| + 1 + |ContainersIn(f, Inside(f, t))|;
      if items > limits.maxItem || (f[item].container && boxes > limits.maxContainer) then ret == NotPossible
      else if f[c].kind.quiver && !f[item].kind.ammunition then ret == OnlyAmmoInQuiver
      else ret == carrier
  {
    ChainStep(f, c);
    forall u | u in f && IsTopChosen(f, c, u) ensures u == t {
      TopChosenUnique(f, c, u, t);
    }
  }

  // The answer is a yes exactly when queryAdd accepts.
  lemma AcceptsIff(f: Forest<Item>, c: Item, item: Item, addIndex: int, noLimit: bool, limits: Limits,
                   carrier: ReturnValue)
    requires Ranked(f) && c in f && item in f
    ensures Accepts(f, c, item, addIndex, noLimit, limits, carrier) <==>
      AddAnswer(f, c, item, addIndex, noLimit, limits, carrier) == NoError
  {
    ChainStep(f, c);
  }

  method QueryAdd(c: Item, addIndex: int, item: Item, flags: Flags, limits: Limits, carrier: ReturnValue,
                  ghost world: set<Item>) returns (ret: ReturnValue)
    requires c in world && item in world && Inv(Snap(world))
    ensures ret == NoError <==>
      flags.childIsOwner || Accepts(Snap(world), c, item, addIndex, flags.noLimit, limits, carrier)
    ensures flags.childIsOwner || ret == AddAnswer(Snap(world), c, item, addIndex, flags.noLimit, limits, carrier)
  {
    ghost var f := Snap(world);
    if flags.childIsOwner {
      return NoError;
    }
    assert f[c] == c.View() && f[item] == item.View();
    if !c.unlocked {
      return NotPossible;
    }
    if !item.kind.pickupable {
      return CannotPickup;
    }
    if item == c {
      return ThisIsImpossible;
    }
    ret := WalkUp(c, item, !flags.noLimit, world);
    if ret != NoError {
      return;
    }
    if !flags.noLimit && addIndex == INDEX_WHEREEVER && |c.itemlist| >= c.maxSize {
      return ContainerNotEnoughRoom;
    }
    var fits := CheckCounts(c, item, limits, world);
    if !fits {
      return NotPossible;
    }
    if c.kind.quiver && !item.kind.ammunition {
      return OnlyAmmoInQuiver;
    }
    return carrier;
  }

  // The item and container limits, counted below the container getTopParentContainer picks.
  method CheckCounts(c: Item, item: Item, limits: Limits, ghost world: set<Item>) returns (fits: bool)
    requires c in world && item in world && Inv(Snap(world))
    ensures fits <==>
      forall t {:trigger IsTopChosen(Snap(world), c, t)} | t in world && IsTopChosen(Snap(world), c, t) ::
        CountsFit(Snap(world), t, item, limits)
  {
    ghost var f := Snap(world);
    assert f[item] == item.View();
    var top := GetTopParentContainer(c, world);
    forall t | t in f && IsTopChosen(f, c, t) ensures t == top {
      TopChosenUnique(f, c, t, top);
    }
    var topItems := GetItemHoldingCount(top, world);
    if item.isContainer {
      var topContainers := GetContainerHoldingCount(top, world);
      var addContainers := GetContainerHoldingCount(item, world);
      if addContainers + 1 + topContainers > limits.maxContainer {
        return false;
      }
      var addItems := GetItemHoldingCount(item, world);
      if addItems + 1 + topItems > limits.maxItem {
        return false;
      }
    }
    return topItems + 1 <= limits.maxItem;
  }

  // ---------------------------------------------------------------- how much fits

  ghost predicate Partial(f: Forest<Item>, other: Item, item: Item)
    requires item in f
  {
    other in f && other != item && f[other].kind == f[item].kind && f[other].count < MAX_STACK
  }

  // The room left on the stacks of a list that item could be merged into.
  ghost function Room(f: Forest<Item>, items: seq<Item>, item: Item): nat
    requires item in f
  {
    if items == [] then 0
    else
      var last := items[|items| - 1];
      Room(f, items[..|items| - 1], item) + if Partial(f, last, item) then MAX_STACK - f[last].count else 0
  }

  // The room of lists adds up, and an entry has what it lacks to a hundred pieces.
  lemma {:induction false} RoomOfBoth(f: Forest<Item>, a: seq<Item>, b: seq<Item>, item: Item)
    requires item in f
    ensures Room(f, a + b, item) == Room(f, a, item) + Room(f, b, item)
  {
    if b == [] {
      assert a + b == a;
    } else {
      var m := |b| - 1;
      assert (a + b)[..|a + b| - 1] == a + b[..m];
      RoomOfBoth(f, a, b[..m], item);
    }
  }

  lemma RoomOfOne(f: Forest<Item>, x: Item, item: Item)
    requires item in f && x in f
    ensures Room(f, [], item) == 0
    ensures Room(f, [x], item) ==
      if x != item && f[x].kind == f[item].kind && f[x].count < 100 then 100 - f[x].count else 0
  {
    assert [x][..0] == [];
  }

  lemma {:induction false} NoPartialNoRoom(f: Forest<Item>, items: seq<Item>, item: Item)
    requires item in f && forall x | x in items :: !Partial(f, x, item)
    ensures Room(f, items, item) == 0
  {
    if items != [] {
      NoPartialNoRoom(f, items[..|items| - 1], item);
    }
  }

  ghost function FreeSlots(f: Forest<Item>, c: Item): nat
    requires c in f
  {
    if f[c].capacity > |f[c].items| then f[c].capacity - |f[c].items| else 0
  }

  // What may be added on top of the stacks already there: the whole list for "wherever",
  // only the addressed entry otherwise.
  ghost function MergeRoom(f: Forest<Item>, c: Item, index: int, item: Item, accepted: bool): nat
    requires c in f && item in f
  {
    if index == INDEX_WHEREEVER then
      if accepted then Room(f, f[c].items, item) else 0
    else if 0 <= index < |f[c].items| && f[c].items[index] in f
         && f[f[c].items[index]].kind == f[item].kind && f[f[c].items[index]].count < MAX_STACK then
      MAX_STACK - f[f[c].items[index]].count
    else 0
  }

  // How many pieces are let in at an index: for a stack, a hundred for each free slot and what
  // merges; for anything else the free slots.
  ghost function Allowed(f: Forest<Item>, c: Item, index: int, item: Item, limits: Limits, carrier: ReturnValue): nat
    requires c in f && item in f
  {
    if f[item].kind.stackable then
      FreeSlots(f, c) * MAX_STACK + MergeRoom(f, c, index, item, Accepts(f, c, item, 0, false, limits, carrier))
    else FreeSlots(f, c)
  }

  // A hundred pieces for a free slot, and the room on the entry aimed at, or on all of them.
  lemma AllowedIs(f: Forest<Item>, c: Item, index: int, item: Item, limits: Limits, carrier: ReturnValue)
    requires c in f && item in f && LinkedDown(f, c)
    ensures var n, free := Allowed(f, c, index, item, limits, carrier), f[c].capacity - |f[c].items|;
      var hundreds := if free > 0 then 100 * free else 0;
      && (!f[item].kind.stackable ==> n == if free > 0 then free else 0)
      && (f[item].kind.stackable && index == -1 ==>
            n == hundreds + if Accepts(f, c, item, 0, false, limits, carrier) then Room(f, f[c].items, item) else 0)
      && (f[item].kind.stackable && 0 <= index < |f[c].items| ==>
            var x := f[c].items[index];
            n == hundreds + if f[x].kind == f[item].kind && f[x].count < 100 then 100 - f[x].count else 0)
      && (f[item].kind.stackable && (index < -1 || index >= |f[c].items|) ==> n == hundreds)
  {
  }

  // Adds up the room in the stacks of the same kind, when they would be let in.
  method RoomInStacks(c: Item, item: Item, limits: Limits, carrier: ReturnValue, ghost world: set<Item>)
    returns (n: nat)
    requires c in world && item in world && Inv(Snap(world))
    ensures c in Snap(world) && item in Snap(world)
    ensures forall i | i in c.itemlist :: i in world
    ensures n ==
      if Accepts(Snap(world), c, item, 0, false, limits, carrier) then Room(Snap(world), c.itemlist, item) else 0
  {
    ghost var f := Snap(world);
    assert f[c] == c.View() && f[item] == item.View() && LinkedDown(f, c);
    ghost var accepted := Accepts(f, c, item, 0, false, limits, carrier);
    n := 0;
    var slotIndex, k := 0, 0;
    while k < |c.itemlist|
      invariant 0 <= k <= |c.itemlist| && slotIndex >= 0
      invariant n == if accepted then Room(f, c.itemlist[..k], item) else 0
    {
      var listed := c.itemlist[k];
      assert c.itemlist[..k + 1][..k] == c.itemlist[..k];
      assert listed in world && f[listed] == listed.View();
      if listed != item && listed.kind == item.kind && listed.count < MAX_STACK {
        var r := QueryAdd(c, slotIndex, item, NO_FLAGS, limits, carrier, world);
        slotIndex := slotIndex + 1;
        if r == NoError {
          n := n + (MAX_STACK - listed.count);
        }
      }
      k := k + 1;
    }
    assert c.itemlist[..k] == c.itemlist;
  }

  // The room on the stack that is addressed, if there is one.
  method RoomAt(c: Item, index: int, item: Item, ghost accepted: bool, ghost world: set<Item>) returns (n: nat)
    requires c in world && item in world && Inv(Snap(world)) && index != INDEX_WHEREEVER
    ensures n == MergeRoom(Snap(world), c, index, item, accepted)
  {
    ghost var f := Snap(world);
    assert f[c] == c.View() && f[item] == item.View() && LinkedDown(f, c);
    if 0 <= index < |c.itemlist| {
      var dest := c.itemlist[index];
      assert dest in world && f[dest] == dest.View();
      if item.kind == dest.kind && dest.count < MAX_STACK {
        return MAX_STACK - dest.count;
      }
    }
    return 0;
  }

  // On all other stacks of the kind, or on the addressed entry only.
  method RoomToMerge(c: Item, index: int, item: Item, limits: Limits, carrier: ReturnValue, ghost world: set<Item>)
    returns (n: nat)
    requires c in world && item in world && Inv(Snap(world))
    ensures c in Snap(world) && item in Snap(world)
    ensures n ==
      MergeRoom(Snap(world), c, index, item, Accepts(Snap(world), c, item, 0, false, limits, carrier))
  {
    assert Snap(world)[c] == c.View();
    if index == INDEX_WHEREEVER {
      n := RoomInStacks(c, item, limits, carrier, world);
    } else {
      n := RoomAt(c, index, item, Accepts(Snap(world), c, item, 0, false, limits, carrier), world);
    }
  }

  method QueryMaxCount(c: Item, index: int, item: Item, count: nat, limits: Limits, carrier: ReturnValue,
                       ghost world: set<Item>) returns (ret: ReturnValue, maxQueryCount: nat)
    requires c in world && item in world && Inv(Snap(world))
    ensures maxQueryCount == Allowed(Snap(world), c, index, item, limits, carrier)
    ensures ret == NoError <==> if item.kind.stackable then maxQueryCount >= count else maxQueryCount > 0
    ensures ret == NoError || ret == ContainerNotEnoughRoom
  {
    ghost var f := Snap(world);
    assert f[c] == c.View() && f[item] == item.View() && LinkedDown(f, c);
    var freeSlots: nat := if c.maxSize > |c.itemlist| then c.maxSize - |c.itemlist| else 0;
    if item.kind.stackable {
      var n := RoomToMerge(c, index, item, limits, carrier, world);
      maxQueryCount := freeSlots * MAX_STACK + n;
      ret := if maxQueryCount < count then ContainerNotEnoughRoom else NoError;
    } else {
      maxQueryCount := freeSlots;
      ret := if maxQueryCount == 0 then ContainerNotEnoughRoom else NoError;
    }
  }

  // `house` is what the house tile below everything answers; NoError when there is none.
  method QueryRemove(c: Item, item: Item, count: nat, flags: Flags, house: ReturnValue) returns (ret: ReturnValue)
    ensures ret == NoError <==>
      && item in c.itemlist && count > 0 && (item.kind.stackable ==> count <= item.count)
      && (item.kind.moveable || flags.ignoreNotMoveable) && house == NoError
    ensures ret ==
      if item !in c.itemlist || count == 0 || (item.kind.stackable && count > item.count) then NotPossible
      else if !(item.kind.moveable || flags.ignoreNotMoveable) then NotMoveable
      else house
  {
    var index := c.GetThingIndex(item);
    if index == -1 {
      return NotPossible;
    }
    if count == 0 || (item.kind.stackable && count > item.count) {
      return NotPossible;
    }
    if !item.kind.moveable && !flags.ignoreNotMoveable {
      return NotMoveable;
    }
    return house;
  }

  // ---------------------------------------------------------------- where to

  const MOVE_UP: int := 254
  const ADD_WHEREVER: int := 255

  // The slot asked for as the container takes it, and what it lists there.
  ghost function SlotAsked(f: Forest<Item>, c: Item, index: int): int
    requires c in f
  {
    if index == ADD_WHEREVER || index >= f[c].capacity then INDEX_WHEREEVER else index
  }

  ghost function EntryAt(f: Forest<Item>, c: Item, i: int): Item?
    requires c in f
  {
    if 0 <= i < |f[c].items| then f[c].items[i] else null
  }

  // The first stack of the list that the item can be merged into.
  ghost predicate FirstPartial(f: Forest<Item>, items: seq<Item>, item: Item, n: int)
    requires item in f
  {
    0 <= n < |items| && Partial(f, items[n], item) && forall j | 0 <= j < n :: !Partial(f, items[j], item)
  }

  // An item aimed at a slot: a container there takes it over, a stack there with room keeps it,
  // and otherwise it goes to the first stack with room, if there is one and it may be stacked.
  ghost predicate Lands(f: Forest<Item>, c: Item, item: Item, autoStack: bool, i: int,
                        target: Item, newIndex: int, destItem: Item?)
    requires c in f && item in f
  {
    var aimed := EntryAt(f, c, i);
    if aimed != null && aimed in f && f[aimed].container then
      target == aimed && newIndex == INDEX_WHEREEVER && destItem == null
    else if autoStack && f[item].kind.stackable && f[item].parent != Some(c)
         && !(aimed != null && aimed in f && f[aimed].kind == f[item].kind && f[aimed].count < MAX_STACK)
         && exists x :: x in f[c].items && Partial(f, x, item) then
      target == c && FirstPartial(f, f[c].items, item, newIndex) && destItem == f[c].items[newIndex]
    else target == c && newIndex == i && destItem == aimed
  }

  ghost predicate Directs(f: Forest<Item>, c: Item, index: int, item: Item, autoStack: bool,
                          target: Item, newIndex: int, destItem: Item?)
    requires c in f && item in f
  {
    if !c.unlocked then target == c && newIndex == index && destItem == null
    else if index == MOVE_UP then
      newIndex == INDEX_WHEREEVER && destItem == null && target == if f[c].parent.Some? then f[c].parent.value else c
    else Lands(f, c, item, autoStack, SlotAsked(f, c, index), target, newIndex, destItem)
  }

  // Where the item goes, case by case: `slot` is the slot asked for, none when it is out of range.
  lemma GoesWhere(f: Forest<Item>, c: Item, index: int, item: Item, autoStack: bool, slot: int,
                  target: Item, newIndex: int, destItem: Item?)
    requires c in f && item in f && LinkedDown(f, c)
    requires slot == if index == 255 || index >= f[c].capacity then -1 else index
    requires Directs(f, c, index, item, autoStack, target, newIndex, destItem)
    ensures !c.unlocked ==> target == c && newIndex == index && destItem == null
    ensures c.unlocked && index == 254 ==> newIndex == -1 && destItem == null
    ensures c.unlocked && index == 254 ==> target == match f[c].parent case None => c case Some(p) => p
    ensures c.unlocked && index != 254 ==>
      var there := 0 <= slot < |f[c].items|;
      if there && f[f[c].items[slot]].container then target == f[c].items[slot] && newIndex == -1 && destItem == null
      else
        var merges := autoStack && f[item].kind.stackable && f[item].parent != Some(c);
        var fits := there && f[f[c].items[slot]].kind == f[item].kind && f[f[c].items[slot]].count < 100;
        var first := set n | 0 <= n < |f[c].items| && TakesPieces(f, f[c].items[n], item);
        && target == c
        && (destItem != null ==> 0 <= newIndex < |f[c].items| && destItem == f[c].items[newIndex])
        && if merges && !fits && first != {} then newIndex in first && forall n | n in first :: newIndex <= n
           else newIndex == slot && (destItem == null <==> !there)
  {
    if c.unlocked && index != 254 && target == c {
      var first := set n | 0 <= n < |f[c].items| && TakesPieces(f, f[c].items[n], item);
      if x :| x in f[c].items && Partial(f, x, item) {
        var n :| 0 <= n < |f[c].items| && f[c].items[n] == x;
        assert n in first;
      }
      forall n | 0 <= n < |f[c].items| ensures n in first <==> Partial(f, f[c].items[n], item) {
        assert f[c].items[n] in f;
      }
    }
  }

  // Another stack of the kind with fewer than a hundred pieces.
  ghost predicate TakesPieces(f: Forest<Item>, x: Item, item: Item)
    requires item in f
  {
    x in f && x != item && f[x].kind == f[item].kind && f[x].count < 100
  }

  /** One queryDestination: either the container itself, with the entry to stack onto, or one
      hop to its parent or into a container it lists; a hop always resets the index. */
  method QueryDestination(c: Item, index: int, item: Item, flags: Flags, ghost world: set<Item>)
    returns (target: Item, newIndex: int, destItem: Item?)
    requires c in world && item in world && Inv(Snap(world))
    ensures target in world && target.isContainer == (target != c || c.isContainer)
    ensures target != c ==> newIndex == INDEX_WHEREEVER && destItem == null && index != INDEX_WHEREEVER
    ensures target == c && c.unlocked && destItem != null ==>
      0 <= newIndex < |c.itemlist| && c.itemlist[newIndex] == destItem
    ensures target == c && c.unlocked && destItem == null ==>
      newIndex < c.maxSize && !(0 <= newIndex < |c.itemlist|)
    ensures Directs(Snap(world), c, index, item, !flags.ignoreAutoStack, target, newIndex, destItem)
  {
    ghost var f := Snap(world);
    assert f[c] == c.View() && f[item] == item.View() && LinkedUp(f, c) && LinkedDown(f, c);
    target, newIndex, destItem := c, index, null;
    if !c.unlocked {
      return;
    }
    if index == MOVE_UP {
      newIndex := INDEX_WHEREEVER;
      if c.parent != null {
        target := c.parent;
        assert f[target] == target.View() && LinkedDown(f, target) && RankedAt(f, c);
      }
      return;
    }
    if index == ADD_WHEREVER || index >= c.maxSize {
      newIndex := INDEX_WHEREEVER;
    }
    if newIndex != INDEX_WHEREEVER {
      if 0 <= newIndex < |c.itemlist| {
        destItem := c.itemlist[newIndex];
        assert destItem in world && f[destItem] == destItem.View() && RankedAt(f, destItem);
      }
      if destItem != null && destItem.isContainer {
        target, newIndex, destItem := destItem, INDEX_WHEREEVER, null;
        return;
      }
    }
    if !flags.ignoreAutoStack && item.kind.stackable && item.parent != c {
      if destItem != null && destItem.kind == item.kind && destItem.count < MAX_STACK {
        return;
      }
      var n := 0;
      while n < |c.itemlist|
        invariant 0 <= n <= |c.itemlist|
        invariant forall j | 0 <= j < n :: !Partial(f, f[c].items[j], item)
      {
        var listed := c.itemlist[n];
        assert f[listed] == listed.View();
        if listed != item && listed.kind == item.kind && listed.count < MAX_STACK {
          assert listed in f[c].items && Partial(f, listed, item) && FirstPartial(f, f[c].items, item, n);
          destItem, newIndex := listed, n;
          return;
        }
        n := n + 1;
      }
    }
  }
}
