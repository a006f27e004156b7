/** The trade of two players' items, with the references the table of offers holds. */
module Trade {
  import opened Options
  import opened TradeTable

  class Item {
    var references: int
    var owner: Player?

    constructor (references: int, owner: Player?)
      ensures this.references == references && this.owner == owner
    {
      this.references, this.owner := references, owner;
    }
  }

  class Player {
    var tradeState: TradeState
    var tradePartner: Player?
    var tradeItem: Item?

    constructor ()
      ensures tradeState == NONE && tradePartner == null && tradeItem == null
    {
      tradeState, tradePartner, tradeItem := NONE, null, null;
    }
  }

  function PlayerIf(p: Player?): Option<Player> {
    if p == null then None else var q: Player := p; Some(q)
  }

  function ItemIf(i: Item?): Option<Item> {
    if i == null then None else var j: Item := i; Some(j)
  }

  // What the world answers while a trade is accepted: whether the partner can be reached, whether
  // the scripts allow it, whether each item would fit and may be removed, and whether it moves.
  datatype Answers = Answers(reachable: bool, allowed: bool, fits1: bool, fits2: bool,
                             removable1: bool, removable2: bool, moves1: bool, moves2: bool)

  // In passing any trade may have been called off, but none that is being transferred.
  ghost predicate Disturbed(t: Table<Player, Item>, u: Table<Player, Item>) {
    t.Keys == u.Keys && forall r {:trigger DisturbedAt(t, u, r)} | r in t :: DisturbedAt(t, u, r)
  }

  ghost predicate DisturbedAt(t: Table<Player, Item>, u: Table<Player, Item>, r: Player)
    requires r in t && r in u
  {
    u[r] == t[r] || (u[r] == Idle() && t[r].state != TRANSFER)
  }

  // Of everybody but p and q, what the scripts left.
  ghost predicate DisturbedBeside(t: Table<Player, Item>, u: Table<Player, Item>, p: Player, q: Player) {
    t.Keys == u.Keys && forall r {:trigger DisturbedAt(t, u, r)} | r in t && r != p && r != q :: DisturbedAt(t, u, r)
  }

  lemma BesideTheTrade(t: Table<Player, Item>, mid: Table<Player, Item>, u: Table<Player, Item>, p: Player, q: Player)
    requires p in t && q in t && Disturbed(Transferring(t, p, q), mid) && u == mid[p := Idle()][q := Idle()]
    ensures DisturbedBeside(t, u, p, q)
  {
    forall r | r in t && r != p && r != q ensures DisturbedAt(t, u, r) {
      assert DisturbedAt(Transferring(t, p, q), mid, r);
    }
  }

  lemma DisturbedByOne(t: Table<Player, Item>, u: Table<Player, Item>, held: map<Item, Player>, p: Player)
    requires Disturbed(t, u) && Consistent(u, held) && p in u
    ensures Disturbed(t, Closed(u, p))
  {
    assert Seated(u, p);
    forall r | r in t ensures r in Closed(u, p) && DisturbedAt(t, Closed(u, p), r) {
      assert DisturbedAt(t, u, r);
      if u[r].state == TRANSFER {
        CloseLeavesTransfers(u, held, p, r);
      }
    }
  }

  lemma BesideAccepting(t: Table<Player, Item>, mid: Table<Player, Item>, u: Table<Player, Item>, p: Player, q: Player)
    requires p in t && mid == Accepting(t, p) && DisturbedBeside(mid, u, p, q)
    ensures DisturbedBeside(t, u, p, q)
  {
    forall r | r in t && r != p && r != q ensures DisturbedAt(t, u, r) {
      assert DisturbedAt(mid, u, r);
    }
  }

  lemma DisturbedTwice(t: Table<Player, Item>, u: Table<Player, Item>, v: Table<Player, Item>)
    requires Disturbed(t, u) && Disturbed(u, v)
    ensures Disturbed(t, v)
  {
    forall r | r in t ensures DisturbedAt(t, v, r) {
      assert DisturbedAt(t, u, r) && DisturbedAt(u, v, r);
    }
  }

  function SetOf(i: Item?): set<Item> {
    if i == null then {} else var j: Item := i; {j}
  }

  // Whether accepting takes the trade on: it is p's turn and the partner can be reached.
  predicate TakesEffect(t: Table<Player, Item>, p: Player, w: Answers)
    requires p in t
  {
    (t[p].state == ACKNOWLEDGE || t[p].state == INITIATED) && w.reachable
  }

  // One of the two is the other, or is inside it.
  predicate Overlap(i: Item, j: Item, inside: (Item, Item) -> bool) {
    i == j || inside(i, j) || inside(j, i)
  }

  // No item on offer is inside another.
  ghost predicate Apart(offers: set<Item>, inside: (Item, Item) -> bool) {
    forall i, j | i in offers && j in offers && i != j :: !inside(i, j)
  }

  function PartnerOf(t: Table<Player, Item>, p: Player): Player
    requires p in t && t[p].partner.Some?
  {
    t[p].partner.value
  }

  predicate BothAccept(t: Table<Player, Item>, p: Player, w: Answers)
    requires p in t
  {
    TakesEffect(t, p, w) && t[p].partner.Some? && PartnerOf(t, p) in t && t[PartnerOf(t, p)].state == ACCEPT
  }

  class Game {
    const players: set<Player>
    const items: set<Item>
    var tradeItems: map<Item, Player>
    var ToReleaseItems: seq<Item>

    // Every player's side, and the references held elsewhere.
    ghost var table: Table<Player, Item>
    ghost const others: map<Item, int>

    constructor (players: set<Player>, items: set<Item>, ghost others: map<Item, int>)
      requires forall p | p in players :: p.tradeState == NONE && p.tradePartner == null && p.tradeItem == null
      requires others.Keys == items && forall i | i in items :: i.references == others[i]
      ensures Valid() && this.players == players && this.items == items && tradeItems == map[] && ToReleaseItems == []
    {
      this.players, this.items, this.others := players, items, others;
      tradeItems, ToReleaseItems := map[], [];
      table := map p | p in players :: Idle();
      new;
      forall p | p in players ensures Seated(table, p) && Mirrored(p) && Offered(table, tradeItems, p) {
      }
      forall i | i in items ensures Counted(i) {
      }
    }

    ghost predicate Mirrored(p: Player)
      reads this`table, p
    {
      && p in table
      && table[p].state == p.tradeState
      && table[p].partner == PlayerIf(p.tradePartner)
      && table[p].item == ItemIf(p.tradeItem)
      && (p.tradeItem != null ==> p.tradeItem in items)
    }

    // The references the game took to an item: one while it is offered, one per pending release.
    ghost predicate Counted(i: Item)
      reads this`tradeItems, this`ToReleaseItems, i`references
    {
      && i in others
      && i.references == others[i] + (if i in tradeItems then 1 else 0) + multiset(ToReleaseItems)[i]
    }

    ghost predicate Sane()
      reads this, players, items`references
    {
      && table.Keys == players && others.Keys == items
      && tradeItems.Keys <= items && (forall i | i in ToReleaseItems :: i in items)
      && (forall p {:trigger Mirrored(p)} | p in players :: Mirrored(p))
      && forall i {:trigger Counted(i)} | i in items :: Counted(i)
    }

    ghost predicate Valid()
      reads this, players, items`references
    {
      Sane() && Consistent(table, tradeItems)
    }

    method SetSide(p: Player, state: TradeState, partner: Player?, item: Item?)
      requires Sane() && p in players && (item != null ==> item in items)
      modifies p, this`table
      ensures Sane()
      ensures table == old(table)[p := Side(state, PlayerIf(partner), ItemIf(item))]
    {
      p.tradeState, p.tradePartner, p.tradeItem := state, partner, item;
      table := table[p := Side(state, PlayerIf(partner), ItemIf(item))];
      forall r | r in players ensures Mirrored(r) {
        assert old(Mirrored(r));
      }
    }

    // Takes an item off the table of offers, if it is there, and releases the reference to it.
    method Withdraw(item: Item?)
      requires Sane()
      modifies this`tradeItems, this`ToReleaseItems
      ensures Sane()
      ensures tradeItems == old(tradeItems) - SetOf(item)
      ensures SetOf(item) <= old(tradeItems).Keys ==>
        multiset(ToReleaseItems) == multiset(old(ToReleaseItems)) + multiset(SetOf(item))
    {
      if item != null && item in tradeItems {
        ghost var was := ToReleaseItems;
        ToReleaseItems := ToReleaseItems + [item];
        tradeItems := tradeItems - {item};
        assert multiset(ToReleaseItems) == multiset(was) + multiset{item};
        forall i | i in items ensures Counted(i) {
          assert old(Counted(i));
        }
      } else {
        assert tradeItems - SetOf(item) == tradeItems;
      }
    }

    // Enters an item into the table of offers and takes a reference to it.
    method Enter(item: Item, owner: Player)
      requires Sane() && item in items && item !in tradeItems
      modifies this`tradeItems, item`references
      ensures Sane() && tradeItems == old(tradeItems)[item := owner]
    {
      item.references := item.references + 1;
      tradeItems := tradeItems[item := owner];
      forall i | i in items ensures Counted(i) {
        assert old(Counted(i));
      }
    }

    /** Starts or answers a trade; the caller offers an item that is not being traded yet. */
    method InternalStartTrade(player: Player, tradePartner: Player, tradeItem: Item) returns (ok: bool)
      requires Valid() && player in players && tradePartner in players && player != tradePartner
      requires tradeItem in items && tradeItem !in tradeItems
      modifies this, players, items`references
      ensures Valid() && ToReleaseItems == old(ToReleaseItems)
      ensures ok <==> MayStart(old(table), player, tradePartner)
      ensures ok <==>
        && old(player.tradeState == NONE || (player.tradeState == ACKNOWLEDGE && player.tradePartner == tradePartner))
        && old(tradePartner.tradeState == NONE || tradePartner.tradePartner == player)
      ensures ok ==>
        && player.tradeState == INITIATED && player.tradePartner == tradePartner && player.tradeItem == tradeItem
        && tradePartner.tradePartner == player && tradePartner.tradeItem == old(tradePartner.tradeItem)
        && tradePartner.tradeState ==
             old(if tradePartner.tradeState == NONE then ACKNOWLEDGE else tradePartner.tradeState)
      ensures table == if ok then Started(old(table), player, tradePartner, tradeItem) else old(table)
      ensures tradeItems == if ok then old(tradeItems)[tradeItem := player] else old(tradeItems)
    {
      assert Mirrored(player) && Mirrored(tradePartner);
      if player.tradeState != NONE && !(player.tradeState == ACKNOWLEDGE && player.tradePartner == tradePartner) {
        return false;
      } else if tradePartner.tradeState != NONE && tradePartner.tradePartner != player {
        return false;
      }
      StartKeeps(table, tradeItems, player, tradePartner, tradeItem);
      assert tradePartner.tradeState != NONE ==> Seated(table, tradePartner);
      SetSide(player, INITIATED, tradePartner, tradeItem);
      Enter(tradeItem, player);
      assert Mirrored(tradePartner);
      if tradePartner.tradeState == NONE {
        SetSide(tradePartner, ACKNOWLEDGE, player, tradePartner.tradeItem);
      }
      assert Mirrored(player) && Mirrored(tradePartner);
      ok := true;
    }

    // Whether the item is on offer already, or one that is in it or around it.
    method IsTraded(tradeItem: Item, inside: (Item, Item) -> bool) returns (traded: bool)
      ensures traded <==> exists i :: i in tradeItems && Overlap(i, tradeItem, inside)
    {
      var left := tradeItems.Keys;
      while left != {}
        invariant left <= tradeItems.Keys
        invariant forall i | i in tradeItems && i !in left :: !Overlap(i, tradeItem, inside)
        decreases |left|
      {
        var item :| item in left;
        if item == tradeItem || inside(tradeItem, item) || inside(item, tradeItem) {
          return true;
        }
        left := left - {item};
      }
      traded := false;
    }

    /** A request with an item that overlaps one on offer is refused; `inside` says which item is inside
        which, and `admissible` stands for the distance, reach, house, size and script checks. */
    method PlayerRequestTrade(player: Player, tradePartner: Player, tradeItem: Item, admissible: bool,
                              inside: (Item, Item) -> bool)
      returns (ok: bool)
      requires Valid() && player in players && tradePartner in players && tradeItem in items
      modifies this, players, items`references
      ensures Valid() && ToReleaseItems == old(ToReleaseItems)
      ensures ok <==>
        && player != tradePartner && admissible && MayStart(old(table), player, tradePartner)
        && forall i | i in old(tradeItems) :: !Overlap(i, tradeItem, inside)
      ensures ok <==>
        && player != tradePartner && admissible
        && old(player.tradeState == NONE || (player.tradeState == ACKNOWLEDGE && player.tradePartner == tradePartner))
        && old(tradePartner.tradeState == NONE || tradePartner.tradePartner == player)
        && forall i | i in old(tradeItems) :: i != tradeItem && !inside(tradeItem, i) && !inside(i, tradeItem)
      ensures !ok ==> table == old(table) && tradeItems == old(tradeItems)
      ensures ok ==>
        && table == Started(old(table), player, tradePartner, tradeItem)
        && tradeItems == old(tradeItems)[tradeItem := player]
      ensures Apart(old(tradeItems).Keys, inside) ==> Apart(tradeItems.Keys, inside)
    {
      if tradePartner == player || !admissible {
        return false;
      }
      var traded := IsTraded(tradeItem, inside);
      if traded {
        return false;
      }
      ok := InternalStartTrade(player, tradePartner, tradeItem);
    }

    /** Calls a trade off, unless it is being transferred: then nothing happens. */
    method InternalCloseTrade(player: Player)
      requires Valid() && player in players
      modifies this, players
      ensures Valid() && table == Closed(old(table), player)
      ensures var partner := old(player.tradePartner);
        old(player.tradeState) != TRANSFER && (partner != null ==> old(partner.tradeState) != TRANSFER) ==>
          && player.tradeState == NONE && player.tradePartner == null && player.tradeItem == null
          && (old(player.tradeItem) != null ==> old(player.tradeItem) !in tradeItems)
          && (partner != null ==>
                && partner.tradeState == NONE && partner.tradePartner == null && partner.tradeItem == null
                && (old(partner.tradeItem) != null ==> old(partner.tradeItem) !in tradeItems))
      ensures Busy(old(table), player) ==> tradeItems == old(tradeItems) && ToReleaseItems == old(ToReleaseItems)
      ensures !Busy(old(table), player) ==>
        && tradeItems == old(tradeItems) - Offers(old(table), player)
        && multiset(ToReleaseItems) == multiset(old(ToReleaseItems)) + multiset(Offers(old(table), player))
    {
      assert Mirrored(player) && Seated(table, player);
      var tradePartner := player.tradePartner;
      assert tradePartner != null ==> Mirrored(tradePartner);
      if (tradePartner != null && tradePartner.tradeState == TRANSFER) || player.tradeState == TRANSFER {
        return;
      }
      CloseKeeps(table, tradeItems, player);
      OffersReleased(table, tradeItems, player);
      ClearSide(player);
      if tradePartner != null {
        ClearSide(tradePartner);
        assert Mirrored(tradePartner);
      }
      assert Mirrored(player);
    }

    // Withdraws a player's offer and resets the player.
    method ClearSide(p: Player)
      requires Sane() && p in players && ItemOf(table, p) <= tradeItems.Keys
      modifies this, players
      ensures Sane() && table == old(table)[p := Idle()]
      ensures tradeItems == old(tradeItems) - ItemOf(old(table), p)
      ensures multiset(ToReleaseItems) == multiset(old(ToReleaseItems)) + multiset(ItemOf(old(table), p))
    {
      assert Mirrored(p);
      Withdraw(p.tradeItem);
      SetSide(p, NONE, null, null);
    }

    method DropReference()
      requires Valid() && ToReleaseItems != []
      modifies this`ToReleaseItems, items`references
      ensures Valid() && ToReleaseItems == old(ToReleaseItems)[1..]
    {
      var item := ToReleaseItems[0];
      ghost var was := ToReleaseItems;
      item.references := item.references - 1;
      ToReleaseItems := ToReleaseItems[1..];
      assert was == [item] + ToReleaseItems;
      assert multiset(was) == multiset{item} + multiset(ToReleaseItems);
      forall i | i in items ensures Counted(i) {
        assert old(Counted(i));
      }
    }

    /** Carries out the pending releases: what is left is one reference for each offered item. */
    method Cleanup()
      requires Valid()
      modifies this`ToReleaseItems, items`references
      ensures Valid() && ToReleaseItems == []
      ensures forall i | i in items :: i.references == others[i] + if i in tradeItems then 1 else 0
    {
      while ToReleaseItems != []
        invariant Valid()
        decreases |ToReleaseItems|
      {
        DropReference();
      }
      forall i | i in items ensures i.references == others[i] + if i in tradeItems then 1 else 0 {
        assert Counted(i);
      }
    }

    // Scripts and notifications run here; any trade may be called off by them.
    method Disturb()
      requires Valid()
      modifies this, players
      ensures Valid() && Disturbed(old(table), table)
    {
      var n: nat :| 0 <= n;
      for k := 0 to n
        invariant Valid() && Disturbed(old(table), table)
      {
        var any: Player? := *;
        if any != null && any in players {
          DisturbedByOne(old(table), table, tradeItems, any);
          InternalCloseTrade(any);
        }
      }
    }

    // Moves an item to a player when the world lets it.
    method InternalMoveItem(item: Item, to: Player, moves: bool)
      requires Valid() && item in items
      modifies this, players, item`owner
      ensures Valid() && Disturbed(old(table), table)
      ensures item.owner == if moves then to else old(item.owner)
    {
      if moves {
        item.owner := to;
      }
      Disturb();
    }

    // Both sides into transfer, and both offers off the table of offers.
    method BeginTransfer(player: Player, tradePartner: Player)
      requires Valid() && player in players && tradePartner in players
      requires table[player].partner == Some(tradePartner)
      requires table[player].state == ACCEPT && table[tradePartner].state == ACCEPT
      modifies this, players
      ensures Valid() && table == Transferring(old(table), player, tradePartner)
      ensures tradeItems == old(tradeItems) - Offers(old(table), player)
      ensures multiset(ToReleaseItems) == multiset(old(ToReleaseItems)) + multiset(Offers(old(table), player))
    {
      assert Mirrored(player) && Mirrored(tradePartner);
      TransferKeeps(table, tradeItems, player, tradePartner);
      OffersReleased(table, tradeItems, player);
      var tradeItem1, tradeItem2 := player.tradeItem, tradePartner.tradeItem;
      SetSide(player, TRANSFER, player.tradePartner, tradeItem1);
      assert Mirrored(tradePartner);
      SetSide(tradePartner, TRANSFER, tradePartner.tradePartner, tradeItem2);
      WithdrawBoth(tradeItem1, tradeItem2);
    }

    method WithdrawBoth(tradeItem1: Item?, tradeItem2: Item?)
      requires Sane() && SetOf(tradeItem1) <= tradeItems.Keys && SetOf(tradeItem2) <= tradeItems.Keys
      requires SetOf(tradeItem1) !! SetOf(tradeItem2)
      modifies this`tradeItems, this`ToReleaseItems
      ensures Sane() && tradeItems == old(tradeItems) - SetOf(tradeItem1) - SetOf(tradeItem2)
      ensures multiset(ToReleaseItems) ==
        multiset(old(ToReleaseItems)) + (multiset(SetOf(tradeItem1)) + multiset(SetOf(tradeItem2)))
    {
      Withdraw(tradeItem1);
      Withdraw(tradeItem2);
    }

    // The attempt to exchange; a failure of the second move is not looked at.
    method Exchange(player: Player, tradePartner: Player, tradeItem1: Item?, tradeItem2: Item?, w: Answers)
      requires Valid() && player in players && tradePartner in players
      requires tradeItem1 != null ==> tradeItem1 in items
      requires tradeItem2 != null ==> tradeItem2 in items && tradeItem1 != tradeItem2
      modifies this, players, items`owner
      ensures Valid() && Disturbed(old(table), table)
      ensures OwnersAfter(player, tradePartner, ItemIf(tradeItem1), ItemIf(tradeItem2), w)
      ensures
        if tradeItem1 != null && tradeItem2 != null
           && w.fits1 && w.fits2 && w.removable1 && w.removable2 && w.moves1 then
          && tradeItem1.owner == tradePartner
          && tradeItem2.owner == (if w.moves2 then player else old(tradeItem2.owner))
          && forall x | x in items && x != tradeItem1 && x != tradeItem2 :: x.owner == old(x.owner)
        else forall x | x in items :: x.owner == old(x.owner)
    {
      var ret1 := tradeItem1 != null && w.fits1;
      var ret2 := tradeItem2 != null && w.fits2;
      if ret1 && ret2 {
        if w.removable1 && w.removable2 {
          InternalMoveItem(tradeItem1, tradePartner, w.moves1);
          if w.moves1 {
            ghost var u := table;
            InternalMoveItem(tradeItem2, player, w.moves2);
            DisturbedTwice(old(table), u, table);
          }
        }
      }
    }

    // The partner had accepted before: the exchange and the end of the trade.
    method Settle(player: Player, tradePartner: Player, w: Answers)
      requires Valid() && player in players && tradePartner in players && player.tradePartner == tradePartner
      requires table[player].state == ACCEPT && table[tradePartner].state == ACCEPT
      modifies this, players, items`owner
      ensures Valid() && table.Keys == old(table).Keys
      ensures table[player] == Idle() && table[tradePartner] == Idle()
      ensures DisturbedBeside(old(table), table, player, tradePartner)
      ensures var i, j := old(player.tradeItem), old(tradePartner.tradeItem);
        if i != null && j != null && w.fits1 && w.fits2 && w.removable1 && w.removable2 && w.moves1 then
          && i.owner == tradePartner && j.owner == (if w.moves2 then player else old(j.owner))
          && forall x | x in items && x != i && x != j :: x.owner == old(x.owner)
        else forall x | x in items :: x.owner == old(x.owner)
    {
      assert Mirrored(player) && Mirrored(tradePartner);
      OffersReleased(table, tradeItems, player);
      var tradeItem1, tradeItem2 := player.tradeItem, tradePartner.tradeItem;
      BeginTransfer(player, tradePartner);
      Exchange(player, tradePartner, tradeItem1, tradeItem2, w);
      EndTransfer(player, tradePartner, old(table));
    }

    // `t` is the table before the transfer began.
    method EndTransfer(player: Player, tradePartner: Player, ghost t: Table<Player, Item>)
      requires Valid() && player in players && tradePartner in players && t.Keys == players
      requires t[player].partner == Some(tradePartner) && Disturbed(Transferring(t, player, tradePartner), table)
      modifies this, players
      ensures Valid() && table.Keys == t.Keys && table[player] == Idle() && table[tradePartner] == Idle()
      ensures DisturbedBeside(t, table, player, tradePartner)
    {
      ghost var mid := table;
      assert DisturbedAt(Transferring(t, player, tradePartner), mid, player);
      EndTrade(player, tradePartner);
      BesideTheTrade(t, mid, table, player, tradePartner);
    }

    method EndTrade(player: Player, tradePartner: Player)
      requires Valid() && player in players && tradePartner in players
      requires table[player].partner == Some(tradePartner) && table[player].state == TRANSFER
      modifies this, players
      ensures Valid() && table == old(table)[player := Idle()][tradePartner := Idle()]
      ensures tradeItems == old(tradeItems) && ToReleaseItems == old(ToReleaseItems)
    {
      EndKeeps(table, tradeItems, player, tradePartner);
      SetSide(player, NONE, null, null);
      SetSide(tradePartner, NONE, null, null);
    }

    // Who owns what after an attempt to exchange.
    twostate predicate OwnersAfter(player: Player, tradePartner: Player, item1: Option<Item>, item2: Option<Item>,
                                   w: Answers)
      reads items
    {
      forall i {:trigger i.owner} | i in items ::
        i.owner == NewOwner(old(i.owner), i, player, tradePartner, item1, item2, w)
    }

    /** A player accepts. When both have, the items change hands, if they do, and the trade ends: the
        item of each goes to the other when everything is in order, but that the second may stay. */
    method PlayerAcceptTrade(player: Player, w: Answers)
      requires Valid() && player in players
      modifies this, players, items`owner
      ensures Valid() && table.Keys == old(table).Keys
      ensures !TakesEffect(old(table), player, w) ==>
        table == old(table) && tradeItems == old(tradeItems) && ToReleaseItems == old(ToReleaseItems)
      ensures TakesEffect(old(table), player, w) && !BothAccept(old(table), player, w) ==>
        table == Accepting(old(table), player) && tradeItems == old(tradeItems) && ToReleaseItems == old(ToReleaseItems)
      ensures BothAccept(old(table), player, w) && !w.allowed ==> table == Cleared(old(table), player)
      ensures BothAccept(old(table), player, w) ==>
        table[player] == Idle() && table[PartnerOf(old(table), player)] == Idle()
      ensures BothAccept(old(table), player, w) && w.allowed ==>
        DisturbedBeside(old(table), table, player, PartnerOf(old(table), player))
      ensures var q, i := old(player.tradePartner), old(player.tradeItem);
        var both := old(player.tradeState == ACKNOWLEDGE || player.tradeState == INITIATED)
          && q != null && old(q.tradeState) == ACCEPT;
        var j := if q == null then null else old(q.tradeItem);
        && (both && w.reachable ==> player.tradeState == NONE && q.tradeState == NONE)
        && (!both && w.reachable && old(player.tradeState == ACKNOWLEDGE || player.tradeState == INITIATED) ==>
              player.tradeState == ACCEPT && player.tradePartner == q && player.tradeItem == i)
        && if both && w.reachable && w.allowed && i != null && j != null
              && w.fits1 && w.fits2 && w.removable1 && w.removable2 && w.moves1 then
             && i.owner == q && j.owner == (if w.moves2 then player else old(j.owner))
             && forall x | x in items && x != i && x != j :: x.owner == old(x.owner)
           else forall x | x in items :: x.owner == old(x.owner)
    {
      assert Mirrored(player) && Seated(table, player);
      if player.tradeState != ACKNOWLEDGE && player.tradeState != INITIATED {
        return;
      }
      var tradePartner := player.tradePartner;
      if !w.reachable {
        return;
      }
      AcceptKeeps(table, tradeItems, player);
      SetSide(player, ACCEPT, player.tradePartner, player.tradeItem);
      assert Mirrored(player) && Mirrored(tradePartner) && tradePartner != player;
      if tradePartner.tradeState == ACCEPT {
        if !w.allowed {
          InternalCloseTrade(player);
          return;
        }
        ghost var t := table;
        Settle(player, tradePartner, w);
        BesideAccepting(old(table), t, table, player, tradePartner);
        assert Mirrored(player) && Mirrored(tradePartner);
      }
    }
  }

  // An item changes hands only when both are there and the world lets both go and the first move;
  // the second may then stay behind.
  function NewOwner(was: Player?, i: Item, player: Player, tradePartner: Player,
                    item1: Option<Item>, item2: Option<Item>, w: Answers): Player?
  {
    if item1 == None || item2 == None || !(w.fits1 && w.fits2 && w.removable1 && w.removable2 && w.moves1) then was
    else if item1 == Some(i) then tradePartner
    else if item2 == Some(i) && w.moves2 then player
    else was
  }

  // Whether the item of one side comes to belong to the other.
  predicate Given(from: Player, to: Player, i: Option<Item>, player: Player, tradePartner: Player,
                  item1: Option<Item>, item2: Option<Item>, w: Answers)
  {
    i.Some? && NewOwner(from, i.value, player, tradePartner, item1, item2, w) == to
  }

  /** Both items change hands or neither does, unless everything is in order but the second move. */
  lemma WholeIff(player: Player, tradePartner: Player, item1: Option<Item>, item2: Option<Item>, w: Answers)
    requires player != tradePartner && (item1.Some? && item2.Some? ==> item1 != item2)
    ensures (Given(player, tradePartner, item1, player, tradePartner, item1, item2, w)
             <==> Given(tradePartner, player, item2, player, tradePartner, item1, item2, w))
      <==> !(item1.Some? && item2.Some? && w.fits1 && w.fits2 && w.removable1 && w.removable2 && w.moves1 && !w.moves2)
  {
  }

  /** Such an answer: only the second move fails, and the first item changes hands alone. */
  lemma OneSided(player: Player, tradePartner: Player, i: Item, j: Item)
    requires player != tradePartner && i != j
    ensures var w := Answers(true, true, true, true, true, true, true, false);
      && Given(player, tradePartner, Some(i), player, tradePartner, Some(i), Some(j), w)
      && !Given(tradePartner, player, Some(j), player, tradePartner, Some(i), Some(j), w)
  {
    WholeIff(player, tradePartner, Some(i), Some(j), Answers(true, true, true, true, true, true, true, false));
  }

  // The two offers of a trade are different items, and both are in the table.
  lemma OffersReleased(t: Table<Player, Item>, held: map<Item, Player>, p: Player)
    requires Consistent(t, held) && p in t && !Busy(t, p)
    ensures ItemOf(t, p) <= held.Keys
    ensures t[p].partner == None ==> Offers(t, p) == ItemOf(t, p)
    ensures t[p].partner.Some? ==>
      var q := t[p].partner.value;
      && q in t && ItemOf(t, q) <= held.Keys && ItemOf(t, p) !! ItemOf(t, q)
      && multiset(ItemOf(t, p)) + multiset(ItemOf(t, q)) == multiset(Offers(t, p))
      && held - ItemOf(t, p) - ItemOf(t, q) == held - Offers(t, p)
      && ItemOf(t[p := Idle()], q) == ItemOf(t, q) && p != q
  {
    assert Seated(t, p) && Offered(t, held, p);
    if t[p].partner.Some? {
      assert Seated(t, t[p].partner.value) && Offered(t, held, t[p].partner.value);
    }
  }
}
