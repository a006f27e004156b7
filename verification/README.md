# Verified model of the game server core

This project models the stateful core of a 2D multiplayer game server and proves properties of
the model with Dafny: nested containers and the moves between them, the walkability cache that
slides with a creature, the binary tree format of maps and item files, the decay wheel,
conditions and their saved form, the trade of two players, coins, the database task queue and
combat areas.

`dafny verify dfyconfig.toml` checks the whole project.

## How it is laid out

| Part | Files | Main results |
|---|---|---|
| Containers | `Options`, `Sequences`, `Numbers`, `Words`, `Forest`, `Container`, `ContainerLoad` | every cached weight is the recursive sum of what is inside, after any operation, at any depth |
| Walks and queries | `Traversal`, `ContainerWalk`, `Admission`, `ContainerQueries` | the queue iterator is the one breadth-first walk; an accepted item leaves the forest acyclic and within limits |
| Moves | `Stock`, `Weights`, `MoveItem` | goods and weights are conserved, kind by kind, stacks and lists keep their bounds, and every answer is determined |
| Walk cache | `WalkCache`, `WalkingCreature` | sliding equals recomputing, exactly when the step is not a southward diagonal |
| Property streams | `Bytes`, `PropStream` | numbers always come back, strings exactly up to 65535 bytes |
| Tree files | `Otb`, `OtbFormat` | parsing inverts encoding; accepted are exactly the balanced files |
| Decay | `DecaySchedule`, `DecayFiling`, `DecayWheel` | over any run of the wheel's methods an item decays once, at the check a closed form names, or is dropped when its turn finds it unable to decay; no item is lost or filed twice |
| Conditions | `DamageList`, `Ledger`, `Conditions`, `ConditionFormat`, `ConditionRoundTrip`, `ConditionStream` | the damage list's sum, the ledger of modifiers over any run, how long a condition stays, the saved form's round trip |
| Trade | `TradeTable`, `Trade` | safety over every run of any number of players; exactly when an accepted item had been seen |
| Coins | `Coins`, `Payment`, `Payer` | value is conserved; exactly which amounts the 32-bit arithmetic mints right; the exact second debit |
| Task queue | `TaskQueue` | order, at-most-once, no task lost or refused while running, no lost wake-up, emptiness after shutdown, for every interleaving |
| Combat areas | `AreaShape`, `AreaMatrix` | the written matrix is the listed shape, turned; when reflections are exact |

Objects that the server updates in place are classes here, with the same fields, and their
methods are proved against functions on values (`Forest` for a heap of items, `Standing` for the
wheel, `Table` for trades, `Shape` for a matrix). The deep statements are lemmas about those
values; a method's postcondition ties the heap to them. `world` is the ghost set of items in play.

Some facts about the code that the proofs settled:

* The sliding cache passes the *distance* between two rows where its arms expect a signed offset,
  so after a step south-east or south-west it is wrong, for every window more than one cell high and wide
  (`WalkCache.DistanceSlidesRightIff`). With a signed offset it would always be right.
* `getTopParentContainer` returns the container just below the outermost one, or the container itself
  when nothing is around it (`Admission.TopChosenIsOutermost`). The item limit is kept below that container;
  the outermost one stays within it exactly when what it holds and what arrives do
  (`Admission.AroundWithinIff`), and an accepted coin may take it above (`ContainerQueries.AcceptedOverLimit`).
* A destination is redirected at most once, because a redirection clears the index
  (`MoveItem.ResolveDestination`).
* When coins cover a price and the bank may be used, the remainder owed on the last stack is debited
  from the bank as well, exactly when the balance before the payment reaches it. That remainder follows
  from the worths of the stacks held before (`Payer.PaidTwiceIff`); one platinum coin against a price of 60
  costs 60 in the bank on top (`Payer.OnePlatinumCoin`).
* `addMoney` mints exactly the money asked for when it is below 4294970000; or when it is below
  42949672960000, its product wraps a multiple of 25 times and some gold is due; and at no other
  amount (`Coins.MintExactIff`). At 4294970000 it mints too much (`Coins.MintWraps`), at 107374190001
  the right amount again (`Coins.MintExactAgain`).
* A negative duration, which the wheel reads as a large unsigned one, expires at the fourth check
  (`DecaySchedule.DueIn`).
* Accepting a trade does not mean having seen the other item. Of an exchange that begins, the item a player
  gets offered is the one that was there at the player's last acceptance exactly when one was there
  (`TradeTable.SeenIff`); who accepts before the counter-offer trades unseen (`TradeTable.AcceptsUnseen`).
* The centre column of a mirrored area is computed from its number of rows, so three of the four diagonals
  of an area that is not square end up moved (`AreaMatrix.DiagonalsRightIff`, and
  `AreaMatrix.TwoCellsMirrored` for one row of two cells).

Smaller ones follow case by case: in a trade the result of the second move is not looked at, so one item can
change hands alone (`Trade.WholeIff`, `Trade.OneSided`), and a damage condition whose first round would be
below one deals nothing (`DamageList.DealtIff`).

## Model

| member | source | states |
|---|---|---|
| Forest.CachedWeightIsDeepWeight | src/container.cpp:168-180 | in any forest that satisfies the invariant the cached weight of a container is the recursive sum of its contents' own weights, at any depth |
| Forest.WeightsAdd | src/item.cpp:904-911 | two stacks of a kind weigh together what the stack of all their pieces weighs, an empty stack weighs as one piece, and anything but a stack weighs the same at every count |
| Forest.Reweigh | src/container.cpp:168-175 | if one container alone is off by a difference, pushing that difference through it and its ancestors makes every cache right |
| Forest.BumpOnChain | src/container.cpp:168-175 | of the items of an ancestor exactly one becomes heavier by the difference |
| Forest.BumpOffChain | src/container.cpp:168-175 | what a container off the chain holds does not change its weight |
| Forest.ChainOneChild | src/container.cpp:83-90 | of the children of a container at most one is on a given chain of ancestors |
| Forest.ChainReparent | src/container.cpp:622-655 | a new parent for one item moves exactly what is inside it, and leaves every other chain as it was |
| Forest.LinkKeeps | src/container.cpp:543-562 | adding an item that is not around the container keeps parent links and lists consistent and acyclic |
| Forest.AttachKeepsInv | src/container.cpp:543-573 | adding an item keeps links, lists and all cached weights exact |
| Forest.DetachKeepsInv | src/container.cpp:644-654 | removing an item keeps links, lists and all cached weights exact |
| Forest.DetachIs | src/container.cpp:645-653 | pushing the weight first and unlinking afterwards is the same as unlinking first |
| Forest.UpdateKeepsInv | src/container.cpp:575-596 | a new type or count of a listed item, with its difference of weights pushed up, keeps the invariant |
| Forest.ReplaceKeepsInv | src/container.cpp:598-620 | giving one item's slot to another, with one difference of weights pushed up, keeps the invariant |
| Forest.DetachedIs | src/container.cpp:644-654 | entry by entry: the list without its k-th entry, whose parent is none, and no other list, parent, type or count changed |
| Forest.ReplacedIs | src/container.cpp:598-620 | entry by entry: the list with its k-th entry replaced, the two parents exchanged, and nothing else but weights changed |
| Containers.TotalWeightIsDeepWeight | src/container.h:173 | the 32-bit cache is the recursive sum reduced to a word, and the sum itself while it fits |
| Containers.Item.GetWeight | src/container.cpp:177-180 | the 32-bit weight is the item's own and cached weight, reduced; what the own weight is, `WeighsByThePiece` says |
| Containers.Item.WeighsByThePiece | src/container.cpp:177-180 | a stack with pieces weighs its unit weight times its count and the cached weight, modulo 2^32; an empty stack and anything else its unit weight and the cached weight |
| Containers.Item.UpdateItemWeight | src/container.cpp:168-175 | exactly the container and its ancestors have their cache changed, each by the difference |
| Containers.Item.AddThing | src/container.cpp:543-562 | the item becomes the first of the list, below this container, and all caches stay exact; nothing happens for an index at or beyond the capacity |
| Containers.Item.AddItemBack | src/container.cpp:564-573 | the item becomes the last of the list and all caches stay exact |
| Containers.Item.UpdateThing | src/container.cpp:575-596 | a listed item changes type and count and all caches stay exact; an item not listed changes nothing |
| Containers.Item.ReplaceThing | src/container.cpp:598-620 | the entry gives its place and its parent to the new item and all caches stay exact; an index outside the list changes nothing |
| Containers.Item.RemoveThing | src/container.cpp:622-655 | part of a stack goes by lowering its count, anything else leaves the list and loses its parent; all caches stay exact |
| Containers.Item.GetThingIndex | src/container.cpp:657-667 | the first position of an item in the list, or -1 exactly when it is not in it |
| ContainerLoad.UnserializeItemNode | src/container.cpp:134-166 | succeeds exactly when no saved item below is unreadable; then everything saved is at the end of the list, in order, with all its contents, the cached weight grew by the saved weight, and every cache is exact; also after a failure every cache is exact and only this container's list and the caches around it changed |
| ContainerLoad.ReadableIff | src/container.cpp:134-166 | no saved item below is unreadable exactly when the item can be read and so can every one saved in it, at any depth |
| ContainerLoad.LoadedStays | src/container.cpp:141-164 | what has been loaded stays as loaded while a list outside of it changes |
| ContainerLoad.AttachGrows | src/container.cpp:161-162 | a child built on its own and then added changes the old forest only in this list and in the caches around it |
| Traversal.WalkStep | src/container.cpp:785-803 | yielding the front of the queue and appending what it holds keeps the walk: nothing twice, nothing from outside |
| Traversal.WalkEnd | src/container.cpp:785-803 | when the queue is empty, everything inside the root has been yielded exactly once, in queue order |
| Traversal.WalkBounded | src/container.cpp:785-803 | a walk is never longer than the forest, so it ends |
| Traversal.WalkUnique | src/container.cpp:785-803 | two complete walks from the same root agree item by item: the order is fixed |
| Traversal.WalkByDepth | src/container.cpp:785-803 | the walk goes level by level: what lies deeper comes later |
| ContainerWalk.ContainerIterator.constructor | src/container.cpp:770-778 | the queue starts as the list of the container |
| ContainerWalk.ContainerIterator.Advance | src/container.cpp:785-803 | the current item leaves the queue and its own items join at the end |
| ContainerWalk.Next | src/container.cpp:227-229 | one turn of a loop over the contents: the item is the next of the walk |
| ContainerWalk.Visit | src/container.cpp:227-229 | the items come out as the whole breadth-first walk |
| ContainerWalk.GetItemHoldingCount | src/container.cpp:225-232 | the number of items strictly inside, at any depth |
| ContainerWalk.GetContainerHoldingCount | src/container.cpp:234-243 | the number of containers strictly inside, at any depth |
| ContainerWalk.IsHoldingItem | src/container.cpp:245-253 | true exactly for the items strictly inside, at any depth |
| Admission.TopChosenIsOutermost | src/container.cpp:92-110 | with the outermost container around the asked one given: it is the one counted exactly when nothing is around the asked one, and otherwise the one counted lies directly in it |
| Admission.TopChosenUnique | src/container.cpp:92-110 | there is only one such container |
| Admission.NoCycle | src/container.cpp:303-385 | no walk from child to parent returns to where it began |
| Admission.AdmissionKeepsBounds | src/container.cpp:303-385 | after the move the forest is acyclic with exact caches, and the counted container is within both limits |
| Admission.AroundGrowsBy | src/container.cpp:303-385 | any container around the destination, the outermost one included, grows by the item and all that is in it, unless it held the item before |
| Admission.AroundWithinIff | src/container.cpp:303-385 | it stays within a limit after the move exactly when what it held and what arrives together do |
| Admission.OutermostOverLimit | src/container.cpp:92-110 | a chest at its limit: a coin that the counts admit into a box in it leaves the chest above the limit |
| ContainerQueries.GetTopParentContainer | src/container.cpp:92-110 | finds the container whose contents are counted |
| ContainerQueries.QueryAdd | src/container.cpp:303-385 | says yes exactly when the container is unlocked, the item may be picked up, is not the container nor around it, no inbox is around, there is a slot, the limits hold, the quiver rule holds and the carrier agrees; otherwise the first check that fails names the answer |
| ContainerQueries.AddAnswerFirst | src/container.cpp:303-356 | locked, not to be picked up, the container itself, around it, an inbox around it, full: which of these is answered, in this order; of the item and an inbox on the way out the nearer one |
| ContainerQueries.AddAnswerLast | src/container.cpp:357-385 | an item that passes these is refused exactly when the items or the containers below the counted container would be more than the limits, or a quiver is given what is no ammunition; otherwise the carrier answers |
| ContainerQueries.AcceptsIff | src/container.cpp:303-385 | queryAdd accepts exactly when the first failing check is none |
| ContainerQueries.AcceptedKeepsBounds | src/container.cpp:303-385 | moving an item to where queryAdd accepts it, without the owner flag, keeps the forest acyclic and the counted container within the limits |
| ContainerQueries.AcceptedOverLimit | src/container.cpp:303-385 | queryAdd accepts a coin into a box in a full chest, and the chest ends up above the limit |
| ContainerQueries.RoomInStacks | src/container.cpp:402-414 | the room on all other stacks of the kind, or none when an addition would be refused |
| ContainerQueries.RoomOfBoth | src/container.cpp:402-414 | the room of two lists is the sum of theirs |
| ContainerQueries.RoomOfOne | src/container.cpp:402-414 | another stack of the kind has what it lacks to a hundred pieces, any other entry none |
| ContainerQueries.QueryMaxCount | src/container.cpp:387-436 | the exact number of pieces let in at an index, and whether it is enough |
| ContainerQueries.AllowedIs | src/container.cpp:387-436 | a hundred pieces for each free slot, and the room on the addressed entry, or on all stacks for no address; for anything but a stack the free slots |
| ContainerQueries.QueryRemove | src/container.cpp:438-463 | says yes exactly when the item is listed, the count is positive and available, it may be moved and the house agrees; otherwise which of these failed |
| ContainerQueries.QueryDestination | src/container.cpp:465-536 | where an addition goes: a locked container keeps it, moving up goes to the parent, a container at the slot takes it over, a stack with room at the slot keeps it, then the first stack with room, then the slot asked for |
| ContainerQueries.GoesWhere | src/container.cpp:465-536 | case by case with the slot numbers of the code: 254 goes up, 255 and slots beyond the capacity are no slot, the first stack with room takes what may be stacked, and all else stays at the slot |
| Stock.AttachStock | src/container.cpp:543-562 | adding an item raises one container's stock of one kind by its count, and no other |
| Stock.DetachStock | src/container.cpp:644-654 | removing an item lowers one container's stock of one kind by its count, and no other |
| Stock.UpdateStock | src/container.cpp:575-596 | changing a count changes one container's stock of one kind by the difference, and no other |
| Stock.PurseWeighs | src/item.cpp:904-911 | a container that holds only stacks of one kind weighs inside the unit weight times its stock of them |
| Weights.TakenAndGiven | src/container.cpp:168-175 | what is taken from one container and given to another is lighter and heavier by the same weight around the two, and changes no other container's weight |
| Stock.Enlarged | src/game.cpp:1721-1728 | a newly made item disturbs nothing |
| MoveItem.MoveConserves | src/game.cpp:1587-1764 | source and destination together hold as many of each kind as before the move |
| MoveItem.RoomForRest | src/game.cpp:1662-1681 | what the queries allow is what the transfer needs: pieces that do not merge have a free slot |
| MoveItem.ResolveDestination | src/game.cpp:1600-1611 | following the redirections ends after at most one hop, at the container and entry that the queries point to |
| MoveItem.PlanMove | src/game.cpp:1600-1696 | an item aimed at itself is answered no error and stays; otherwise the first query that fails names the answer, and the move goes ahead exactly when the destination accepts the item, the source releases the allowed portion and it does not go into the item it is traded for; how many pieces are asked for, `InternalMoveItem` says |
| MoveItem.VerdictIs | src/game.cpp:1613-1696 | the answer case by case: what queryAdd refuses, no room at all, not there or too few, not moveable, what the house says, into the item it is traded for, and not enough room for all |
| MoveItem.MoveStack | src/game.cpp:1698-1738 | splitting and merging move exactly the pieces asked for from one container's stock to the other's; as many as fit join the stack aimed at, and the rest is one new entry; stacks and lists keep their bounds |
| MoveItem.MergeInto | src/game.cpp:1706-1720 | the stack's count rises by the pieces or, when a duration runs, it is put in its place anew with them; the list keeps its length |
| MoveItem.MoveWhole | src/game.cpp:1698-1738 | an item that is not a stack arrives whole, and nothing else changes hands |
| MoveItem.CarryOut | src/game.cpp:1698-1764 | a feasible plan moves exactly its portion |
| MoveItem.InternalMoveItem | src/game.cpp:1587-1764 | whatever branch is taken, goods are conserved for every container in play, stacks stay within 1 to 100 and lists within capacity; the pieces asked for are the count given, or all of a stack when the count is 255 and it goes to the container around its own; which moves are carried out, how many pieces move, how many of them merge, and what is answered, are functions of the forest and the world's answers before the call; what has moved is off the source list, or off the stack's count; the containers around source and destination become lighter and heavier by exactly the weight of what moved |
| MoveItem.MoveUp | src/game.cpp:1620-1622 | a stack moved up with count 255 goes whole, with no error, when the destination accepts it and has the room, the source lets go of it and no trade is in the way |
| WalkCache.SignedOffsetSlidesRight | src/creature.cpp:515-589 | with the signed row offset as the row range, sliding after any single step equals recomputing, for every map and every faithful cache, in every cell but the creature's own |
| WalkCache.DistanceSlidesRightIff | src/creature.cpp:545-586 | with the distance that the code takes, sliding is right exactly when the step is not diagonal southwards or the window is one cell wide or high |
| WalkCache.SouthwardDiagonalFails | src/creature.cpp:545-586 | for every southward diagonal and larger window there are a map and a faithful cache that sliding gets wrong |
| WalkCache.RunStaysFaithful | src/creature.cpp:319-350 | over every run of ordinary steps, teleports and reported tile changes the cache answers for every cell but the creature's own |
| WalkingCreature.Creature.UpdateMapCache | src/creature.cpp:319-333 | every cell is what the map says of its tile |
| WalkingCreature.Creature.UpdateTileCache | src/creature.cpp:335-350 | one cell is read again; offsets outside the window change nothing |
| WalkingCreature.Creature.ShiftRowsSouth | src/creature.cpp:517-527 | all rows move one south and the top row is read |
| WalkingCreature.Creature.ShiftRowsNorth | src/creature.cpp:528-538 | all rows move one north and the bottom row is read |
| WalkingCreature.Creature.ShiftColumnsWest | src/creature.cpp:553-563 | cells of the given rows move one west and the last column is read for all rows |
| WalkingCreature.Creature.ShiftColumnsEast | src/creature.cpp:576-586 | cells of the given rows move one east and the first column is read for all rows |
| WalkingCreature.Creature.ShiftRows | src/creature.cpp:515-538 | the arms north and south together are the slide by the row offset |
| WalkingCreature.Creature.ShiftColumns | src/creature.cpp:541-586 | the arms east and west, with the row range taken from dy, are the slide by the column offset |
| WalkingCreature.Creature.SlideCache | src/creature.cpp:515-589 | the in-place shifts compute the slid window |
| WalkingCreature.Creature.OnCreatureMove | src/creature.cpp:510-591 | a loaded cache is recomputed after a teleport or a change of floor and slid after a step |
| Bytes.ValueOfLittle | src/fileloader.h:164-168 | writing a number in n bytes and reading it gives the number reduced to n bytes |
| Bytes.LittleOfValue | src/fileloader.h:102-111 | reading bytes as a number and writing it gives the bytes |
| Bytes.LowByteFirst | src/fileloader.h:164-168 | four bytes and two written out, low byte first, and a negative number in two's complement |
| PropStreams.NumberRoundTrip | src/fileloader.h:102-168 | a number that fits its width is read back, and nothing behind it is touched |
| PropStreams.StringRoundTripIff | src/fileloader.h:113-180 | a string is read back exactly when it has at most 65535 bytes; a longer one comes back empty |
| PropStreams.PropStream.Read | src/fileloader.h:102-111 | takes a number off the front, or fails and leaves the stream as it was |
| PropStreams.PropStream.ReadString | src/fileloader.h:113-130 | takes a length and that many bytes; when only the bytes are missing the length is still taken |
| PropStreams.PropStream.Skip | src/fileloader.h:132-139 | drops n bytes when there are as many, otherwise nothing |
| PropStreams.PropWriteStream.Write | src/fileloader.h:164-168 | appends the number, low byte first |
| PropStreams.PropWriteStream.WriteString | src/fileloader.h:170-180 | appends the 16-bit length and the bytes, or a zero length for a string that is too long |
| Otb.StartStep | src/fileloader.cpp:68-82 | pushing a child and reading on is the same as reading the child recursively first |
| Otb.EndStep | src/fileloader.cpp:83-90 | an end mark closes the top node into the one below; without an open node the file is refused |
| Otb.SkipStep | src/fileloader.cpp:91-100 | plain and escaped bytes change no node; an escape as the last byte is refused |
| Otb.PushStacked | src/fileloader.cpp:73-80 | after a push every node on the stack is still the last child of the one below it |
| Otb.Loader.Open | src/fileloader.cpp:32-45 | a file is opened exactly when it is long enough and carries the accepted or the wildcard identifier |
| Otb.Loader.OpenChild | src/fileloader.cpp:68-82 | the new node is the last child of the top node, whose properties end at its first child; the stack keeps its shape |
| Otb.Loader.CloseTop | src/fileloader.cpp:83-90 | the closed node has its final shape and the stack below keeps its own |
| Otb.Loader.ParseTree | src/fileloader.cpp:55-107 | accepts exactly the files the recursive grammar accepts, and the nodes built have exactly its tree |
| Otb.Loader.GetProps | src/fileloader.cpp:109-124 | the stream holds the unescaped bytes of the node's block; an empty block is reported and leaves the stream alone |
| OtbFormat.UnescapeEscape | src/fileloader.cpp:118-121 | unescaping undoes escaping for all bytes, marker bytes included |
| OtbFormat.ReadsNode | src/fileloader.cpp:63-106 | an encoded node anywhere in a file is read as that node and the parser stands right behind it |
| OtbFormat.PlacedRecovers | src/fileloader.cpp:109-124 | where the parser places a node's properties the original bytes are found, for the whole tree |
| OtbFormat.RoundTrip | src/fileloader.cpp:32-124 | for every tree larger than a bare root, parsing its encoding gives back shape, types, child order and properties; a bare root is refused as too short |
| OtbFormat.SmallFile | src/fileloader.h:50-52 | a file of two nodes, byte by byte: where its nodes and their properties are found, with one property byte behind an escape |
| OtbFormat.AcceptsIffBalanced | src/fileloader.cpp:63-106 | a file is accepted exactly when it starts with a start mark and its unescaped marks balance to one closed root with no mark after it |
| OtbFormat.ParsedFileInRange | src/fileloader.cpp:109-111 | every node of a parsed file has its property block inside the file |
| DecaySchedule.DueIn | src/game.cpp:6571-6577 | a new item's checks left are the closed form: 1 below a second, else 4q or 4q+1 by the remainder, and 4 for a negative duration |
| DecaySchedule.DueInTime | src/game.cpp:6571-6577 | an item with a second or more expires less than 875 milliseconds before its duration is over, counting 250 for each check, and never after it; a shorter one at its first check, a negative one at its fourth |
| DecaySchedule.Checked | src/game.cpp:6362-6383 | the check of its own bucket expires an item exactly when one check was left, and otherwise takes one off |
| DecaySchedule.PassedOver | src/game.cpp:6350-6386 | a check of another bucket takes one off |
| DecayFiling.OneFileOnly | src/game.cpp:6346-6388 | an item is never in two lists of the wheel, nor twice in one |
| DecayFiling.FileIn | src/game.cpp:6379 | adding an item that is out keeps the filing exact |
| DecayFiling.Unfile | src/game.cpp:6369-6373 | taking an item out of its list keeps the filing exact |
| DecayWheel.Wheel.StartDecay | src/game.cpp:6277-6295 | an item that may decay, is not decaying and has time left is queued with one reference taken; with no time left it is handed over to decay at once; an item already decaying changes nothing |
| DecayWheel.Wheel.InternalDecayItem | src/game.cpp:6297-6344 | the item is handed over to decay, once; whatever scripts do then, items on the wheel keep their place and duration, those that become unable to decay are counted as spoilt, nothing that is on it is handed over, and every reference is accounted for |
| DecayWheel.Wheel.Spoil | src/item.cpp:2265-2281 | an item becomes unable to decay, and this is counted; safe items never do |
| DecayWheel.Wheel.CheckItem | src/game.cpp:6353-6384 | decided by the state before: an item that cannot decay is dropped, giving up its reference without decaying; any other expires, so that it is handed over, leaves its bucket and gives up its reference, or is kept for its later check; no other moves |
| DecayWheel.Wheel.CheckDecay | src/game.cpp:6346-6388 | every item of the checked bucket that can decay and is on its last check is handed over once, gives up its one reference and is off the wheel, or on it anew; one that cannot decay, or is spoilt before its turn, gives up its reference and does not decay; every other has one check less; afterwards the wheel holds one reference to each of its items and none to others |
| DecayWheel.Wheel.Cleanup | src/game.cpp:6558-6579 | every new item goes to its first bucket, every pending release is carried out once and recorded |
| DecayWheel.ProgressStep | src/game.cpp:6353-6384 | half way through a bucket the finished items have decayed or moved on as they should and the others are untouched |
| DecayWheel.ProgressEnd | src/game.cpp:6346-6388 | when the bucket is done and the new items are in, the whole wheel has ticked |
| DecayWheel.NewItemDue | src/game.cpp:6571-6577 | a new item gets its closed-form number of checks when it is put in |
| DecayWheel.BetweenChecks | src/game.cpp:6277-6295 | between checks no item in a bucket moves, or loses or gains a check, and it becomes unable to decay only by being spoilt |
| DecayWheel.CountsDown | src/game.cpp:6346-6388 | over any run an item that is not spoilt has its number of checks less those seen, and meanwhile neither decays nor gives up its reference |
| DecayWheel.ExpiresOnTime | src/game.cpp:6346-6388 | in any run an item put in with a duration, able to decay and not spoilt since, is handed over to decay at exactly the check its closed form names, once, giving up one reference and leaving its bucket, and at none before |
| DecayWheel.DroppedWhenMet | src/game.cpp:6353-6360 | in any run an item that cannot decay stays until its bucket comes round, and then gives up its one reference without decaying |
| DecayWheel.OneStep | src/game.cpp:6346-6388 | one step of a run takes a check off an item, fires it on its last one, or leaves it alone when it was no check |
| DecayWheel.OffTheWheel | src/game.cpp:6346-6388 | an item that is not on the wheel is not handed over by it until it is started again, so after its decay it does not decay again |
| DecayWheel.PlayOne | src/game.cpp:6277-6579 | each start, check, clean-up or script, carried out by the methods of the wheel, is a step of a run; a start of a decayable item queues it with its duration |
| DecayWheel.Play | src/game.cpp:6277-6579 | carrying out any list of such events is a run: every safe item put in decays on time, so does any other that is not spoilt, and those that cannot decay are dropped in turn |
| DamageList.RiseIs | src/condition.cpp:1425 | the most the rounds can exceed the amount by, 1 + ... + start, is start * (start + 1) / 2 |
| DamageList.Division | src/condition.cpp:1427 | the bounds of the integer quotient behind the targets |
| DamageList.TargetRises | src/condition.cpp:1425-1427 | with enough to deal each target is more than one round above the last |
| DamageList.SpreadStep | src/condition.cpp:1429-1435 | the sum stays as near its targets as the stopping rule brings it |
| DamageList.GenerateDamageList | src/condition.cpp:1419-1437 | it terminates; the list goes from start down to 1 using every size; the sum is at least the amount, exceeds it by at most 1 + ... + start, and equals it when there is enough to deal; ties may go either way |
| DamageList.ConditionDamage.AddDamage | src/condition.cpp:1149-1179 | rounds are appended and the duration grows by theirs, unless it is endless; periodic damage replaces nothing listed |
| DamageList.ConditionDamage.Init | src/condition.cpp:1181-1206 | an empty list is filled once; the strength of the first round is as set, cut to the most, or a twentieth of the amount; when it is at least one the rounds weaken from it and deal the amount, otherwise there are none; ticks are the sum of the intervals |
| DamageList.DealtIff | src/condition.cpp:1190-1196 | an amount is dealt exactly when the strength set is not negative or, where it is more than the most, the most is positive; so nothing is dealt below zero |
| DamageList.FirstRoundIs | src/condition.cpp:1190-1196 | with no strength set the first round is a twentieth of the damage, rounded up; either is cut to the most |
| DamageList.RoundsAre | src/condition.cpp:1149-1179 | as many equal rounds as asked for, each lasting the time given and at least a second |
| Ledger.AddedBalances | src/creature.cpp:1217-1221 | adding a condition with a new key keeps every level equal to what others contributed plus the stored amounts, and keys unique |
| Ledger.RemovedBalances | src/creature.cpp:1241-1266 | removing one does too |
| Ledger.ChangedBalances | src/creature.cpp:1203-1215 | merging into one does too |
| Ledger.RunBalances | src/creature.cpp:1197-1369 | over every run of adds, merges and removals the levels are the sum and no two conditions share type, id and sub-id |
| Ledger.NothingLeft | src/condition.cpp:528-567 | with no condition left every level is back to what others contributed |
| Ledger.RemainingWithout | src/creature.cpp:1268-1293 | removing one match leaves the same conditions to remain |
| Ledger.RemainingHas | src/creature.cpp:1241-1293 | what is left after a removal is exactly what is of another type or, when the id matters, another id |
| Ledger.ThinkLasts | src/condition.cpp:136-145 | a think at or before a condition's end leaves it listed with its ticks less the interval, at least none; a later one takes it off; an endless one stays |
| Ledger.LaterEndWins | src/condition.cpp:284-299 | of a running condition and a new one that both end the later end wins, and a change of speed always takes the new end |
| Ledger.EndlessStays | src/condition.cpp:284-299 | an endless condition does not give way to one with time left |
| Ledger.NewOneTakesOver | src/condition.cpp:343-370 | one that takes over brings its ticks, an end that far from now, and its amounts; percentages are worked out from the levels without the old amounts |
| Conditions.Creature.AddCondition | src/creature.cpp:1197-1226 | a condition with a known key is merged into that one, any other is started and appended if it starts, and the levels gain what it brings; haste is put off while paralysed; the ledger balances |
| Conditions.Creature.DelayedIff | src/creature.cpp:1203-1209 | only a haste that is not forced waits, and only for a paralysis that runs, is not suppressed, and a walk under way |
| Conditions.AddThenThink | src/condition.cpp:136-264 | a condition of a new key started with ticks t at time n and followed by any number of thinks is listed as long as all of them were at n + t or before, with t less the time passed as its ticks, and is off the list and the levels after the first later one; an endless one stays |
| Conditions.Creature.RemoveConditions | src/creature.cpp:1241-1293 | exactly the matching conditions go, in order, with their amounts; paralysis waits for the walk unless forced |
| Conditions.Creature.RemoveCondition | src/creature.cpp:1309-1329 | the one condition goes with its amounts, if it is there and need not wait |
| Conditions.Creature.ExecuteConditions | src/creature.cpp:1351-1369 | every condition ticks and exactly the expired ones go, with their amounts |
| Conditions.Creature.HasCondition | src/creature.cpp:1371-1388 | true exactly when a running condition of that type and sub-id is not suppressed |
| Conditions.Creature.StartCondition | src/condition.cpp:406-423 | the stored skills, stats, buffs and speed of the started condition are what the levels gain; with ticks above zero it ends that long from now |
| Conditions.Creature.EndCondition | src/condition.cpp:528-567 | the stored skills, stats, buffs and speed are what the levels lose |
| Conditions.Creature.Merge | src/condition.cpp:343-370 | the levels move by the new stored amounts less the old ones; percentages are worked out without the old ones |
| Conditions.Creature.MergeSpeed | src/condition.cpp:1532-1563 | the speed moves by the new delta less the old one |
| Conditions.Creature.SetAttribute | src/creature.h:266-268 | one attribute changes by the modifier |
| Conditions.Creature.ChangeSpeed | src/game.cpp:5228-5233 | the speed offset, worked out from the speed, changes by the delta |
| Conditions.Condition.UpdateCondition | src/condition.cpp:284-299 | another condition of the type takes the place of this one unless this one is endless and the other is not, or outlasts it |
| Conditions.Condition.ExecuteCondition | src/condition.cpp:136-145 | ticks go down to no less than zero, endless ones stay; it lives while its end time is not past |
| ConditionRoundTrip.ArrayBack | src/condition.cpp:372-404 | the values of skills, stats and buffs arrive one by one, in order |
| ConditionRoundTrip.IntervalsBack | src/condition.cpp:1090-1133 | any number of damage intervals arrives in order, each adding its length |
| ConditionRoundTrip.HeaderBack | src/condition.cpp:112-256 | the header makes the condition again, ready for its attributes |
| ConditionRoundTrip.CreatesIff | src/condition.cpp:207-256 | a condition is made exactly from 22 bytes or more with the five tags in their places and a known kind |
| ConditionRoundTrip.KnownKinds | src/condition.cpp:147-205 | the known kinds are the 28 single bits |
| ConditionRoundTrip.OthersRefused | src/condition.cpp:63-110 | an attribute beside those of every condition is read only by the kinds whose tag it is, and into an array only while it has room |
| ConditionRoundTrip.BodyBack | src/condition.cpp:372-404 | the tagged attributes restore every kind of body |
| ConditionRoundTrip.RegenerationBack | src/condition.cpp:781-810 | all four numbers of a regeneration come back |
| ConditionRoundTrip.SoulBack | src/condition.cpp:988-1007 | both numbers of a soul regeneration come back |
| ConditionRoundTrip.ManaShieldBack | src/condition.cpp:937-951 | the value of a mana shield comes back |
| ConditionRoundTrip.OutfitBack | src/condition.cpp:1613-1627 | the record of an outfit comes back |
| ConditionRoundTrip.SpeedBack | src/condition.cpp:1470-1504 | the delta and the formula of a speed condition come back |
| ConditionRoundTrip.LightBack | src/condition.cpp:1759-1803 | colour, level, ticks and interval of a light come back |
| ConditionRoundTrip.AttributesBack | src/condition.cpp:372-404 | all arrays of an attribute condition come back |
| ConditionRoundTrip.DamageBack | src/condition.cpp:1090-1133 | a damage condition gets back its intervals in order, and ticks equal to their sum; its owner is not carried |
| ConditionRoundTrip.ConditionBack | src/condition.cpp:52-128 | a serialized condition with its end mark is read back and nothing behind it is touched |
| ConditionRoundTrip.LoadAfterSave | src/iologindata.cpp:348-361 | loading any back-to-back sequence puts the persistent ones in front of what was there, last one first |
| ConditionRoundTrip.SaveLoad | src/iologindata.cpp:938-945 | loading what was saved gives exactly the persistent conditions as restored |
| ConditionRoundTrip.LoadedIff | src/condition.cpp:266-277 | in the loaded list are exactly the saved conditions that end and have one of the two ids that are not of worn items, a damage condition with the sum of its intervals as ticks |
| ConditionRoundTrip.LoadedOfBoth | src/iologindata.cpp:348-361 | lists saved one after the other come back one after the other, the later one first |
| ConditionRoundTrip.UnchangedUnlessDamage | src/iologindata.cpp:938-945 | persistent conditions other than damage come back unchanged |
| ConditionStream.SaveConditions | src/iologindata.cpp:938-945 | the stream gets each persistent condition with its end mark, in order |
| ConditionStream.LoadConditions | src/iologindata.cpp:348-361 | the stored list is what the stream stands for; a condition that cannot be read is dropped |
| ConditionStream.SaveThenLoad | src/iologindata.cpp:348-361 | conditions written by the saver and read by the loader: in the list are exactly those that end and are not of worn items, last one first, all but damage unchanged |
| ConditionStream.Serialize | src/condition.cpp:112-128 | header and tagged attributes are appended |
| ConditionStream.Unserialize | src/condition.cpp:52-61 | attributes are read until the end mark, false at the first that cannot be read |
| ConditionStream.UnserializeProp | src/condition.cpp:63-110 | one attribute is read by the kind of the condition, or refused |
| ConditionStream.CreateCondition | src/condition.cpp:207-256 | the five header attributes in order make a condition of a known type, anything else none |
| TradeTable.StartKeeps | src/game.cpp:3880-3911 | starting or answering a trade keeps links symmetric and the table of offers exact |
| TradeTable.AcceptKeeps | src/game.cpp:3920-3934 | accepting does too |
| TradeTable.CloseKeeps | src/game.cpp:4111-4153 | calling off does too |
| TradeTable.TransferKeeps | src/game.cpp:3945-3958 | going into transfer does too, and takes both offers off the table |
| TradeTable.EndKeeps | src/game.cpp:4002-4010 | ending the exchange does too |
| TradeTable.CloseLeavesTransfers | src/game.cpp:4111-4116 | calling off any trade changes nothing for players in transfer, and nothing at all when called from inside one |
| TradeTable.AcceptsUnseen | src/game.cpp:3913-3934 | a run in which a player accepts before the counter-offer, still accepts after it, and the exchange may begin on the other's word alone |
| TradeTable.SeenIff | src/game.cpp:3880-3958 | over every run: of an exchange that begins, a player's last acceptance was of the item then exchanged exactly when the partner had one on offer at that moment |
| TradeTable.RunIsSafe | src/game.cpp:3880-4153 | over every run of any number of players links are symmetric, the table holds exactly the offered items, and references taken are those released plus those still offered |
| Trade.Game.PlayerRequestTrade | src/game.cpp:3831-3878 | refused exactly when a check fails, either player is not free for it, or the item is on offer, inside an item on offer or around one; so no item on offer is inside another |
| Trade.Game.InternalStartTrade | src/game.cpp:3880-3911 | exactly the two sides change, the item is entered and one reference is taken |
| Trade.Game.PlayerAcceptTrade | src/game.cpp:3913-4012 | nothing, or acceptance only, or, when both accept, the end of the trade: each item goes to the other player when both are there, scripts allow it, both fit and may go and its own move succeeds, the second only after the first; in every other case both stay, and no other item changes owner; other players keep their trades but for those called off |
| Trade.Game.BeginTransfer | src/game.cpp:3945-3958 | both sides enter transfer, and each offered item's reference is released once |
| Trade.Game.Exchange | src/game.cpp:3960-3984 | the first item goes to the other player exactly when both are there, fit and may go and its move succeeds, and the second exactly when its move succeeds too; no other item changes owner |
| Trade.WholeIff | src/game.cpp:3960-3984 | both items change hands or neither does, exactly unless both are there, fit and may go, the first moves and the second does not |
| Trade.OneSided | src/game.cpp:3973-3981 | answers after which one item has changed hands and the other has not |
| Trade.Game.Settle | src/game.cpp:3937-4010 | both players are out of the trade whatever was called off meanwhile; other players keep their trades but for those called off |
| Trade.Game.InternalCloseTrade | src/game.cpp:4111-4153 | a trade in transfer is left alone; otherwise both sides are cleared and each offered item's reference is released once |
| Trade.Game.Cleanup | src/game.cpp:6566-6569 | after the releases each item has one reference of the game while it is offered, and none otherwise |
| Coins.MintExact | src/game.cpp:2100-2141 | below 4294970000 the stacks created are worth exactly the money, hold 1 to 100 coins each, with fewer than 100 platinum and fewer than 100 gold |
| Coins.MintExactIff | src/game.cpp:2100-2141 | the stacks created are worth the money exactly when it is below 4294970000, or it is below 42949672960000, the product of crystal coins wraps a multiple of 25 times, and it is no multiple of 100 |
| Coins.MintWraps | src/game.cpp:2106-2107 | at 4294970000 the 32-bit product wraps and the coins are worth 4294974096 |
| Coins.MintExactAgain | src/game.cpp:2106-2107 | 107374190001 lies above the first bound and is minted exactly |
| Coins.CrystalsWorth | src/game.cpp:2108-2119 | crystal coins come in full stacks and one rest |
| Coins.ProductFits | src/game.cpp:2106-2107 | the wrapped product never exceeds the money it is taken from |
| Coins.Mintage.AddMoney | src/game.cpp:2100-2141 | exactly the minted stacks are added, for any 64-bit amount |
| Payment.Gather | src/game.cpp:2026-2064 | every stack of coins at any depth is found once, by rising worth, and their worth is the total; no stack worth something is missed |
| Payment.StacksAtAnyDepth | src/game.cpp:2026-2064 | the stacks searched are exactly the coins that some path through the containers leads to |
| Payment.KeysAreRisingWorths | src/game.cpp:2026-2064 | the keys of the multimap are the positive worths of all stacks held, rising |
| Payment.RisingUnique | src/game.cpp:2026-2064 | there is only one rising order of them, so the order of the search does not matter |
| Payment.LeftoverIsPartOfOne | src/game.cpp:2076-2091 | with enough coins what is left for the last stack is at least one and comes out of that stack |
| Payment.LeftoverOfFirst | src/game.cpp:2076-2091 | it is the price less all cheaper stacks before the first that reaches what is owed by then |
| Payer.CoinsAlone | src/game.cpp:2072-2097 | without the bank a payment succeeds exactly when the coins reach the price, and then the value held drops by exactly the price |
| Payer.BankPaysRest | src/game.cpp:2066-2097 | with the bank and too few coins all coins go and the bank pays exactly the rest, when it can |
| Payer.PaidTwiceIff | src/game.cpp:2076-2095 | with the bank and enough coins the coins pay the price and the bank is debited the leftover of the worths held before as well, exactly when the balance before reaches it |
| Payer.OnePlatinumCoin | src/game.cpp:2076-2095 | one platinum coin, a price of 60 and a balance that covers it: 40 come back and the bank pays 60 more |
| Payer.Cylinder.RemoveMoney | src/game.cpp:2018-2098 | success, and what is left of coins, change and balance, are determined by what was held before and the price; nothing is touched by a payment that fails |
| Payer.Cylinder.Break | src/game.cpp:2081-2086 | enough coins of a stack are taken and the change is exactly what they are worth too much |
| Payer.LastStack | src/game.cpp:2076-2091 | with the last stack settled the value held has dropped by exactly the price |
| AreaShape.TurnKeepsSize | src/combat.cpp:1317-1363 | a turned shape has as many cells |
| AreaShape.QuarterTurns | src/combat.cpp:1317-1363 | the half turn is the quarter turn twice, and four of them are none |
| AreaShape.MirrorRightIff | src/combat.cpp:1298-1306 | the mirrored shape is right exactly when the matrix has as many rows as columns or no cell |
| AreaShape.FlipRightIff | src/combat.cpp:1307-1315 | the flipped shape is right exactly when the matrix has as many rows as columns or no cell |
| AreaMatrix.AreaCombat.WriteCell | src/combat.cpp:1350-1359 | a rotated write lands inside the output, where no other write of the turn lands |
| AreaMatrix.AreaCombat.Rotate | src/combat.cpp:1317-1363 | an output cell at the centre plus R(v) is set exactly when the input cell at the centre plus v is |
| AreaMatrix.AreaCombat.Copy | src/combat.cpp:1290-1297 | a copy has the same cells around the same centre |
| AreaMatrix.AreaCombat.Mirror | src/combat.cpp:1298-1306 | the mirrored cells, moved by the difference between the sides |
| AreaMatrix.AreaCombat.Flip | src/combat.cpp:1307-1315 | the flipped cells, moved by the difference between the sides |
| AreaMatrix.AreaCombat.CopyArea | src/combat.cpp:1285-1365 | every operation gives the shape it stands for |
| AreaMatrix.AreaCombat.CreateArea | src/combat.cpp:1367-1398 | the matrix is what the rows list, and its centre the last centre mark |
| AreaMatrix.AreaCombat.SetupArea | src/combat.cpp:1400-1423 | north is the area the list describes, the other directions are that shape, turned, and the diagonals stay as they were |
| AreaMatrix.AreaCombat.SetupExtArea | src/combat.cpp:1495-1523 | north-west is the area the list describes, the other diagonals are that shape reflected and moved by the difference between the sides, the four directions stay; an empty list changes nothing |
| AreaMatrix.AreaCombat.ListedCells | src/combat.cpp:1367-1398 | the cells of an area are those the list marks, seen from the listed centre |
| AreaMatrix.DiagonalsRightIff | src/combat.cpp:1495-1523 | the north-east, south-west and south-east areas are the true mirror image, flip and half turn exactly when rows and columns are as many or no cell is set |
| AreaMatrix.TwoCellsMirrored | src/combat.cpp:1298-1306 | one row of two cells: its mirror image ends up one cell too far east |
| AreaMatrix.AreaCombat.GetList | src/combat.cpp:1254-1283 | the tiles listed are exactly those of the shape for the target's direction with a clear sight, each once |
| AreaMatrix.FacingPointsAtTarget | src/combat.h:203-229 | the direction used points at the target: on both axes with diagonal areas, else on the x axis before the y axis; one's own tile is south |
| AreaMatrix.HeadingsTurn | src/combat.cpp:1400-1423 | the areas of the four directions are turned as their headings turn, and the diagonals reflected as theirs |
| AreaMatrix.ValuesOfAList | src/combat.cpp:1382-1388 | of the values of a list 1 and 3 are cells, and 2 and 3 the centre, of which the last counts |
| TaskQueue.OrderlyStep | src/databasetasks.cpp:54-128 | at most one thread is where it holds the mutex, and then it is the holder |
| TaskQueue.AccountedStep | src/databasetasks.cpp:54-128 | accepted tasks are those taken, in order, followed by those queued; each taken task is in one hand or was handed over once, and none is lost |
| TaskQueue.KeptStep | src/databasetasks.cpp:54-128 | whatever thread moves, every taken task is still in a hand or has been handed over |
| TaskQueue.WakeupStep | src/databasetasks.cpp:59-86 | while the worker waits unnotified and tasks are queued, some producer still owes a notification |
| TaskQueue.EndingStep | src/databasetasks.cpp:109-128 | after a shutdown nothing is accepted, and what was drained stays drained |
| TaskQueue.RunIsSafe | src/databasetasks.cpp:54-128 | all of these invariants hold at every moment of every interleaving of the worker, producers, flushes and shutdowns |
| TaskQueue.AddIsAccepted | src/databasetasks.cpp:72-87 | a caller that finds the queue running has, by its second move after that, added exactly its task to the accepted ones and to the end of the queue, and is about to notify the worker exactly when the queue was empty |
| TaskQueue.AddIsRefused | src/databasetasks.cpp:72-87 | one that finds it not running ends the call at its next move, and nothing is accepted |
| TaskQueue.AcceptedWasAdded | src/databasetasks.cpp:72-87 | every accepted task was brought by a call of the run |
| TaskQueue.FirstIsHandedOver | src/databasetasks.cpp:54-70 | the worker, or a flush, takes the first task, and by its next move has handed over exactly that one |
| TaskQueue.FlushEndsEmpty | src/databasetasks.cpp:109-128 | a flush goes on exactly while it finds tasks; the one that ends a shutdown leaves the queue drained and notifies |
| TaskQueue.WorkerFinishes | src/databasetasks.cpp:57 | the worker ends exactly when it finds the queue terminated |
| TaskQueue.WorkerRests | src/databasetasks.cpp:58-61 | the worker waits exactly when it finds no task |
| TaskQueue.NotificationWakes | src/databasetasks.cpp:83-86 | after a notification the worker does not wait |
| TaskQueue.ShutdownEndsIntake | src/databasetasks.cpp:121-128 | from the moment a shutdown sets the state on nothing is accepted any more |
| TaskQueue.DrainedForEver | src/databasetasks.cpp:121-128 | from the end of a shutdown's flush on the queue is empty and every accepted task has been handed over or is in a hand |

## Left out

- MoveItem.InternalMoveItem: the quiver's inventory message is not modelled; `carrier`, `house` and `tradeItem` stand for what players, tiles and a trade in progress answer; whether a duration runs is part of an item's kind.
- Paginated containers, browse fields, depot chests and moves with the no-limit flag: they skip the checks that the container properties rest on.
- Player inventories, equipment exchange and carrying capacity: they belong to the player class, whose answers are parameters here.
- Custom attributes in item equality: two items can merge here exactly when they are of the same kind.
- Containers.Item.AddThing: the item is on no list and not around the container, which the callers see to by queries and by removing it first.
- Containers.Item.AddItemBack: likewise the item is on no list and not around the container.
- Containers.Item.ReplaceThing: likewise the new item is on no list and not around the container.
- Containers.Item.UpdateThing: the attributes that a new type id brings along are not modelled, only type and count.
- ContainerWalk.GetItemHoldingCount: the counters are unbounded; a forest of 2^32 items is out of scope.
- WalkingCreature.Creature.OnCreatureMove: a move that is not a teleport goes to a neighbouring tile, as `Map::moveCreature` sees to; map coordinates are unbounded integers, so wrapping at the edge of the 16-bit map is not modelled; the events of other creatures are the tile changes of a run.
- AreaMatrix.AreaCombat.CreateArea: the list fills its rows, as the callers' lists do.
- AreaMatrix.AreaCombat.GetList: coordinates are unbounded integers; creating a tile where the map has none is left out, and so is the order of the list.
- AreaMatrix.AreaCombat.Mirror: a centre left of the matrix is a negative number here and a wrapped unsigned one in the code; likewise for Flip.
- The generators of area lists by length and by radius: they only build a list that `SetupArea` takes.
- Rotation through sine and cosine: the three angles are exact integer turns here.
- DamageList.GenerateDamageList: the comparison of floating-point quotients is taken as the exact comparison, where ties may go either way, and 32-bit overflow of sums and products is not modelled.
- Conditions.Creature.AddCondition: percentages are scaled by an arbitrary function and rolled speeds are parameters; 32-bit overflow is not modelled; what the rules of damage and mana shields (condition.cpp:1317-1361) make of their ticks is a parameter. The creature is a player: others have the buffs only.
- Conditions.Creature.ExecuteConditions: what the rounds of damage and regeneration do to health and mana is not modelled; the ticks are.
- ConditionStream.UnserializeProp: an attribute condition with more values than its arrays hold, which is never saved, is refused here; the code does not tell it apart.
- ConditionRoundTrip.DamageBack: interval lengths are taken to be non-negative, as the code makes them.
- ConditionRoundTrip.OutfitBack: the record, 18 bytes with its padding, is one number here; the monster name that may stand in for it is not saved, and not modelled.
- DecayWheel.Wheel.StartDecay: `chain` bounds how many items may decay at once, one started by the other within one call; the code has no bound.
- DecayWheel.Wheel.InternalDecayItem: what an item turns into is not modelled, only that it is handed over; scripts may make any item but the safe ones unable to decay, renew items that are off the wheel and start decays, but an item on the wheel keeps its decay state and duration, and does not become able to decay again; the insertion inside `internalAddItem`, which takes no such care, is not part of the model.
- Otb.Loader.ParseTree: called once for each loader; nodes are objects, so moving them in memory is not modelled, only that the vector that grows never holds a node of the stack.
- Payer.Cylinder.RemoveMoney: change arrives as new stacks; merging it into stacks that are there, and the choice between container and floor, are left out, and the 64-bit total of the coins does not wrap.
- Trade.Game.PlayerAcceptTrade: the accept script answers yes or no; that it might itself call the trade off before the transfer begins is not modelled. What is called off during the exchange is.
- Trade.Game.PlayerRequestTrade: which item is inside which is the parameter `inside`; whether items fit, may be removed and move are the world's answers.
- TaskQueue.RunIsSafe: safety only; the worker tests the state outside the lock, so it may wait for ever after a shutdown, and no liveness is claimed. Running a task and its callback is one step.
- Scripts, client messages, spectators, effects and logging: no-ops or arbitrary answers.
- Accounts, market, store, SQL, networking, chat and the light cycle: their meaning lies outside these files, or they would only add easy members.
