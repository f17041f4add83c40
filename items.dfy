/**
 * The handlers that look around and move items between a character, the
 * room it stands in and its equipment. Each runs a fixed order of checks,
 * answers the first one that fails, and otherwise updates the inventory,
 * room and equipment multisets.
 */
module Items {
  import opened Wrappers
  import opened World
  import opened Audience

  // ------------------------------------------------------------------- look

  /** getPermanentNPCs: the permanent merchants standing in a room. */
  function PermanentNpcs(w: World, room: int): (ids: set<int>)
    ensures forall n :: n in ids <==> n in w.npcs && w.npcs[n].permanent && w.npcs[n].location == room
  {
    set n | n in w.npcs && w.npcs[n].permanent && w.npcs[n].location == room
  }

  function ExitsOf(r: RoomRow): Note
  {
    ExitMap(r.north != 0, r.east != 0, r.south != 0, r.west != 0)
  }

  /** The names `look` lists: the online characters of the room, less one copy of the viewer's own name. */
  function OthersHere(w: World, me: int, room: int): seq<string>
    requires me in w.characters && !InRoom(w, room).faulted
  {
    RemoveFirst(NamesAt(w, InRoom(w, room).kept), w.characters[me].name)
  }

  /** What `look` shows after the room's description, for a room that exists and a scan that did not fault. */
  function Surroundings(w: World, me: int): (ns: seq<Note>)
    requires me in w.characters && LocationOf(w, me) in w.rooms && !InRoom(w, LocationOf(w, me)).faulted
    ensures |ns| >= 3 && ns[0] == ExitsOf(w.rooms[LocationOf(w, me)]) && ns[1] == ItemsHere(RoomItemsOf(w, LocationOf(w, me)))
  {
    var loc := LocationOf(w, me);
    var npcs := PermanentNpcs(w, loc);
    var mobs := MobsIn(w, loc);
    [ExitsOf(w.rooms[loc]), ItemsHere(RoomItemsOf(w, loc)), PlayersHere(OthersHere(w, me, loc))]
    + (if npcs != {} then [NpcsHere(npcs)] else [])
    + (if |mobs| > 0 then [MobsHere(mobs)] else [])
  }

  /**
   * The `look` handler: only the viewer's own client is written to. The
   * description goes out first; a missing room row then throws, and so does
   * a room scan that meets a missing character row, after the exits and items.
   */
  function Look(w: World, h: Handle, me: int): (r: Step)
    requires Actor(w, h, me)
    ensures OnlySent(w, r.w) && r.follow == Done
    ensures r.crashed <==> LocationOf(w, me) !in w.rooms || InRoom(w, LocationOf(w, me)).faulted
    ensures !r.crashed ==> Sent(w, r.w) == Addressed(h, [RoomDescription(LocationOf(w, me))] + Surroundings(w, me))
  {
    var loc := LocationOf(w, me);
    if loc !in w.rooms then Abort(Tell(w, h, [RoomDescription(loc)]))
    else LookInRoom(w, h, me)
  }

  function LookInRoom(w: World, h: Handle, me: int): (r: Step)
    requires Actor(w, h, me) && LocationOf(w, me) in w.rooms
    ensures OnlySent(w, r.w) && r.follow == Done
    ensures r.crashed == InRoom(w, LocationOf(w, me)).faulted
    ensures !r.crashed ==> Sent(w, r.w) == Addressed(h, [RoomDescription(LocationOf(w, me))] + Surroundings(w, me))
  {
    var loc := LocationOf(w, me);
    var partial := [RoomDescription(loc), ExitsOf(w.rooms[loc]), ItemsHere(RoomItemsOf(w, loc))];
    if InRoom(w, loc).faulted then Abort(Tell(w, h, partial))
    else Finish(Tell(w, h, [RoomDescription(loc)] + Surroundings(w, me)))
  }

  /** `look` reports exactly the exits the room has, and the items lying in it. */
  lemma LookShowsExits(w: World, h: Handle, me: int)
    requires Actor(w, h, me) && !Look(w, h, me).crashed
    ensures var room := w.rooms[LocationOf(w, me)]; var sent := Sent(w, Look(w, h, me).w);
      |sent| >= 4 && sent[1].msg == Display(ExitMap(room.north != 0, room.east != 0, room.south != 0, room.west != 0))
      && sent[2].msg == Display(ItemsHere(RoomItemsOf(w, LocationOf(w, me))))
  {
    AddressedAfterFirst(h, RoomDescription(LocationOf(w, me)), Surroundings(w, me));
  }

  lemma AddressedAfterFirst(h: Handle, first: Note, ns: seq<Note>)
    requires |ns| >= 3
    ensures var sent := Addressed(h, [first] + ns);
      |sent| >= 4 && sent[1].msg == Display(ns[0]) && sent[2].msg == Display(ns[1])
  {
    assert ([first] + ns)[1] == ns[0] && ([first] + ns)[2] == ns[1];
  }

  /** Whoever is online and in the room with a different name is named by `look`. */
  lemma LookNamesCompany(w: World, h: Handle, me: int, other: Handle)
    requires Actor(w, h, me)
    requires !InRoom(w, LocationOf(w, me)).faulted
    requires other in w.registry && Online(w, other) && Located(w, other, LocationOf(w, me))
    requires w.characters[CharacterIdAt(w, other)].name != w.characters[me].name
    ensures w.characters[CharacterIdAt(w, other)].name in OthersHere(w, me, LocationOf(w, me))
  {
    var loc := LocationOf(w, me);
    var kept := InRoom(w, loc).kept;
    var i :| 0 <= i < |kept| && kept[i] == other;
    NameInNames(w, kept, i);
    var name := w.characters[CharacterIdAt(w, other)].name;
    var names := NamesAt(w, kept);
    assert multiset(names)[name] > 0;
    assert multiset(RemoveFirst(names, w.characters[me].name))[name] > 0;
  }

  lemma {:induction false} NameInNames(w: World, hs: seq<Handle>, i: int)
    requires 0 <= i < |hs|
    ensures NamesAt(w, hs)[i] == NameText(w, hs[i])
  {
    if i > 0 {
      NameInNames(w, hs[1..], i - 1);
    }
  }

  // -------------------------------------------------------------- inventory

  /** The `inventory` handler: the character's holdings, to its own client. */
  function Inventory(w: World, h: Handle, me: int): (r: Step)
    ensures OnlySent(w, r.w) && !r.crashed && r.follow == Done
    ensures Sent(w, r.w) == [Delivery(h, Display(Carrying(Held(w, me))))]
  {
    Reply(w, h, Carrying(Held(w, me)))
  }

  // ------------------------------------------------------------------- grab

  /** grab reads the type of an item whose id is known but whose row is missing. */
  predicate GrabCrashes(w: World, arg: string)
  {
    arg != "" && ItemId(w, arg) != -1 && ItemId(w, arg) !in w.items
  }

  /** grab goes through: a named, known item that is not PERMANENT lies in the room. */
  predicate CanGrab(w: World, me: int, arg: string)
    requires me in w.characters
  {
    var id := ItemId(w, arg);
    arg != "" && id != -1 && id in w.items && w.items[id].itemType != Permanent
    && RoomItemsOf(w, LocationOf(w, me))[id] > 0
  }

  /** One unit of `id` went from the room to the character; nothing else but the outbox changed. */
  predicate Grabbed(w: World, me: int, id: int, w': World)
    requires me in w.characters
  {
    var loc := LocationOf(w, me);
    w' == w.(inventories := w.inventories[me := Added(Held(w, me), id, 1)],
             roomItems := w.roomItems[loc := RoomItemsOf(w, loc) - multiset{id}],
             outbox := w'.outbox)
    && w.outbox <= w'.outbox
  }

  function Grab(w: World, h: Handle, me: int, arg: string): (r: Step)
    requires Actor(w, h, me)
    ensures r.follow == Done
    ensures r.crashed <==> GrabCrashes(w, arg)
    ensures CanGrab(w, me, arg) ==> Grabbed(w, me, ItemId(w, arg), r.w)
    ensures !CanGrab(w, me, arg) ==> OnlySent(w, r.w)
  {
    if GrabCrashes(w, arg) then Abort(w)
    else if CanGrab(w, me, arg) then
      var id := ItemId(w, arg);
      var w1 := Give(w, me, id, 1);
      var w2 := TakeFromRoom(w1, LocationOf(w, me), id);
      Finish(Send(w2, h, Display(PickedUp(arg))))
    else RefuseGrab(w, h, me, arg)
  }

  function RefuseGrab(w: World, h: Handle, me: int, arg: string): (r: Step)
    requires Actor(w, h, me) && !GrabCrashes(w, arg) && !CanGrab(w, me, arg)
    ensures OnlySent(w, r.w) && !r.crashed && r.follow == Done
  {
    var id := ItemId(w, arg);
    if arg == "" then Reply(w, h, ObjectWhat("grab"))
    else if id == -1 then Reply(w, h, UnknownItem(arg))
    else if w.items[id].itemType == Permanent then Reply(w, h, CannotPickUp(id))
    else Reply(w, h, NoneHere(arg))
  }

  /** A grab moves the unit without creating or destroying any. */
  lemma GrabConserves(w: World, h: Handle, me: int, arg: string)
    requires Actor(w, h, me) && CanGrab(w, me, arg)
    ensures var w' := Grab(w, h, me, arg).w; var id := ItemId(w, arg); var loc := LocationOf(w, me);
      Held(w', me)[id] + RoomItemsOf(w', loc)[id] == Held(w, me)[id] + RoomItemsOf(w, loc)[id]
      && Held(w', me)[id] == Held(w, me)[id] + 1
  {
  }

  // ------------------------------------------------------------------- drop

  predicate CanDrop(w: World, me: int, arg: string)
  {
    arg != "" && ItemId(w, arg) >= 0 && Held(w, me)[ItemId(w, arg)] > 0
  }

  /** One unit of `id` went from the character to the room, and `id` is no longer equipped. */
  predicate Dropped(w: World, me: int, id: int, w': World)
    requires me in w.characters
  {
    var loc := LocationOf(w, me);
    w' == w.(roomItems := w.roomItems[loc := RoomItemsOf(w, loc) + multiset{id}],
             inventories := w.inventories[me := Taken(Held(w, me), id, 1)],
             equipped := w.equipped[me := EquippedOf(w, me) - {id}])
  }

  /** The `drop` handler; a successful drop asks for an `inventory` next. */
  function Drop(w: World, h: Handle, me: int, arg: string): (r: Step)
    requires Actor(w, h, me)
    ensures !r.crashed
    ensures CanDrop(w, me, arg) ==> Dropped(w, me, ItemId(w, arg), r.w) && r.follow == ThenInventory([h])
    ensures !CanDrop(w, me, arg) ==> OnlySent(w, r.w) && r.follow == Done
  {
    if CanDrop(w, me, arg) then
      var id := ItemId(w, arg);
      var loc := LocationOf(w, me);
      var w1 := PutInRoom(w, loc, id);
      var w2 := Take(w1, me, id, 1);
      var w3 := SetEquipped(w2, me, EquippedOf(w, me) - {id});
      Step(w3, false, ThenInventory([h]))
    else RefuseDrop(w, h, me, arg)
  }

  function RefuseDrop(w: World, h: Handle, me: int, arg: string): (r: Step)
    requires Actor(w, h, me) && !CanDrop(w, me, arg)
    ensures OnlySent(w, r.w) && !r.crashed && r.follow == Done
  {
    if arg == "" then Reply(w, h, ObjectWhat("drop"))
    else if ItemId(w, arg) < 0 then Reply(w, h, UnknownItem(arg))
    else Reply(w, h, NotCarried(arg))
  }

  lemma MultisetPutBack(m: multiset<int>, x: int)
    requires m[x] > 0
    ensures (m - multiset{x}) + multiset{x} == m
  {
  }

  lemma MultisetTakeBack(m: multiset<int>, x: int)
    ensures Taken(Added(m, x, 1), x, 1) == m
  {
    assert Taken(Added(m, x, 1), x, 1)[x] == m[x];
  }

  /** Dropping what was just grabbed puts the room and the inventory back as they were. */
  lemma DropUndoesGrab(w: World, h: Handle, me: int, arg: string)
    requires Actor(w, h, me) && CanGrab(w, me, arg) && ItemId(w, arg) >= 0
    ensures var w1 := Grab(w, h, me, arg).w;
      Actor(w1, h, me) && CanDrop(w1, me, arg)
      && var w2 := Drop(w1, h, me, arg).w;
      Held(w2, me) == Held(w, me)
      && RoomItemsOf(w2, LocationOf(w, me)) == RoomItemsOf(w, LocationOf(w, me))
  {
    var id := ItemId(w, arg);
    var loc := LocationOf(w, me);
    MultisetPutBack(RoomItemsOf(w, loc), id);
    MultisetTakeBack(Held(w, me), id);
  }

  // -------------------------------------------------------------------- use

  /** A known name whose row is gone: `usable` reads as null, and parseBoolean(null) is false. */
  predicate RowMissing(w: World, arg: string)
  {
    ItemId(w, arg) >= 0 && ItemId(w, arg) !in w.items
  }

  /** How many units of the required item the removal loop takes. */
  function RequiredUnits(it: ItemRow): (n: nat)
    ensures it.requiredQuantity > 0 ==> n == it.requiredQuantity
    ensures it.requiredQuantity <= 0 ==> n == 0
  {
    if it.requiredQuantity > 0 then it.requiredQuantity else 0
  }

  /** The required item is none (0), or the character holds some and at least the required quantity. */
  predicate HasRequirement(w: World, me: int, it: ItemRow)
  {
    it.requiredItem == 0 || (Held(w, me)[it.requiredItem] > 0 && Held(w, me)[it.requiredItem] >= it.requiredQuantity)
  }

  /** use takes effect: a usable item of the character's level, held or in the room, whose requirement is met. */
  predicate CanUse(w: World, me: int, arg: string)
    requires me in w.characters
  {
    var id := ItemId(w, arg);
    id != -1 && id in w.items
    && var it := w.items[id];
    it.usable && w.characters[me].level >= it.requiredLevel
    && (Held(w, me)[id] > 0 || RoomItemsOf(w, LocationOf(w, me))[id] > 0)
    && HasRequirement(w, me, it)
  }

  /** The effect is recorded and the required units are taken; nothing else but the outbox changed. */
  predicate UsedUp(w: World, me: int, id: int, w': World)
    requires id in w.items
  {
    var it := w.items[id];
    w' == w.(effects := w.effects + [Effect(id, me)],
             inventories := if it.requiredItem == 0 then w.inventories
                            else w.inventories[me := Taken(Held(w, me), it.requiredItem, RequiredUnits(it))],
             outbox := w'.outbox)
    && w.outbox <= w'.outbox
  }

  function Use(w: World, h: Handle, me: int, arg: string): (r: Step)
    requires Actor(w, h, me)
    ensures r.follow == Done && !r.crashed
    ensures CanUse(w, me, arg) ==> (UsedUp(w, me, ItemId(w, arg), r.w)
      && Sent(w, r.w) == [Delivery(h, Display(UsedItem(arg))), Delivery(h, Display(EffectDescription(ItemId(w, arg))))])
    ensures !CanUse(w, me, arg) ==> OnlySent(w, r.w)
    ensures RowMissing(w, arg) ==> Sent(w, r.w) == [Delivery(h, Display(NotUsable(arg)))]
  {
    if CanUse(w, me, arg) then
      var id := ItemId(w, arg);
      var it := w.items[id];
      var w1 := w.(effects := w.effects + [Effect(id, me)]);
      var w2 := if it.requiredItem == 0 then w1 else Take(w1, me, it.requiredItem, RequiredUnits(it));
      var w3 := Send(w2, h, Display(UsedItem(arg)));
      Finish(Send(w3, h, Display(EffectDescription(id))))
    else RefuseUse(w, h, me, arg)
  }

  /**
   * The refusals of `use`. An item held by the character whose required item
   * the character does not hold at all gets no answer: that branch of the
   * handler has no else.
   */
  function RefuseUse(w: World, h: Handle, me: int, arg: string): (r: Step)
    requires Actor(w, h, me) && !CanUse(w, me, arg)
    ensures OnlySent(w, r.w) && !r.crashed && r.follow == Done
    ensures |Sent(w, r.w)| <= 1
    ensures RowMissing(w, arg) ==> Sent(w, r.w) == [Delivery(h, Display(NotUsable(arg)))]
  {
    var id := ItemId(w, arg);
    if id == -1 then Reply(w, h, UnknownItem(arg))
    else if id !in w.items then Reply(w, h, NotUsable(arg))
    else
      var it := w.items[id];
      if !it.usable then Reply(w, h, NotUsable(arg))
      else if w.characters[me].level < it.requiredLevel then Reply(w, h, LevelNeeded(it.requiredLevel, arg))
      else if Held(w, me)[id] > 0 || RoomItemsOf(w, LocationOf(w, me))[id] > 0 then
        if Held(w, me)[it.requiredItem] > 0 then Reply(w, h, NeedMore(it.requiredItem, arg))
        else if Held(w, me)[id] > 0 then Finish(w)
        else Reply(w, h, DoNotHave(arg))
      else Reply(w, h, NoneHere(arg))
  }

  /** use takes exactly the required units of the required item, and no unit of anything else. */
  lemma UseTakesRequirement(w: World, h: Handle, me: int, arg: string, x: int)
    requires Actor(w, h, me) && CanUse(w, me, arg)
    ensures var it := w.items[ItemId(w, arg)]; var w' := Use(w, h, me, arg).w;
      Held(w', me)[x] == if it.requiredItem != 0 && x == it.requiredItem then Held(w, me)[x] - RequiredUnits(it) else Held(w, me)[x]
  {
  }

  // ------------------------------------------------------------------ equip

  /** The types of a set of items. */
  function TypesOf(items: map<int, ItemRow>, es: set<int>): set<string>
  {
    set e | e in es && e in items :: items[e].itemType
  }

  /** The types of the items a character has equipped (getEquippedItems' values). */
  function TypesEquipped(w: World, me: int): set<string>
  {
    TypesOf(w.items, EquippedOf(w, me))
  }

  /** No two of the items share a type. */
  predicate DistinctTypes(items: map<int, ItemRow>, es: set<int>)
  {
    forall a, b :: a in es && b in es && a in items && b in items && a != b
      ==> items[a].itemType != items[b].itemType
  }

  /** No two equipped items share a type. */
  predicate OneOfEachType(w: World, me: int)
  {
    DistinctTypes(w.items, EquippedOf(w, me))
  }

  lemma AddNewType(items: map<int, ItemRow>, es: set<int>, id: int)
    requires DistinctTypes(items, es) && id in items && items[id].itemType !in TypesOf(items, es)
    ensures DistinctTypes(items, es + {id})
  {
    forall a | a in es && a in items
      ensures items[a].itemType != items[id].itemType
    {
      assert items[a].itemType in TypesOf(items, es);
    }
  }

  /** equip goes through: known, equippable, of the character's level, not worn, no other of its type worn, held. */
  predicate CanEquip(w: World, me: int, arg: string)
    requires me in w.characters
  {
    var id := ItemId(w, arg);
    arg != "" && id >= 0 && id in w.items
    && var it := w.items[id];
    it.equippable && w.characters[me].level >= it.requiredLevel
    && id !in EquippedOf(w, me) && it.itemType !in TypesEquipped(w, me)
    && Held(w, me)[id] > 0
  }

  function Equip(w: World, h: Handle, me: int, arg: string): (r: Step)
    requires Actor(w, h, me)
    ensures r.follow == Done && !r.crashed
    ensures CanEquip(w, me, arg) ==>
      r.w == w.(equipped := w.equipped[me := EquippedOf(w, me) + {ItemId(w, arg)}], outbox := r.w.outbox)
      && w.outbox <= r.w.outbox
    ensures !CanEquip(w, me, arg) ==> OnlySent(w, r.w)
    ensures arg == "" ==> Sent(w, r.w) == [Delivery(h, Display(
      if EquippedOf(w, me) == {} then NothingEquipped else EquippedList(EquippedOf(w, me))))]
    ensures arg != "" && RowMissing(w, arg) ==> Sent(w, r.w) == [Delivery(h, Display(NotEquippable(arg)))]
  {
    if CanEquip(w, me, arg) then
      var id := ItemId(w, arg);
      var w1 := SetEquipped(w, me, EquippedOf(w, me) + {id});
      Finish(Send(w1, h, Display(EquippedItem(arg))))
    else RefuseEquip(w, h, me, arg)
  }

  function RefuseEquip(w: World, h: Handle, me: int, arg: string): (r: Step)
    requires Actor(w, h, me) && !CanEquip(w, me, arg)
    ensures OnlySent(w, r.w) && !r.crashed && r.follow == Done
    ensures arg == "" ==> Sent(w, r.w) == [Delivery(h, Display(
      if EquippedOf(w, me) == {} then NothingEquipped else EquippedList(EquippedOf(w, me))))]
    ensures arg != "" && RowMissing(w, arg) ==> Sent(w, r.w) == [Delivery(h, Display(NotEquippable(arg)))]
  {
    var id := ItemId(w, arg);
    if arg == "" then
      Reply(w, h, if EquippedOf(w, me) == {} then NothingEquipped else EquippedList(EquippedOf(w, me)))
    else if id < 0 then Reply(w, h, UnknownItem(arg))
    else if id !in w.items then Reply(w, h, NotEquippable(arg))
    else
      var it := w.items[id];
      if !it.equippable then Reply(w, h, NotEquippable(arg))
      else if w.characters[me].level < it.requiredLevel then Reply(w, h, LevelNeeded(it.requiredLevel, arg))
      else if id in EquippedOf(w, me) then Reply(w, h, AlreadyEquipped(arg))
      else if it.itemType in TypesEquipped(w, me) then Reply(w, h, TypeEquipped(it.itemType))
      else Reply(w, h, NotCarried(arg))
  }

  /** equip never lets two items of one type be worn together. */
  lemma EquipKeepsOneOfEachType(w: World, h: Handle, me: int, arg: string)
    requires Actor(w, h, me) && OneOfEachType(w, me)
    ensures OneOfEachType(Equip(w, h, me, arg).w, me)
  {
    var w' := Equip(w, h, me, arg).w;
    var es := EquippedOf(w, me);
    EquipEffect(w, h, me, arg);
    if CanEquip(w, me, arg) {
      AddNewType(w.items, es, ItemId(w, arg));
    }
  }

  /** What equip does to the character's equipment, and that it leaves the item table alone. */
  lemma EquipEffect(w: World, h: Handle, me: int, arg: string)
    requires Actor(w, h, me)
    ensures var w' := Equip(w, h, me, arg).w;
      w'.items == w.items
      && EquippedOf(w', me) == (if CanEquip(w, me, arg) then EquippedOf(w, me) + {ItemId(w, arg)} else EquippedOf(w, me))
      && (CanEquip(w, me, arg) ==> w.items[ItemId(w, arg)].itemType !in TypesOf(w.items, EquippedOf(w, me)))
  {
  }

  // ---------------------------------------------------------------- unequip

  predicate CanUnequip(w: World, me: int, arg: string)
  {
    var id := ItemId(w, arg);
    id >= 0 && Held(w, me)[id] > 0 && id in EquippedOf(w, me)
  }

  /** The `unequip` handler; an empty argument is answered and the checks still run. */
  function Unequip(w: World, h: Handle, me: int, arg: string): (r: Step)
    requires Actor(w, h, me)
    ensures r.follow == Done && !r.crashed
    ensures CanUnequip(w, me, arg) ==>
      r.w == w.(equipped := w.equipped[me := EquippedOf(w, me) - {ItemId(w, arg)}], outbox := r.w.outbox)
      && w.outbox <= r.w.outbox
    ensures !CanUnequip(w, me, arg) ==> OnlySent(w, r.w)
  {
    if CanUnequip(w, me, arg) then
      var w0 := if arg == "" then Send(w, h, Display(ObjectWhat("unequip"))) else w;
      var w1 := SetEquipped(w0, me, EquippedOf(w, me) - {ItemId(w, arg)});
      Finish(Send(w1, h, Display(UnequippedItem(arg))))
    else RefuseUnequip(w, h, me, arg)
  }

  /**
   * The refusals of `unequip`. A held item whose row is gone reads
   * `equippable` as null, which parseBoolean takes as false.
   */
  function RefuseUnequip(w: World, h: Handle, me: int, arg: string): (r: Step)
    requires Actor(w, h, me) && !CanUnequip(w, me, arg)
    ensures OnlySent(w, r.w) && !r.crashed && r.follow == Done
    ensures RowMissing(w, arg) && Held(w, me)[ItemId(w, arg)] > 0 ==>
      Sent(w, r.w) == (if arg == "" then [Delivery(h, Display(ObjectWhat("unequip")))] else [])
        + [Delivery(h, Display(NotEquippable(arg)))]
  {
    var w0 := if arg == "" then Send(w, h, Display(ObjectWhat("unequip"))) else w;
    var id := ItemId(w, arg);
    if id < 0 then Finish(Reply(w0, h, UnknownItem(arg)).w)
    else if Held(w, me)[id] == 0 then Finish(Reply(w0, h, NotCarried(arg)).w)
    else if id in w.items && w.items[id].equippable then Finish(Reply(w0, h, NotEquipped(arg)).w)
    else Finish(Reply(w0, h, NotEquippable(arg)).w)
  }

  /** Unequipping what was just equipped gives back the equipment the character had. */
  lemma UnequipUndoesEquip(w: World, h: Handle, me: int, arg: string)
    requires Actor(w, h, me) && CanEquip(w, me, arg)
    ensures var w1 := Equip(w, h, me, arg).w;
      Actor(w1, h, me) && CanUnequip(w1, me, arg)
      && EquippedOf(Unequip(w1, h, me, arg).w, me) == EquippedOf(w, me)
  {
    var id := ItemId(w, arg);
    assert EquippedOf(w, me) + {id} - {id} == EquippedOf(w, me);
  }

  // ---------------------------------------------------------------- inspect

  /** The item is held by the character or lies in its room. */
  predicate Visible(w: World, me: int, id: int)
    requires me in w.characters
  {
    Held(w, me)[id] > 0 || RoomItemsOf(w, LocationOf(w, me))[id] > 0
  }

  /** The `inspect` handler: it only ever answers, and describes only an item within reach. */
  function Inspect(w: World, h: Handle, me: int, arg: string): (r: Step)
    requires Actor(w, h, me)
    ensures OnlySent(w, r.w) && !r.crashed && r.follow == Done
    ensures ItemId(w, arg) >= 0 && Visible(w, me, ItemId(w, arg)) ==>
      Sent(w, r.w) == [Delivery(h, Display(Inspected(arg))), Delivery(h, Display(ItemDescription(ItemId(w, arg))))]
    ensures !(ItemId(w, arg) >= 0 && Visible(w, me, ItemId(w, arg))) ==> |Sent(w, r.w)| == 1
  {
    var id := ItemId(w, arg);
    if id < 0 then Reply(w, h, UnknownItem(arg))
    else if Visible(w, me, id) then
      Finish(Send(Send(w, h, Display(Inspected(arg))), h, Display(ItemDescription(id))))
    else Reply(w, h, NoneHere(arg))
  }
}
