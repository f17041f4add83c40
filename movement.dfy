/**
 * Walking between rooms and opening locked doors. A room records one locked
 * side (its lockedDoor) and whether that lock is engaged; moving through the
 * locked side is refused, and unlocking it costs one unit of the room's key.
 */
module Movement {
  import opened Wrappers
  import opened World
  import opened Audience

  /** The direction argument of `move`: the full name or its first letter. */
  function MoveDirection(arg: string): (d: Option<Direction>)
    ensures d.Some? ==> arg == DirectionName(d.value) || arg == DirectionName(d.value)[..1]
  {
    if arg == "north" || arg == "n" then Some(North)
    else if arg == "east" || arg == "e" then Some(East)
    else if arg == "south" || arg == "s" then Some(South)
    else if arg == "west" || arg == "w" then Some(West)
    else None
  }

  /** The argument of `unlock`: full names only. */
  function DoorDirection(arg: string): (d: Option<Direction>)
    ensures d.Some? ==> arg == DirectionName(d.value)
  {
    if arg == "north" then Some(North)
    else if arg == "east" then Some(East)
    else if arg == "south" then Some(South)
    else if arg == "west" then Some(West)
    else None
  }

  /** Both spellings of every direction are understood by `move`, and only the full name by `unlock`. */
  lemma DirectionsUnderstood(e: Direction)
    ensures MoveDirection(DirectionName(e)) == Some(e)
    ensures MoveDirection(DirectionName(e)[..1]) == Some(e)
    ensures DoorDirection(DirectionName(e)) == Some(e)
    ensures DoorDirection(DirectionName(e)[..1]) == None
  {
    match e
    case North => assert DirectionName(e)[..1] == "n";
    case East => assert DirectionName(e)[..1] == "e";
    case South => assert DirectionName(e)[..1] == "s";
    case West => assert DirectionName(e)[..1] == "w";
  }

  /** The room's lock is engaged on side `d`. */
  predicate LockedOn(r: RoomRow, d: Direction)
  {
    r.locked && r.lockedDoor == DirectionName(d)
  }

  /** `move` goes through: the room exists, the direction is known, the exit exists and is not the locked side. */
  predicate CanMove(w: World, me: int, arg: string)
    requires me in w.characters
  {
    var loc := w.characters[me].location;
    loc in w.rooms && MoveDirection(arg).Some?
    && Exit(w.rooms[loc], MoveDirection(arg).value) != 0
    && !LockedOn(w.rooms[loc], MoveDirection(arg).value)
  }

  /**
   * roomChangeNotifier: online characters in the new room hear of the
   * arrival, those in the old room of the departure; the mover hears neither.
   */
  function RoomChange(w: World, current: int, previous: int, mover: int, d: Direction): (r: Run)
    ensures OnlySent(w, r.w)
    ensures r.crashed == EnteredAudience(w, current, mover).faulted
  {
    var who := if mover in w.characters then w.characters[mover].name else "null";
    var e := EnteredAudience(w, current, mover);
    var l := LeftAudience(w, current, previous, mover);
    RoomChangeFaultsTogether(w, current, previous, mover);
    var w1 := SendAll(w, e.kept, Display(Entered(who)));
    var w2 := SendAll(w1, l.kept, Display(Left(who, d)));
    Run(w2, e.faulted)
  }

  /** The `move` handler (the mobs' attack it schedules afterwards is not part of it). */
  function Move(w: World, h: Handle, me: int, arg: string): (r: Step)
    requires Actor(w, h, me)
    ensures w.characters[me].location !in w.rooms ==> r.crashed && r.w == w
    ensures CanMove(w, me, arg) ==> (
      var loc := w.characters[me].location;
      var exit := Exit(w.rooms[loc], MoveDirection(arg).value);
      r.w == w.(characters := w.characters[me := w.characters[me].(location := exit)], outbox := r.w.outbox)
      && w.outbox <= r.w.outbox
      && (!r.crashed ==> r.follow == ThenLook))
    ensures !CanMove(w, me, arg) ==> OnlySent(w, r.w) && r.follow == Done
    ensures w.characters[me].location in w.rooms && !CanMove(w, me, arg) ==> !r.crashed
  {
    var row := w.characters[me];
    var loc := row.location;
    match RoomOf(w, loc)
    case None => Abort(w)
    case Some(room) =>
      match MoveDirection(arg)
      case None => Finish(w)
      case Some(d) =>
        var exit := Exit(room, d);
        if exit == 0 then Finish(Send(w, h, Display(NoExit(d))))
        else if !LockedOn(room, d) then
          var w1 := PutCharacter(w, me, row.(location := exit));
          var n := RoomChange(w1, exit, loc, me, d);
          if n.crashed then Abort(n.w) else Step(n.w, false, ThenLook)
        else Finish(Send(w, h, Display(DoorLocked(d, room.requiredItem))))
  }

  /** `move` puts the character behind a real exit of its old room, and never on the locked side. */
  lemma MoveFollowsExits(w: World, h: Handle, me: int, arg: string)
    requires Actor(w, h, me)
    requires Move(w, h, me, arg).w.characters[me].location != w.characters[me].location
    ensures var loc := w.characters[me].location;
      loc in w.rooms && var d := MoveDirection(arg).value;
      Move(w, h, me, arg).w.characters[me].location == Exit(w.rooms[loc], d) != 0
      && !LockedOn(w.rooms[loc], d)
  {
  }

  /** `move` never touches an inventory or a room's items. */
  lemma MoveKeepsPossessions(w: World, h: Handle, me: int, arg: string)
    requires Actor(w, h, me)
    ensures Move(w, h, me, arg).w.inventories == w.inventories
    ensures Move(w, h, me, arg).w.roomItems == w.roomItems
    ensures Move(w, h, me, arg).w.rooms == w.rooms
  {
  }

  /** `unlock` takes effect on side `d`: the lock is engaged on exactly that side and the key is held. */
  predicate CanUnlockSide(w: World, me: int, d: Direction)
    requires me in w.characters
  {
    var loc := w.characters[me].location;
    loc in w.rooms && LockedOn(w.rooms[loc], d) && InventoryOf(w, me)[w.rooms[loc].requiredItem] > 0
  }

  predicate CanUnlock(w: World, me: int, arg: string)
    requires me in w.characters
  {
    DoorDirection(arg).Some? && CanUnlockSide(w, me, DoorDirection(arg).value)
  }

  /** The new state of a successful `unlock`: one key unit fewer, the lock released. */
  predicate Unlocked(w: World, me: int, w': World)
    requires me in w.characters && w.characters[me].location in w.rooms
  {
    var loc := w.characters[me].location;
    var key := w.rooms[loc].requiredItem;
    var held := InventoryOf(w, me);
    w' == w.(rooms := w.rooms[loc := w.rooms[loc].(locked := false)],
             inventories := w.inventories[me := Taken(held, key, 1)],
             outbox := w'.outbox)
    && w.outbox <= w'.outbox
  }

  /** The `unlock` handler. */
  function Unlock(w: World, h: Handle, me: int, arg: string): (r: Step)
    requires Actor(w, h, me)
    ensures r.follow == Done
    ensures r.crashed <==> w.characters[me].location !in w.rooms
    ensures CanUnlock(w, me, arg) ==> Unlocked(w, me, r.w)
    ensures !CanUnlock(w, me, arg) ==> OnlySent(w, r.w)
  {
    var loc := w.characters[me].location;
    match RoomOf(w, loc)
    case None => Abort(w)
    case Some(room) =>
      match DoorDirection(arg)
      case None => Finish(w)
      case Some(d) => Finish(UnlockSide(w, h, me, d))
  }

  /** `unlock` on a known side of an existing room. */
  function UnlockSide(w: World, h: Handle, me: int, d: Direction): (w': World)
    requires Actor(w, h, me) && w.characters[me].location in w.rooms
    ensures CanUnlockSide(w, me, d) ==> Unlocked(w, me, w')
    ensures !CanUnlockSide(w, me, d) ==> OnlySent(w, w')
  {
    var loc := w.characters[me].location;
    var room := w.rooms[loc];
    if CanUnlockSide(w, me, d) then UseKey(w, h, me, loc, d)
    else Refuse(w, h, room, d)
  }

  /** The refusals of `unlock`: the key is missing, or that side is not the locked one. */
  function Refuse(w: World, h: Handle, room: RoomRow, d: Direction): (w': World)
    ensures OnlySent(w, w')
    ensures w'.outbox == w.outbox + [Delivery(h, Display(if LockedOn(room, d) then KeyNeeded(room.requiredItem, d) else NotLocked))]
  {
    if LockedOn(room, d) then Send(w, h, Display(KeyNeeded(room.requiredItem, d)))
    else Send(w, h, Display(NotLocked))
  }

  /** One unit of the room's key leaves the inventory, and the room's lock is released. */
  function UseKey(w: World, h: Handle, me: int, loc: int, d: Direction): (w': World)
    requires loc in w.rooms && InventoryOf(w, me)[w.rooms[loc].requiredItem] > 0
    ensures me in w.characters && w.characters[me].location == loc ==> Unlocked(w, me, w')
  {
    var room := w.rooms[loc];
    var w1 := Take(w, me, room.requiredItem, 1);
    var w2 := w1.(rooms := w1.rooms[loc := room.(locked := false)]);
    Send(w2, h, Display(KeyUsed(room.requiredItem, d)))
  }

  /** After a door is unlocked, moving through it goes through whenever that side has an exit. */
  lemma UnlockOpensDoor(w: World, h: Handle, me: int, arg: string)
    requires Actor(w, h, me) && CanUnlock(w, me, arg)
    ensures var w' := Unlock(w, h, me, arg).w;
      var loc := w.characters[me].location;
      Exit(w.rooms[loc], DoorDirection(arg).value) != 0 ==> Actor(w', h, me) && CanMove(w', me, arg)
  {
  }

  /** A side whose lock is engaged stays shut to `move`, whatever the character carries. */
  lemma LockedDoorBlocks(w: World, h: Handle, me: int, d: Direction)
    requires Actor(w, h, me)
    requires w.characters[me].location in w.rooms && LockedOn(w.rooms[w.characters[me].location], d)
    ensures Move(w, h, me, DirectionName(d)).w.characters == w.characters
  {
  }
}
