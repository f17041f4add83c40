/**
 * Who hears what: the loops over the registered clients that pick the
 * recipients of a message, or the characters of a room. Each loop reads the
 * sessions in registry order; reading the location of a character whose row
 * is missing makes Integer.parseInt throw, which ends the loop there.
 */
module Audience {
  import opened Wrappers
  import opened World

  datatype Verdict = Skip | Keep | Fault

  /** The handles kept before the loop stopped, and whether it stopped on a fault. */
  datatype Selection = Selection(kept: seq<Handle>, faulted: bool)

  /** One pass of a loop over `hs` that keeps, skips, or throws on each handle. */
  function Scan(hs: seq<Handle>, v: Handle -> Verdict): (s: Selection)
    ensures s.faulted <==> exists i :: 0 <= i < |hs| && v(hs[i]) == Fault
    ensures forall h :: h in s.kept ==> h in hs && v(h) == Keep
    ensures !s.faulted ==> forall h :: h in hs && v(h) == Keep ==> h in s.kept
    ensures |s.kept| <= |hs|
  {
    if |hs| == 0 then Selection([], false)
    else
      var rest := Scan(hs[1..], v);
      match v(hs[0])
      case Fault => Selection([], true)
      case Skip => rest
      case Keep => Selection([hs[0]] + rest.kept, rest.faulted)
  }

  /** A scan that keeps a handle and then faults on a later one still keeps the earlier handle. */
  lemma {:induction false} ScanKeepsBeforeFault(hs: seq<Handle>, v: Handle -> Verdict, i: int)
    requires 0 <= i < |hs| && v(hs[i]) == Keep
    requires forall j :: 0 <= j < i ==> v(hs[j]) != Fault
    ensures hs[i] in Scan(hs, v).kept
  {
    if i > 0 {
      ScanKeepsBeforeFault(hs[1..], v, i - 1);
    }
  }

  // ------------------------------------------------- what a loop reads of a session

  predicate Online(w: World, h: Handle)
  {
    h in w.sessions && w.sessions[h].online
  }

  predicate HoldsCharacter(w: World, h: Handle)
  {
    h in w.sessions && w.sessions[h].character.Some?
  }

  /** The character's id, for a session holding one. */
  function CharacterIdAt(w: World, h: Handle): int
    requires HoldsCharacter(w, h)
  {
    w.sessions[h].character.value
  }

  /** The session holds a character whose row the database does not have. */
  predicate MissingRow(w: World, h: Handle)
  {
    HoldsCharacter(w, h) && CharacterIdAt(w, h) !in w.characters
  }

  /** The session holds a character whose row places it in `room`. */
  predicate Located(w: World, h: Handle, room: int)
  {
    HoldsCharacter(w, h) && CharacterIdAt(w, h) in w.characters
    && w.characters[CharacterIdAt(w, h)].location == room
  }

  // ------------------------------------------------------------------ the loops

  /** getCharactersInRoom / getCharacterIDsInRoom: a character, online, then the room. */
  function InRoomVerdict(w: World, room: int, h: Handle): Verdict
  {
    if !HoldsCharacter(w, h) || !Online(w, h) then Skip
    else if MissingRow(w, h) then Fault
    else if Located(w, h, room) then Keep
    else Skip
  }

  function InRoom(w: World, room: int): (s: Selection)
    ensures forall h :: h in s.kept ==> h in w.registry && Online(w, h) && Located(w, h, room)
    ensures !s.faulted ==> forall h :: h in w.registry && Online(w, h) && Located(w, h, room) ==> h in s.kept
    ensures s.faulted <==> exists i :: 0 <= i < |w.registry| && Online(w, w.registry[i]) && MissingRow(w, w.registry[i])
  {
    var s := Scan(w.registry, h => InRoomVerdict(w, room, h));
    assert s.faulted <==> exists i :: 0 <= i < |w.registry| && InRoomVerdict(w, room, w.registry[i]) == Fault;
    s
  }

  /** say: a character, then the room and the online flag together. */
  function SayVerdict(w: World, room: int, h: Handle): Verdict
  {
    if !HoldsCharacter(w, h) then Skip
    else if MissingRow(w, h) then Fault
    else if Located(w, h, room) && Online(w, h) then Keep
    else Skip
  }

  function SayAudience(w: World, room: int): (s: Selection)
    ensures forall h :: h in s.kept ==> h in w.registry && Online(w, h) && Located(w, h, room)
    ensures !s.faulted ==> forall h :: h in w.registry && Online(w, h) && Located(w, h, room) ==> h in s.kept
    ensures s.faulted <==> exists i :: 0 <= i < |w.registry| && MissingRow(w, w.registry[i])
  {
    var s := Scan(w.registry, h => SayVerdict(w, room, h));
    assert s.faulted <==> exists i :: 0 <= i < |w.registry| && SayVerdict(w, room, w.registry[i]) == Fault;
    s
  }

  /** emote and the mob mover's notices: a character in the room, online or not. */
  function RoomVerdict(w: World, room: int, h: Handle): Verdict
  {
    if !HoldsCharacter(w, h) then Skip
    else if MissingRow(w, h) then Fault
    else if Located(w, h, room) then Keep
    else Skip
  }

  function RoomAudience(w: World, room: int): (s: Selection)
    ensures forall h :: h in s.kept ==> h in w.registry && Located(w, h, room)
    ensures !s.faulted ==> forall h :: h in w.registry && Located(w, h, room) ==> h in s.kept
    ensures s.faulted <==> exists i :: 0 <= i < |w.registry| && MissingRow(w, w.registry[i])
  {
    var s := Scan(w.registry, h => RoomVerdict(w, room, h));
    assert s.faulted <==> exists i :: 0 <= i < |w.registry| && RoomVerdict(w, room, w.registry[i]) == Fault;
    s
  }

  /** who: every session holding a character; its name is only printed, so nothing throws. */
  function WhoAudience(w: World): (s: Selection)
    ensures !s.faulted
    ensures forall h :: h in s.kept <==> h in w.registry && HoldsCharacter(w, h)
  {
    Scan(w.registry, h => if HoldsCharacter(w, h) then Keep else Skip)
  }

  /** The two notices of roomChangeNotifier: online sessions other than the mover's, by room. */
  function EnteredVerdict(w: World, current: int, mover: int, h: Handle): Verdict
  {
    if !Online(w, h) then Skip
    else if !HoldsCharacter(w, h) || MissingRow(w, h) then Fault
    else if Located(w, h, current) && CharacterIdAt(w, h) != mover then Keep
    else Skip
  }

  function LeftVerdict(w: World, current: int, previous: int, mover: int, h: Handle): Verdict
  {
    if !Online(w, h) then Skip
    else if !HoldsCharacter(w, h) || MissingRow(w, h) then Fault
    else if Located(w, h, current) && CharacterIdAt(w, h) != mover then Skip
    else if Located(w, h, previous) && CharacterIdAt(w, h) != mover then Keep
    else Skip
  }

  function EnteredAudience(w: World, current: int, mover: int): (s: Selection)
    ensures forall h :: h in s.kept ==> h in w.registry && Online(w, h) && Located(w, h, current) && CharacterIdAt(w, h) != mover
    ensures !s.faulted ==> forall h :: (h in w.registry && Online(w, h) && Located(w, h, current)
      && CharacterIdAt(w, h) != mover) ==> h in s.kept
  {
    Scan(w.registry, h => EnteredVerdict(w, current, mover, h))
  }

  function LeftAudience(w: World, current: int, previous: int, mover: int): (s: Selection)
    ensures forall h :: h in s.kept ==> (h in w.registry && Online(w, h) && Located(w, h, previous)
      && !Located(w, h, current) && CharacterIdAt(w, h) != mover)
    ensures !s.faulted ==> forall h :: (h in w.registry && Online(w, h) && Located(w, h, previous)
      && !Located(w, h, current) && CharacterIdAt(w, h) != mover) ==> h in s.kept
  {
    Scan(w.registry, h => LeftVerdict(w, current, previous, mover, h))
  }

  /** Both notice loops read the same sessions in the same order, so they fault together. */
  lemma RoomChangeFaultsTogether(w: World, current: int, previous: int, mover: int)
    ensures EnteredAudience(w, current, mover).faulted == LeftAudience(w, current, previous, mover).faulted
  {
    var hs := w.registry;
    assert forall i :: 0 <= i < |hs| ==>
      (EnteredVerdict(w, current, mover, hs[i]) == Fault <==> LeftVerdict(w, current, previous, mover, hs[i]) == Fault);
  }

  /** No one hears of the move both as an arrival and as a departure. */
  lemma EnteredNotLeft(w: World, current: int, previous: int, mover: int, h: Handle)
    requires h in EnteredAudience(w, current, mover).kept
    ensures h !in LeftAudience(w, current, previous, mover).kept
  {
  }

  /** Everyone who hears `say` in a room also sees an `emote` there. */
  lemma SayWithinEmote(w: World, room: int, h: Handle)
    requires h in SayAudience(w, room).kept
    requires !RoomAudience(w, room).faulted
    ensures h in RoomAudience(w, room).kept
  {
  }

  /** The characters `look` lists are exactly the ones that hear `say`, when no row is missing. */
  lemma InRoomIsSayAudience(w: World, room: int, h: Handle)
    requires !SayAudience(w, room).faulted
    ensures h in InRoom(w, room).kept <==> h in SayAudience(w, room).kept
  {
    assert !InRoom(w, room).faulted;
  }

  // ------------------------------------------------------------ what is read from the kept

  /** The loops that look a character up by name read every session's character name: they throw on a null character or a missing row. */
  function NamedVerdict(w: World, target: string, h: Handle): Verdict
  {
    if !HoldsCharacter(w, h) || MissingRow(w, h) then Fault
    else if w.characters[CharacterIdAt(w, h)].name == target && Online(w, h) then Keep
    else Skip
  }

  /** The online sessions playing a character of that name, in order, up to the first that throws. */
  function Listeners(w: World, target: string): (s: Selection)
    ensures forall k :: k in s.kept ==> (k in w.registry && Online(w, k) && HoldsCharacter(w, k)
      && CharacterIdAt(w, k) in w.characters && w.characters[CharacterIdAt(w, k)].name == target)
  {
    Scan(w.registry, k => NamedVerdict(w, target, k))
  }

  /** The names of the kept characters, in order. */
  function NamesAt(w: World, hs: seq<Handle>): (names: seq<string>)
    ensures |names| == |hs|
  {
    if |hs| == 0 then []
    else [NameText(w, hs[0])] + NamesAt(w, hs[1..])
  }

  /** A character's name as string concatenation prints it: "null" without a row. */
  function NameText(w: World, h: Handle): string
  {
    if HoldsCharacter(w, h) && CharacterIdAt(w, h) in w.characters then w.characters[CharacterIdAt(w, h)].name
    else "null"
  }

  /** The ids of the kept characters, in order. */
  function IdsAt(w: World, hs: seq<Handle>): (ids: seq<int>)
    requires forall h :: h in hs ==> HoldsCharacter(w, h)
    ensures |ids| == |hs|
    ensures forall i :: 0 <= i < |hs| ==> ids[i] == CharacterIdAt(w, hs[i])
  {
    if |hs| == 0 then []
    else [CharacterIdAt(w, hs[0])] + IdsAt(w, hs[1..])
  }
}
