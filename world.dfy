/**
 * The server's state as one value: the connected sessions (one per
 * ClientHandler object) and the tables of the database the handlers read
 * and write, plus what the server has sent and logged so far.
 *
 * The database is a set of maps. A row the database does not hold is the
 * absence of a key; where the server parses a column of such a row as a
 * number, the model says the handler crashed.
 */
module World {
  import opened Wrappers
  import opened Records
  import Users
  import opened JavaText
  import Levels

  /** The identity of a ClientHandler object. */
  type Handle = int

  /** A loaded User object: the id its username lookup gave, and its columns. */
  datatype Account = Account(id: int, params: Params)

  /**
   * The fields of a ClientHandler. `character` is the id of its Character
   * object (None while it is null); `alive` is false once its thread has
   * ended, after which it reads no further messages.
   */
  datatype Session = Session(
    user: Option<Account>,
    character: Option<int>,
    online: bool,
    tradeItem: Option<string>,
    tradingTo: int,
    tradeAccept: bool,
    address: string,
    alive: bool)

  /** The fields as the ClientHandler constructor sets them. */
  function NewSession(address: string): (s: Session)
    ensures s.user.None? && s.character.None? && !s.online && s.alive
    ensures s.tradeItem == Some("") && s.tradingTo == -1 && !s.tradeAccept
  {
    Session(None, None, false, Some(""), -1, false, address, true)
  }

  datatype Direction = North | East | South | West

  function DirectionName(d: Direction): string
  {
    match d
    case North => "north"
    case East => "east"
    case South => "south"
    case West => "west"
  }

  /** A row of the characters table. */
  datatype CharacterRow = CharacterRow(
    name: string, owner: string, classType: string,
    hp: int, experience: int, level: int, location: int, lights: bool)

  /** A row of the rooms table; an exit of 0 means there is none. */
  datatype RoomRow = RoomRow(
    name: string, north: int, east: int, south: int, west: int,
    locked: bool, lockedDoor: string, requiredItem: int)

  function Exit(r: RoomRow, d: Direction): int
  {
    match d
    case North => r.north
    case East => r.east
    case South => r.south
    case West => r.west
  }

  /** A row of the items table. */
  datatype ItemRow = ItemRow(
    name: string, itemType: string, usable: bool, equippable: bool,
    requiredLevel: int, requiredItem: int, requiredQuantity: int, effectAmount: int)

  /** The item type that cannot be picked up. */
  const Permanent := "PERMANENT"

  /** The item id of a bottle cap, the currency. */
  const BottleCap := 21

  /** One unit of an item a merchant offers, at a price in caps. */
  datatype Listing = Listing(item: int, price: int)

  /** A row of the non-player characters table. */
  datatype NpcRow = NpcRow(name: string, location: int, homeRoom: int, permanent: bool, stock: seq<Listing>)

  /** A row of the mob kinds table. */
  datatype Species = Species(name: string, hp: int, expValue: int, hostile: bool)

  /** A live mob instance, keyed by its uid. */
  datatype MobRow = MobRow(species: int, name: string, hp: int, level: int, location: int, attacked: bool, attacker: int)

  /** An item effect applied to a character (its database side is not modelled). */
  datatype Effect = Effect(item: int, character: int)

  /** Why a login was refused. */
  datatype LoginRefusal = UnknownUser | AlreadyLoggedIn | WrongPassword | Banned

  /** The text of a DISPLAY message, by kind. */
  datatype Note =
    // dispatch and refresh
    | Blank | AdhereToSyntax | NotRecognized
    // look and inventory
    | RoomDescription(room: int)
    | ExitMap(north: bool, east: bool, south: bool, west: bool)
    | ItemsHere(items: multiset<int>)
    | PlayersHere(names: seq<string>)
    | NpcsHere(npcs: set<int>)
    | MobsHere(uids: seq<int>)
    | Carrying(items: multiset<int>)
    // movement and doors
    | NoExit(dir: Direction)
    | DoorLocked(dir: Direction, item: int)
    | Entered(who: string)
    | Left(who: string, dir: Direction)
    | MobLeft(mob: int, dir: Direction)
    | MobEntered(mob: int)
    | KeyUsed(item: int, dir: Direction)
    | KeyNeeded(item: int, dir: Direction)
    | NotLocked
    // talking
    | CommandList
    | EmptyMessage(command: string)
    | Said(who: string, text: string)
    | Emoted(who: string, text: string)
    | OutOfCharacter(who: string, text: string)
    | OnlinePlayers(names: seq<string>)
    | TellWhat
    | NoSuchCharacter(name: string)
    | TalkingToSelf
    | Whisper(from: string, text: string)
    | Whispered(to: string, text: string)
    | NotOnline(name: string)
    | NotAdmin
    | ShuttingDown(seconds: int)
    | Disconnected(who: string)
    | LoggedIn(who: string)
    // items
    | ObjectWhat(command: string)
    | UnknownItem(name: string)
    | CannotPickUp(item: int)
    | NoneHere(name: string)
    | PickedUp(name: string)
    | NotCarried(name: string)
    | NotUsable(name: string)
    | LevelNeeded(level: int, name: string)
    | UsedItem(name: string)
    | EffectDescription(item: int)
    | NeedMore(item: int, name: string)
    | DoNotHave(name: string)
    | EquippedList(wearing: set<int>)
    | NothingEquipped
    | NotEquippable(name: string)
    | AlreadyEquipped(name: string)
    | TypeEquipped(itemType: string)
    | EquippedItem(name: string)
    | UnequippedItem(name: string)
    | NotEquipped(name: string)
    | Inspected(name: string)
    | ItemDescription(item: int)
    // merchants
    | WhoIs(name: string)
    | NotSeen(name: string)
    | DoesNotStock(npc: string, item: int)
    | CapsNeeded(price: int, item: int)
    | Bought(item: int, price: int)
    | Sold(item: int, price: int)
    | NpcSays(name: string)
    | StockList(stock: seq<Listing>)
    | MobSays(name: string)
    | TalkToWhom
    // combat
    | NoSuchMob(name: string)
    | AlreadyFighting(name: string, attacker: int)
    | Killed(name: string, experience: int, caps: int)
    | LevelUp(level: int)
    | Hit(mob: int, damage: int)
    | NearlyDied(mob: int, damage: int)
    | Struck(mob: int, damage: int)
    // trade
    | OfferAccepted(who: string)
    | AskOffer(to: string)
    | OfferRefused(who: string)
    | YouRefused(name: string)
    | TradingSelf
    | TradeOffer(from: string, offer: string)
    | TradeProposed(to: string, offer: string)

  /** A message the server writes to a client's stream. */
  datatype Msg =
    | Display(note: Note)
    | CharacterStats(hp: int, experience: int, location: int, level: int, nextExp: int)
    | ClientFont(lights: bool)
    | LoginSuccessful(characters: seq<string>)
    | LoginUnsuccessful(reason: LoginRefusal)
    | CreateUserSuccessful
    | CreateUserUnsuccessful
    | CreateCharacterSuccessful
    | CreateCharacterUnsuccessful
    | SelectCharacterSuccessful
    | ClientKicked(cause: KickReason)

  /** Why a client was put out, with the administrator's reason where the console gave one. */
  datatype KickReason = KickedFor(why: string) | BannedFor(why: string) | IpBannedFor(why: string) | AddressBanned

  datatype Delivery = Delivery(to: Handle, msg: Msg)

  /** The lines the server adds to its log, by kind. */
  datatype LogLine =
    | GotClient(address: string)
    | IpBannedClient(address: string)
    | NoSuchUser(address: string)
    | LoggedInTwice(userName: Option<string>)
    | BadPassword(address: string)
    | CharacterChosen(username: Option<string>, name: string)
    | CreatedUser(newName: string)
    | CreatedCharacter(username: Option<string>, name: string)
    | Kicked(name: string)
    | BannedUser(user: int)
    | BannedByIp(user: int)
    | NotFound(name: string)
    | CommandNames(names: seq<string>)
    | ConnectedUsers(listed: seq<(Option<string>, string, Option<string>)>)
    | SyntaxHelp
    | UnknownCommand
    | SpawnedMob(uid: int, name: string, room: int)
    | Countdown(seconds: int)
    | Executed(name: string, line: string)

  /** The whole state. */
  datatype World = World(
    sessions: map<Handle, Session>,
    registry: seq<Handle>,
    userIds: map<string, int>,
    users: map<int, Params>,
    nextUserId: int,
    characterIds: map<string, int>,
    characters: map<int, CharacterRow>,
    characterOrder: seq<int>,
    nextCharacterId: int,
    rooms: map<int, RoomRow>,
    itemIds: map<string, int>,
    items: map<int, ItemRow>,
    roomItems: map<int, multiset<int>>,
    inventories: map<int, multiset<int>>,
    equipped: map<int, set<int>>,
    npcIds: map<string, int>,
    npcs: map<int, NpcRow>,
    species: map<int, Species>,
    mobClasses: seq<int>,
    mobs: map<int, MobRow>,
    mobOrder: seq<int>,
    npcUIDs: seq<int>,
    effects: seq<Effect>,
    bannedAddresses: set<string>,
    spawnerRunning: bool,
    moverRunning: bool,
    countdowns: seq<nat>,
    halted: bool,
    outbox: seq<Delivery>,
    log: seq<LogLine>)

  /** The state after a handler: `crashed` marks an exception that ended the handler there. */
  datatype Run = Run(w: World, crashed: bool)

  /**
   * What one command draws from the parts of the server the model keeps
   * abstract: the character's damage and defense and its maximum hit points
   * (class formulas over floating point), the mob's damage, and the random
   * draw of bottle caps as a fraction num/den of the mob's experience value.
   */
  datatype Env = Env(characterDamage: int, defense: int, maxHp: int, mobDamage: int, capsNum: nat, capsDen: nat)

  predicate EnvOk(env: Env)
  {
    env.capsNum < env.capsDen
  }

  /** What a handler asks executeCommand to run after it: nothing, a `look`, or an `inventory` per handle. */
  datatype Follow = Done | ThenLook | ThenInventory(handles: seq<Handle>)

  /** A handler's end state, whether it threw, and what it re-dispatches. */
  datatype Step = Step(w: World, crashed: bool, follow: Follow)

  function Finish(w: World): Step
  {
    Step(w, false, Done)
  }

  function Abort(w: World): Step
  {
    Step(w, true, Done)
  }

  /** A handler that answers its own client with one notice and stops. */
  function Reply(w: World, h: Handle, n: Note): (r: Step)
    ensures OnlySent(w, r.w) && r.w.outbox == w.outbox + [Delivery(h, Display(n))]
    ensures !r.crashed && r.follow == Done
  {
    Finish(Send(w, h, Display(n)))
  }

  /** The acting session holds character `me`, and that character's row exists. */
  predicate Actor(w: World, h: Handle, me: int)
  {
    h in w.sessions && w.sessions[h].character == Some(me) && me in w.characters
  }

  /** Every registered client has a handler record. */
  predicate Registered(w: World)
  {
    forall h :: h in w.registry ==> h in w.sessions
  }

  /** Only messages were sent: every table and session is as before. */
  predicate OnlySent(w: World, w': World)
  {
    w' == w.(outbox := w'.outbox) && w.outbox <= w'.outbox
  }

  /** The messages written between two states, oldest first. */
  function Sent(w: World, w': World): seq<Delivery>
    requires w.outbox <= w'.outbox
  {
    w'.outbox[|w.outbox|..]
  }

  // ---------------------------------------------------------------- lookups

  /** A name lookup that answers -1 for a name the table does not know. */
  function IdOf(ids: map<string, int>, name: string): (id: int)
    ensures name in ids ==> id == ids[name]
    ensures name !in ids ==> id == -1
  {
    if name in ids then ids[name] else -1
  }

  /** getIDFromItemName. */
  function ItemId(w: World, name: string): int
  {
    IdOf(w.itemIds, name)
  }

  function CharacterOf(w: World, id: int): (r: Option<CharacterRow>)
    ensures r.Some? <==> id in w.characters
    ensures r.Some? ==> r.value == w.characters[id]
  {
    if id in w.characters then Some(w.characters[id]) else None
  }

  function RoomOf(w: World, id: int): (r: Option<RoomRow>)
    ensures r.Some? <==> id in w.rooms
    ensures r.Some? ==> r.value == w.rooms[id]
  {
    if id in w.rooms then Some(w.rooms[id]) else None
  }

  function ItemOf(w: World, id: int): (r: Option<ItemRow>)
    ensures r.Some? <==> id in w.items
    ensures r.Some? ==> r.value == w.items[id]
  {
    if id in w.items then Some(w.items[id]) else None
  }

  function NameOf(w: World, id: int): (r: Option<string>)
    ensures r.Some? <==> id in w.characters
    ensures r.Some? ==> r.value == w.characters[id].name
  {
    if id in w.characters then Some(w.characters[id].name) else None
  }

  /** The row new User(...) loads for a user id. */
  function UserRow(w: World, id: int): Row
  {
    k => if id in w.users then Lookup(w.users[id], k) else None
  }

  /** new User(username): the id of the name, and the columns loaded for it. */
  function LoadUser(w: World, username: string): (a: Account)
    ensures a.id == IdOf(w.userIds, username)
    ensures a.params == Users.UserParams(a.id, UserRow(w, a.id))
  {
    var id := IdOf(w.userIds, username);
    Account(id, Users.UserParams(id, UserRow(w, id)))
  }

  /** Boolean.parseBoolean: "true" in any letter case; null is false. */
  function ParseBoolean(v: Option<string>): (b: bool)
    ensures b ==> v.Some? && |v.value| == 4
    ensures v == Some("true") ==> b
  {
    v.Some? && ToUpper(v.value) == "TRUE"
  }

  /** The text a String gives when concatenated: "null" for a null one. */
  function NameOr(v: Option<string>): string
  {
    if v.Some? then v.value else "null"
  }

  function InventoryOf(w: World, c: int): multiset<int>
  {
    if c in w.inventories then w.inventories[c] else multiset{}
  }

  /**
   * sendStats: hit points, experience, room, level and the experience the
   * next level needs, which is where the character's level ends.
   */
  function StatsOf(row: CharacterRow): (m: Msg)
    ensures m.CharacterStats? && m.hp == row.hp && m.experience == row.experience
      && m.location == row.location && m.level == row.level
    ensures 1 <= row.level <= 19 ==>
      Levels.LevelFromExp(m.nextExp - 1) == row.level && Levels.LevelFromExp(m.nextExp) == row.level + 1
    ensures !(1 <= row.level <= 19) ==> m.nextExp == 0
  {
    if 1 <= row.level <= 19 then
      Levels.NextExpIsBoundary(row.level);
      CharacterStats(row.hp, row.experience, row.location, row.level, Levels.NextExp(row.level))
    else
      CharacterStats(row.hp, row.experience, row.location, row.level, Levels.NextExp(row.level))
  }

  /** isAdmin: the user row's admin column read as a boolean. */
  predicate IsAdmin(w: World, user: int)
  {
    user in w.users && ParseBoolean(Lookup(w.users[user], "admin"))
  }

  /** The room a character's row places it in. */
  function LocationOf(w: World, me: int): int
    requires me in w.characters
  {
    w.characters[me].location
  }

  /** The units a character carries. */
  function Held(w: World, me: int): multiset<int>
  {
    InventoryOf(w, me)
  }

  function RoomItemsOf(w: World, room: int): multiset<int>
  {
    if room in w.roomItems then w.roomItems[room] else multiset{}
  }

  function EquippedOf(w: World, c: int): set<int>
  {
    if c in w.equipped then w.equipped[c] else {}
  }

  /** The uids of the mobs in a room, in table order. */
  function MobsIn(w: World, room: int): (uids: seq<int>)
    ensures forall u :: u in uids <==> u in w.mobOrder && u in w.mobs && w.mobs[u].location == room
  {
    MobsAmong(w.mobs, w.mobOrder, room)
  }

  function MobsAmong(mobs: map<int, MobRow>, order: seq<int>, room: int): (uids: seq<int>)
    ensures forall u :: u in uids <==> u in order && u in mobs && mobs[u].location == room
  {
    if |order| == 0 then []
    else
      var u := order[0];
      (if u in mobs && mobs[u].location == room then [u] else []) + MobsAmong(mobs, order[1..], room)
  }

  /** The last mob of the room whose name is `name`, as the talk and attack loops leave it. */
  function LastNamed(w: World, uids: seq<int>, name: string): (u: Option<int>)
    ensures u.Some? ==> u.value in uids && u.value in w.mobs && w.mobs[u.value].name == name
    ensures u.None? <==> forall i :: 0 <= i < |uids| ==> !(uids[i] in w.mobs && w.mobs[uids[i]].name == name)
  {
    if |uids| == 0 then None
    else
      var last := uids[|uids| - 1];
      if last in w.mobs && w.mobs[last].name == name then Some(last)
      else
        var u := LastNamed(w, uids[..|uids| - 1], name);
        assert forall i :: 0 <= i < |uids| - 1 ==> uids[..|uids| - 1][i] == uids[i];
        u
  }

  /** List.remove(Object): the first occurrence only. */
  function RemoveFirst<T(==)>(xs: seq<T>, x: T): (ys: seq<T>)
    ensures x !in xs ==> ys == xs
    ensures x in xs ==> multiset(ys) == multiset(xs) - multiset{x}
    ensures |ys| == if x in xs then |xs| - 1 else |xs|
  {
    if |xs| == 0 then []
    else if xs[0] == x then
      assert xs == [xs[0]] + xs[1..];
      xs[1..]
    else
      assert xs == [xs[0]] + xs[1..];
      [xs[0]] + RemoveFirst(xs[1..], x)
  }

  /** Every copy of `x` removed (Map.remove on the clients map, removeMob on the mob table). */
  function Without<T(==,!new)>(hs: seq<T>, h: T): (r: seq<T>)
    ensures forall x :: x in r <==> x in hs && x != h
    ensures |r| <= |hs|
    ensures h !in hs ==> r == hs
  {
    if |hs| == 0 then []
    else (if hs[0] == h then [] else [hs[0]]) + Without(hs[1..], h)
  }

  // ---------------------------------------------------------------- updates

  /** writeObject to one client stream. */
  function Send(w: World, to: Handle, m: Msg): (w': World)
    ensures w'.outbox == w.outbox + [Delivery(to, m)]
    ensures w' == w.(outbox := w'.outbox)
  {
    w.(outbox := w.outbox + [Delivery(to, m)])
  }

  /** Notices addressed to one client, in order. */
  function Addressed(h: Handle, ns: seq<Note>): (ds: seq<Delivery>)
    ensures |ds| == |ns| && forall i :: 0 <= i < |ns| ==> ds[i] == Delivery(h, Display(ns[i]))
  {
    seq(|ns|, i requires 0 <= i < |ns| => Delivery(h, Display(ns[i])))
  }

  /** Several notices to one client, in order. */
  function Tell(w: World, h: Handle, ns: seq<Note>): (w': World)
    ensures w'.outbox == w.outbox + Addressed(h, ns)
    ensures OnlySent(w, w') && Sent(w, w') == Addressed(h, ns)
  {
    var w' := w.(outbox := w.outbox + Addressed(h, ns));
    assert w'.outbox[|w.outbox|..] == Addressed(h, ns);
    w'
  }

  /** One message addressed to each handle, in order. */
  function Broadcast(hs: seq<Handle>, m: Msg): (ds: seq<Delivery>)
    ensures |ds| == |hs| && forall i :: 0 <= i < |hs| ==> ds[i] == Delivery(hs[i], m)
  {
    seq(|hs|, i requires 0 <= i < |hs| => Delivery(hs[i], m))
  }

  /** The same message to every handle, in order. */
  function SendAll(w: World, hs: seq<Handle>, m: Msg): (w': World)
    ensures w'.outbox == w.outbox + Broadcast(hs, m)
    ensures OnlySent(w, w') && Sent(w, w') == Broadcast(hs, m)
  {
    var w' := w.(outbox := w.outbox + Broadcast(hs, m));
    assert w'.outbox[|w.outbox|..] == Broadcast(hs, m);
    w'
  }

  /** Server.notifyAll: a message to every registered client. */
  function NotifyAll(w: World, m: Msg): World
  {
    SendAll(w, w.registry, m)
  }

  function AddLog(w: World, line: LogLine): (w': World)
    ensures w' == w.(log := w.log + [line])
  {
    w.(log := w.log + [line])
  }

  function PutSession(w: World, h: Handle, s: Session): (w': World)
    ensures w' == w.(sessions := w.sessions[h := s])
  {
    w.(sessions := w.sessions[h := s])
  }

  function PutCharacter(w: World, id: int, row: CharacterRow): (w': World)
    ensures w' == w.(characters := w.characters[id := row])
  {
    w.(characters := w.characters[id := row])
  }

  /** `n` more units of `item`. */
  function Added(inv: multiset<int>, item: int, n: nat): (r: multiset<int>)
    ensures r[item] == inv[item] + n
  {
    inv[item := inv[item] + n]
  }

  /** `n` fewer units of `item`, stopping at none. */
  function Taken(inv: multiset<int>, item: int, n: nat): (r: multiset<int>)
    ensures r[item] == if inv[item] >= n then inv[item] - n else 0
  {
    inv[item := if inv[item] >= n then inv[item] - n else 0]
  }

  /** addItemToCharacter, `n` times. */
  function Give(w: World, c: int, item: int, n: nat): (w': World)
    ensures w' == w.(inventories := w.inventories[c := Added(InventoryOf(w, c), item, n)])
  {
    w.(inventories := w.inventories[c := Added(InventoryOf(w, c), item, n)])
  }

  /** removeItemFromCharacter, `n` times; removing an item not held removes nothing. */
  function Take(w: World, c: int, item: int, n: nat): (w': World)
    ensures w' == w.(inventories := w.inventories[c := Taken(InventoryOf(w, c), item, n)])
  {
    w.(inventories := w.inventories[c := Taken(InventoryOf(w, c), item, n)])
  }

  /** addItemToRoom. */
  function PutInRoom(w: World, room: int, item: int): (w': World)
    ensures w' == w.(roomItems := w.roomItems[room := RoomItemsOf(w, room) + multiset{item}])
  {
    w.(roomItems := w.roomItems[room := RoomItemsOf(w, room) + multiset{item}])
  }

  /** removeItemFromRoom: one unit. */
  function TakeFromRoom(w: World, room: int, item: int): (w': World)
    ensures w' == w.(roomItems := w.roomItems[room := RoomItemsOf(w, room) - multiset{item}])
  {
    w.(roomItems := w.roomItems[room := RoomItemsOf(w, room) - multiset{item}])
  }

  function SetEquipped(w: World, c: int, items: set<int>): (w': World)
    ensures w' == w.(equipped := w.equipped[c := items])
  {
    w.(equipped := w.equipped[c := items])
  }
}
