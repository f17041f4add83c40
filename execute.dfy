/**
 * executeCommand and the ClientHandler's message loop. A typed line is
 * parsed against the player command table; a recognised command with its
 * arguments is logged and run, and what the handler asks for afterwards (a
 * `look` after a move, an `inventory` after a drop or a trade) is run as a
 * command of its own. Every command but `quit` ends by sending the client
 * its statistics and its font. A handler that throws ends the session's
 * thread; the server and the other sessions go on.
 */
module Execute {
  import opened Wrappers
  import opened World
  import opened Dispatch
  import opened JavaText
  import Protocol
  import Sessions
  import Chat
  import Items
  import Merchant
  import Movement
  import Combat
  import Trade

  // ---------------------------------------------------------------- refresh

  /** What sendStats and sendFonts write: the statistics, the font for the lights, and an empty line. */
  function Refreshed(h: Handle, row: CharacterRow): (ds: seq<Delivery>)
    ensures |ds| == 3 && ds[0] == Delivery(h, StatsOf(row)) && ds[1] == Delivery(h, ClientFont(row.lights))
    ensures ds[2] == Delivery(h, Display(Blank))
  {
    [Delivery(h, StatsOf(row)), Delivery(h, ClientFont(row.lights)), Delivery(h, Display(Blank))]
  }

  /** sendStats: parsing the hit points of a character without a row throws. */
  function SendStats(w: World, h: Handle, me: int): (r: Run)
    ensures me !in w.characters ==> r == Run(w, true)
    ensures me in w.characters ==> !r.crashed && OnlySent(w, r.w) && Sent(w, r.w) == [Delivery(h, StatsOf(w.characters[me]))]
  {
    match CharacterOf(w, me)
    case None => Run(w, true)
    case Some(row) => Run(Send(w, h, StatsOf(row)), false)
  }

  /** sendStats then sendFonts, as executeCommand ends. */
  function Refresh(w: World, h: Handle, me: int): (r: Run)
    ensures me !in w.characters ==> r == Run(w, true)
    ensures me in w.characters ==> !r.crashed && r.w == w.(outbox := w.outbox + Refreshed(h, w.characters[me]))
  {
    match CharacterOf(w, me)
    case None => Run(w, true)
    case Some(row) => Run(w.(outbox := w.outbox + Refreshed(h, row)), false)
  }

  // --------------------------------------------------------------- dispatch

  /** The four commands that only re-issue `move` with their direction. */
  function Walk(c: ClientCommand): (d: Option<Direction>)
    ensures d.Some? <==> c.North? || c.East? || c.South? || c.West?
  {
    match c
    case North => Some(Direction.North)
    case East => Some(Direction.East)
    case South => Some(Direction.South)
    case West => Some(Direction.West)
    case _ => None
  }

  /** How deep a command re-dispatches: a walk runs a move, which runs a look. */
  function Rank(c: ClientCommand): nat
  {
    if Walk(c).Some? then 2 else if c == Look || c == Inventory then 0 else 1
  }

  /**
   * What executeCommand runs after a handler that did not throw: nothing,
   * a `look`, or an `inventory` for each client named.
   */
  function Follow(st: Step, h: Handle, env: Env): (r: Run)
    requires EnvOk(env)
    ensures st.crashed || st.follow == Done ==> r == Run(st.w, st.crashed)
    decreases 1, 1, 0
  {
    if st.crashed then Run(st.w, true)
    else
      match st.follow
      case Done => Run(st.w, false)
      case ThenLook => Reenter(st.w, h, Look, [], "look", env)
      case ThenInventory(hs) => InventoryEach(st.w, hs, env)
  }

  /** `look` and `inventory`, which issue nothing after them. */
  function Viewed(w: World, h: Handle, me: int, c: ClientCommand): (r: Run)
    requires Actor(w, h, me) && Rank(c) == 0
  {
    var st := if c == Look then Items.Look(w, h, me) else Items.Inventory(w, h, me);
    Run(st.w, st.crashed)
  }

  /** The talking commands and the players' shutdown. */
  function Talked(w: World, h: Handle, me: int, c: ClientCommand, args: seq<string>, env: Env): (r: Run)
    requires Actor(w, h, me) && EnvOk(env) && |args| == ClientEntry(c).arity
    requires c in {Commands, Say, Who, Tell, Shutdown, Emote, Ooc}
    decreases 1, 2, 0
  {
    Follow(match c
      case Commands => Chat.Commands(w, h, me)
      case Say => Chat.Say(w, h, me, args[0])
      case Who => Chat.Who(w, h)
      case Tell => Chat.Tell(w, h, me, args[0], args[1])
      case Shutdown => Chat.Shutdown(w, h)
      case Emote => Chat.Emote(w, h, me, args[0])
      case Ooc => Chat.Ooc(w, h, me, args[0]), h, env)
  }

  /** The commands on the items a character carries or sees. */
  function Handled(w: World, h: Handle, me: int, c: ClientCommand, args: seq<string>, env: Env): (r: Run)
    requires Actor(w, h, me) && EnvOk(env) && |args| == ClientEntry(c).arity
    requires c in {Grab, Drop, Use, Equip, Unequip, Inspect}
    decreases 1, 2, 0
  {
    Follow(match c
      case Grab => Items.Grab(w, h, me, args[0])
      case Drop => Items.Drop(w, h, me, args[0])
      case Use => Items.Use(w, h, me, args[0])
      case Equip => Items.Equip(w, h, me, args[0])
      case Unequip => Items.Unequip(w, h, me, args[0])
      case Inspect => Items.Inspect(w, h, me, args[0]), h, env)
  }

  /** The commands that deal with merchants and with other players. */
  function Dealt(w: World, h: Handle, me: int, c: ClientCommand, args: seq<string>, env: Env): (r: Run)
    requires Actor(w, h, me) && EnvOk(env) && |args| == ClientEntry(c).arity
    requires c in {Buy, Sell, Talk, Trade}
    decreases 1, 2, 0
  {
    Follow(match c
      case Buy => Merchant.Buy(w, h, me, args[0], args[1])
      case Sell => Merchant.Sell(w, h, me, args[0], args[1])
      case Talk => Merchant.Talk(w, h, me, args[0])
      case Trade => Trade.Trade(w, h, me, args[0], args[1]), h, env)
  }

  /** Moving, unlocking, attacking and quitting. */
  function Acted(w: World, h: Handle, me: int, c: ClientCommand, args: seq<string>, env: Env): (r: Run)
    requires Actor(w, h, me) && EnvOk(env) && |args| == ClientEntry(c).arity
    requires c in {Move, Unlock, Attack, Quit}
    ensures c == Quit ==> r == Run(Sessions.Disconnect(w, h), false)
    decreases 1, 2, 0
  {
    Follow(match c
      case Move => Movement.Move(w, h, me, args[0])
      case Unlock => Movement.Unlock(w, h, me, args[0])
      case Attack => Combat.Attack(w, h, me, args[0], env)
      case Quit => Finish(Sessions.Disconnect(w, h)), h, env)
  }

  /**
   * The handler of a command and what it asks for afterwards; a walk
   * issues "move <direction>".
   */
  function Perform(w: World, h: Handle, me: int, c: ClientCommand, args: seq<string>, env: Env): (r: Run)
    requires Actor(w, h, me) && EnvOk(env) && |args| == ClientEntry(c).arity
    ensures c == Quit ==> r == Run(Sessions.Disconnect(w, h), false)
    decreases Rank(c), 3, 0
  {
    match c
    case Look | Inventory => Viewed(w, h, me, c)
    case North | East | South | West =>
      var dir := DirectionName(Walk(c).value);
      Reenter(w, h, Move, [dir], "move " + dir, env)
    case Commands | Say | Who | Tell | Shutdown | Emote | Ooc => Talked(w, h, me, c, args, env)
    case Grab | Drop | Use | Equip | Unequip | Inspect => Handled(w, h, me, c, args, env)
    case Buy | Sell | Talk | Trade => Dealt(w, h, me, c, args, env)
    case Move | Unlock | Attack | Quit => Acted(w, h, me, c, args, env)
  }

  /** The handler run under the character's row, as executeCommand calls it. */
  function Performed(w: World, h: Handle, me: int, c: ClientCommand, args: seq<string>, env: Env): (r: Run)
    requires Actor(w, h, me) && EnvOk(env) && |args| == ClientEntry(c).arity
    ensures c == Quit ==> r == Run(Sessions.Disconnect(w, h), false)
    decreases Rank(c), 3, 1
  {
    Perform(w, h, me, c, args, env)
  }

  /**
   * A command issued from inside another: executeCommand on that client
   * again, which first reloads its character and throws without one.
   */
  function Reenter(w: World, h: Handle, c: ClientCommand, args: seq<string>, whole: string, env: Env): (r: Run)
    requires EnvOk(env) && |args| == ClientEntry(c).arity
    ensures !(h in w.sessions && w.sessions[h].character.Some?) ==> r == Run(w, true)
    decreases Rank(c), 5, 0
  {
    if h in w.sessions && w.sessions[h].character.Some? then Execute(w, h, w.sessions[h].character.value, c, args, whole, env)
    else Run(w, true)
  }

  /** `inventory` executed for each client in turn, stopping at the first that throws. */
  function InventoryEach(w: World, hs: seq<Handle>, env: Env): (r: Run)
    requires EnvOk(env)
    decreases 0, 6, |hs|
  {
    if |hs| == 0 then Run(w, false)
    else
      var r1 := Reenter(w, hs[0], Inventory, [], "inventory", env);
      if r1.crashed then r1 else InventoryEach(r1.w, hs[1..], env)
  }

  /** The end of executeCommand: the refresh, unless the handler threw or the command was `quit`. */
  function Conclude(done: Run, h: Handle, me: int, c: ClientCommand): (r: Run)
    ensures done.crashed || c == Quit ==> r == done
    ensures !done.crashed && c != Quit ==> r == Refresh(done.w, h, me)
    ensures !r.crashed && c != Quit ==>
      me in r.w.characters && |r.w.outbox| >= 3 && r.w.outbox[|r.w.outbox| - 3..] == Refreshed(h, r.w.characters[me])
  {
    if done.crashed || c == Quit then done
    else
      var r := Refresh(done.w, h, me);
      assert !r.crashed ==> r.w.outbox[|r.w.outbox| - 3..] == Refreshed(h, done.w.characters[me]);
      r
  }

  /**
   * A recognised command with its arguments: logged under the character's
   * name, run, and (unless it is `quit`) followed by the refresh. Without a
   * row the name logs as "null" and the handler throws at once.
   */
  function Execute(w: World, h: Handle, me: int, c: ClientCommand, args: seq<string>, whole: string, env: Env): (r: Run)
    requires h in w.sessions && w.sessions[h].character == Some(me)
    requires EnvOk(env) && |args| == ClientEntry(c).arity
    ensures me !in w.characters ==> r == Run(AddLog(w, Executed("null", whole)), true)
    ensures !r.crashed && c != Quit ==>
      me in r.w.characters && |r.w.outbox| >= 3 && r.w.outbox[|r.w.outbox| - 3..] == Refreshed(h, r.w.characters[me])
    decreases Rank(c), 4, 0
  {
    match CharacterOf(w, me)
    case None => Run(AddLog(w, Executed("null", whole)), true)
    case Some(row) => Conclude(Performed(AddLog(w, Executed(row.name, whole)), h, me, c, args, env), h, me, c)
  }

  /** `quit` logs the line, disconnects, and sends nothing after the departure notices. */
  lemma QuitSkipsRefresh(w: World, h: Handle, me: int, whole: string, env: Env)
    requires Actor(w, h, me) && EnvOk(env)
    ensures Execute(w, h, me, Quit, [], whole, env)
      == Run(Sessions.Disconnect(AddLog(w, Executed(w.characters[me].name, whole)), h), false)
  {
  }

  /**
   * executeCommand on a typed line. Without a character the reload throws.
   * A first word that names no command gets the "not recognized" notice
   * and the refresh; arguments that cannot be cut get the syntax notice and
   * nothing else: no handler runs and nothing is logged.
   */
  function ExecuteLine(w: World, h: Handle, whole: string, env: Env): (r: Run)
    requires h in w.sessions && EnvOk(env)
    ensures w.sessions[h].character.None? ==> r == Run(w, true)
    ensures w.sessions[h].character.Some? ==>
      var me := w.sessions[h].character.value;
      match ParseClient(whole)
      case Unrecognized => r == Refresh(Send(w, h, Display(NotRecognized)), h, me)
      case BadSyntax(_) => !r.crashed && OnlySent(w, r.w) && Sent(w, r.w) == [Delivery(h, Display(AdhereToSyntax))]
      case Parsed(c, args) => r == Execute(w, h, me, c, args, whole, env)
  {
    match w.sessions[h].character
    case None => Run(w, true)
    case Some(me) =>
      match ParseClient(whole)
      case Unrecognized => Refresh(Send(w, h, Display(NotRecognized)), h, me)
      case BadSyntax(_) => Run(Send(w, h, Display(AdhereToSyntax)), false)
      case Parsed(c, args) => Execute(w, h, me, c, args, whole, env)
  }

  // ------------------------------------------------- lines issued internally

  /** A line whose first word names exactly one command, and whose rest cuts into `args`, reads back as it. */
  lemma ParsesAs(whole: string, c: ClientCommand, args: seq<string>)
    requires forall k :: Matches(ClientEntry(k), SplitLine(whole).word) <==> k == c
    requires ExtractArguments(SplitLine(whole).rest, ClientEntry(c).arity) == Some(args)
    ensures ParseClient(whole) == Parsed(c, args)
  {
    assert c in ClientOrder;
    ParseUnique(ClientOrder, ClientEntry, whole, c, args);
  }

  lemma OnlyLookIsLook()
    ensures forall k :: Matches(ClientEntry(k), "look") <==> k == Look
  {
  }

  lemma OnlyInventoryIsInventory()
    ensures forall k :: Matches(ClientEntry(k), "inventory") <==> k == Inventory
  {
  }

  lemma OnlyMoveIsMove()
    ensures forall k :: Matches(ClientEntry(k), "move") <==> k == Move
  {
  }

  /** The line a handler issues reads back as the command it stands for. */
  lemma LookLineParses()
    ensures ParseClient("look") == Parsed(Look, [])
  {
    assert ' ' !in "look";
    assert Trim("look") == "look";
    OnlyLookIsLook();
    ParsesAs("look", Look, []);
  }

  lemma InventoryLineParses()
    ensures ParseClient("inventory") == Parsed(Inventory, [])
  {
    assert ' ' !in "inventory";
    assert Trim("inventory") == "inventory";
    OnlyInventoryIsInventory();
    ParsesAs("inventory", Inventory, []);
  }

  /** "move " and one trimmed word without spaces reads back as `move` with that word. */
  lemma MoveWordParses(dir: string)
    requires Trimmed(dir) && ' ' !in dir
    ensures ParseClient("move " + dir) == Parsed(Move, [dir])
  {
    var line := "move " + dir;
    assert line == "move" + [' '] + dir;
    IndexOfAfter("move", ' ', dir);
    assert line[..4] == "move" && line[4..] == " " + dir;
    TrimAfterSpace(dir);
    assert SplitLine(line) == Split("move", dir);
    TrimTrimmed(dir);
    OnlyMoveIsMove();
    ParsesAs(line, Move, [dir]);
  }

  /** "move <direction>", as a walk issues it, reads back as `move` with the direction. */
  lemma MoveLineParses(d: Direction)
    ensures ParseClient("move " + DirectionName(d)) == Parsed(Move, [DirectionName(d)])
  {
    var dir := DirectionName(d);
    assert Trimmed(dir) && ' ' !in dir;
    MoveWordParses(dir);
  }

  /** A walk is exactly a `move` in its direction, logged under both lines, and refreshed twice. */
  lemma WalkIsMove(w: World, h: Handle, me: int, c: ClientCommand, env: Env)
    requires Actor(w, h, me) && EnvOk(env) && Walk(c).Some?
    ensures var dir := DirectionName(Walk(c).value);
      Perform(w, h, me, c, [], env) == Execute(w, h, me, Move, [dir], "move " + dir, env)
  {
  }

  // ---------------------------------------------------------- message loop

  /**
   * One message a client sends, as the ClientHandler's loop handles it:
   * every message type is accepted in every state. Selecting a character is
   * followed by a `look` and the statistics.
   */
  function Outcome(w: World, h: Handle, req: Protocol.Request, env: Env, start: CharacterRow): (r: Run)
    requires h in w.sessions && EnvOk(env)
  {
    match req
    case LoginRequest(username, password) => Run(Sessions.Login(w, h, username, password), false)
    case CreateUserRequest(username, password, name) => Run(Sessions.CreateUser(w, h, username, password, name), false)
    case SelectCharacterRequest(name) =>
      var chosen := Sessions.SelectCharacter(w, h, name);
      if chosen.crashed then chosen
      else
        var looked := ExecuteLine(chosen.w, h, "look", env);
        if looked.crashed then looked
        else SendStats(looked.w, h, IdOf(w.characterIds, name))
    case CreateCharacterRequest(name, classType, owner) => Sessions.CreateCharacter(w, h, name, classType, owner, start)
    case CommandRequest(line) => ExecuteLine(w, h, line, env)
    case QuitRequest => Run(Sessions.Disconnect(w, h), false)
  }

  /**
   * The loop body: a session whose thread has ended reads nothing more; a
   * handler that throws ends the thread, and its client stays registered.
   */
  function Serve(w: World, h: Handle, req: Protocol.Request, env: Env, start: CharacterRow): (w': World)
    requires h in w.sessions && EnvOk(env)
    ensures !w.sessions[h].alive ==> w' == w
    ensures w.sessions[h].alive && !Outcome(w, h, req, env, start).crashed ==> w' == Outcome(w, h, req, env, start).w
    ensures w.sessions[h].alive && Outcome(w, h, req, env, start).crashed ==>
      var o := Outcome(w, h, req, env, start).w;
      w'.registry == o.registry && w'.outbox == o.outbox && w'.log == o.log
      && (h in o.sessions ==> w'.sessions == o.sessions[h := o.sessions[h].(alive := false)])
  {
    if !w.sessions[h].alive then w
    else
      var r := Outcome(w, h, req, env, start);
      if r.crashed && h in r.w.sessions then PutSession(r.w, h, r.w.sessions[h].(alive := false))
      else r.w
  }
}
